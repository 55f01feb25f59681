/** The upload filter of the `/predict` endpoint: a file is accepted by the
    lower-cased extension `os.path.splitext` finds in its name. The server runs
    on POSIX, so `/` is the only path separator. */
module Upload {
  import opened Text

  /** The accepted container extensions, in the order the error message lists them. */
  const AllowedExtensions: seq<string> := [".mp4", ".mov", ".avi", ".mkv"]

  /** The detail of the 400 response for any other extension. */
  function UnsupportedDetail(): string
  {
    "Formato no soportado. Use: " + Join(", ", AllowedExtensions)
  }

  /** Python `s.rfind(c)`: the last index holding `c`, or -1. */
  function RFind(s: string, c: char): (i: int)
    ensures -1 <= i < |s|
    ensures i >= 0 ==> s[i] == c
    ensures forall j :: i < j < |s| ==> s[j] != c
    decreases |s|
  {
    if |s| == 0 then -1
    else if s[|s| - 1] == c then |s| - 1
    else RFind(s[..|s| - 1], c)
  }

  /** Every character of `s` is a dot: the leading-dot scan of `splitext`
      reaches the extension's dot. */
  predicate AllDots(s: string)
    decreases |s|
  {
    |s| == 0 || (s[0] == '.' && AllDots(s[1..]))
  }

  lemma {:induction false} AllDotsIff(s: string)
    ensures AllDots(s) <==> forall i :: 0 <= i < |s| ==> s[i] == '.'
    decreases |s|
  {
    if |s| > 0 {
      AllDotsIff(s[1..]);
      assert forall i :: 1 <= i < |s| ==> s[i] == s[1..][i - 1];
    }
  }

  /** Python `posixpath.splitext(p)`: the extension starts at the last dot of
      the last path component, unless everything before that dot in the
      component is dots (a hidden file such as ".mp4" has no extension). */
  function SplitExt(p: string): (r: (string, string))
    ensures r.0 + r.1 == p
    ensures r.1 != "" <==> NamedGap(p, RFind(p, '/'), RFind(p, '.'))
    ensures r.1 != "" ==> r.1 == p[RFind(p, '.')..]
  {
    var sepIndex := RFind(p, '/');
    var dotIndex := RFind(p, '.');
    if dotIndex > sepIndex then
      GapHasNonDot(p, sepIndex, dotIndex);
      if !AllDots(p[sepIndex + 1..dotIndex]) then (p[..dotIndex], p[dotIndex..]) else (p, "")
    else (p, "")
  }

  /** Some character of `p` strictly between `lo` and `hi` is not a dot. */
  predicate NamedGap(p: string, lo: int, hi: int)
  {
    exists w :: lo < w < hi && 0 <= w < |p| && p[w] != '.'
  }

  /** The part of `p` strictly between two positions is not all dots exactly
      when some character there is not a dot. */
  lemma GapHasNonDot(p: string, lo: int, hi: int)
    requires -1 <= lo < hi <= |p|
    ensures !AllDots(p[lo + 1..hi]) <==> NamedGap(p, lo, hi)
  {
    var gap := p[lo + 1..hi];
    AllDotsIff(gap);
    assert forall w :: lo < w < hi ==> p[w] == gap[w - lo - 1];
  }

  /** A non-empty extension is a dot followed by neither dots nor separators. */
  lemma SplitExtShape(p: string)
    ensures SplitExt(p).1 == "" || IsExtension(SplitExt(p).1)
  {
    var sepIndex := RFind(p, '/');
    var dotIndex := RFind(p, '.');
    if SplitExt(p).1 != "" {
      TailAfterLastDot(p, dotIndex, sepIndex);
    }
  }

  lemma TailAfterLastDot(p: string, dotIndex: int, sepIndex: int)
    requires -1 <= sepIndex < dotIndex < |p|
    requires p[dotIndex] == '.'
    requires forall j :: dotIndex < j < |p| ==> p[j] != '.'
    requires forall j :: sepIndex < j < |p| ==> p[j] != '/'
    ensures IsExtension(p[dotIndex..])
  {
    var ext := p[dotIndex..];
    assert forall j :: 0 <= j < |ext| ==> ext[j] == p[dotIndex + j];
  }

  /** A dot followed by characters that are neither dots nor separators. */
  predicate IsExtension(ext: string)
  {
    |ext| >= 1 && ext[0] == '.'
    && forall j :: 0 <= j < |ext| ==> ext[j] != '/' && (j == 0 || ext[j] != '.')
  }

  /** The extension test of `predecir_video_endpoint`. */
  predicate Accepted(filename: string)
  {
    Lower(SplitExt(filename).1) in AllowedExtensions
  }

  /** The last path component of `stem` has a character that is not a dot. */
  predicate NamedStem(stem: string)
  {
    exists i :: 0 <= i < |stem| && stem[i] != '.' && stem[i] != '/'
                && forall j :: i < j < |stem| ==> stem[j] != '/'
  }

  lemma LowerCharOfSeparator(ch: char)
    ensures LowerChar(ch) == '.' <==> ch == '.'
    ensures LowerChar(ch) == '/' <==> ch == '/'
  {
  }

  /** Each allowed extension is a dot and three characters that are neither
      dots nor separators. */
  lemma AllowedShape(e: string)
    requires e in AllowedExtensions
    ensures |e| == 4 && e[0] == '.'
    ensures forall k :: 1 <= k < 4 ==> e[k] != '.' && e[k] != '/'
  {
  }

  lemma RFindAt(s: string, c: char, i: int)
    requires 0 <= i < |s| && s[i] == c
    requires forall j :: i < j < |s| ==> s[j] != c
    ensures RFind(s, c) == i
  {
  }

  lemma RFindBefore(s: string, c: char, w: int)
    requires 0 <= w < |s| && s[w] != c
    requires forall j :: w < j < |s| ==> s[j] != c
    ensures RFind(s, c) < w
  {
  }

  /** A non-empty extension starts at the last dot, which lies after the last
      separator with some non-dot character between them. */
  lemma SplitExtCut(p: string)
    requires SplitExt(p).1 != ""
    ensures RFind(p, '/') < RFind(p, '.')
    ensures !AllDots(p[RFind(p, '/') + 1..RFind(p, '.')])
    ensures SplitExt(p).1 == p[RFind(p, '.')..]
  {
  }

  /** A non-dot character after the last separator names the stem before `d`. */
  lemma GapNamesStem(p: string, sepIndex: int, d: int)
    requires -1 <= sepIndex < d <= |p|
    requires forall j :: sepIndex < j < |p| ==> p[j] != '/'
    requires !AllDots(p[sepIndex + 1..d])
    ensures NamedStem(p[..d])
  {
    var gap := p[sepIndex + 1..d];
    AllDotsIff(gap);
    var i :| 0 <= i < |gap| && gap[i] != '.';
    var w := sepIndex + 1 + i;
    var stem := p[..d];
    assert stem[w] == gap[i];
    assert forall j :: w < j < |stem| ==> stem[j] == p[j];
  }

  /** An accepted name ends in an allowed extension after a named stem. */
  lemma AcceptedHasSuffix(filename: string)
    requires Accepted(filename)
    ensures |filename| >= 4
    ensures Lower(filename[|filename| - 4..]) in AllowedExtensions
    ensures NamedStem(filename[..|filename| - 4])
  {
    var ext := SplitExt(filename).1;
    AllowedShape(Lower(ext));
    SplitExtCut(filename);
    var dotIndex := RFind(filename, '.');
    assert dotIndex == |filename| - 4;
    GapNamesStem(filename, RFind(filename, '/'), dotIndex);
  }

  /** The last four characters of a name whose lowered tail is allowed are a
      dot and three characters that are neither dots nor separators. */
  lemma AllowedTail(filename: string)
    requires |filename| >= 4
    requires Lower(filename[|filename| - 4..]) in AllowedExtensions
    ensures filename[|filename| - 4] == '.'
    ensures forall j :: |filename| - 4 < j < |filename| ==> filename[j] != '.' && filename[j] != '/'
  {
    var n := |filename|;
    var ext := filename[n - 4..];
    AllowedShape(Lower(ext));
    forall k | 0 <= k < 4
      ensures (k == 0 <==> ext[k] == '.') && ext[k] != '/'
    {
      LowerCharOfSeparator(ext[k]);
    }
    forall j | n - 4 <= j < n
      ensures filename[j] == ext[j - (n - 4)]
    {
    }
  }

  /** `splitext` cuts at the last dot when a non-dot character lies between
      the last separator and that dot. */
  lemma SplitExtAt(p: string, w: int)
    requires -1 <= RFind(p, '/') < w < RFind(p, '.')
    requires p[w] != '.'
    ensures SplitExt(p).1 == p[RFind(p, '.')..]
  {
    var sepIndex := RFind(p, '/');
    var dotIndex := RFind(p, '.');
    var gap := p[sepIndex + 1..dotIndex];
    assert gap[w - sepIndex - 1] == p[w];
    AllDotsIff(gap);
  }

  /** A name ending in an allowed extension after a named stem is accepted. */
  lemma SuffixAccepted(filename: string)
    requires |filename| >= 4
    requires Lower(filename[|filename| - 4..]) in AllowedExtensions
    requires NamedStem(filename[..|filename| - 4])
    ensures Accepted(filename)
  {
    var n := |filename|;
    AllowedTail(filename);
    RFindAt(filename, '.', n - 4);
    var stem := filename[..n - 4];
    var w :| 0 <= w < |stem| && stem[w] != '.' && stem[w] != '/'
             && forall j :: w < j < |stem| ==> stem[j] != '/';
    assert forall j :: w < j < n ==> filename[j] != '/';
    RFindBefore(filename, '/', w);
    SplitExtAt(filename, w);
  }

  /** An upload is accepted exactly when its name ends, ignoring case, in one
      of the four extensions, and the part before it names a file rather than
      a directory or a dot-file. */
  lemma AcceptedIff(filename: string)
    ensures Accepted(filename) <==>
              |filename| >= 4
              && Lower(filename[|filename| - 4..]) in AllowedExtensions
              && NamedStem(filename[..|filename| - 4])
  {
    if Accepted(filename) {
      AcceptedHasSuffix(filename);
    }
    if |filename| >= 4 && Lower(filename[|filename| - 4..]) in AllowedExtensions
       && NamedStem(filename[..|filename| - 4]) {
      SuffixAccepted(filename);
    }
  }
}
