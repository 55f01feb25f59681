/** String built-ins of Python and JavaScript used by the backend and the client.
    A string is a sequence of Unicode code points; each function follows the
    built-in named in its comment. */
module Text {

  // ---------------------------------------------------------------------------
  // Joining and splitting
  // ---------------------------------------------------------------------------

  /** Python `sep.join(parts)`. */
  function Join(sep: string, parts: seq<string>): string
    decreases |parts|
  {
    if |parts| == 0 then ""
    else if |parts| == 1 then parts[0]
    else parts[0] + sep + Join(sep, parts[1..])
  }

  /** Python `s.split(c)` with a one-character separator: every separator ends a
      field, empty fields are kept, and the result is never empty. */
  function Split(c: char, s: string): (fields: seq<string>)
    ensures |fields| >= 1
    ensures |fields| == 1 + Occurrences(c, s)
    decreases |s|
  {
    if |s| == 0 then [""]
    else
      var rest := Split(c, s[1..]);
      if s[0] == c then [""] + rest
      else [[s[0]] + rest[0]] + rest[1..]
  }

  /** Number of occurrences of `c` in `s`. */
  function Occurrences(c: char, s: string): nat
    decreases |s|
  {
    if |s| == 0 then 0 else (if s[0] == c then 1 else 0) + Occurrences(c, s[1..])
  }

  lemma {:induction false} SplitWithoutSeparator(c: char, w: string)
    requires c !in w
    ensures Split(c, w) == [w]
    decreases |w|
  {
    if |w| > 0 {
      SplitWithoutSeparator(c, w[1..]);
      assert [w[0]] + w[1..] == w;
    }
  }

  lemma {:induction false} SplitAfterField(c: char, w: string, t: string)
    requires c !in w
    ensures Split(c, w + [c] + t) == [w] + Split(c, t)
    decreases |w|
  {
    var s := w + [c] + t;
    if |w| == 0 {
      assert s == [c] + t;
      assert s[1..] == t;
    } else {
      assert s[1..] == w[1..] + [c] + t;
      SplitAfterField(c, w[1..], t);
      assert [w[0]] + w[1..] == w;
    }
  }

  /** Joining fields that do not contain the separator and splitting the result
      again gives the fields back. */
  lemma {:induction false} SplitJoin(c: char, fields: seq<string>)
    requires |fields| >= 1
    requires forall i :: 0 <= i < |fields| ==> c !in fields[i]
    ensures Split(c, Join([c], fields)) == fields
    decreases |fields|
  {
    if |fields| == 1 {
      SplitWithoutSeparator(c, fields[0]);
    } else {
      SplitAfterField(c, fields[0], Join([c], fields[1..]));
      SplitJoin(c, fields[1..]);
      assert fields == [fields[0]] + fields[1..];
    }
  }

  // ---------------------------------------------------------------------------
  // Case mapping
  // ---------------------------------------------------------------------------

  /** Python `str.lower()` on one character, for the characters it maps into
      ASCII: 'A'..'Z', and KELVIN SIGN (U+212A), which lowers to 'k'. Every
      other character is returned unchanged. */
  function LowerChar(ch: char): char
  {
    if 'A' <= ch <= 'Z' then (ch as int + 32) as char
    else if ch == '\U{212A}' then 'k'
    else ch
  }

  /** Python `s.lower()`, character by character through `LowerChar`: no
      ASCII capital and no Kelvin sign survives, a capital becomes the letter
      32 code points above it, and nothing else changes. */
  function Lower(s: string): (r: string)
    ensures |r| == |s|
    ensures forall i :: 0 <= i < |r| ==> !('A' <= r[i] <= 'Z') && r[i] != '\U{212A}'
    ensures forall i :: 0 <= i < |s| && 'A' <= s[i] <= 'Z' ==> r[i] as int == s[i] as int + 32
    ensures forall i :: 0 <= i < |s| && !('A' <= s[i] <= 'Z') && s[i] != '\U{212A}' ==> r[i] == s[i]
  {
    seq(|s|, i requires 0 <= i < |s| => LowerChar(s[i]))
  }

  /** Lower-casing twice is lower-casing once. */
  lemma LowerIdempotent(s: string)
    ensures Lower(Lower(s)) == Lower(s)
  {
    var r := Lower(s);
    assert forall i :: 0 <= i < |r| ==> Lower(r)[i] == r[i];
  }

  /** Python `str.upper()` on one character, for ASCII and the Latin-1 letters
      that upper-case to a single Latin-1 letter ('a'..'z', U+00E0..U+00FE
      except U+00F7). Every other character is returned unchanged. */
  function UpperChar(ch: char): char
  {
    if SmallLetter(ch) then (ch as int - 32) as char
    else ch
  }

  /** A small letter `UpperChar` raises. */
  predicate SmallLetter(ch: char)
  {
    'a' <= ch <= 'z' || ('\U{E0}' <= ch <= '\U{FE}' && ch != '\U{F7}')
  }

  /** Python `s.upper()`, character by character through `UpperChar`: no
      raised small letter survives, each becomes the letter 32 code points
      below it, and everything else, spaces included, is kept. */
  function Upper(s: string): (r: string)
    ensures |r| == |s|
    ensures forall i :: 0 <= i < |r| ==> !SmallLetter(r[i])
    ensures forall i :: 0 <= i < |s| && SmallLetter(s[i]) ==> r[i] as int == s[i] as int - 32
    ensures forall i :: 0 <= i < |s| && !SmallLetter(s[i]) ==> r[i] == s[i]
  {
    seq(|s|, i requires 0 <= i < |s| => UpperChar(s[i]))
  }

  /** Upper-casing twice is upper-casing once. */
  lemma UpperIdempotent(s: string)
    ensures Upper(Upper(s)) == Upper(s)
  {
    var r := Upper(s);
    assert forall i :: 0 <= i < |r| ==> Upper(r)[i] == r[i];
  }

  // ---------------------------------------------------------------------------
  // Ordering
  // ---------------------------------------------------------------------------

  /** Python `a <= b` on `str`: lexicographic by code point, a proper prefix
      ordering before its extensions. */
  predicate LessEq(a: string, b: string)
    decreases |a|
  {
    |a| == 0 || (|b| > 0 && (a[0] < b[0] || (a[0] == b[0] && LessEq(a[1..], b[1..]))))
  }

  lemma {:induction false} LessEqReflexive(a: string)
    ensures LessEq(a, a)
    decreases |a|
  {
    if |a| > 0 {
      LessEqReflexive(a[1..]);
    }
  }

  lemma {:induction false} LessEqTotal(a: string, b: string)
    ensures LessEq(a, b) || LessEq(b, a)
    decreases |a|
  {
    if |a| > 0 && |b| > 0 && a[0] == b[0] {
      LessEqTotal(a[1..], b[1..]);
    }
  }

  lemma {:induction false} LessEqTransitive(a: string, b: string, c: string)
    requires LessEq(a, b) && LessEq(b, c)
    ensures LessEq(a, c)
    decreases |a|
  {
    if |a| > 0 && a[0] == b[0] && b[0] == c[0] {
      LessEqTransitive(a[1..], b[1..], c[1..]);
    }
  }

  lemma {:induction false} LessEqAntisymmetric(a: string, b: string)
    requires LessEq(a, b) && LessEq(b, a)
    ensures a == b
    decreases |a|
  {
    if |a| > 0 {
      LessEqAntisymmetric(a[1..], b[1..]);
      assert a == [a[0]] + a[1..] && b == [b[0]] + b[1..];
    }
  }

  // ---------------------------------------------------------------------------
  // Decimal rendering
  // ---------------------------------------------------------------------------

  function DigitChar(d: nat): char
    requires d < 10
  {
    ('0' as int + d) as char
  }

  predicate IsDigit(ch: char)
  {
    '0' <= ch <= '9'
  }

  /** JavaScript `String(n)` (or `${n}`) for a non-negative integer. */
  function Decimal(n: nat): (s: string)
    ensures |s| >= 1
    ensures forall i :: 0 <= i < |s| ==> IsDigit(s[i])
    ensures s[0] == '0' ==> n == 0
    decreases n
  {
    if n < 10 then [DigitChar(n)] else Decimal(n / 10) + [DigitChar(n % 10)]
  }

  /** The value of a string of decimal digits, most significant first. */
  function ParseDecimal(s: string): nat
    requires forall i :: 0 <= i < |s| ==> IsDigit(s[i])
    decreases |s|
  {
    if |s| == 0 then 0
    else ParseDecimal(s[..|s| - 1]) * 10 + DigitValue(s[|s| - 1])
  }

  function DigitValue(ch: char): nat
    requires IsDigit(ch)
  {
    ch as int - '0' as int
  }

  /** Reading back the decimal rendering of `n` gives `n`. */
  lemma {:induction false} ParseDecimalOfDecimal(n: nat)
    ensures ParseDecimal(Decimal(n)) == n
    decreases n
  {
    var s := Decimal(n);
    if n >= 10 {
      ParseDecimalOfDecimal(n / 10);
      assert s[..|s| - 1] == Decimal(n / 10);
    }
  }
}
