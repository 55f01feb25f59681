/** The request handlers of the FastAPI backend: `/predict`, `/predict-sequence`
    with its phrase generation, and `/palabras-disponibles`.

    Model loading, the temporary files, the video decoder, the hand detector,
    the classifier and the T5 generator are not modelled: what each of them
    returns or raises for a given upload is an input. */
module Backend {
  import opened Wrappers
  import opened Text
  import opened Keypoints
  import Upload
  import Sorting

  /** A JSON body, or the status and detail of an `HTTPException`. */
  datatype HttpResult<+T> = Body(value: T) | HttpError(status: int, detail: string)

  function ModelsNotLoaded(): string { "Modelos no cargados" }

  function NoVideosSent(): string { "No se enviaron videos" }

  /** The detail of a 500 from `/predict`: the caught exception's text after a prefix. */
  function ProcessingError(message: string): string
  {
    "Error procesando video: " + message
  }

  /** What processing one uploaded video yields: the decoder's reported frame
      count, the detector's output per readable frame and the classifier's
      verdict on the keypoints; or the exception raised while decoding or
      detecting. */
  datatype Video =
    | Decoded(totalFrames: int, detections: seq<Detection>, classification: Classification)
    | DecodingRaised(error: Exception)
  {
    /** Processing reached a verdict without any exception. */
    predicate Succeeds()
    {
      Decoded? && classification.Classified?
    }

    /** The exception processing raised. */
    function Failure(): Exception
      requires !Succeeds()
    {
      if DecodingRaised? then error else classification.error
    }
  }

  // ---------------------------------------------------------------------------
  // POST /predict
  // ---------------------------------------------------------------------------

  /** The body of a successful `/predict`; `success` is always true. */
  datatype WordPrediction = WordPrediction(success: bool, palabra: string, confianza: real, framesProcesados: nat)

  /** `predecir_video_endpoint`: 503 without a model, 400 for a file name
      outside the whitelist, then the prediction; a ValueError raised while
      processing becomes a 400 with its text, any other exception a 500. */
  function PredictVideo(modelLoaded: bool, filename: string, video: Video): (r: HttpResult<WordPrediction>)
    ensures !modelLoaded ==> r == HttpError(503, ModelsNotLoaded())
    ensures modelLoaded && !Upload.Accepted(filename) ==> r == HttpError(400, Upload.UnsupportedDetail())
    ensures r.Body? <==> modelLoaded && Upload.Accepted(filename) && video.Succeeds()
    ensures r.Body? ==>
              r.value == WordPrediction(true, video.classification.word, video.classification.confidence, SequenceLength)
    ensures modelLoaded && Upload.Accepted(filename) && !video.Succeeds() && video.Failure().ValueError? ==>
              r == HttpError(400, video.Failure().message)
    ensures modelLoaded && Upload.Accepted(filename) && !video.Succeeds() && video.Failure().OtherException? ==>
              r == HttpError(500, ProcessingError(video.Failure().message))
  {
    if !modelLoaded then HttpError(503, ModelsNotLoaded())
    else if !Upload.Accepted(filename) then HttpError(400, Upload.UnsupportedDetail())
    else match video
      case DecodingRaised(error) => Caught(error)
      case Decoded(totalFrames, detections, classification) =>
        var kp := ExtractKeypoints(totalFrames, detections);
        ExtractionPassesShapeCheck(totalFrames, detections, classification);
        if |kp| == 0 then
          // The 400 raised for an empty extraction is inside the try block, so
          // the generic handler turns it into a 500 ("400: <detail>" is its text).
          HttpError(500, ProcessingError("400: No se detectaron keypoints en el video"))
        else match PredictWord(kp, classification)
          case Ok(verdict) => Body(WordPrediction(true, verdict.0, verdict.1, |kp|))
          case Err(error) => Caught(error)
  }

  /** The two `except` clauses of `/predict`. */
  function Caught(error: Exception): HttpResult<WordPrediction>
  {
    match error
    case ValueError(message) => HttpError(400, message)
    case OtherException(message) => HttpError(500, ProcessingError(message))
  }

  /** The 400 answers of `/predict` are the whitelist rejection and a
      ValueError from processing; a request that reaches processing never
      gets the whitelist's detail unless the exception carries that text. */
  lemma PredictVideoBadRequest(modelLoaded: bool, filename: string, video: Video)
    ensures PredictVideo(modelLoaded, filename, video).HttpError?
            && PredictVideo(modelLoaded, filename, video).status == 400
            <==> modelLoaded
                 && (!Upload.Accepted(filename) || (!video.Succeeds() && video.Failure().ValueError?))
  {
  }

  // ---------------------------------------------------------------------------
  // POST /predict-sequence
  // ---------------------------------------------------------------------------

  datatype SequenceFile = SequenceFile(filename: string, video: Video)

  /** One entry of `detalles`: a classified video, or the exception text. */
  datatype Detail =
    | Scored(posicion: int, archivo: string, palabra: string, confianza: real, aceptada: bool)
    | Failed(posicion: int, archivo: string, error: string)
  {
    predicate IsAccepted()
    {
      Scored? && aceptada
    }
  }

  /** The `umbral_confianza` query parameter: a Python float, which the
      query parser also accepts as "nan", "inf" or "-inf". A finite one is
      the exact value of its double. */
  datatype Threshold = Finite(value: real) | NotANumber | PlusInfinity | MinusInfinity

  /** The threshold when the query leaves it out. */
  const DefaultThreshold: Threshold := Finite(Float64OfPointSeven)

  /** The exact value of the double the literal `0.7` denotes: the nearest
      binary64 number to 7/10, just below it. */
  const Float64OfPointSeven: real := 0.6999999999999999555910790149937383830547332763671875

  /** The default lies strictly below 7/10, so a confidence between the two
      is accepted by default, as Python accepts it. */
  lemma DefaultBelowSevenTenths(confidence: real)
    requires Float64OfPointSeven <= confidence < 7.0 / 10.0
    ensures Reaches(confidence, DefaultThreshold)
    ensures DefaultThreshold.value < 7.0 / 10.0
  {
  }

  /** Python `confianza >= umbral` for a finite confidence: every comparison
      with NaN is false, nothing finite reaches +inf, everything reaches -inf. */
  predicate Reaches(confidence: real, umbral: Threshold)
  {
    match umbral
    case Finite(t) => confidence >= t
    case NotANumber => false
    case PlusInfinity => false
    case MinusInfinity => true
  }

  /** The detail recorded for the file at `index` (the loop body). */
  function ProcessFile(index: nat, file: SequenceFile, umbral: Threshold): (d: Detail)
    ensures d.posicion == index + 1 && d.archivo == file.filename
    ensures d.Scored? <==> file.video.Succeeds()
    ensures d.Scored? ==> d.palabra == file.video.classification.word
                          && d.confianza == file.video.classification.confidence
                          && (d.aceptada <==> Reaches(d.confianza, umbral))
    ensures d.Failed? ==> d.error == file.video.Failure().message
  {
    match file.video
    case DecodingRaised(error) => Failed(index + 1, file.filename, error.message)
    case Decoded(totalFrames, detections, classification) =>
      var kp := ExtractKeypoints(totalFrames, detections);
      ExtractionPassesShapeCheck(totalFrames, detections, classification);
      if |kp| > 0 then
        match PredictWord(kp, classification)
        case Ok(verdict) =>
          Scored(index + 1, file.filename, verdict.0, verdict.1, Reaches(verdict.1, umbral))
        case Err(e) => Failed(index + 1, file.filename, e.message)
      else
        Failed(index + 1, file.filename, "No se detectaron keypoints")
  }

  /** The words of the accepted details, in order. */
  function AcceptedWords(details: seq<Detail>): (words: seq<string>)
    ensures |words| <= |details|
    decreases |details|
  {
    if |details| == 0 then []
    else (if details[0].IsAccepted() then [details[0].palabra] else []) + AcceptedWords(details[1..])
  }

  lemma {:induction false} AcceptedWordsAppend(details: seq<Detail>, d: Detail)
    ensures AcceptedWords(details + [d])
            == AcceptedWords(details) + (if d.IsAccepted() then [d.palabra] else [])
    decreases |details|
  {
    if |details| > 0 {
      assert (details + [d])[1..] == details[1..] + [d];
      AcceptedWordsAppend(details[1..], d);
    }
  }

  /** The positions of the accepted details, in increasing order. */
  function AcceptedPositions(details: seq<Detail>): (ps: seq<nat>)
    ensures |ps| == |AcceptedWords(details)|
    ensures forall k :: 0 <= k < |ps| ==> ps[k] < |details|
    decreases |details|
  {
    if |details| == 0 then []
    else
      var rest := AcceptedPositions(details[1..]);
      var shifted := Shift(rest);
      if details[0].IsAccepted() then [0] + shifted else shifted
  }

  /** Positions in a list's tail, as positions in the whole list. */
  function Shift(ps: seq<nat>): (r: seq<nat>)
    ensures |r| == |ps|
    ensures forall k :: 0 <= k < |ps| ==> r[k] == ps[k] + 1
    decreases |ps|
  {
    if |ps| == 0 then [] else [ps[0] + 1] + Shift(ps[1..])
  }

  lemma {:induction false} AcceptedPositionsPick(details: seq<Detail>)
    ensures forall k :: 0 <= k < |AcceptedPositions(details)| ==>
              details[AcceptedPositions(details)[k]].IsAccepted()
              && AcceptedWords(details)[k] == details[AcceptedPositions(details)[k]].palabra
    decreases |details|
  {
    if |details| > 0 {
      var tail := details[1..];
      AcceptedPositionsPick(tail);
      var rest := AcceptedPositions(tail);
      var ps := AcceptedPositions(details);
      var words := AcceptedWords(details);
      var off := if details[0].IsAccepted() then 1 else 0;
      forall k | off <= k < |ps|
        ensures details[ps[k]].IsAccepted() && words[k] == details[ps[k]].palabra
      {
        assert ps[k] == rest[k - off] + 1;
        assert details[ps[k]] == tail[rest[k - off]];
        assert words[k] == AcceptedWords(tail)[k - off];
      }
    }
  }

  lemma {:induction false} AcceptedPositionsIncreasing(details: seq<Detail>)
    ensures forall k, l :: 0 <= k < l < |AcceptedPositions(details)| ==>
              AcceptedPositions(details)[k] < AcceptedPositions(details)[l]
    decreases |details|
  {
    if |details| > 0 {
      AcceptedPositionsIncreasing(details[1..]);
    }
  }

  lemma {:induction false} AcceptedPositionsComplete(details: seq<Detail>)
    ensures forall i :: 0 <= i < |details| && details[i].IsAccepted() ==> i in AcceptedPositions(details)
    decreases |details|
  {
    if |details| > 0 {
      var tail := details[1..];
      AcceptedPositionsComplete(tail);
      var rest := AcceptedPositions(tail);
      var shifted := Shift(rest);
      forall i | 1 <= i < |details| && details[i].IsAccepted()
        ensures i in shifted
      {
        assert tail[i - 1] == details[i];
        var k :| 0 <= k < |rest| && rest[k] == i - 1;
        assert shifted[k] == i;
      }
    }
  }

  /** `AcceptedWords` is the in-order subsequence of the accepted details'
      words: it is read off at strictly increasing positions, each of them an
      accepted detail, and every accepted detail is among them. */
  lemma AcceptedWordsSubsequence(details: seq<Detail>)
    ensures |AcceptedPositions(details)| == |AcceptedWords(details)|
    ensures forall k :: 0 <= k < |AcceptedPositions(details)| ==>
              AcceptedPositions(details)[k] < |details|
              && details[AcceptedPositions(details)[k]].IsAccepted()
              && AcceptedWords(details)[k] == details[AcceptedPositions(details)[k]].palabra
    ensures forall k, l :: 0 <= k < l < |AcceptedPositions(details)| ==>
              AcceptedPositions(details)[k] < AcceptedPositions(details)[l]
    ensures forall i :: 0 <= i < |details| && details[i].IsAccepted() ==> i in AcceptedPositions(details)
  {
    AcceptedPositionsPick(details);
    AcceptedPositionsIncreasing(details);
    AcceptedPositionsComplete(details);
  }

  /** The outcome of T5 generation for one prompt. */
  datatype Generation = Generated(text: string) | GenerationRaised(message: string)

  /** The fixed instruction prefix of every T5 prompt. */
  const GlossTaskPrefix: string := "translate gloss to text: "

  /** The T5 input for a list of glosses: upper-cased, space-separated, after
      the instruction prefix. */
  function GlossPrompt(palabras: seq<string>): string
  {
    GlossTaskPrefix + Join(" ", UpperAll(palabras))
  }

  function UpperAll(palabras: seq<string>): (r: seq<string>)
    ensures |r| == |palabras|
    ensures forall i :: 0 <= i < |r| ==> r[i] == Upper(palabras[i])
    decreases |palabras|
  {
    if |palabras| == 0 then [] else [Upper(palabras[0])] + UpperAll(palabras[1..])
  }

  /** After its prefix, the prompt splits at spaces into exactly the
      upper-cased glosses, one per accepted word, when no word contains a
      space. */
  lemma GlossPromptLists(palabras: seq<string>)
    requires |palabras| > 0
    requires forall i :: 0 <= i < |palabras| ==> ' ' !in palabras[i]
    ensures GlossTaskPrefix <= GlossPrompt(palabras)
    ensures Split(' ', GlossPrompt(palabras)[|GlossTaskPrefix|..]) == UpperAll(palabras)
  {
    var glosses := UpperAll(palabras);
    forall i | 0 <= i < |glosses|
      ensures ' ' !in glosses[i]
    {
      UpperKeepsSpaces(palabras[i]);
    }
    SplitJoin(' ', glosses);
    assert GlossPrompt(palabras)[|GlossTaskPrefix|..] == Join(" ", glosses);
  }

  lemma UpperKeepsSpaces(w: string)
    requires ' ' !in w
    ensures ' ' !in Upper(w)
  {
    var u := Upper(w);
    forall i | 0 <= i < |u|
      ensures u[i] != ' '
    {
      assert w[i] != ' ';
    }
  }

  /** `generar_frase`: the empty list needs no model; otherwise the generated
      text, or the exception T5 raised. `generation` stands for what T5 does
      with the prompt `GlossPrompt(palabras)`, but it is an input of its own:
      nothing here ties it to that prompt, whose form `GlossPromptLists`
      states separately. */
  function GenerarFrase(palabras: seq<string>, generation: Generation): (r: Result<string, string>)
    ensures |palabras| == 0 ==> r == Ok("")
    ensures |palabras| > 0 && generation.Generated? ==> r == Ok(generation.text)
    ensures |palabras| > 0 && generation.GenerationRaised? ==> r == Err(generation.message)
  {
    if |palabras| == 0 then Ok("")
    else match generation
      case Generated(text) => Ok(text)
      case GenerationRaised(message) => Err(message)
  }

  /** The phrase the endpoint returns: empty for no words, the generated text,
      or the words joined by single spaces when generation raises. */
  function Phrase(palabras: seq<string>, generation: Generation): (frase: string)
    ensures |palabras| == 0 ==> frase == ""
    ensures |palabras| > 0 && generation.GenerationRaised? ==> frase == Join(" ", palabras)
    ensures |palabras| > 0 && generation.Generated? ==> frase == generation.text
  {
    if |palabras| == 0 then ""
    else match GenerarFrase(palabras, generation)
      case Ok(text) => text
      case Err(_) => Join(" ", palabras)
  }

  /** When generation fails, the fallback phrase splits back into exactly the
      accepted words, provided none of them contains a space. */
  lemma FallbackPhraseSplits(palabras: seq<string>, generation: Generation)
    requires |palabras| > 0 && generation.GenerationRaised?
    requires forall i :: 0 <= i < |palabras| ==> ' ' !in palabras[i]
    ensures Split(' ', Phrase(palabras, generation)) == palabras
  {
    SplitJoin(' ', palabras);
  }

  /** The body of `/predict-sequence`; `success` is always true. */
  datatype SequenceReport = SequenceReport(
    success: bool,
    palabrasDetectadas: seq<string>,
    fraseGenerada: string,
    detalles: seq<Detail>,
    totalVideos: nat,
    videosAceptados: nat)

  /** The threshold a request uses: its query parameter, or the double 0.7. */
  function EffectiveThreshold(umbral: Option<Threshold>): Threshold
  {
    if umbral.Some? then umbral.value else DefaultThreshold
  }

  /** With no accepted detail there are no detected words. */
  lemma {:induction false} NoAcceptedWords(details: seq<Detail>)
    requires forall i :: 0 <= i < |details| ==> !details[i].IsAccepted()
    ensures AcceptedWords(details) == []
    decreases |details|
  {
    if |details| > 0 {
      NoAcceptedWords(details[1..]);
    }
  }

  /** `predecir_secuencia_endpoint`; `umbral` is the query parameter, absent
      when the request leaves it out, and `generation` is what T5 does with
      the prompt for the accepted words. */
  method PredictSequence(modelsLoaded: bool, files: seq<SequenceFile>, umbral: Option<Threshold>, generation: Generation)
    returns (r: HttpResult<SequenceReport>)
    ensures !modelsLoaded ==> r == HttpError(503, ModelsNotLoaded())
    ensures modelsLoaded && |files| == 0 ==> r == HttpError(400, NoVideosSent())
    ensures r.Body? <==> modelsLoaded && |files| > 0
    ensures r.Body? ==> |r.value.detalles| == |files| && r.value.totalVideos == |files|
    ensures r.Body? ==> r.value.success
    ensures r.Body? ==> forall i :: 0 <= i < |files| ==>
              r.value.detalles[i] == ProcessFile(i, files[i], EffectiveThreshold(umbral))
    ensures r.Body? && umbral.None? ==> forall i :: 0 <= i < |files| ==>
              r.value.detalles[i].Scored? ==> (r.value.detalles[i].aceptada <==> r.value.detalles[i].confianza >= Float64OfPointSeven)
    ensures r.Body? && (umbral == Some(NotANumber) || umbral == Some(PlusInfinity)) ==>
              r.value.palabrasDetectadas == [] && r.value.fraseGenerada == ""
    ensures r.Body? && umbral == Some(MinusInfinity) ==> forall i :: 0 <= i < |files| ==>
              r.value.detalles[i].Scored? ==> r.value.detalles[i].aceptada
    ensures r.Body? ==> r.value.palabrasDetectadas == AcceptedWords(r.value.detalles)
    ensures r.Body? ==> r.value.videosAceptados == |r.value.palabrasDetectadas|
    ensures r.Body? ==> r.value.fraseGenerada == Phrase(r.value.palabrasDetectadas, generation)
  {
    if !modelsLoaded {
      return HttpError(503, ModelsNotLoaded());
    }
    if |files| == 0 {
      return HttpError(400, NoVideosSent());
    }
    var threshold := EffectiveThreshold(umbral);
    var palabras: seq<string> := [];
    var detalles: seq<Detail> := [];
    var idx := 0;
    while idx < |files|
      invariant 0 <= idx <= |files|
      invariant |detalles| == idx
      invariant forall i :: 0 <= i < idx ==> detalles[i] == ProcessFile(i, files[i], threshold)
      invariant palabras == AcceptedWords(detalles)
    {
      var detalle := ProcessFile(idx, files[idx], threshold);
      AcceptedWordsAppend(detalles, detalle);
      detalles := detalles + [detalle];
      if detalle.Scored? && Reaches(detalle.confianza, threshold) {
        palabras := palabras + [detalle.palabra];
      }
      idx := idx + 1;
    }
    if threshold == NotANumber || threshold == PlusInfinity {
      NoAcceptedWords(detalles);
    }
    var frase := Phrase(palabras, generation);
    return Body(SequenceReport(true, palabras, frase, detalles, |files|, |palabras|));
  }

  // ---------------------------------------------------------------------------
  // GET /palabras-disponibles
  // ---------------------------------------------------------------------------

  datatype Vocabulary = Vocabulary(total: nat, palabras: seq<string>)

  /** `obtener_palabras`: `labels` holds the label dictionary's values in
      iteration order, or nothing when the models failed to load. */
  function PalabrasDisponibles(labels: Option<seq<string>>): (r: HttpResult<Vocabulary>)
    ensures labels.None? <==> r == HttpError(503, ModelsNotLoaded())
    ensures labels.Some? ==> r.Body? && r.value.total == |labels.value|
    ensures labels.Some? ==> Sorting.Sorted(r.value.palabras)
                             && multiset(r.value.palabras) == multiset(labels.value)
  {
    match labels
    case None => HttpError(503, ModelsNotLoaded())
    case Some(values) =>
      var palabras := Sorting.Sort(values);
      assert |palabras| == |multiset(palabras)| == |values|;
      Body(Vocabulary(|palabras|, palabras))
  }
}
