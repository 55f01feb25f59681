/** The mobile client's request functions (`predictSign`, `checkHealth`,
    `getAvailableWords`). The file-system probe and each HTTP call are not
    performed: their outcomes are inputs. The client's types are modelled as
    the client declares them, independently of what the backend sends. */
module Client {
  import opened Wrappers
  import Upload
  import Text

  /** The client's `PredictionResponse`. */
  datatype Prediction = Prediction(palabras: seq<string>, frase: string, confianza: real, tiempoProcesamiento: real)

  /** The `detail` field of an error response body, as JavaScript sees it. */
  datatype Detail =
    | NoDetail                      // no response, no JSON body, or no `detail` key
    | TextDetail(text: string)      // a string
    | StructuredDetail(rendered: string)  // an object or array, with its string conversion
  {
    /** JavaScript truthiness: the empty string is falsy, objects are truthy. */
    predicate Truthy()
    {
      (TextDetail? && text != "") || StructuredDetail?
    }

    /** The value's conversion inside a template literal. */
    function Rendered(): string
      requires Truthy()
    {
      if TextDetail? then text else rendered
    }
  }

  /** A thrown JavaScript value. */
  datatype Thrown =
    | AxiosError(detail: Detail, message: string)   // what `axios.isAxiosError` recognises
    | PlainError(message: string)                    // any other `Error` instance
    | NonError                                       // a thrown value that is not an `Error`

  /** How an asynchronous call settles. */
  datatype Settled<+T> = Returned(value: T) | Threw(error: Thrown)

  /** The outcome of an Axios request: a response Axios resolved with, or a rejection. */
  datatype HttpOutcome<+T> = Response(status: int, data: T) | Rejected(error: Thrown)

  /** What `FileSystem.getInfoAsync` reports for the video's URI. */
  datatype FileInfo = Exists | Missing | InfoRejected(error: Thrown)

  /** One part of a multipart form. */
  datatype FormPart = FilePart(field: string, uri: string, mimeType: string, fileName: string)

  /** A POST the client issues. */
  datatype Request = Post(path: string, form: seq<FormPart>)

  const FileMissingMessage: string := "El archivo de video no existe"

  const PredictionErrorPrefix: string := "Error de predicción: "

  /** The request `predictSign` sends for a video. */
  function UploadRequest(videoUri: string): Request
  {
    Post("/predict", [FilePart("file", videoUri, "video/mp4", "sign_video.mp4")])
  }

  /** The `catch` block of `predictSign`: an Axios error becomes a new error
      with a prefixed message, anything else is rethrown as it is. */
  function Rethrown(error: Thrown): (r: Thrown)
    ensures !error.AxiosError? ==> r == error
    ensures error.AxiosError? ==> r.PlainError?
    ensures error.AxiosError? && error.detail.Truthy() ==>
              r.message == PredictionErrorPrefix + error.detail.Rendered()
    ensures error.AxiosError? && !error.detail.Truthy() ==>
              r.message == PredictionErrorPrefix + error.message
  {
    match error
    case AxiosError(detail, message) =>
      PlainError(PredictionErrorPrefix + (if detail.Truthy() then detail.Rendered() else message))
    case _ => error
  }

  /** `predictSign`: the request it issues, if any, and how it settles. */
  function PredictSign(videoUri: string, info: FileInfo, post: HttpOutcome<Prediction>)
    : (r: (Option<Request>, Settled<Prediction>))
    ensures r.0.Some? <==> info.Exists?
    ensures r.0.Some? ==> r.0.value == UploadRequest(videoUri)
    ensures info.Missing? ==> r.1 == Threw(PlainError(FileMissingMessage))
    ensures info.InfoRejected? ==> r.1 == Threw(Rethrown(info.error))
    ensures info.Exists? && post.Response? ==> r.1 == Returned(post.data)
    ensures info.Exists? && post.Rejected? ==> r.1 == Threw(Rethrown(post.error))
  {
    match info
    case Missing => (None, Threw(Rethrown(PlainError(FileMissingMessage))))
    case InfoRejected(error) => (None, Threw(Rethrown(error)))
    case Exists =>
      match post
      case Response(_, data) => (Some(UploadRequest(videoUri)), Returned(data))
      case Rejected(error) => (Some(UploadRequest(videoUri)), Threw(Rethrown(error)))
  }

  /** The prefix is added to Axios failures only: the missing-file error keeps
      its own message. */
  lemma MissingFileMessageUnprefixed(videoUri: string, post: HttpOutcome<Prediction>)
    ensures PredictSign(videoUri, Missing, post).1.error.message == FileMissingMessage
    ensures !(PredictionErrorPrefix <= PredictSign(videoUri, Missing, post).1.error.message)
  {
    assert FileMissingMessage[1] != PredictionErrorPrefix[1];
  }

  /** The request carries one form part, named `file`, and its fixed file name
      passes the backend's extension check. */
  lemma UploadNameAccepted(videoUri: string)
    ensures |UploadRequest(videoUri).form| == 1
    ensures Upload.Accepted(UploadRequest(videoUri).form[0].fileName)
  {
    var name := "sign_video.mp4";
    var n := |name|;
    assert name[n - 4..] == ".mp4";
    assert Text.Lower(".mp4") == ".mp4";
    var stem := name[..n - 4];
    assert stem[|stem| - 1] == 'o';
    assert Upload.NamedStem(stem);
    Upload.SuffixAccepted(name);
  }

  /** `checkHealth`: true for a response with status exactly 200; false for
      any other status and for any failure. */
  function CheckHealth<T>(outcome: HttpOutcome<T>): (online: bool)
    ensures online ==> outcome.Response?
    ensures outcome.Response? ==> (online <==> outcome.status == 200)
  {
    match outcome
    case Response(status, _) => status == 200
    case Rejected(_) => false
  }

  /** The JSON body of `/palabras-disponibles` as JavaScript receives it: the
      bare array the client's type declares, or an object with `total` and
      `palabras` keys, which is what the backend sends. */
  datatype WordsBody = WordArray(items: seq<string>) | VocabularyObject(total: nat, palabras: seq<string>)

  /** `getAvailableWords`: the response body unchanged (the declared type is
      not checked at run time), or the empty array for any failure. */
  function GetAvailableWords(outcome: HttpOutcome<WordsBody>): (body: WordsBody)
    ensures outcome.Response? ==> body == outcome.data
    ensures outcome.Rejected? ==> body == WordArray([])
  {
    match outcome
    case Response(_, data) => data
    case Rejected(_) => WordArray([])
  }

  /** `${body.length}` in a template literal: an array's length in decimal,
      and `undefined` for an object, which has no `length` property. */
  function LengthText(body: WordsBody): (text: string)
    ensures body.WordArray? ==> forall i :: 0 <= i < |text| ==> Text.IsDigit(text[i])
    ensures body.WordArray? ==> Text.ParseDecimal(text) == |body.items|
    ensures body.VocabularyObject? ==> text == "undefined"
  {
    match body
    case WordArray(items) => Text.ParseDecimalOfDecimal(|items|); Text.Decimal(|items|)
    case VocabularyObject(_, _) => "undefined"
  }
}
