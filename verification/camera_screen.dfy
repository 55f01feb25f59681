/** The recording screen (`CameraScreen`): camera, loading, result and error
    handling around one prediction request. The alert is modal; the model
    keeps the message on screen in the state so that its buttons can only be
    pressed while it shows. */
module CameraScreen {
  import opened Wrappers
  import Client

  /** The three React state variables, plus the alert on screen. */
  datatype State = State(showCamera: bool, loading: bool, result: Option<Client.Prediction>, alert: Option<string>)

  const Init: State := State(true, false, None, None)

  /** The text the error alert shows when a prediction fails and the thrown
      value is not an `Error`. */
  const FallbackAlertMessage: string := "No se pudo procesar el video"

  /** The alert's message: an `Error`'s own message, else the fallback. */
  function AlertMessage(error: Client.Thrown): (message: string)
    ensures error.NonError? ==> message == FallbackAlertMessage
    ensures !error.NonError? ==> message == error.message
  {
    if error.NonError? then FallbackAlertMessage else error.message
  }

  /** `handleVideoRecorded` up to its `await`: leave the camera, show the spinner. */
  function VideoRecorded(s: State): (r: State)
    ensures !r.showCamera && r.loading
    ensures r.result == s.result && r.alert == s.alert
  {
    s.(showCamera := false, loading := true)
  }

  /** The rest of `handleVideoRecorded`: a prediction becomes the result; a
      failure keeps the previous result and raises the alert; the spinner
      stops either way. */
  function PredictionSettled(s: State, outcome: Client.Settled<Client.Prediction>): (r: State)
    ensures !r.loading && r.showCamera == s.showCamera
    ensures outcome.Returned? ==> r.result == Some(outcome.value) && r.alert == s.alert
    ensures outcome.Threw? ==> r.result == s.result && r.alert == Some(AlertMessage(outcome.error))
  {
    match outcome
    case Returned(prediction) => s.(result := Some(prediction), loading := false)
    case Threw(error) => s.(alert := Some(AlertMessage(error)), loading := false)
  }

  /** `handleTryAgain`, and the alert's `Reintentar` button: back to the
      camera with no result. */
  function TryAgain(s: State): (r: State)
    ensures r.showCamera && r.result.None?
    ensures r.loading == s.loading
  {
    s.(showCamera := true, result := None)
  }

  /** What the screen renders, in the order the component tests its state. */
  datatype View = CameraMode | LoadingMode | ResultMode(prediction: Client.Prediction) | EmptyMode

  function Render(s: State): (v: View)
    ensures v == CameraMode <==> s.showCamera
    ensures v == LoadingMode <==> !s.showCamera && s.loading
    ensures v.ResultMode? <==> !s.showCamera && !s.loading && s.result.Some?
    ensures v.ResultMode? ==> v.prediction == s.result.value
  {
    if s.showCamera then CameraMode
    else if s.loading then LoadingMode
    else if s.result.Some? then ResultMode(s.result.value)
    else EmptyMode
  }

  /** The recorded-video handler as a whole, with `predictSign` in the middle:
      the request it sends, and the screen once it settles. */
  function HandleVideoRecorded(s: State, uri: string, info: Client.FileInfo,
                               post: Client.HttpOutcome<Client.Prediction>)
    : (r: (Option<Client.Request>, State))
    ensures !r.1.showCamera && !r.1.loading
    ensures r.0.Some? <==> info.Exists?
    ensures r.1.result.Some? && r.1.result != s.result ==> info.Exists? && post.Response?
    ensures info.Exists? && post.Response? ==> r.1.result == Some(post.data) && r.1.alert == s.alert
    ensures info.Missing? ==> r.1.alert == Some(Client.FileMissingMessage) && r.1.result == s.result
    ensures info.Exists? && post.Rejected? && post.error.AxiosError? ==>
              r.1.result == s.result && r.1.alert.Some?
              && Client.PredictionErrorPrefix <= r.1.alert.value
  {
    var sent := Client.PredictSign(uri, info, post);
    (sent.0, PredictionSettled(VideoRecorded(s), sent.1))
  }

  /** The inputs the screen reacts to. */
  datatype Event =
    | VideoDelivered(uri: string)                         // the camera's callback
    | Settled(outcome: Client.Settled<Client.Prediction>) // `predictSign` settles
    | TryAgainPressed                                     // "Grabar otra seña"
    | RetryChosen                                         // the alert's "Reintentar"
    | BackChosen                                          // the alert's "Volver"
    | BackPressed                                         // either back button

  /** What a step asks of the outside world. */
  datatype Effect = NoEffect | CallPredictSign(uri: string) | LeaveScreen

  /** An event can happen: the camera exists only in camera mode, a request
      settles only while one is pending, the result buttons exist only in
      result mode, and the alert buttons only while the alert shows. */
  predicate Enabled(s: State, e: Event)
  {
    match e
    case VideoDelivered(_) => Render(s) == CameraMode && s.alert.None?
    case Settled(_) => s.loading
    case TryAgainPressed => Render(s).ResultMode? && s.alert.None?
    case RetryChosen => s.alert.Some?
    case BackChosen => s.alert.Some?
    case BackPressed => s.alert.None?
  }

  function Step(s: State, e: Event): (State, Effect)
  {
    match e
    case VideoDelivered(uri) => (VideoRecorded(s), CallPredictSign(uri))
    case Settled(outcome) => (PredictionSettled(s, outcome), NoEffect)
    case TryAgainPressed => (TryAgain(s), NoEffect)
    case RetryChosen => (TryAgain(s.(alert := None)), NoEffect)
    case BackChosen => (s.(alert := None), LeaveScreen)
    case BackPressed => (s, LeaveScreen)
  }

  /** Camera mode and loading exclude a result and each other; the alert
      never shows while a request is pending. */
  ghost predicate Invariant(s: State)
  {
    (s.showCamera ==> !s.loading && s.result.None?)
    && (s.loading ==> !s.showCamera && s.result.None? && s.alert.None?)
  }

  /** Counts over a run of events. */
  datatype Tally = Tally(final: State, videos: nat, requests: nat, settlements: nat)

  function Run(s: State, events: seq<Event>): Tally
    decreases |events|
  {
    if |events| == 0 then Tally(s, 0, 0, 0)
    else
      var t := Step(s, events[0]);
      var rest := Run(t.0, events[1..]);
      Tally(rest.final,
            rest.videos + (if events[0].VideoDelivered? then 1 else 0),
            rest.requests + (if t.1.CallPredictSign? then 1 else 0),
            rest.settlements + (if events[0].Settled? then 1 else 0))
  }

  ghost predicate AllEnabled(s: State, events: seq<Event>)
    decreases |events|
  {
    |events| == 0 || (Enabled(s, events[0]) && AllEnabled(Step(s, events[0]).0, events[1..]))
  }

  /** Over any run of enabled events the invariant holds, every recorded
      video sends exactly one prediction request, and at most one request is
      pending at a time — exactly when the spinner shows. */
  lemma {:induction false} RunBounds(s: State, events: seq<Event>)
    requires Invariant(s)
    requires AllEnabled(s, events)
    ensures Invariant(Run(s, events).final)
    ensures Run(s, events).requests == Run(s, events).videos
    ensures Run(s, events).settlements + (if Run(s, events).final.loading then 1 else 0)
            == Run(s, events).requests + (if s.loading then 1 else 0)
    decreases |events|
  {
    if |events| > 0 {
      RunBounds(Step(s, events[0]).0, events[1..]);
    }
  }

  /** From the initial screen: one request per video, and every request but
      the one the spinner waits for has settled. */
  lemma RequestsMatchVideos(events: seq<Event>)
    requires AllEnabled(Init, events)
    ensures Run(Init, events).requests == Run(Init, events).videos
    ensures Run(Init, events).settlements + (if Run(Init, events).final.loading then 1 else 0)
            == Run(Init, events).requests
  {
    RunBounds(Init, events);
  }
}
