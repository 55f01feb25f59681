/** The recording control (`CameraViewComponent`): the permission gate, the
    camera ref and the `isRecording` flag around `recordAsync`. The camera
    itself is not modelled: how a recording settles is an input. */
module CameraView {
  import opened Wrappers

  /** The recording ceiling passed to `recordAsync`, in seconds. */
  const MaxDurationSeconds: nat := 5

  datatype Permission = Permission(granted: bool)

  /** `permission` is the permission hook's value (absent while it loads);
      `cameraAttached` says whether `cameraRef.current` is set. */
  datatype State = State(permission: Option<Permission>, cameraAttached: bool, isRecording: bool)

  const Init: State := State(None, false, false)

  /** A request to the camera. */
  datatype Command = NoCommand | RecordAsync(maxDuration: nat) | StopCamera

  /** How `recordAsync` settles: with a result whose `uri` may be missing, or
      by raising. */
  datatype RecordOutcome = Recorded(uri: Option<string>) | RecordRaised

  /** What the component reports when a recording settles. */
  datatype Report = NoReport | VideoRecorded(uri: string) | ErrorAlert(title: string, message: string)

  /** The view the component renders. */
  datatype View = PermissionLoading | PermissionPrompt | LiveCamera(recording: bool)

  /** The permission gate: no permission object yet, a permission not
      granted, or the live camera. */
  function Render(s: State): (v: View)
    ensures v.PermissionLoading? <==> s.permission.None?
    ensures v.PermissionPrompt? <==> s.permission == Some(Permission(false))
    ensures v.LiveCamera? <==> s.permission == Some(Permission(true))
    ensures v.LiveCamera? ==> v.recording == s.isRecording
  {
    match s.permission
    case None => PermissionLoading
    case Some(p) => if !p.granted then PermissionPrompt else LiveCamera(s.isRecording)
  }

  /** `startRecording` up to its `await`: without a camera ref nothing
      happens; otherwise the flag is raised and a capped recording starts. */
  function StartRecording(s: State): (r: (State, Command))
    ensures !s.cameraAttached ==> r == (s, NoCommand)
    ensures s.cameraAttached ==> r.0.isRecording && r.1 == RecordAsync(MaxDurationSeconds)
    ensures r.0.permission == s.permission && r.0.cameraAttached == s.cameraAttached
  {
    if !s.cameraAttached then (s, NoCommand)
    else (s.(isRecording := true), RecordAsync(MaxDurationSeconds))
  }

  /** The rest of `startRecording` once `recordAsync` settles: the callback
      fires only for a result with a non-empty `uri`, an alert is shown on
      error, and the flag drops on every path. */
  function FinishRecording(s: State, outcome: RecordOutcome): (r: (State, Report))
    ensures !r.0.isRecording
    ensures r.0.permission == s.permission && r.0.cameraAttached == s.cameraAttached
    ensures r.1.VideoRecorded? <==> outcome.Recorded? && outcome.uri.Some? && outcome.uri.value != ""
    ensures r.1.VideoRecorded? ==> r.1.uri == outcome.uri.value
    ensures r.1.ErrorAlert? <==> outcome.RecordRaised?
  {
    var report :=
      match outcome
      case Recorded(uri) => if uri.Some? && uri.value != "" then VideoRecorded(uri.value) else NoReport
      case RecordRaised => ErrorAlert("Error", "No se pudo grabar el video");
    (s.(isRecording := false), report)
  }

  /** `stopRecording`: asks the camera to stop only while recording with a ref. */
  function StopRecording(s: State): (c: Command)
    ensures c == StopCamera <==> s.cameraAttached && s.isRecording
    ensures c != StopCamera ==> c == NoCommand
  {
    if s.cameraAttached && s.isRecording then StopCamera else NoCommand
  }

  /** The inputs the component reacts to. */
  datatype Event =
    | PermissionSettled(p: Permission)   // the permission hook delivers a value
    | CameraMounted                      // React attaches the camera ref
    | ButtonPressed                      // the record button
    | RecordingSettled(outcome: RecordOutcome)

  /** An event can happen: the button exists only on the live camera view,
      and a recording can only settle while one is pending. */
  predicate Enabled(s: State, e: Event)
  {
    match e
    case ButtonPressed => Render(s).LiveCamera?
    case RecordingSettled(_) => s.isRecording
    case _ => true
  }

  datatype Transition = Transition(next: State, command: Command, report: Report)

  function Step(s: State, e: Event): Transition
  {
    match e
    case PermissionSettled(p) =>
      // Leaving the live view unmounts the camera and clears the ref.
      Transition(s.(permission := Some(p), cameraAttached := s.cameraAttached && p.granted), NoCommand, NoReport)
    case CameraMounted =>
      Transition(if Render(s).LiveCamera? then s.(cameraAttached := true) else s, NoCommand, NoReport)
    case ButtonPressed =>
      if s.isRecording then Transition(s, StopRecording(s), NoReport)
      else var r := StartRecording(s); Transition(r.0, r.1, NoReport)
    case RecordingSettled(outcome) =>
      var r := FinishRecording(s, outcome); Transition(r.0, NoCommand, r.1)
  }

  /** The camera ref is only ever set behind a granted permission. */
  ghost predicate Invariant(s: State)
  {
    s.cameraAttached ==> s.permission == Some(Permission(true))
  }

  /** Counts over a run of events. */
  datatype Tally = Tally(final: State, recordings: nat, callbacks: nat, ungatedRecordings: nat)

  function Run(s: State, events: seq<Event>): Tally
    decreases |events|
  {
    if |events| == 0 then Tally(s, 0, 0, 0)
    else
      var t := Step(s, events[0]);
      var rest := Run(t.next, events[1..]);
      Tally(rest.final,
            rest.recordings + (if t.command.RecordAsync? then 1 else 0),
            rest.callbacks + (if t.report.VideoRecorded? then 1 else 0),
            rest.ungatedRecordings + (if t.command.RecordAsync? && s.permission != Some(Permission(true)) then 1 else 0))
  }

  ghost predicate AllEnabled(s: State, events: seq<Event>)
    decreases |events|
  {
    |events| == 0 || (Enabled(s, events[0]) && AllEnabled(Step(s, events[0]).next, events[1..]))
  }

  /** Over any run of enabled events: the camera ref stays behind a granted
      permission, no recording starts without that permission, and each
      recording reports a video at most once — a callback never fires
      without a recording that started before it. */
  lemma {:induction false} RunBounds(s: State, events: seq<Event>)
    requires Invariant(s)
    requires AllEnabled(s, events)
    ensures Invariant(Run(s, events).final)
    ensures Run(s, events).ungatedRecordings == 0
    ensures Run(s, events).callbacks + (if Run(s, events).final.isRecording then 1 else 0)
            <= Run(s, events).recordings + (if s.isRecording then 1 else 0)
    decreases |events|
  {
    if |events| > 0 {
      RunBounds(Step(s, events[0]).next, events[1..]);
    }
  }

  /** From the initial state, callbacks never outnumber recordings started. */
  lemma OneCallbackPerRecording(events: seq<Event>)
    requires AllEnabled(Init, events)
    ensures Run(Init, events).callbacks <= Run(Init, events).recordings
  {
    RunBounds(Init, events);
  }
}
