/** The root component (`App`): a two-way switch between the start screen and
    the recording screen. Switching unmounts one screen and mounts the other,
    so each screen starts again from its initial state. Unmounting does not
    stop what the recording screen had started: React drops the state updates
    of an unmounted component, but a recording still reaches
    `onVideoRecorded`, a prediction request still settles, and the alerts
    they raise (`Alert.alert`) show over whichever screen is mounted. */
module App {
  import opened Wrappers
  import Client
  import CameraView
  import HomeScreen
  import CameraScreen

  /** The screen `currentScreen` selects, with the state of that screen. */
  datatype Screen = AtHome(home: HomeScreen.State) | AtCamera(camera: CameraScreen.State)

  /** The mounted screen, and what unmounted recording screens left behind:
      recordings that may still deliver a video, prediction requests still in
      flight, and the alerts those raised that still show. */
  datatype AppState = AppState(screen: Screen, strayRecordings: nat, strayRequests: nat,
                               predictionAlerts: nat, recordingAlerts: nat)

  const Init: AppState := AppState(AtHome(HomeScreen.Init), 0, 0, 0, 0)

  /** An input to the mounted screen, or to what an unmounted one left. */
  datatype Event =
    | HomeEvent(e: HomeScreen.Event)
    | CameraEvent(c: CameraScreen.Event)
    | StrayRecordingSettled(recording: CameraView.RecordOutcome)      // `recordAsync` of an unmounted camera
    | StrayRequestSettled(request: Client.Settled<Client.Prediction>) // `predictSign` of an unmounted screen
    | LateRetry                                                       // "Reintentar" on a late prediction alert
    | LateBack                                                        // "Volver" on a late prediction alert
    | RecordingAlertDismissed                                         // "OK" on a late recording alert

  predicate Enabled(a: AppState, ev: Event)
  {
    match ev
    case HomeEvent(e) => a.screen.AtHome? && HomeScreen.Enabled(a.screen.home, e)
    case CameraEvent(c) => a.screen.AtCamera? && CameraScreen.Enabled(a.screen.camera, c)
    case StrayRecordingSettled(_) => a.strayRecordings > 0
    case StrayRequestSettled(_) => a.strayRequests > 0
    case LateRetry => a.predictionAlerts > 0
    case LateBack => a.predictionAlerts > 0
    case RecordingAlertDismissed => a.recordingAlerts > 0
  }

  /** `onBack` from a recording screen: a fresh start screen is mounted. A
      recording can only be running in camera mode and a request only under
      the spinner; either keeps running. */
  function Leave(a: AppState, camera: CameraScreen.State): AppState
  {
    AppState(AtHome(HomeScreen.Init),
             a.strayRecordings + (if camera.showCamera then 1 else 0),
             a.strayRequests + (if camera.loading then 1 else 0),
             a.predictionAlerts, a.recordingAlerts)
  }

  /** `onNavigateToCamera` mounts a fresh recording screen; `onBack` mounts a
      fresh start screen, whose mount effect checks the server again. A stray
      recording that delivers a video sends a request; a stray request that
      fails raises the prediction alert, whose "Reintentar" updates an
      unmounted screen and so changes nothing, and whose "Volver" calls
      `onBack` — a no-op on the start screen, since the screen is already
      `'home'`. */
  function Step(a: AppState, ev: Event): AppState
    requires Enabled(a, ev)
  {
    match ev
    case HomeEvent(e) =>
      var t := HomeScreen.Step(a.screen.home, e);
      a.(screen := if t.1.NavigateToCamera? then AtCamera(CameraScreen.Init) else AtHome(t.0))
    case CameraEvent(c) =>
      var t := CameraScreen.Step(a.screen.camera, c);
      if t.1.LeaveScreen? then Leave(a, a.screen.camera) else a.(screen := AtCamera(t.0))
    case StrayRecordingSettled(outcome) =>
      var report := CameraView.FinishRecording(CameraView.Init, outcome).1;
      a.(strayRecordings := a.strayRecordings - 1,
         strayRequests := a.strayRequests + (if report.VideoRecorded? then 1 else 0),
         recordingAlerts := a.recordingAlerts + (if report.ErrorAlert? then 1 else 0))
    case StrayRequestSettled(outcome) =>
      a.(strayRequests := a.strayRequests - 1,
         predictionAlerts := a.predictionAlerts + (if outcome.Threw? then 1 else 0))
    case LateRetry => a.(predictionAlerts := a.predictionAlerts - 1)
    case LateBack =>
      var b := a.(predictionAlerts := a.predictionAlerts - 1);
      if a.screen.AtCamera? then Leave(b, a.screen.camera) else b
    case RecordingAlertDismissed => a.(recordingAlerts := a.recordingAlerts - 1)
  }

  /** Switching screens mounts the new one from its initial state — the
      recording screen never shows a result from an earlier visit, and the
      start screen checks the server again. The start screen hands over to
      the camera only for a confirmed server or through the offline alert's
      "Continuar"; only the recording screen's own buttons or a late alert's
      "Volver" lead back; and leftovers of unmounted screens never touch the
      mounted one otherwise. */
  lemma SwitchRemounts(a: AppState, ev: Event)
    requires Enabled(a, ev)
    ensures a.screen.AtHome? && Step(a, ev).screen.AtCamera? ==>
              Step(a, ev).screen == AtCamera(CameraScreen.Init)
              && ev.HomeEvent?
              && (a.screen.home.isServerOnline == Some(true) || ev.e.OfflineContinue?)
    ensures a.screen.AtCamera? && Step(a, ev).screen.AtHome? ==>
              Step(a, ev).screen == AtHome(HomeScreen.Init) && HomeScreen.Init.loading
              && (ev.CameraEvent? || ev.LateBack?)
    ensures (ev.HomeEvent? && Step(a, ev).screen.AtHome?) ==>
              Step(a, ev).screen.home == HomeScreen.Step(a.screen.home, ev.e).0
    ensures (ev.CameraEvent? && Step(a, ev).screen.AtCamera?) ==>
              Step(a, ev).screen.camera == CameraScreen.Step(a.screen.camera, ev.c).0
    ensures (!ev.HomeEvent? && !ev.CameraEvent? && !ev.LateBack?) ==> Step(a, ev).screen == a.screen
    ensures (ev.LateBack? && a.screen.AtHome?) ==> Step(a, ev).screen == a.screen
  {
  }

  /** Each mounted screen keeps its own invariant. */
  ghost predicate Invariant(a: AppState)
  {
    match a.screen
    case AtHome(h) => HomeScreen.Invariant(h)
    case AtCamera(c) => CameraScreen.Invariant(c)
  }

  /** Everything unmounted screens left behind. */
  function Leftovers(a: AppState): nat
  {
    a.strayRecordings + a.strayRequests + a.predictionAlerts + a.recordingAlerts
  }

  /** The step leaves a recording screen that was recording or waiting. */
  predicate BusyExit(a: AppState, ev: Event)
    requires Enabled(a, ev)
  {
    a.screen.AtCamera? && Step(a, ev).screen.AtHome?
    && (a.screen.camera.showCamera || a.screen.camera.loading)
  }

  ghost predicate AllEnabled(a: AppState, events: seq<Event>)
    decreases |events|
  {
    |events| == 0 || (Enabled(a, events[0]) && AllEnabled(Step(a, events[0]), events[1..]))
  }

  /** The final state of a run, and how many busy recording screens it left. */
  datatype Tally = Tally(final: AppState, busyExits: nat)

  function Run(a: AppState, events: seq<Event>): Tally
    requires AllEnabled(a, events)
    decreases |events|
  {
    if |events| == 0 then Tally(a, 0)
    else
      var rest := Run(Step(a, events[0]), events[1..]);
      Tally(rest.final, rest.busyExits + (if BusyExit(a, events[0]) then 1 else 0))
  }

  /** One step keeps the mounted screen's invariant, and adds a leftover only
      by leaving a busy recording screen — one, since camera mode and the
      spinner exclude each other. */
  lemma StepBounds(a: AppState, ev: Event)
    requires Invariant(a) && Enabled(a, ev)
    ensures Invariant(Step(a, ev))
    ensures Leftovers(Step(a, ev)) <= Leftovers(a) + (if BusyExit(a, ev) then 1 else 0)
  {
    match ev
    case HomeEvent(e) =>
      HomeScreen.RunBounds(a.screen.home, [e]);
      assert HomeScreen.Run(a.screen.home, [e]).final == HomeScreen.Step(a.screen.home, e).0;
    case CameraEvent(c) =>
      CameraScreen.RunBounds(a.screen.camera, [c]);
      assert CameraScreen.Run(a.screen.camera, [c]).final == CameraScreen.Step(a.screen.camera, c).0;
    case _ =>
  }

  /** Whatever the user does and however late work settles, the mounted
      screen's invariant holds — no result shows in camera mode or under the
      spinner, the recording screen's own alert never shows while its request
      is pending, and the start screen's spinner only shows with a check in
      flight — and every stray recording, stray request and late alert comes
      from a recording screen left while recording or waiting. */
  lemma {:induction false} RunInvariant(a: AppState, events: seq<Event>)
    requires Invariant(a) && AllEnabled(a, events)
    ensures Invariant(Run(a, events).final)
    ensures Leftovers(Run(a, events).final) <= Leftovers(a) + Run(a, events).busyExits
    decreases |events|
  {
    if |events| > 0 {
      StepBounds(a, events[0]);
      RunInvariant(Step(a, events[0]), events[1..]);
    }
  }

  /** From a state with nothing left behind — the launch state among them —
      a run that never leaves a recording or waiting camera screen shows no
      late alert and leaves no request in flight. */
  lemma QuietRun(a: AppState, events: seq<Event>)
    requires Invariant(a) && Leftovers(a) == 0 && AllEnabled(a, events)
    ensures Invariant(Run(a, events).final)
    ensures Run(a, events).busyExits == 0 ==>
              Run(a, events).final.predictionAlerts == 0 && Run(a, events).final.recordingAlerts == 0
              && Run(a, events).final.strayRequests == 0
  {
    RunInvariant(a, events);
  }

  /** From launch: the start screen, checking the server, with nothing left
      behind — so `QuietRun` applies — and the invariants hold on every run. */
  lemma LaunchInvariant(events: seq<Event>)
    requires AllEnabled(Init, events)
    ensures Init.screen.AtHome? && Init.screen.home.loading
    ensures Invariant(Init) && Leftovers(Init) == 0
    ensures Invariant(Run(Init, events).final)
  {
    QuietRun(Init, events);
  }
}
