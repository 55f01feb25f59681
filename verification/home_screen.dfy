/** The start screen (`HomeScreen`): the server status check, the status
    card and the start button. A check waits twice — for the health check,
    then, when that says online, for the word list — and several checks can
    be in flight at once (the status card stays pressable), so the model
    counts the checks at each wait and lets their stages interleave; the
    offline alert is kept in the state so that its buttons can only be
    pressed while it shows. */
module HomeScreen {
  import opened Wrappers
  import Client
  import Text

  /** The three React state variables, the checks waiting for the health
      check and for the word list, and whether the offline alert shows. */
  datatype State = State(isServerOnline: Option<bool>, availableWords: Client.WordsBody,
                         loading: bool, awaitingHealth: nat, awaitingWords: nat, offlineAlert: bool)
  {
    /** The checks in flight. */
    function PendingChecks(): nat
    {
      awaitingHealth + awaitingWords
    }
  }

  /** As first rendered: the mount effect has started one check. */
  const Init: State := State(None, Client.WordArray([]), true, 1, 0, false)

  /** How an awaited call settles: with a value or by raising. */
  datatype Call<+T> = Returns(value: T) | Raises

  /** `checkServerStatus` up to its first `await`. */
  function BeginCheck(s: State): (r: State)
    ensures r.loading && r.PendingChecks() == s.PendingChecks() + 1
    ensures r.awaitingHealth == s.awaitingHealth + 1
    ensures r.isServerOnline == s.isServerOnline && r.availableWords == s.availableWords
  {
    s.(loading := true, awaitingHealth := s.awaitingHealth + 1)
  }

  /** `checkServerStatus` once `checkHealth` settles: the status is shown at
      once; a true status goes on to wait for the word list, while false or
      an exception (the catch) ends the check and stops the spinner. */
  function HealthArrived(s: State, health: Call<bool>): (r: State)
    requires s.awaitingHealth > 0
    ensures r.isServerOnline == Some(health == Returns(true))
    ensures r.awaitingHealth == s.awaitingHealth - 1
    ensures health == Returns(true) ==> r.awaitingWords == s.awaitingWords + 1 && r.loading == s.loading
    ensures health != Returns(true) ==> r.awaitingWords == s.awaitingWords && !r.loading
    ensures r.availableWords == s.availableWords && r.offlineAlert == s.offlineAlert
  {
    var waited := s.(awaitingHealth := s.awaitingHealth - 1);
    match health
    case Returns(true) => waited.(isServerOnline := Some(true), awaitingWords := s.awaitingWords + 1)
    case _ => waited.(isServerOnline := Some(false), loading := false)
  }

  /** `checkServerStatus` once `getAvailableWords` settles: the words replace
      the list whatever the status shows by then; an exception marks the
      server offline instead; the spinner stops either way. */
  function WordsArrived(s: State, words: Call<Client.WordsBody>): (r: State)
    requires s.awaitingWords > 0
    ensures !r.loading && r.awaitingWords == s.awaitingWords - 1 && r.awaitingHealth == s.awaitingHealth
    ensures words.Returns? ==> r.availableWords == words.value && r.isServerOnline == s.isServerOnline
    ensures words.Raises? ==> r.availableWords == s.availableWords && r.isServerOnline == Some(false)
    ensures r.offlineAlert == s.offlineAlert
  {
    var done := s.(loading := false, awaitingWords := s.awaitingWords - 1);
    match words
    case Returns(body) => done.(availableWords := body)
    case Raises => done.(isServerOnline := Some(false))
  }

  /** The rest of one check when nothing else happens between its two waits:
      the words are fetched only when the health check says online; any
      exception marks the server offline; the spinner stops on every path. */
  function FinishCheck(s: State, health: Call<bool>, words: Call<Client.WordsBody>): (r: State)
    requires s.awaitingHealth > 0
    ensures !r.loading && r.PendingChecks() == s.PendingChecks() - 1
    ensures r.isServerOnline == Some(true) <==> health == Returns(true) && words.Returns?
    ensures r.isServerOnline.Some?
    ensures r.isServerOnline == Some(true) ==> r.availableWords == words.value
    ensures r.isServerOnline != Some(true) ==> r.availableWords == s.availableWords
    ensures r.offlineAlert == s.offlineAlert
  {
    var afterHealth := HealthArrived(s, health);
    if health == Returns(true) then WordsArrived(afterHealth, words) else afterHealth
  }

  /** A whole check made with the client's functions, which never raise: the
      status is what `checkHealth` reports, and the catch is never reached. */
  function CheckServerStatus(s: State, health: Client.HttpOutcome<()>,
                             words: Client.HttpOutcome<Client.WordsBody>): (r: State)
    ensures !r.loading && r.PendingChecks() == s.PendingChecks()
    ensures r.isServerOnline == Some(Client.CheckHealth(health))
    ensures Client.CheckHealth(health) ==> r.availableWords == Client.GetAvailableWords(words)
    ensures !Client.CheckHealth(health) ==> r.availableWords == s.availableWords
  {
    FinishCheck(BeginCheck(s), Returns(Client.CheckHealth(health)), Returns(Client.GetAvailableWords(words)))
  }

  const CheckingTitle: string := "Verificando servidor..."
  const CheckingSubtitle: string := "Un momento..."
  const OnlineTitle: string := "Servidor conectado"
  const WordCountSuffix: string := " palabras disponibles"
  const OfflineTitle: string := "Servidor desconectado"
  const OfflineSubtitle: string := "Toca para reintentar"

  /** The status card's title and subtitle. */
  function StatusText(s: State): (text: (string, string))
  {
    if s.loading then (CheckingTitle, CheckingSubtitle)
    else if s.isServerOnline == Some(true) then
      (OnlineTitle, Client.LengthText(s.availableWords) + WordCountSuffix)
    else (OfflineTitle, OfflineSubtitle)
  }

  /** The card has three distinguishable faces, and once connected with an
      array of words its subtitle starts with the number of words, written in
      decimal. */
  lemma StatusTextFaces(s: State)
    ensures StatusText(s).0 == CheckingTitle <==> s.loading
    ensures StatusText(s).0 == OnlineTitle <==> !s.loading && s.isServerOnline == Some(true)
    ensures StatusText(s).0 == OfflineTitle <==> !s.loading && s.isServerOnline != Some(true)
    ensures !s.loading && s.isServerOnline == Some(true) && s.availableWords.WordArray? ==>
              var sub := StatusText(s).1;
              var digits := |sub| - |WordCountSuffix|;
              0 <= digits
              && (forall i :: 0 <= i < digits ==> Text.IsDigit(sub[i]))
              && Text.ParseDecimal(sub[..digits]) == |s.availableWords.items|
  {
    assert CheckingTitle[0] != OnlineTitle[0] && CheckingTitle[0] != OfflineTitle[0];
    assert OnlineTitle[10] != OfflineTitle[10];
    if !s.loading && s.isServerOnline == Some(true) && s.availableWords.WordArray? {
      var count := Client.LengthText(s.availableWords);
      assert StatusText(s).1[..|count|] == count;
    }
  }

  /** What pressing the start button leads to. */
  datatype StartAction = Navigate | WarnOffline

  /** `handleStartPress`: navigate only when the server is known online; an
      unknown status (`null`) counts as offline. */
  function StartPress(s: State): (a: StartAction)
    ensures a == Navigate <==> s.isServerOnline == Some(true)
  {
    if s.isServerOnline != Some(true) then WarnOffline else Navigate
  }

  /** The inputs the screen reacts to. */
  datatype Event =
    | StatusPressed                                       // the status card
    | HealthSettled(health: Call<bool>)                   // a check's `checkHealth` settles
    | WordsSettled(words: Call<Client.WordsBody>)         // a check's `getAvailableWords` settles
    | StartPressed                                        // the start button
    | OfflineRetry                                        // the alert's "Reintentar"
    | OfflineContinue                                     // the alert's "Continuar"

  datatype Effect = NoEffect | NavigateToCamera

  /** An event can happen: a check settles only while one is in flight, the
      alert's buttons exist only while it shows and block the screen, and the
      start button is disabled while the spinner shows (`GradientButton`
      disables itself while `loading`). */
  predicate Enabled(s: State, e: Event)
  {
    match e
    case HealthSettled(_) => s.awaitingHealth > 0
    case WordsSettled(_) => s.awaitingWords > 0
    case OfflineRetry => s.offlineAlert
    case OfflineContinue => s.offlineAlert
    case StartPressed => !s.offlineAlert && !s.loading
    case StatusPressed => !s.offlineAlert
  }

  function Step(s: State, e: Event): (State, Effect)
    requires Enabled(s, e)
  {
    match e
    case StatusPressed => (BeginCheck(s), NoEffect)
    case HealthSettled(health) => (HealthArrived(s, health), NoEffect)
    case WordsSettled(words) => (WordsArrived(s, words), NoEffect)
    case StartPressed =>
      if StartPress(s) == Navigate then (s, NavigateToCamera) else (s.(offlineAlert := true), NoEffect)
    case OfflineRetry => (BeginCheck(s.(offlineAlert := false)), NoEffect)
    case OfflineContinue => (s.(offlineAlert := false), NavigateToCamera)
  }

  /** The spinner shows only while a check is in flight, and never under
      the offline alert. */
  ghost predicate Invariant(s: State)
  {
    (s.loading ==> s.PendingChecks() > 0) && (s.offlineAlert ==> !s.loading)
  }

  /** The event completes a check: its word list arrives, or its health
      check does not report online. */
  predicate EndsCheck(e: Event)
  {
    e.WordsSettled? || (e.HealthSettled? && e.health != Returns(true))
  }

  /** Counts over a run of events. */
  datatype Tally = Tally(final: State, started: nat, settled: nat, navigations: nat,
                         warnedNavigations: nat, busyNavigations: nat)

  ghost predicate AllEnabled(s: State, events: seq<Event>)
    decreases |events|
  {
    |events| == 0 || (Enabled(s, events[0]) && AllEnabled(Step(s, events[0]).0, events[1..]))
  }

  function Run(s: State, events: seq<Event>): Tally
    requires AllEnabled(s, events)
    decreases |events|
  {
    if |events| == 0 then Tally(s, 0, 0, 0, 0, 0)
    else
      var t := Step(s, events[0]);
      var rest := Run(t.0, events[1..]);
      Tally(rest.final,
            rest.started + (if events[0].StatusPressed? || events[0].OfflineRetry? then 1 else 0),
            rest.settled + (if EndsCheck(events[0]) then 1 else 0),
            rest.navigations + (if t.1.NavigateToCamera? then 1 else 0),
            rest.warnedNavigations + (if t.1.NavigateToCamera? && s.isServerOnline != Some(true) then 1 else 0),
            rest.busyNavigations + (if t.1.NavigateToCamera? && s.loading then 1 else 0))
  }

  /** Over any run of enabled events the spinner never shows without a check
      in flight, every check started is settled or still in flight, every
      navigation made without a confirmed server went through the offline
      alert's "Continuar", and no navigation happens while the spinner shows. */
  lemma {:induction false} RunBounds(s: State, events: seq<Event>)
    requires Invariant(s)
    requires AllEnabled(s, events)
    ensures Invariant(Run(s, events).final)
    ensures s.PendingChecks() + Run(s, events).started == Run(s, events).settled + Run(s, events).final.PendingChecks()
    ensures Run(s, events).warnedNavigations <= CountContinues(events)
    ensures Run(s, events).busyNavigations == 0
    decreases |events|
  {
    if |events| > 0 {
      RunBounds(Step(s, events[0]).0, events[1..]);
    }
  }

  function CountContinues(events: seq<Event>): nat
    decreases |events|
  {
    if |events| == 0 then 0
    else CountContinues(events[1..]) + (if events[0].OfflineContinue? then 1 else 0)
  }

  /** Two overlapping checks: the first hears "online", the second hears
      "offline" and ends, then the first one's words arrive. The screen ends
      offline with the new word list — a state no single check produces. */
  lemma InterleavedChecks(s: State, body: Client.WordsBody)
    requires s.awaitingHealth == 2 && s.awaitingWords == 0 && !s.offlineAlert
    ensures var events := [HealthSettled(Returns(true)), HealthSettled(Returns(false)), WordsSettled(Returns(body))];
            AllEnabled(s, events)
            && Run(s, events).final.isServerOnline == Some(false)
            && Run(s, events).final.availableWords == body
            && !Run(s, events).final.loading && Run(s, events).final.PendingChecks() == 0
  {
    var events := [HealthSettled(Returns(true)), HealthSettled(Returns(false)), WordsSettled(Returns(body))];
    var s1 := HealthArrived(s, Returns(true));
    var s2 := HealthArrived(s1, Returns(false));
    var s3 := WordsArrived(s2, Returns(body));
    var tail1 := [HealthSettled(Returns(false)), WordsSettled(Returns(body))];
    var tail2 := [WordsSettled(Returns(body))];
    assert events[1..] == tail1 && tail1[1..] == tail2 && tail2[1..] == [];
    assert AllEnabled(s3, []) && Run(s3, []).final == s3;
    assert AllEnabled(s2, tail2) && Run(s2, tail2).final == s3;
    assert AllEnabled(s1, tail1) && Run(s1, tail1).final == s3;
    assert AllEnabled(s, events) && Run(s, events).final == s3;
  }
}
