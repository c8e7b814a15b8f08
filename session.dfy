/**
 * Runs of the view controller: sequences of user taps, recognition callbacks
 * and the authorization answer. UIKit sends no tap to a disabled record button.
 * The model further assumes that a result handler runs only while the controller
 * holds a task: nothing in the controller checks which task is current, so a
 * cancelled task's late callback would run the teardown as well, and such
 * callbacks are outside this model. The recognizer's availability callback,
 * which can enable the button, is outside it too.
 */
module Session {
  import opened Optional
  import opened Languages
  import opened Controller

  /** One thing that happens to the view controller. */
  datatype Event =
    | ListenTap(outcome: StartOutcome)
    | Recognition(result: Option<Transcript>, hasError: bool)
    | SpeakTap
    | SwitchTap
    | Authorization(status: AuthStatus)

  /** The state after one event: a tap on a disabled button and a callback with no task held are dropped. */
  function Deliver(s: ControllerState, e: Event): (r: ControllerState)
  {
    match e
    case ListenTap(outcome) => if s.recordButton.isEnabled then ListenTapped(s, outcome) else s
    case Recognition(result, hasError) => if s.recognitionTask.Some? then HandleRecognition(s, result, hasError) else s
    case SpeakTap => SpeakTapped(s)
    case SwitchTap => SwitchLanguage(s)
    case Authorization(status) => AuthorizationResolved(s, status)
  }

  /** The state after a sequence of events. */
  function Run(s: ControllerState, events: seq<Event>): (r: ControllerState)
    decreases |events|
  {
    if events == [] then s else Run(Deliver(s, events[0]), events[1..])
  }

  /** Running two sequences one after the other is running their concatenation. */
  lemma {:induction false} RunAppend(s: ControllerState, a: seq<Event>, b: seq<Event>)
    ensures Run(s, a + b) == Run(Run(s, a), b)
    decreases |a|
  {
    if a == [] {
      assert a + b == b;
    } else {
      assert (a + b)[1..] == a[1..] + b;
      RunAppend(Deliver(s, a[0]), a[1..], b);
    }
  }

  /** Every handler keeps the invariant, whether or not the event reaches it. */
  lemma DeliverKeepsInvariant(s: ControllerState, e: Event)
    requires Invariant(s)
    ensures Invariant(Deliver(s, e))
  {
    match e
    case ListenTap(outcome) => ListenTappedKeepsInvariant(s, outcome);
    case Recognition(result, hasError) => HandleRecognitionKeepsInvariant(s, result, hasError);
    case SpeakTap => SpeakTappedKeepsInvariant(s);
    case SwitchTap => SwitchLanguageKeepsInvariant(s);
    case Authorization(status) => AuthorizationKeepsInvariant(s, status);
  }

  /**
   * In every run from a valid state the invariant holds at the end; in
   * particular at most one recognition task is ever outstanding.
   */
  lemma {:induction false} RunKeepsInvariant(s: ControllerState, events: seq<Event>)
    requires Invariant(s)
    ensures Invariant(Run(s, events))
    ensures Run(s, events).ledger.started <= Run(s, events).ledger.released + 1
    decreases |events|
  {
    if events != [] {
      DeliverKeepsInvariant(s, events[0]);
      RunKeepsInvariant(Deliver(s, events[0]), events[1..]);
    }
  }

  /** The events that can enable a disabled record button. */
  predicate Reenables(e: Event)
  {
    (e.Recognition? && EndsSession(e.result, e.hasError)) ||
    (e.Authorization? && e.status.Authorized?)
  }

  /**
   * While the record button is disabled and the engine stopped, no event short
   * of a terminating callback or an authorization can start recording again:
   * no task is created and the held task, if any, is kept.
   */
  lemma {:induction false} NoRestartWhileDisabled(s: ControllerState, events: seq<Event>)
    requires !s.recordButton.isEnabled && !s.audioEngine.isRunning
    requires forall i :: 0 <= i < |events| ==> !Reenables(events[i])
    ensures !Run(s, events).recordButton.isEnabled && !Run(s, events).audioEngine.isRunning
    ensures Run(s, events).ledger.started == s.ledger.started
    ensures Run(s, events).recognitionTask == s.recognitionTask
    ensures Run(s, events).recognitionRequest == s.recognitionRequest
    decreases |events|
  {
    if events != [] {
      assert !Reenables(events[0]);
      NoRestartWhileDisabled(Deliver(s, events[0]), events[1..]);
    }
  }

  /**
   * A full stop: tapping listen while recording shows a disabled "Stopping"
   * button; whatever else happens meanwhile, recording cannot restart; the
   * final result or an error brings back an enabled "Start Recording" button
   * with request and task dropped, and no task was created along the way.
   */
  lemma StopWaitsForTerminalCallback(s: ControllerState, outcome: StartOutcome, meanwhile: seq<Event>,
                                     result: Option<Transcript>, hasError: bool)
    requires Invariant(s) && s.audioEngine.isRunning && s.recordButton.isEnabled
    requires forall i :: 0 <= i < |meanwhile| ==> !Reenables(meanwhile[i])
    requires EndsSession(result, hasError)
    ensures DisplayedTitle(Deliver(s, ListenTap(outcome)).recordButton) == StoppingTitle
    ensures !Run(s, [ListenTap(outcome)] + meanwhile).recordButton.isEnabled
    ensures !Run(s, [ListenTap(outcome)] + meanwhile).audioEngine.isRunning
    ensures var r := Run(s, [ListenTap(outcome)] + meanwhile + [Recognition(result, hasError)]);
      r.recordButton.isEnabled && DisplayedTitle(r.recordButton) == StartTitle &&
      r.audioEngine == AudioEngine(false, false) &&
      r.recognitionRequest.None? && r.recognitionTask.None? && r.ledger.started == s.ledger.started
  {
    var stopping := Deliver(s, ListenTap(outcome));
    assert Run(s, [ListenTap(outcome)]) == stopping;
    RunAppend(s, [ListenTap(outcome)], meanwhile);
    NoRestartWhileDisabled(stopping, meanwhile);
    var waiting := Run(s, [ListenTap(outcome)] + meanwhile);
    RunAppend(s, [ListenTap(outcome)] + meanwhile, [Recognition(result, hasError)]);
    assert Run(waiting, [Recognition(result, hasError)]) == Deliver(waiting, Recognition(result, hasError));
  }

  /**
   * With the button disabled and no task held, nothing but an authorization
   * answer changes the record button or starts a task.
   */
  lemma {:induction false} SilentWithoutTask(s: ControllerState, events: seq<Event>)
    requires !s.recordButton.isEnabled && s.recognitionTask.None? && !s.audioEngine.isRunning
    requires forall i :: 0 <= i < |events| ==> !events[i].Authorization?
    ensures Run(s, events).recordButton == s.recordButton
    ensures Run(s, events).recognitionTask.None? && !Run(s, events).audioEngine.isRunning
    ensures Run(s, events).ledger.started == s.ledger.started
    ensures Run(s, events).listenedText == s.listenedText
    decreases |events|
  {
    if events != [] {
      SilentWithoutTask(Deliver(s, events[0]), events[1..]);
    }
  }

  /**
   * Runs with a single authorization answer. The request is made in
   * `viewDidAppear`, which may run again, so later answers are possible; this
   * lemma excludes them. When that one answer is anything but `authorized`,
   * recording never starts for the rest of the run and the button keeps the
   * reason it was given. (The availability callback, which is not an event
   * here, would enable the button.)
   */
  lemma RefusedAuthorizationIsPermanent(button: RecordButton, listenedText: string, translatedText: Option<string>,
                                        status: AuthStatus, events: seq<Event>)
    requires !status.Authorized?
    requires forall i :: 0 <= i < |events| ==> !events[i].Authorization?
    ensures var answered := Deliver(DidLoad(button, listenedText, translatedText), Authorization(status));
      var r := Run(answered, events);
      !r.recordButton.isEnabled && !r.audioEngine.isRunning && r.ledger.started == 0 &&
      r.recordButton == answered.recordButton &&
      (status.Denied? ==> DisplayedTitle(r.recordButton) == DeniedTitle) &&
      (status.Restricted? ==> DisplayedTitle(r.recordButton) == RestrictedTitle) &&
      (status.NotDetermined? ==> DisplayedTitle(r.recordButton) == NotDeterminedTitle)
  {
    var answered := Deliver(DidLoad(button, listenedText, translatedText), Authorization(status));
    SilentWithoutTask(answered, events);
  }

  /**
   * After loading and authorization, a tap whose engine start throws leaves the
   * tap on the input node installed with the engine stopped and the button
   * enabled: the next tap calls `startRecording`, which installs a tap again.
   */
  lemma TapOutlivesFailedStart(button: RecordButton, listenedText: string, translatedText: Option<string>)
    ensures var failed := Run(DidLoad(button, listenedText, translatedText), [Authorization(Authorized), ListenTap(EngineFails)]);
      failed.audioEngine == AudioEngine(false, true) && failed.recordButton.isEnabled &&
      DisplayedTitle(failed.recordButton) == UnavailableTitle &&
      Deliver(failed, ListenTap(Starts)) == ListenTapped(failed, Starts)
  {
    var loaded := DidLoad(button, listenedText, translatedText);
    var answered := Deliver(loaded, Authorization(Authorized));
    var failed := Deliver(answered, ListenTap(EngineFails));
    assert [Authorization(Authorized), ListenTap(EngineFails)][1..] == [ListenTap(EngineFails)];
    assert Run(answered, [ListenTap(EngineFails)]) == Run(failed, []);
  }

  /** In a valid state, switching the language twice restores the state, whatever else it holds. */
  lemma SwitchTwiceRestores(s: ControllerState)
    requires Invariant(s)
    ensures Run(s, [SwitchTap, SwitchTap]) == s
  {
    ToggleInvolution(s.usage);
    var once := Deliver(s, SwitchTap);
    assert [SwitchTap, SwitchTap][1..] == [SwitchTap];
    assert Run(s, [SwitchTap, SwitchTap]) == Run(once, [SwitchTap]);
    assert Run(once, [SwitchTap]) == Run(Deliver(once, SwitchTap), []);
  }
}
