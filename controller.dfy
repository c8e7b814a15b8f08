/**
 * The recording-control state machine of the ListenTranslateSpeak view
 * controller, as pure transitions over its abstract state. Each function
 * describes what one handler does to the state; the class in
 * ViewControllerModel performs the same steps on its fields.
 *
 * Platform calls are replaced by their outcome: `startRecording` is told
 * whether the audio session or the audio engine throws, and the recognition
 * callback receives its result and error as inputs. The platform objects the
 * controller drives (audio engine, recognition request, record button) are
 * modelled by the part of their state the controller reads or changes.
 */
module Controller {
  import opened Optional
  import opened Languages

  /** The text the listened-text view shows once recording has started. */
  const ListeningPrompt: string := "(Go ahead, I'm listening)"

  /**
   * The titles the record button is given: the ones the controller sets, and
   * whatever the storyboard gave it before the controller set any.
   */
  datatype Title =
    | StartTitle
    | StopTitle
    | StoppingTitle
    | UnavailableTitle
    | DeniedTitle
    | RestrictedTitle
    | NotDeterminedTitle
    | StoryboardTitle(text: string)
  {
    /** The string the button shows. */
    function Text(): (shown: string)
    {
      match this
      case StartTitle => "Start Recording"
      case StopTitle => "Stop Recording"
      case StoppingTitle => "Stopping"
      case UnavailableTitle => "Recording Not Available"
      case DeniedTitle => "User denied access to speech recognition"
      case RestrictedTitle => "Speech recognition restricted on this device"
      case NotDeterminedTitle => "Speech recognition not yet authorized"
      case StoryboardTitle(text) => text
    }
  }

  /** What the recognizer hands to the callback: the best transcription and whether it is final. */
  datatype Transcript = Transcript(formattedString: string, isFinal: bool)

  /** An utterance queued on the speech synthesizer, with the language of its voice. */
  datatype Utterance = Utterance(text: string, voiceLanguage: string)

  /**
   * How `startRecording` ends: the audio session's category or activation
   * throws before any request exists, the audio engine throws on `start()`
   * after request, task and tap are in place, or everything succeeds.
   */
  datatype StartOutcome = SessionFails | EngineFails | Starts

  /** The speech-recognition authorization status; `Unlisted` is any status the switch handles by `default`. */
  datatype AuthStatus = Authorized | Denied | Restricted | NotDetermined | Unlisted

  /** The audio engine: whether it runs, and whether a tap is installed on its input node's bus 0. */
  datatype AudioEngine = AudioEngine(isRunning: bool, tapInstalled: bool)

  /** A buffer recognition request: whether it has been told `endAudio()`. */
  datatype RecognitionRequest = RecognitionRequest(audioEnded: bool)

  /** A recognition task, numbered in the order the controller created them (from 0). */
  datatype RecognitionTask = RecognitionTask(serial: nat)

  /** How many recognition tasks were created, and how many were let go (cancelled or cleared). */
  datatype TaskLedger = TaskLedger(started: nat, released: nat)

  /** The record button: enabled or not, its title for the normal state and, if set, for the disabled state. */
  datatype RecordButton = RecordButton(isEnabled: bool, normalTitle: Title, disabledTitle: Option<Title>)

  /**
   * The view controller's state: its `recognitionRequest`, `recognitionTask`,
   * `type` (here `usage`) and the locale of its `speechRecognizer`; the audio
   * engine, the record button, the two text views (a UITextView's `text` may
   * be nil) and the utterances queued on the synthesizer.
   */
  datatype ControllerState = ControllerState(
    audioEngine: AudioEngine,
    recognitionRequest: Option<RecognitionRequest>,
    recognitionTask: Option<RecognitionTask>,
    ledger: TaskLedger,
    recordButton: RecordButton,
    listenedText: string,
    translatedText: Option<string>,
    usage: Usage,
    recognizerLocale: string,
    synthQueue: seq<Utterance>)

  /** The title the record button shows: a disabled button without a disabled title shows its normal title. */
  function DisplayedTitle(b: RecordButton): (t: Title)
  {
    if b.isEnabled then b.normalTitle
    else match b.disabledTitle
      case Some(t) => t
      case None => b.normalTitle
  }

  /**
   * What holds in every reachable state: a task only with a request; a running
   * engine only with a fresh request, a task and a tap; every task but the held
   * one let go, and the held one the newest; the recognizer built for the
   * current direction; at most one queued utterance.
   */
  predicate Invariant(s: ControllerState)
  {
    (s.recognitionTask.Some? ==> s.recognitionRequest.Some?) &&
    (s.audioEngine.isRunning ==>
      s.recognitionRequest == Some(RecognitionRequest(false)) &&
      s.recognitionTask.Some? && s.audioEngine.tapInstalled) &&
    s.ledger.started == s.ledger.released + (if s.recognitionTask.Some? then 1 else 0) &&
    (s.recognitionTask.Some? ==> s.recognitionTask.value.serial + 1 == s.ledger.started) &&
    s.recognizerLocale == s.usage.LocaleIdentifier() &&
    |s.synthQueue| <= 1
  }

  /** A recognition callback ends the session when it carries an error or a final result. */
  predicate EndsSession(result: Option<Transcript>, hasError: bool)
  {
    hasError || (result.Some? && result.value.isFinal)
  }

  /** The ledger after the held task, if any, is let go. */
  function Release(ledger: TaskLedger, task: Option<RecognitionTask>): (r: TaskLedger)
  {
    if task.Some? then ledger.(released := ledger.released + 1) else ledger
  }

  /**
   * `viewDidLoad`: the record button is disabled until authorization arrives and
   * the recognizer is built for Arabic. The storyboard's button and texts are parameters.
   */
  function DidLoad(button: RecordButton, listenedText: string, translatedText: Option<string>): (r: ControllerState)
    ensures Invariant(r)
    ensures !r.recordButton.isEnabled && !r.audioEngine.isRunning
    ensures r.recognitionRequest.None? && r.recognitionTask.None? && r.ledger.started == 0
    ensures r.usage == FromArabic && r.recognizerLocale == "ar-SA"
    ensures DisplayedTitle(r.recordButton) == DisplayedTitle(button.(isEnabled := false))
  {
    ControllerState(
      audioEngine := AudioEngine(false, false),
      recognitionRequest := None,
      recognitionTask := None,
      ledger := TaskLedger(0, 0),
      recordButton := button.(isEnabled := false),
      listenedText := listenedText,
      translatedText := translatedText,
      usage := FromArabic,
      recognizerLocale := FromArabic.LocaleIdentifier(),
      synthQueue := [])
  }

  /**
   * `startRecording`: cancel and drop the held task, configure the audio session
   * (may throw), create a request and a task, install the tap, start the engine
   * (may throw) and show the listening prompt.
   */
  function StartRecording(s: ControllerState, outcome: StartOutcome): (r: ControllerState)
    // the previous task is let go before any new one exists
    ensures r.ledger.released == s.ledger.released + (if s.recognitionTask.Some? then 1 else 0)
    ensures outcome.SessionFails? ==>
      r.recognitionTask.None? && r.ledger.started == s.ledger.started &&
      r.recognitionRequest == s.recognitionRequest && r.audioEngine == s.audioEngine
    // otherwise a fresh request and a new task, numbered after every earlier one
    ensures !outcome.SessionFails? ==>
      r.recognitionRequest == Some(RecognitionRequest(false)) &&
      r.recognitionTask == Some(RecognitionTask(s.ledger.started)) &&
      r.ledger.started == s.ledger.started + 1 && r.audioEngine.tapInstalled
    ensures r.audioEngine.isRunning <==> outcome.Starts? || s.audioEngine.isRunning
    ensures r.listenedText == (if outcome.Starts? then ListeningPrompt else s.listenedText)
    // the button, the language and the synthesizer are untouched
    ensures r.recordButton == s.recordButton && r.usage == s.usage && r.recognizerLocale == s.recognizerLocale
    ensures r.translatedText == s.translatedText && r.synthQueue == s.synthQueue
  {
    var cancelled := s.(recognitionTask := None, ledger := Release(s.ledger, s.recognitionTask));
    if outcome.SessionFails? then cancelled
    else
      var created := cancelled.(
        recognitionRequest := Some(RecognitionRequest(false)),
        recognitionTask := Some(RecognitionTask(cancelled.ledger.started)),
        ledger := cancelled.ledger.(started := cancelled.ledger.started + 1),
        audioEngine := cancelled.audioEngine.(tapInstalled := true));
      if outcome.EngineFails? then created
      else created.(audioEngine := created.audioEngine.(isRunning := true), listenedText := ListeningPrompt)
  }

  /**
   * The recognition task's result handler: a result replaces the listened text;
   * an error or a final result stops the engine, removes the tap, drops request
   * and task, and re-enables the button as "Start Recording".
   */
  function HandleRecognition(s: ControllerState, result: Option<Transcript>, hasError: bool): (r: ControllerState)
    ensures r.listenedText == (if result.Some? then result.value.formattedString else s.listenedText)
    ensures EndsSession(result, hasError) ==>
      r.audioEngine == AudioEngine(false, false) &&
      r.recognitionRequest.None? && r.recognitionTask.None? &&
      r.recordButton.isEnabled && DisplayedTitle(r.recordButton) == StartTitle &&
      r.recordButton.disabledTitle == s.recordButton.disabledTitle &&
      r.ledger.released == s.ledger.released + (if s.recognitionTask.Some? then 1 else 0)
    // a partial, error-free result changes nothing but the listened text
    ensures !EndsSession(result, hasError) ==> r == s.(listenedText := r.listenedText)
    ensures r.ledger.started == s.ledger.started
    ensures r.usage == s.usage && r.recognizerLocale == s.recognizerLocale
    ensures r.translatedText == s.translatedText && r.synthQueue == s.synthQueue
  {
    var shown := if result.Some? then s.(listenedText := result.value.formattedString) else s;
    var isFinal := result.Some? && result.value.isFinal;
    if hasError || isFinal then
      shown.(audioEngine := AudioEngine(false, false),
             recognitionRequest := None,
             recognitionTask := None,
             ledger := Release(s.ledger, s.recognitionTask),
             recordButton := s.recordButton.(isEnabled := true, normalTitle := StartTitle))
    else shown
  }

  /**
   * `listenTapped`: with the engine running, stop it, end the request's audio and
   * show a disabled "Stopping" button; otherwise start recording and title the
   * button by whether that threw.
   */
  function ListenTapped(s: ControllerState, outcome: StartOutcome): (r: ControllerState)
    ensures s.audioEngine.isRunning ==>
      !r.audioEngine.isRunning && r.audioEngine.tapInstalled == s.audioEngine.tapInstalled &&
      !r.recordButton.isEnabled && DisplayedTitle(r.recordButton) == StoppingTitle &&
      r.recordButton.normalTitle == s.recordButton.normalTitle &&
      r.recognitionRequest == (if s.recognitionRequest.Some? then Some(RecognitionRequest(true)) else None) &&
      r.recognitionTask == s.recognitionTask && r.ledger == s.ledger && r.listenedText == s.listenedText
    ensures !s.audioEngine.isRunning ==>
      r == StartRecording(s, outcome).(recordButton := r.recordButton) &&
      r.recordButton == s.recordButton.(normalTitle := if outcome.Starts? then StopTitle else UnavailableTitle)
    ensures !s.audioEngine.isRunning && s.recordButton.isEnabled ==>
      DisplayedTitle(r.recordButton) == (if outcome.Starts? then StopTitle else UnavailableTitle)
    ensures r.usage == s.usage && r.recognizerLocale == s.recognizerLocale
    ensures r.translatedText == s.translatedText && r.synthQueue == s.synthQueue
  {
    if s.audioEngine.isRunning then
      var ended := if s.recognitionRequest.Some? then Some(s.recognitionRequest.value.(audioEnded := true)) else None;
      s.(audioEngine := s.audioEngine.(isRunning := false),
         recognitionRequest := ended,
         recordButton := s.recordButton.(isEnabled := false, disabledTitle := Some(StoppingTitle)))
    else
      var started := StartRecording(s, outcome);
      started.(recordButton := started.recordButton.(
        normalTitle := if outcome.Starts? then StopTitle else UnavailableTitle))
  }

  /**
   * `speakTapped`: with a non-empty translated text, stop the synthesizer at once
   * and queue that text in the voice of the opposite language; otherwise do nothing.
   */
  function SpeakTapped(s: ControllerState): (r: ControllerState)
    ensures s.translatedText == None || s.translatedText == Some("") ==> r == s
    ensures s.translatedText.Some? && s.translatedText.value != "" ==>
      r.synthQueue == [Utterance(s.translatedText.value, VoiceLanguage(s.usage))]
    ensures r == s.(synthQueue := r.synthQueue)
  {
    match s.translatedText
    case None => s
    case Some(text) =>
      if text == "" then s
      else
        var stopped := s.(synthQueue := []);
        stopped.(synthQueue := stopped.synthQueue + [Utterance(text, VoiceLanguage(s.usage))])
  }

  /**
   * `switchLanguageAction` on the controller: flip the direction; the `didSet`
   * of `type` rebuilds the recognizer for the new locale. A session in progress
   * is left alone.
   */
  function SwitchLanguage(s: ControllerState): (r: ControllerState)
    ensures r.usage != s.usage && r.usage.Toggle() == s.usage
    ensures r.recognizerLocale == r.usage.LocaleIdentifier()
    ensures r == s.(usage := r.usage, recognizerLocale := r.recognizerLocale)
  {
    var toggled := s.usage.Toggle();
    s.(usage := toggled, recognizerLocale := toggled.LocaleIdentifier())
  }

  /** The disabled title the authorization handler sets for a status, if any. */
  function DisabledReason(status: AuthStatus): (reason: Option<Title>)
  {
    match status
    case Denied => Some(DeniedTitle)
    case Restricted => Some(RestrictedTitle)
    case NotDetermined => Some(NotDeterminedTitle)
    case Authorized => None
    case Unlisted => None
  }

  /**
   * The authorization handler: only `authorized` enables the record button; the
   * other named statuses disable it with a reason.
   */
  function AuthorizationResolved(s: ControllerState, status: AuthStatus): (r: ControllerState)
    ensures r.recordButton.isEnabled <==> status.Authorized?
    ensures status.Denied? ==> DisplayedTitle(r.recordButton) == DeniedTitle
    ensures status.Restricted? ==> DisplayedTitle(r.recordButton) == RestrictedTitle
    ensures status.NotDetermined? ==> DisplayedTitle(r.recordButton) == NotDeterminedTitle
    ensures status.Authorized? ==> DisplayedTitle(r.recordButton) == s.recordButton.normalTitle
    ensures status.Authorized? || status.Unlisted? ==> r.recordButton.disabledTitle == s.recordButton.disabledTitle
    ensures r.recordButton.normalTitle == s.recordButton.normalTitle
    ensures r == s.(recordButton := r.recordButton)
  {
    var reason := DisabledReason(status);
    var enabled := s.recordButton.(isEnabled := status.Authorized?);
    s.(recordButton := if reason.Some? then enabled.(disabledTitle := reason) else enabled)
  }

  /** Starting to record from a stopped engine keeps the invariant: the previous task is let go first. */
  lemma StartRecordingKeepsInvariant(s: ControllerState, outcome: StartOutcome)
    requires Invariant(s) && !s.audioEngine.isRunning
    ensures Invariant(StartRecording(s, outcome))
  {
  }

  lemma HandleRecognitionKeepsInvariant(s: ControllerState, result: Option<Transcript>, hasError: bool)
    requires Invariant(s)
    ensures Invariant(HandleRecognition(s, result, hasError))
  {
  }

  lemma ListenTappedKeepsInvariant(s: ControllerState, outcome: StartOutcome)
    requires Invariant(s)
    ensures Invariant(ListenTapped(s, outcome))
  {
    if !s.audioEngine.isRunning {
      StartRecordingKeepsInvariant(s, outcome);
    }
  }

  lemma SpeakTappedKeepsInvariant(s: ControllerState)
    requires Invariant(s)
    ensures Invariant(SpeakTapped(s))
  {
  }

  lemma SwitchLanguageKeepsInvariant(s: ControllerState)
    requires Invariant(s)
    ensures Invariant(SwitchLanguage(s))
  {
  }

  lemma AuthorizationKeepsInvariant(s: ControllerState, status: AuthStatus)
    requires Invariant(s)
    ensures Invariant(AuthorizationResolved(s, status))
  {
  }
}
