/**
 * The view controller as an object whose handlers update its fields in place,
 * in the order the Swift handlers do. Each method is proved to perform the
 * transition of the same name in module Controller, and to keep its invariant.
 */
module ViewControllerModel {
  import opened Optional
  import opened Languages
  import opened Controller

  /** The sender of `switchLanguageAction`: a button whose selection the action flips. */
  class SwitchButton {
    var isSelected: bool

    constructor (selected: bool)
      ensures isSelected == selected
    {
      isSelected := selected;
    }
  }

  class ViewController {
    var audioEngine: AudioEngine
    var recognitionRequest: Option<RecognitionRequest>
    var recognitionTask: Option<RecognitionTask>
    // tasks the recognizer has handed out and tasks cancelled or finished
    var ledger: TaskLedger
    var recordButton: RecordButton
    var listenedText: string
    var translatedText: Option<string>
    var usage: Usage
    var recognizerLocale: string
    var synthQueue: seq<Utterance>

    /** The abstract state of this view controller. */
    ghost function State(): ControllerState
      reads this
    {
      ControllerState(audioEngine, recognitionRequest, recognitionTask, ledger, recordButton,
                      listenedText, translatedText, usage, recognizerLocale, synthQueue)
    }

    ghost predicate Valid()
      reads this
    {
      Invariant(State())
    }

    /** `viewDidLoad`, with the storyboard's button and texts as parameters. */
    constructor (button: RecordButton, initialListenedText: string, initialTranslatedText: Option<string>)
      ensures Valid()
      ensures State() == DidLoad(button, initialListenedText, initialTranslatedText)
    {
      audioEngine := AudioEngine(false, false);
      recognitionRequest, recognitionTask := None, None;
      ledger := TaskLedger(0, 0);
      listenedText, translatedText := initialListenedText, initialTranslatedText;
      usage := FromArabic;
      synthQueue := [];
      recordButton := button.(isEnabled := false);
      recognizerLocale := FromArabic.LocaleIdentifier();
    }

    /**
     * `startRecording`; `threw` reports whether it threw. From a valid state
     * with the engine stopped (its caller's guard) it leaves a valid state.
     */
    method StartRecording(outcome: StartOutcome) returns (threw: bool)
      modifies this
      ensures threw <==> !outcome.Starts?
      ensures State() == Controller.StartRecording(old(State()), outcome)
      ensures old(Valid()) && !old(audioEngine.isRunning) ==> Valid()
    {
      // cancel the previous task and let it go
      ledger := Release(ledger, recognitionTask);
      recognitionTask := None;
      // the audio session's category and activation may throw
      threw := outcome.SessionFails?;
      if !threw {
        recognitionRequest := Some(RecognitionRequest(false));
        recognitionTask := Some(RecognitionTask(ledger.started));
        ledger := ledger.(started := ledger.started + 1);
        audioEngine := audioEngine.(tapInstalled := true);
        // the engine's start may throw
        threw := outcome.EngineFails?;
        if !threw {
          audioEngine := audioEngine.(isRunning := true);
          listenedText := ListeningPrompt;
        }
      }
      if old(Valid()) && !old(audioEngine.isRunning) {
        StartRecordingKeepsInvariant(old(State()), outcome);
      }
    }

    /** The recognition task's result handler. */
    method HandleRecognition(result: Option<Transcript>, hasError: bool)
      requires Valid()
      modifies this
      ensures Valid()
      ensures State() == Controller.HandleRecognition(old(State()), result, hasError)
    {
      HandleRecognitionKeepsInvariant(State(), result, hasError);
      var isFinal := false;
      if result.Some? {
        listenedText := result.value.formattedString;
        isFinal := result.value.isFinal;
      }
      if hasError || isFinal {
        audioEngine := audioEngine.(isRunning := false);
        audioEngine := audioEngine.(tapInstalled := false);
        recognitionRequest := None;
        ledger := Release(ledger, recognitionTask);
        recognitionTask := None;
        recordButton := recordButton.(isEnabled := true);
        recordButton := recordButton.(normalTitle := StartTitle);
      }
    }

    /** `listenTapped`. */
    method ListenTapped(outcome: StartOutcome)
      requires Valid()
      modifies this
      ensures Valid()
      ensures State() == Controller.ListenTapped(old(State()), outcome)
    {
      ListenTappedKeepsInvariant(State(), outcome);
      if audioEngine.isRunning {
        audioEngine := audioEngine.(isRunning := false);
        if recognitionRequest.Some? {
          recognitionRequest := Some(recognitionRequest.value.(audioEnded := true));
        }
        recordButton := recordButton.(isEnabled := false);
        recordButton := recordButton.(disabledTitle := Some(StoppingTitle));
      } else {
        var threw := StartRecording(outcome);
        if !threw {
          recordButton := recordButton.(normalTitle := StopTitle);
        } else {
          recordButton := recordButton.(normalTitle := UnavailableTitle);
        }
      }
    }

    /** `speakTapped`. */
    method SpeakTapped()
      requires Valid()
      modifies this
      ensures Valid()
      ensures State() == Controller.SpeakTapped(old(State()))
    {
      SpeakTappedKeepsInvariant(State());
      if translatedText.Some? && translatedText.value != "" {
        var text := translatedText.value;
        synthQueue := [];
        synthQueue := synthQueue + [Utterance(text, VoiceLanguage(usage))];
      }
    }

    /** `switchLanguageAction`, with the `didSet` of `type` that rebuilds the recognizer. */
    method SwitchLanguageAction(sender: SwitchButton)
      requires Valid()
      modifies this, sender
      ensures Valid()
      ensures sender.isSelected == !old(sender.isSelected)
      ensures State() == Controller.SwitchLanguage(old(State()))
    {
      SwitchLanguageKeepsInvariant(State());
      sender.isSelected := !sender.isSelected;
      usage := usage.Toggle();
      recognizerLocale := usage.LocaleIdentifier();
    }

    /** The authorization handler, run on the main queue once the answer arrives. */
    method AuthorizationResolved(status: AuthStatus)
      requires Valid()
      modifies this
      ensures Valid()
      ensures State() == Controller.AuthorizationResolved(old(State()), status)
    {
      AuthorizationKeepsInvariant(State(), status);
      match status
      case Authorized =>
        recordButton := recordButton.(isEnabled := true);
      case Denied =>
        recordButton := recordButton.(isEnabled := false);
        recordButton := recordButton.(disabledTitle := Some(DeniedTitle));
      case Restricted =>
        recordButton := recordButton.(isEnabled := false);
        recordButton := recordButton.(disabledTitle := Some(RestrictedTitle));
      case NotDetermined =>
        recordButton := recordButton.(isEnabled := false);
        recordButton := recordButton.(disabledTitle := Some(NotDeterminedTitle));
      case Unlisted =>
        recordButton := recordButton.(isEnabled := false);
    }
  }
}
