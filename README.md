# ListenTranslateSpeak view controller, modelled in Dafny

ListenTranslateSpeak is an iOS app with three steps: it listens to the user with the
speech recognizer, translates, and speaks the translation. This project models its
view controller, `ListenTranslateSpeak/ViewController.swift`, in three parts.

**The language pair.** The `Usage` enum is modelled in `languages.dfy` (module `Languages`).
It holds the two directions, `toggle`, and the recognizer locale of each direction.
It also holds the voice language that `speakTapped` picks.

**The recording-control state machine.** This part is modelled twice:

- `controller.dfy` (module `Controller`) gives each handler as a pure transition over the
  controller's abstract state. The handlers are `viewDidLoad`, `startRecording`, the
  recognition result handler, `listenTapped`, `speakTapped`, `switchLanguageAction` with
  the `didSet` of `type`, and the authorization handler.
- `view_controller.dfy` (module `ViewControllerModel`) gives the same handlers as methods of
  a class `ViewController`. The methods update its fields in place, step by step, in the
  order of the Swift code. Each method is proved to perform the transition of the same name
  and to keep the controller's invariant.

The abstract state holds:

- the audio engine: whether it runs and whether a tap is installed;
- the optional recognition request (with its end-of-audio flag) and the optional recognition task;
- the record button: its enabled flag, its normal title and its disabled title;
- the two text views;
- `type`, here `usage`, and the recognizer's locale;
- the synthesizer's queue.

A ledger counts the tasks created and let go. The invariant says that at most one task is
outstanding and that the held task is the newest one.

**Runs of the app.** `session.dfy` (module `Session`) models runs: sequences of taps,
recognition callbacks and the authorization answer. UIKit sends no tap to a disabled
button. The model also assumes that a result handler runs only while the controller holds
a task. The platform does not promise this, and the handler never checks which task is
current (see "## Left out"). The lemmas follow a run through listening, stopping and back
to idle, and through a refused authorization.

Platform calls are replaced by their outcomes. `startRecording` is told whether the audio
session throws, the engine throws, or both succeed. The recognition callback receives its
result and its error flag as inputs. The record button's titles follow UIKit: a disabled
button that has no disabled title shows its normal title (`Controller.DisplayedTitle`).

## Model

| member | source | states |
|---|---|---|
| Languages.Usage.Toggle | ListenTranslateSpeak/ViewController.swift:15-22 | toggling always changes the direction, and the new direction has a different recognizer locale |
| Languages.ToggleInvolution | ListenTranslateSpeak/ViewController.swift:15-22 | toggling twice gives back the original direction |
| Languages.LocalesDistinct | ListenTranslateSpeak/ViewController.swift:23-30 | two directions are different exactly when their locale identifiers ("ar-SA", "en") differ |
| Languages.Usage.LocaleIdentifier | ListenTranslateSpeak/ViewController.swift:23-30 | `fromArabic` listens in "ar-SA" and `toArabic` in "en": the locale's language subtag is "ar" or "en" respectively, and only the Arabic locale carries a region; `LocalesDistinct` proves the map one-to-one |
| Languages.VoiceLanguage | ListenTranslateSpeak/ViewController.swift:177 | the voice speaks the language of the opposite direction's locale, never the language the user speaks: English from Arabic, Arabic otherwise |
| Controller.DidLoad | ListenTranslateSpeak/ViewController.swift:52-59 | after loading, the button is disabled and keeps its storyboard title; no request, task or running engine; no task created yet; the recognizer listens in "ar-SA" for `fromArabic`; the invariant holds |
| Controller.StartRecording | ListenTranslateSpeak/ViewController.swift:95-153 | the held task is let go before anything can throw; a session failure leaves no task and nothing new; otherwise a fresh request, a new task numbered after all earlier ones, and the tap; the engine runs and the prompt shows only when nothing throws; button, language and synthesizer are untouched |
| Controller.HandleRecognition | ListenTranslateSpeak/ViewController.swift:120-139 | a result replaces the listened text; an error or final result stops the engine, removes the tap, drops request and task, and shows an enabled "Start Recording" button; a partial error-free result changes only the listened text |
| Controller.ListenTapped | ListenTranslateSpeak/ViewController.swift:155-169 | while running: engine stopped, request's audio ended, task kept, disabled button showing "Stopping"; while idle: exactly `startRecording`'s effect, with the normal title "Stop Recording" on success and "Recording Not Available" on a throw |
| Controller.SpeakTapped | ListenTranslateSpeak/ViewController.swift:173-186 | nil or empty translated text changes nothing; otherwise the queue is stopped and then holds one utterance of that text in `VoiceLanguage(type)`; nothing else changes |
| Controller.SwitchLanguage | ListenTranslateSpeak/ViewController.swift:187-190 | the direction flips and the recognizer is rebuilt for the new direction's locale; nothing else changes, including a session in progress |
| Controller.AuthorizationResolved | ListenTranslateSpeak/ViewController.swift:72-90 | only `authorized` enables the button; denied, restricted and not-determined each show their own disabled reason; other statuses disable and keep the old disabled title; only the button changes |
| Controller.StartRecordingKeepsInvariant | ListenTranslateSpeak/ViewController.swift:97-119 | starting from a stopped engine keeps the invariant: the cancelled task is let go before the new one is created, so at most one task is outstanding |
| Controller.HandleRecognitionKeepsInvariant | ListenTranslateSpeak/ViewController.swift:129-139 | the result handler keeps the invariant |
| Controller.ListenTappedKeepsInvariant | ListenTranslateSpeak/ViewController.swift:155-169 | `listenTapped` keeps the invariant; it starts recording only when the engine is stopped |
| Controller.SpeakTappedKeepsInvariant | ListenTranslateSpeak/ViewController.swift:173-186 | `speakTapped` keeps the invariant: at most one utterance is queued |
| Controller.SwitchLanguageKeepsInvariant | ListenTranslateSpeak/ViewController.swift:45-49 | the `didSet` of `type` keeps the recognizer locale matched to the direction |
| Controller.AuthorizationKeepsInvariant | ListenTranslateSpeak/ViewController.swift:72-90 | the authorization handler keeps the invariant |
| Session.DeliverKeepsInvariant | ListenTranslateSpeak/ViewController.swift:67-190 | every event, delivered or dropped, keeps the invariant |
| Session.RunKeepsInvariant | ListenTranslateSpeak/ViewController.swift:97-99 | in every run from a valid state the invariant holds, so at most one recognition task is ever outstanding |
| Session.NoRestartWhileDisabled | ListenTranslateSpeak/ViewController.swift:156-160 | while the button is disabled and the engine stopped, no event short of a terminating callback or an authorization restarts recording, creates a task, or changes the held request and task |
| Session.StopWaitsForTerminalCallback | ListenTranslateSpeak/ViewController.swift:129-160 | Listening to Stopping to Idle: a tap while recording shows a disabled "Stopping" button; recording cannot restart meanwhile; the terminating callback gives an enabled "Start Recording" button, a stopped engine without tap, and no request or task, with no task created on the way |
| Session.SilentWithoutTask | ListenTranslateSpeak/ViewController.swift:72-90 | with the button disabled and no task, no event except an authorization answer changes the button or starts a task |
| Session.RefusedAuthorizationIsPermanent | ListenTranslateSpeak/ViewController.swift:72-90 | after loading, an authorization answer other than `authorized` keeps the button disabled with its reason for the rest of a run of taps, callbacks and switches, and no task is ever created; the availability callback in `ViewController+SpeechDelegate.swift`, which can enable the button, is not an event of the model |
| Session.TapOutlivesFailedStart | ListenTranslateSpeak/ViewController.swift:144-149 | after an authorized load, a tap whose engine start throws leaves the engine stopped with the tap still installed, the button enabled and showing "Recording Not Available", so the next tap runs `startRecording` and installs the tap a second time |
| Session.SwitchTwiceRestores | ListenTranslateSpeak/ViewController.swift:187-190 | switching the language twice restores the whole state |
| ViewControllerModel.ViewController.constructor | ListenTranslateSpeak/ViewController.swift:52-59 | the fields are those of `DidLoad`, and the invariant holds |
| ViewControllerModel.ViewController.StartRecording | ListenTranslateSpeak/ViewController.swift:95-153 | the in-place steps produce `Controller.StartRecording`; the method reports a throw exactly when the outcome is not success; from a valid state with the engine stopped, the new state is valid |
| ViewControllerModel.ViewController.HandleRecognition | ListenTranslateSpeak/ViewController.swift:119-140 | the in-place steps produce `Controller.HandleRecognition` and keep the invariant |
| ViewControllerModel.ViewController.ListenTapped | ListenTranslateSpeak/ViewController.swift:155-169 | the in-place steps produce `Controller.ListenTapped` and keep the invariant |
| ViewControllerModel.ViewController.SpeakTapped | ListenTranslateSpeak/ViewController.swift:173-186 | the in-place steps produce `Controller.SpeakTapped` and keep the invariant |
| ViewControllerModel.ViewController.SwitchLanguageAction | ListenTranslateSpeak/ViewController.swift:187-190 | the sender's selection flips, the in-place steps produce `Controller.SwitchLanguage`, and the invariant is kept |
| ViewControllerModel.ViewController.AuthorizationResolved | ListenTranslateSpeak/ViewController.swift:71-91 | the in-place steps produce `Controller.AuthorizationResolved` and keep the invariant |

## Left out

- `translate(type:)`, called from `viewDidLoad`, is not part of this model. Its definition lies outside the modelled file.
- `translateTapped` has an empty body, so there is nothing to model. No translation sequence numbers and no staleness checks on callbacks exist in the code, and none are modelled.
- The recognizer's availability callback in `ViewController+SpeechDelegate.swift` is not part of this model. It sets the button from a platform notification, and when the recognizer becomes available it enables the button with "Start Recording". This can happen even after a refused authorization, so `Session.RefusedAuthorizationIsPermanent` covers only runs without it.
- Audio I/O is left out: the audio session's category and activation, the tap's buffer appends, `prepare()`, and the request's partial-results and on-device flags. `startRecording` sees all of them only as "may throw" (`StartOutcome`).
- The `fatalError` guard after the request is created cannot fire, because the request was just assigned, so it is not modelled.
- The debugging `print` of each transcription is left out.
- The speech recognizer is represented only by its locale identifier. Its construction, recognition itself, and the `delegate` assignment in `viewDidAppear` are left out.
- Utterances carry their text and their voice language only. Rate and delays are floating-point settings of the synthesizer and are left out. Speech progress is left out too, so the queue holds what was queued since the last `stopSpeaking`.
- The authorization request and the main-queue hop are asynchronous. They are modelled as one `Authorization` event delivered between other events. Concurrency between callbacks and taps is not modelled.
- Session.Deliver: the model assumes the result handler runs only while a task is held. A task cancelled by `startRecording` may still call back with an error, and the handler would then tear down the new session, because it never checks which task is current. Such late callbacks are not modelled, so the Session lemmas hold only for runs without them.
- Controller.StartRecording: installing a tap where one is already installed simply keeps the tap. A tap left installed after `audioEngine.start()` throws is carried in the state, and `Session.TapOutlivesFailedStart` shows that the next tap reaches a second `installTap`. The platform's reaction to that second install is not modelled.
- The storyboard's initial button titles and text-view contents are parameters of `viewDidLoad` (`Controller.DidLoad` and the class constructor).
