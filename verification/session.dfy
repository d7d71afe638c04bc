/** The session object of script.js, class `VietnameseSpeechToText`, with its browser
    wiring stripped: the two flags, the committed transcript, the text area's value, the
    notification banners, and what the session hands to the engine, the clipboard and the
    download service. Each engine event, each user action (typing included) and each
    page-visibility change is a method. */
module Session {
  import opened Wrappers
  import opened Text
  import opened Recognition
  import opened Notices
  import opened Support
  import opened Export

  /** Commands the session sends to the speech-recognition engine. */
  datatype EngineCommand = StartCapture | StopCapture

  /** How the clipboard service's `writeText` promise settled. */
  datatype ClipboardOutcome = Written | Refused(reason: string)

  class SpeechToText {
    /** The support check passed and the engine is set up. */
    var isInitialized: bool
    /** `recognition` is not null. */
    var hasEngine: bool
    var isListening: bool
    /** The committed transcript. */
    var finalTranscript: string
    /** The value of the text area, which the user may also edit. */
    var display: string
    var notification: Notification
    /** Everything sent to the engine, oldest first. */
    var engineCommands: seq<EngineCommand>
    /** Every text handed to the clipboard, oldest first. */
    var clipboardWrites: seq<string>
    /** Every file handed to the download service, oldest first. */
    var downloads: seq<Download>

    /** The engine exists exactly when the session is initialised, and only an initialised
        session can be listening. */
    ghost predicate Valid()
      reads this
    {
      hasEngine == isInitialized && (isListening ==> isInitialized)
    }

    /** Page load: the text area holds `initialText`, then the session initialises against
        the browser environment `env`. */
    constructor (initialText: string, env: Environment)
      ensures Valid()
      ensures isInitialized <==> CheckBrowserSupport(env) == Pass
      ensures !isListening && finalTranscript == [] && display == initialText
      ensures engineCommands == [] && clipboardWrites == [] && downloads == []
      ensures notification == match CheckBrowserSupport(env)
                              case Pass => Hidden
                              case Fail(e) => ErrorShown(InitFailed(e))
    {
      isInitialized, hasEngine, isListening := false, false, false;
      finalTranscript, display := [], initialText;
      notification := Hidden;
      engineCommands, clipboardWrites, downloads := [], [], [];
      new;
      Init(env);
    }

    /** `init`: runs the support check; on success creates the engine and marks the session
        initialised, otherwise reports the check's message and changes no flag. The page
        runs it once, from the constructor. */
    method Init(env: Environment)
      requires Valid()
      modifies this`isInitialized, this`hasEngine, this`notification
      ensures Valid()
      ensures CheckBrowserSupport(env) == Pass ==>
                isInitialized && hasEngine && notification == old(notification)
      ensures CheckBrowserSupport(env).Fail? ==>
                isInitialized == old(isInitialized) && hasEngine == old(hasEngine)
                && notification == ErrorShown(InitFailed(CheckBrowserSupport(env).error))
    {
      match CheckBrowserSupport(env)
      case Pass =>
        hasEngine := true;
        isInitialized := true;
      case Fail(e) =>
        ShowError(InitFailed(e));
    }

    /** The user types into the text area: only its value changes. The next start keeps
        the edit, the next end event trims it, and the next result event replaces it. */
    method EditText(text: string)
      modifies this`display
      ensures display == text
    {
      display := text;
    }

    /** The microphone button: rejected with an error before initialisation, otherwise
        stops a listening session and starts an idle one. */
    method ToggleRecording()
      requires Valid()
      modifies this`isListening, this`finalTranscript, this`notification, this`engineCommands
      ensures Valid()
      ensures !isInitialized ==>
                isListening == old(isListening) && finalTranscript == old(finalTranscript)
                && engineCommands == old(engineCommands) && notification == ErrorShown(NotInitialized)
      ensures isInitialized && old(isListening) ==>
                !isListening && finalTranscript == old(finalTranscript)
                && engineCommands == old(engineCommands) + [StopCapture]
                && notification == old(notification)
      ensures isInitialized && !old(isListening) ==>
                isListening && finalTranscript == display
                && engineCommands == old(engineCommands) + [StartCapture]
                && notification == Hidden
    {
      if !isInitialized {
        ShowError(NotInitialized);
        return;
      }
      if isListening {
        StopRecording();
      } else {
        StartRecording();
      }
    }

    /** `startRecording`: with an engine, commits the current text area content (so manual
        edits are kept), starts capture, marks the session listening and hides the banners. */
    method StartRecording()
      requires Valid()
      modifies this`isListening, this`finalTranscript, this`notification, this`engineCommands
      ensures Valid()
      ensures hasEngine ==>
                isListening && finalTranscript == display
                && engineCommands == old(engineCommands) + [StartCapture] && notification == Hidden
      ensures !hasEngine ==>
                isListening == old(isListening) && finalTranscript == old(finalTranscript)
                && engineCommands == old(engineCommands) && notification == old(notification)
    {
      if hasEngine {
        finalTranscript := display;
        engineCommands := engineCommands + [StartCapture];
        isListening := true;
        HideMessages();
      }
    }

    /** `stopRecording`: asks a listening engine to stop and clears the flag; does nothing
        when not listening. */
    method StopRecording()
      requires Valid()
      modifies this`isListening, this`engineCommands
      ensures Valid()
      ensures !isListening
      ensures engineCommands == if old(isListening) then old(engineCommands) + [StopCapture]
                                else old(engineCommands)
    {
      if hasEngine && isListening {
        engineCommands := engineCommands + [StopCapture];
        isListening := false;
      }
    }

    /** The engine's start event hides the banners. Engine events need an engine: the
        callbacks are attached only when it is created. */
    method OnRecognitionStart()
      requires hasEngine
      modifies this`notification
      ensures notification == Hidden
    {
      HideMessages();
    }

    /** A result event: the final entries from `resultIndex` on are appended to the
        committed transcript, each followed by one space; the text area shows the committed
        transcript followed by the interim entries. */
    method OnRecognitionResult(event: ResultEvent)
      requires hasEngine
      modifies this`finalTranscript, this`display
      ensures finalTranscript
              == old(finalTranscript) + FinalSegments(Window(event.results, event.resultIndex))
      ensures display == finalTranscript + InterimSegments(Window(event.results, event.resultIndex))
      ensures old(finalTranscript) <= finalTranscript <= display
    {
      var currentFinal, interim := ScanResults(event.results, event.resultIndex);
      finalTranscript := finalTranscript + currentFinal;
      display := finalTranscript + interim;
    }

    /** An error event: stops listening first, then reports the code's message. */
    method OnRecognitionError(code: string)
      requires Valid() && hasEngine
      modifies this`isListening, this`engineCommands, this`notification
      ensures Valid()
      ensures !isListening
      ensures engineCommands == if old(isListening) then old(engineCommands) + [StopCapture]
                                else old(engineCommands)
      ensures notification == ErrorShown(RecognitionFailed(code))
    {
      StopRecording();
      ShowError(RecognitionFailed(code));
    }

    /** The end event: no longer listening; the trimmed text area content becomes both the
        committed transcript and the text area content; an error when nothing but whitespace
        was there, a success otherwise. Whatever interim suffix the text area still shows is
        committed with it. */
    method OnRecognitionEnd()
      requires Valid() && hasEngine
      modifies this`isListening, this`finalTranscript, this`display, this`notification
      ensures Valid()
      ensures !isListening
      ensures finalTranscript == Trim(old(display)) && display == finalTranscript
      ensures notification == if finalTranscript == [] then ErrorShown(NothingRecognized)
                              else SuccessShown(RecognitionComplete)
      ensures notification.ErrorShown? <==> AllWhitespace(old(display))
    {
      TrimSpec(display);
      isListening := false;
      finalTranscript := Trim(display);
      display := finalTranscript;
      if finalTranscript == [] {
        ShowError(NothingRecognized);
      } else {
        ShowSuccess(RecognitionComplete);
      }
    }

    /** The page became hidden (or visible): a hidden page stops a listening session and
        says so; otherwise nothing happens. */
    method OnVisibilityChange(hidden: bool)
      requires Valid()
      modifies this`isListening, this`engineCommands, this`notification
      ensures Valid()
      ensures hidden && old(isListening) ==>
                !isListening && engineCommands == old(engineCommands) + [StopCapture]
                && notification == ErrorShown(PausedWhileHidden)
      ensures !(hidden && old(isListening)) ==>
                isListening == old(isListening) && engineCommands == old(engineCommands)
                && notification == old(notification)
    {
      if hidden && isListening {
        StopRecording();
        ShowError(PausedWhileHidden);
      }
    }

    /** The copy button: hands the trimmed text to the clipboard unless it is empty, then
        reports how the clipboard settled; an empty trimmed text is an error and nothing is
        handed over. */
    method CopyText(outcome: ClipboardOutcome)
      modifies this`clipboardWrites, this`notification
      ensures AllWhitespace(display) ==>
                clipboardWrites == old(clipboardWrites) && notification == ErrorShown(NothingToCopy)
      ensures !AllWhitespace(display) ==>
                clipboardWrites == old(clipboardWrites) + [Trim(display)]
                && notification == match outcome
                                   case Written => SuccessShown(Copied)
                                   case Refused(reason) => ErrorShown(CopyFailed(reason))
    {
      match CopyPayload(display)
      case Some(text) =>
        clipboardWrites := clipboardWrites + [text];
        match outcome {
          case Written => ShowSuccess(Copied);
          case Refused(reason) => ShowError(CopyFailed(reason));
        }
      case None =>
        ShowError(NothingToCopy);
    }

    /** The clear button: empties the text area and the committed transcript in every
        state, listening or not, and reports success. */
    method ClearText()
      modifies this`display, this`finalTranscript, this`notification
      ensures display == [] && finalTranscript == []
      ensures isListening == old(isListening)
      ensures notification == SuccessShown(Cleared)
    {
      display := [];
      finalTranscript := [];
      ShowSuccess(Cleared);
    }

    /** The save button: unless the text area is empty, hands its exact content to the
        download service under a name built from the two date strings and reports the name;
        an empty text area is an error and nothing is handed over. */
    method SaveText(isoTimestamp: string, timeString: string)
      modifies this`downloads, this`notification
      ensures display == [] ==>
                downloads == old(downloads) && notification == ErrorShown(NothingToSave)
      ensures display != [] ==>
                downloads == old(downloads) + [Download(FileName(isoTimestamp, timeString), display)]
                && notification == SuccessShown(Saved(FileName(isoTimestamp, timeString)))
    {
      match SavePayload(display, isoTimestamp, timeString)
      case Some(file) =>
        downloads := downloads + [file];
        ShowSuccess(Saved(file.filename));
      case None =>
        ShowError(NothingToSave);
    }

    /** `showError`: hides both banners, then shows `message` in the error banner. */
    method ShowError(message: Message)
      modifies this`notification
      ensures notification == ErrorShown(message)
    {
      HideMessages();
      notification := ErrorShown(message);
    }

    /** `showSuccess`: hides both banners, then shows `message` in the success banner. */
    method ShowSuccess(message: Message)
      modifies this`notification
      ensures notification == SuccessShown(message)
    {
      HideMessages();
      notification := SuccessShown(message);
    }

    /** `hideMessages`: both banners hidden. */
    method HideMessages()
      modifies this`notification
      ensures notification == Hidden
    {
      notification := Hidden;
    }
  }

  /** The end event commits the interim suffix still on display: after a result event from
      an empty transcript that carries only the interim entry `t`, nothing is committed and
      the text area shows `t`; the end event then makes `t` the committed transcript,
      although the engine never marked it final. */
  lemma InterimCommittedAtEnd(t: string)
    requires t != [] && !IsWhitespace(t[0]) && !IsWhitespace(t[|t| - 1])
    ensures FinalSegments([ResultEntry(t, false)]) == ""
    ensures Trim("" + FinalSegments([ResultEntry(t, false)])
                 + InterimSegments([ResultEntry(t, false)])) == t
  {
    var entries := [ResultEntry(t, false)];
    assert FinalSegments(entries) == "" && InterimSegments(entries) == t by {
      assert entries[..0] == [];
    }
    assert "" + "" + t == t;
    assert Trim(t) == t by {
      assert LeadingSpace(t) == 0;
      assert TrailingSpace(t) == 0;
      assert t[0..] == t && t[..|t|] == t;
    }
  }
}
