# Vietnamese speech-to-text session, modelled in Dafny

The original program is a single-page browser utility. It wraps the browser's speech
recognition engine, set to the `vi-VN` locale, into a live dictation box. Its one class,
`VietnameseSpeechToText` in `script.js`, keeps this state:

- two flags, `isInitialized` and `isListening`;
- a committed transcript, `finalTranscript`;
- the value of the text area, which the user may also edit;
- two mutually exclusive notification banners, one for errors and one for successes.

The engine calls back with result, error, start and end events. The user acts through the
microphone button and the copy, clear and save buttons.

This project models that state machine and its string handling:

- `Session.SpeechToText` is a class with the source's fields. It has one method per engine
  event, per user action (typing into the text area included) and per page-visibility
  change. Each method states the complete new state. The class also keeps logs of
  what it hands to the outside: engine commands, clipboard texts and downloaded files.
- `Recognition` holds the loop that folds a result event into committed text and an
  interim suffix. Its specification functions are proved equal to an independent
  "filter, then join" description. They are also lifted to any run of result events.
- `Notices` holds the notification datatype, the message texts and the total
  error-code table. It proves that the message identifies the code, up to the two
  permission codes, which share one message.
- `Support` is the browser-support and secure-origin check.
- `Export` builds the clipboard text, the download and its file name.
- `Text` defines JavaScript's `trim`, `slice(0, n)` and a single-character global
  `replace` over `seq<char>`, with their characterising lemmas.
- `Wrappers` holds `Option` and `Outcome`.

Browser inputs are method parameters:

- which recognition constructors exist, plus `location.protocol` and `location.hostname`;
- the results list and its `resultIndex`;
- error codes and the page's hidden state;
- the clipboard promise's outcome;
- the strings `Date.toISOString()` and `Date.toTimeString()` return.

Four facts about the code shape the model:

- Besides the committed transcript and the text area, the session keeps only the two
  booleans, `isInitialized` and `isListening`, and the engine reference. There is no
  separate status value.
- A result event that arrives after `stopRecording` but before the end event still updates
  the text. So once listening has stopped, the displayed text is not always the committed
  text alone.
- `startRecording` does not check `isListening` itself; only `toggleRecording` guards it.
- The end event commits whatever the text area shows, trimmed, and that includes the
  interim suffix of the last result event. Text the engine never marked final can
  therefore end up in the committed transcript.

## Model

| member | source | states |
|---|---|---|
| `Text.Trim` | script.js:254 | `trim` never lengthens the text; `TrimSpec` pins the result down. |
| `Text.TrimSpec` | script.js:254 | `trim` returns the infix of its argument left after cutting only whitespace from both ends. The result neither starts nor ends with whitespace, and it is empty exactly when the input is all whitespace. |
| `Text.TrimIdempotent` | script.js:254-255 | Trimming already trimmed text changes nothing, so running the end-of-session commit twice gives the same text. |
| `Text.LeadingSpace` | script.js:254 | Counts the leading whitespace: every counted character is whitespace, and the first one not counted is not. |
| `Text.TrailingSpace` | script.js:254 | Counts the trailing whitespace: every counted character is whitespace, and the last one not counted is not. |
| `Text.Prefix` | script.js:313-314 | `slice(0, n)` is a prefix of the string, of length `n` or the whole string when it is shorter. |
| `Text.ReplaceChar` | script.js:314 | The global replace keeps the length and changes exactly the matching characters. When the replacement differs, the replaced character no longer occurs. |
| `Recognition.ScanResults` | script.js:188-198 | The loop's two accumulators end up equal to the final segments and the interim segments of the visited entries. |
| `Recognition.FinalSegmentsAreFinalTranscripts` | script.js:193-194 | The committed-text contribution is exactly the final transcripts, in delivery order, each followed by one space. |
| `Recognition.InterimSegmentsAreInterimTranscripts` | script.js:195-196 | The interim suffix is exactly the non-final transcripts, in delivery order, with no separator. |
| `Recognition.InterimNeverCommitted` | script.js:193-201 | Runs with the same final transcripts commit the same text, whatever interim entries are interleaved. |
| `Recognition.FinalSegmentsAppend` | script.js:194 | The committed-text contribution of two runs in sequence is the concatenation of their contributions. |
| `Recognition.FinalTranscriptsAppend` | script.js:193-194 | Splitting the entries splits the list of final transcripts. |
| `Recognition.InterimTranscriptsAppend` | script.js:195-196 | Splitting the entries splits the list of interim transcripts. |
| `Recognition.SpaceTerminatedAppend` | script.js:194 | Joining with a trailing space after each transcript distributes over concatenation. |
| `Recognition.ConcatAppend` | script.js:196 | Joining without a separator distributes over concatenation. |
| `Recognition.CommittedIsFinalSegments` | script.js:201 | After any run of result events, the committed text is the starting text followed by the final segments of everything delivered. |
| `Recognition.CommittedAcrossEvents` | script.js:187-201 | After any run of result events, the committed text is the starting text followed by every delivered final transcript, in order, each with one trailing space. The starting text is a prefix. |
| `Notices.RecognitionErrorMessage` | script.js:214-239 | The error-code table is total and never empty. Both permission codes give the permission message. For any unlisted code the generic message is a prefix and the raw code sits immediately before the final character; `MessageEnding` says that character is `)`. |
| `Notices.RecognitionErrorMessageDistinguishes` | script.js:216-238 | Two codes get the same message if and only if they are the same code or both are permission refusals. |
| `Notices.DecodeKnownMessageInverts` | script.js:216-235 | Each listed code can be read back from its message, with the two permission codes read as `not-allowed`. The decoder looks only at the length, and at the next-to-last character for the two 53-character messages. |
| `Notices.KnownMessagesDistinct` | script.js:217-235 | Among the seven listed codes, the messages coincide exactly for equal codes or the two permission codes. |
| `Notices.UnknownMessagesDistinct` | script.js:236-237 | Two unlisted codes get the same message only when they are the same code. |
| `Notices.MessageEnding` | script.js:219-237 | Listed codes get a message ending in a full stop; unlisted codes get one ending in the closing parenthesis. |
| `Notices.MessageText` | script.js:41-326 | Every banner message the page shows (lines 41, 120, 130, 259, 261, 287-290, 301, 324 and 326) has non-empty text, whatever its detail. |
| `Notices.MessageTextKeepsDetail` | script.js:237-324 | The clipboard failure reason (line 288) ends its message. The saved file name (line 324) and an unlisted error code (line 237) each sit verbatim just before the message's last character. |
| `Notices.InitFailureTellsCause` | script.js:41-58 | The initialisation-failure messages of the two support failures are equal exactly when the causes are. |
| `Support.SupportErrorMessage` | script.js:52-58 | Each support failure has a message that ends in a full stop. The next-to-last character alone tells the two failures apart. |
| `Support.CheckBrowserSupport` | script.js:49-63 | The check rejects as unsupported exactly when neither recognition constructor exists, and this is tested first. Otherwise it rejects as insecure exactly when the protocol is not `https:` and the host is neither `localhost` nor `127.0.0.1`. It passes in every other case. |
| `Export.FileName` | script.js:312-315 | The file name starts with `speech-to-text-`. Its length is that prefix, the date part (at most 10 characters), a dash, the time part (at most 8 characters) and `.txt`. |
| `Export.FileNameParts` | script.js:313-315 | After `speech-to-text-` the name holds the first 10 characters of the ISO timestamp unchanged, then a dash. Next come the first 8 characters of the time string with each `:` turned into `-` and nothing else changed, then `.txt`. The time part contains no `:`. |
| `Export.CopyPayload` | script.js:284-291 | Copy hands over text exactly when the display is not all whitespace. The text is the trimmed display: non-empty, with no whitespace at either end. |
| `Export.SaveAcceptsWhatCopyAccepts` | script.js:284-315 | Whatever copy accepts, save accepts too, and the copied text is the saved content trimmed. A non-empty all-whitespace display is refused by copy but saved unchanged under `FileName`. |
| `Export.SaveExample` | script.js:309-315 | Saving "xin chào " with the UTC timestamp 2024-01-02T03:04:05.000Z and the time string "03:04:05 GMT+0000" keeps the trailing space and names the file `speech-to-text-2024-01-02-03-04-05.txt`. |
| `Export.MixedZoneExample` | script.js:313-315 | The date comes from the UTC timestamp and the time from the local time string. At 03:04:05 local time in UTC+7 on 2024-01-02, the name is `speech-to-text-2024-01-01-03-04-05.txt`: the previous day's date with the local time. |
| `Export.CopyExample` | script.js:284-290 | Copying "  test  " hands over "test". An empty or blank display hands over nothing. |
| `Session.SpeechToText.constructor` | script.js:7-44 | At page load the session is initialised exactly when the support check passes, and is not listening. Otherwise the error banner shows the check's reason. |
| `Session.SpeechToText.Init` | script.js:25-44 | On a passing check, the engine is created and the session becomes initialised. On a failing check, the init-failure message is shown and no flag changes. Only the constructor calls it. |
| `Session.SpeechToText.EditText` | script.js:112-114 | Typing into the text area replaces the display and changes nothing else. |
| `Session.SpeechToText.ToggleRecording` | script.js:128-139 | Before initialisation: an error, and listening state, transcript and engine commands are unchanged. Otherwise it stops when listening and starts when not. The class invariant is kept. |
| `Session.SpeechToText.StartRecording` | script.js:144-156 | With an engine: the display becomes the committed transcript, a start command is sent, the session is listening and the banners are hidden. Without an engine, nothing changes. |
| `Session.SpeechToText.StopRecording` | script.js:161-170 | Afterwards the session is not listening. A stop command is sent only when it was listening; otherwise nothing happens. |
| `Session.SpeechToText.OnRecognitionStart` | script.js:175-181 | The engine's start event hides both banners. |
| `Session.SpeechToText.OnRecognitionResult` | script.js:187-204 | The committed transcript grows by the event's final segments. The display becomes the committed transcript followed by the interim segments. The old transcript is a prefix of the new one, which is a prefix of the display. |
| `Session.SpeechToText.OnRecognitionError` | script.js:210-241 | The session always ends not listening, stopping first if it was listening. The error banner shows the code's message. |
| `Session.SpeechToText.OnRecognitionEnd` | script.js:246-263 | The session ends not listening. The committed transcript and the display both become the trimmed old display. It reports an error exactly when the old display was all whitespace, and success otherwise. |
| `Session.SpeechToText.OnVisibilityChange` | script.js:117-122 | A hidden page stops a listening session and shows the paused message. Otherwise nothing changes. |
| `Session.SpeechToText.CopyText` | script.js:283-292 | An all-whitespace display is an error and nothing is copied. Otherwise the trimmed display is handed to the clipboard, followed by success or the failure reason. |
| `Session.SpeechToText.ClearText` | script.js:297-303 | Display and committed transcript become empty in every state. Listening is untouched, and success is reported. |
| `Session.SpeechToText.SaveText` | script.js:308-328 | An empty display is an error and nothing is downloaded. Otherwise the exact display is downloaded under `FileName`, and the success message names the file. |
| `Session.InterimCommittedAtEnd` | script.js:246-256 | Starting from an empty transcript, a result event (script.js:187-204) whose only entry is the interim transcript `t` commits nothing. The end event then commits `t` itself, for any `t` with no whitespace at either end. |
| `Session.SpeechToText.ShowError` | script.js:359-365 | Only the error banner is visible, with the given message. |
| `Session.SpeechToText.ShowSuccess` | script.js:371-377 | Only the success banner is visible, with the given message. |
| `Session.SpeechToText.HideMessages` | script.js:382-385 | Both banners are hidden. |

## Left out

- The DOM is not modelled: element lookup, the mic button's and the status line's CSS classes, the status text, disabling the mic button after a failed initialisation, `focus()`, `autoResizeTextarea` and console logging. None of it feeds back into the modelled state.
- The notification auto-hide timers (`setTimeout`, 5 s and 3 s) are not modelled. A banner stays until the next show or hide. An older timer hiding a newer banner early is not captured.
- `CopyText`: the clipboard promise settles immediately in the model. Its outcome is a parameter, so events that could run before it settles are not interleaved.
- The file download is not modelled (`Blob`, UTF-8 encoding, object URL, anchor click). Only the file name and text content handed over are recorded.
- `Date` formatting is not modelled. `toISOString` is UTC, `toTimeString` is local time, and both depend on the time zone. Their result strings are parameters.
- The speech-recognition engine is not modelled: its configuration (continuous, interim results, `vi-VN`, one alternative), its start and stop commands beyond a log entry, and event registration. Each result entry carries only its first alternative's transcript. A missing alternative, which would throw in the source, cannot occur.
- Exceptions the browser may throw are not modelled, such as `recognition.start()` on a running engine.
- The keyboard shortcuts (Ctrl+Space toggles, Ctrl+S saves) are not modelled. Each only calls `ToggleRecording` or `SaveText`. Suppressing Enter outside the text area is not modelled either.
- Every user-action method (`ToggleRecording`, `CopyText`, `ClearText`, `SaveText`, `OnVisibilityChange`) may run whether or not initialisation succeeded. This over-approximates the page: a failed support check skips `initializeSpeechRecognition` and `setupEventListeners` (script.js:33-35), so no button, keyboard or visibility listener exists and only typing (`EditText`) can change the state. The engine-event methods do require an engine, because their callbacks are attached only when it is created (script.js:80-83).
- The asynchronous gap between construction and the end of `init` is not modelled. No listener is registered during it, so no modelled event can arrive.
- JavaScript strings are UTF-16 code units, and Dafny strings here are sequences of Unicode characters. The difference only matters for `slice` on the date and time strings, which are ASCII.
- `Export.FileNameParts`: it does not say that the date part is free of `:`. That depends on the `Date` output, which is a parameter.
