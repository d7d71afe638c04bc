/** The notification banners and the user-facing messages of script.js. */
module Notices {
  import opened Support

  /** Which message a banner shows; `MessageText` gives its wording. */
  datatype Message =
    | InitFailed(cause: SupportError)
    | NotInitialized
    | PausedWhileHidden
    | RecognitionFailed(code: string)
    | NothingRecognized
    | RecognitionComplete
    | Copied
    | CopyFailed(reason: string)
    | NothingToCopy
    | Cleared
    | Saved(filename: string)
    | NothingToSave

  /** What the two banners show. The error banner and the success banner are never shown
      together: showing one hides the other, so one value describes both. */
  datatype Notification = Hidden | ErrorShown(message: Message) | SuccessShown(message: Message)

  const InitFailedPrefix := "Không thể khởi tạo ứng dụng: "
  const NotInitializedText := "Ứng dụng chưa được khởi tạo. Vui lòng thử lại."
  const PausedWhileHiddenText := "Ghi âm tạm dừng vì trang bị ẩn."
  const NothingRecognizedText := "Không có văn bản nào được nhận dạng."
  const RecognitionCompleteText := "Nhận dạng hoàn tất!"
  const CopiedText := "Đã sao chép văn bản vào clipboard!"
  const CopyFailedPrefix := "Không thể sao chép văn bản: "
  const NothingToCopyText := "Không có văn bản để sao chép."
  const ClearedText := "Đã xóa tất cả văn bản."
  const SavedPrefix := "Đã lưu văn bản vào file \""
  const NothingToSaveText := "Không có văn bản để lưu."

  /** The text of each message, as the page shows it. */
  function MessageText(m: Message): (r: string)
    ensures r != []
  {
    match m
    case InitFailed(cause) => InitFailedPrefix + SupportErrorMessage(cause)
    case NotInitialized => NotInitializedText
    case PausedWhileHidden => PausedWhileHiddenText
    case RecognitionFailed(code) => RecognitionErrorMessage(code)
    case NothingRecognized => NothingRecognizedText
    case RecognitionComplete => RecognitionCompleteText
    case Copied => CopiedText
    case CopyFailed(reason) => CopyFailedPrefix + reason
    case NothingToCopy => NothingToCopyText
    case Cleared => ClearedText
    case Saved(filename) => SavedPrefix + filename + "\""
    case NothingToSave => NothingToSaveText
  }

  /** The messages built from a detail keep that detail verbatim: the clipboard's failure
      reason at the end, the saved file's name between the closing quotes, an unrecognised
      error code before the closing parenthesis. */
  lemma MessageTextKeepsDetail(m: Message)
    ensures m.CopyFailed? ==>
              |MessageText(m)| > |m.reason| && MessageText(m)[|MessageText(m)| - |m.reason|..] == m.reason
    ensures m.Saved? ==>
              |MessageText(m)| > |m.filename| + 1
              && MessageText(m)[|MessageText(m)| - |m.filename| - 1..|MessageText(m)| - 1] == m.filename
    ensures m.RecognitionFailed? && m.code !in KnownErrorCodes ==>
              |MessageText(m)| > |m.code| + 1
              && MessageText(m)[|MessageText(m)| - |m.code| - 1..|MessageText(m)| - 1] == m.code
  {
    match m
    case RecognitionFailed(code) =>
      assert MessageText(m) == RecognitionErrorMessage(code);
    case CopyFailed(reason) =>
      var prefix := CopyFailedPrefix;
      var t := MessageText(m);
      assert t == prefix + reason;
      assert t[|prefix|..] == reason by {
        assert (prefix + reason)[|prefix|..] == reason;
      }
    case Saved(filename) =>
      var prefix := SavedPrefix;
      var t := MessageText(m);
      assert t == prefix + filename + "\"";
      assert t[|prefix|..|t| - 1] == filename by {
        assert (prefix + filename + "\"")[|prefix|..|prefix| + |filename|] == filename;
      }
    case _ =>
  }

  /** The initialisation failure message tells the two causes apart. */
  lemma InitFailureTellsCause(a: SupportError, b: SupportError)
    ensures MessageText(InitFailed(a)) == MessageText(InitFailed(b)) <==> a == b
  {
    if a != b {
      // The two causes' messages differ in their next-to-last character.
      var ta, tb := MessageText(InitFailed(a)), MessageText(InitFailed(b));
      var prefix := InitFailedPrefix;
      assert ta == prefix + SupportErrorMessage(a);
      assert tb == prefix + SupportErrorMessage(b);
      assert ta[|ta| - 2] != tb[|tb| - 2];
    }
  }

  // ---- Recognition error codes ----

  const GenericRecognitionError := "Đã xảy ra lỗi trong quá trình nhận dạng giọng nói."
  const PermissionDenied := "Bạn đã từ chối quyền truy cập microphone. Vui lòng cho phép truy cập để sử dụng tính năng này."
  const NoSpeech := "Không phát hiện giọng nói. Vui lòng nói rõ ràng hơn."
  const AudioCapture := "Không thể truy cập microphone. Vui lòng kiểm tra kết nối microphone."
  const NetworkFailure := "Lỗi mạng. Vui lòng kiểm tra kết nối internet của bạn."
  const BadGrammar := "Không thể hiểu được ngữ pháp. Vui lòng nói rõ ràng hơn."
  const LanguageNotSupported := "Ngôn ngữ (vi-VN) không được hỗ trợ hoặc cấu hình sai."

  /** The two codes that mean the microphone permission was refused. */
  const PermissionCodes: set<string> := {"not-allowed", "denied"}

  /** The codes with a message of their own. */
  const KnownErrorCodes: set<string> :=
    PermissionCodes + {"no-speech", "audio-capture", "network", "bad-grammar", "language-not-supported"}

  /** The message `onRecognitionError` shows for an engine error code. Total: an unknown code
      gets the generic message with the raw code appended in parentheses. */
  function RecognitionErrorMessage(code: string): (m: string)
    ensures m != []
    ensures code in PermissionCodes ==> m == PermissionDenied
    ensures code !in KnownErrorCodes ==>
              GenericRecognitionError <= m && |m| > |code|
              && m[|m| - 1 - |code|..|m| - 1] == code
  {
    if code == "not-allowed" || code == "denied" then PermissionDenied
    else if code == "no-speech" then NoSpeech
    else if code == "audio-capture" then AudioCapture
    else if code == "network" then NetworkFailure
    else if code == "bad-grammar" then BadGrammar
    else if code == "language-not-supported" then LanguageNotSupported
    else
      var m := GenericRecognitionError + " (Mã lỗi: " + code + ")";
      assert m[|m| - 1 - |code|..|m| - 1] == code;
      m
  }

  /** The message tells the code apart: two codes get the same message exactly when they are
      the same code or both are permission refusals. So every unknown code is reported with a
      message no other code shares. */
  lemma RecognitionErrorMessageDistinguishes(a: string, b: string)
    ensures RecognitionErrorMessage(a) == RecognitionErrorMessage(b)
            <==> a == b || (a in PermissionCodes && b in PermissionCodes)
  {
    if a in KnownErrorCodes && b in KnownErrorCodes {
      KnownMessagesDistinct(a, b);
    } else if a !in KnownErrorCodes && b !in KnownErrorCodes {
      UnknownMessagesDistinct(a, b);
    } else {
      MessageEnding(a);
      MessageEnding(b);
    }
  }

  /** The code a listed code stands for: both permission codes read as "not-allowed". */
  function CanonicalCode(code: string): string {
    if code in PermissionCodes then "not-allowed" else code
  }

  /** Reads the code back from a listed code's message. Their lengths tell them apart,
      except for two messages of 53 characters, which differ in their next-to-last one. */
  function DecodeKnownMessage(m: string): string {
    if |m| == 94 then "not-allowed"
    else if |m| == 52 then "no-speech"
    else if |m| == 68 then "audio-capture"
    else if |m| == 55 then "bad-grammar"
    else if |m| == 53 && m[51] == 'n' then "network"
    else "language-not-supported"
  }

  /** Decoding a listed code's message gives the code back, permission codes merged. */
  lemma DecodeKnownMessageInverts(code: string)
    requires code in KnownErrorCodes
    ensures DecodeKnownMessage(RecognitionErrorMessage(code)) == CanonicalCode(code)
  {
    assert |PermissionDenied| == 94 && |NoSpeech| == 52 && |AudioCapture| == 68;
    assert |NetworkFailure| == 53 && |BadGrammar| == 55 && |LanguageNotSupported| == 53;
    assert NetworkFailure[51] == 'n' && LanguageNotSupported[51] == 'i';
  }

  lemma KnownMessagesDistinct(a: string, b: string)
    requires a in KnownErrorCodes && b in KnownErrorCodes
    ensures RecognitionErrorMessage(a) == RecognitionErrorMessage(b)
            <==> a == b || (a in PermissionCodes && b in PermissionCodes)
  {
    DecodeKnownMessageInverts(a);
    DecodeKnownMessageInverts(b);
  }

  lemma UnknownMessagesDistinct(a: string, b: string)
    requires a !in KnownErrorCodes && b !in KnownErrorCodes
    ensures RecognitionErrorMessage(a) == RecognitionErrorMessage(b) <==> a == b
  {
    var ma, mb := RecognitionErrorMessage(a), RecognitionErrorMessage(b);
    var g := GenericRecognitionError + " (Mã lỗi: ";
    if ma == mb {
      assert ma == g + a + ")" && mb == g + b + ")";
      assert |a| == |b|;
      assert a == ma[|g|..|g| + |a|];
      assert b == mb[|g|..|g| + |b|];
    }
  }

  /** Every code-specific message ends with a full stop; the fallback ends with the closing
      parenthesis after the raw code. */
  lemma MessageEnding(code: string)
    ensures RecognitionErrorMessage(code)[|RecognitionErrorMessage(code)| - 1]
            == if code in KnownErrorCodes then '.' else ')'
  {
  }
}
