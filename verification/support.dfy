/** The browser-support check that gates initialisation (script.js `checkBrowserSupport`). */
module Support {
  import opened Wrappers

  /** What the check reads from the page: which speech-recognition constructors exist on
      `window`, and `location.protocol` and `location.hostname`. */
  datatype Environment = Environment(
    hasSpeechRecognition: bool,
    hasWebkitSpeechRecognition: bool,
    protocol: string,
    hostname: string)

  datatype SupportError = UnsupportedBrowser | InsecureContext

  const UnsupportedBrowserMessage :=
    "Trình duyệt không hỗ trợ nhận dạng giọng nói. Vui lòng sử dụng Chrome, Edge, Safari hoặc Firefox mới nhất."
  const InsecureContextMessage :=
    "Ứng dụng cần chạy trên HTTPS hoặc localhost để truy cập microphone."

  /** The `message` of the error the check rejects with: a complete sentence, whose
      next-to-last character already tells the two causes apart. */
  function SupportErrorMessage(e: SupportError): (r: string)
    ensures |r| >= 2 && r[|r| - 1] == '.'
    ensures r[|r| - 2] == if e.UnsupportedBrowser? then 't' else 'e'
  {
    match e
    case UnsupportedBrowser => UnsupportedBrowserMessage
    case InsecureContext => InsecureContextMessage
  }

  /** A recognition constructor is present under either name. */
  predicate HasRecognition(env: Environment) {
    env.hasSpeechRecognition || env.hasWebkitSpeechRecognition
  }

  /** The page may use the microphone: served over HTTPS or from the loopback host. */
  predicate IsSecureOrigin(env: Environment) {
    env.protocol == "https:" || env.hostname == "localhost" || env.hostname == "127.0.0.1"
  }

  /** The check: a missing API is reported first; an insecure origin only when the API exists. */
  function CheckBrowserSupport(env: Environment): (r: Outcome<SupportError>)
    ensures r == Fail(UnsupportedBrowser) <==> !HasRecognition(env)
    ensures r == Fail(InsecureContext) <==> HasRecognition(env) && !IsSecureOrigin(env)
    ensures r == Pass <==> HasRecognition(env) && IsSecureOrigin(env)
  {
    if !env.hasWebkitSpeechRecognition && !env.hasSpeechRecognition then Fail(UnsupportedBrowser)
    else if env.protocol != "https:" && env.hostname != "localhost" && env.hostname != "127.0.0.1" then
      Fail(InsecureContext)
    else Pass
  }
}
