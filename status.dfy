// The application status around analysis and export, and the classification
// of an analysis failure into an authentication problem or a plain error
// message (App.tsx handleFileUpload / composeVideo).

module Status {
  import opened Types
  import opened JsString
  import Volcano

  /** Files above 800 MiB get a warning, but are still analysed. */
  const OversizeLimit: nat := 800 * 1024 * 1024

  const OversizeWarning: string := "Video is too large (>800MB). Performance may degrade."

  const UnknownAnalysisError: string := "Unknown analysis error"

  /** The export's load failure message. */
  const VideoLoadFailed: string := "Video load failed"

  /** What happened, as far as the status is concerned. */
  datatype Event =
    | FileChosen
    | AnalysisSucceeded
    | AnalysisFailed
    | ExportStarted
    | ExportSucceeded
    | ExportFailed
    | BackToEditor

  /** The status each event sets; none depends on the status before. */
  function After(e: Event): AppStatus {
    match e
    case FileChosen => Analyzing
    case AnalysisSucceeded => Ready
    case AnalysisFailed => Idle
    case ExportStarted => Generating
    case ExportSucceeded => Completed
    case ExportFailed => Ready
    case BackToEditor => Ready
  }

  /** An analysis ends in the editor when it succeeds and back at the upload
      screen when it fails; an export ends at the result dialog when it
      succeeds and in the editor when it fails, and leaving the dialog
      returns to the editor. No event leads to `Uploading`. */
  lemma StatusRoundTrips(e: Event)
    ensures After(AnalysisSucceeded) == Ready && After(AnalysisFailed) == Idle
    ensures After(ExportSucceeded) == Completed && After(ExportFailed) == After(BackToEditor) == Ready
    ensures After(e) != Uploading
    ensures After(e) == Generating <==> e == ExportStarted
    ensures After(e) == Analyzing <==> e == FileChosen
  {
  }

  /** The `catch` test: the message mentions "401", or contains "auth" once
      lower-cased. */
  predicate IsAuthError(message: string) {
    Contains(message, "401") || Contains(ToLowerAscii(message), "auth")
  }

  /** How a rejected analysis is reported: the error shown, and whether the
      key is marked as not selected. */
  datatype FailureReport = FailureReport(error: string, keyRejected: bool)

  /** `message` is `None` when the thrown value has no string message. An
      authentication failure shows the localised `authErrorText` and
      rejects the key; any other failure shows its own message, or a
      generic text when it has none. */
  function ClassifyFailure(message: Option<string>, authErrorText: string): (r: FailureReport)
    ensures r.keyRejected <==> message.Some? && IsAuthError(message.value)
    ensures r.keyRejected ==> r.error == authErrorText
    ensures !r.keyRejected ==>
      r.error != "" && (r.error == UnknownAnalysisError || (message.Some? && r.error == message.value))
  {
    match message
    case None => FailureReport(UnknownAnalysisError, false)
    case Some(m) =>
      if IsAuthError(m) then FailureReport(authErrorText, true)
      else FailureReport(if m == "" then UnknownAnalysisError else m, false)
  }

  lemma ToLowerAsciiAppend(a: string, b: string)
    ensures ToLowerAscii(a + b) == ToLowerAscii(a) + ToLowerAscii(b)
  {
  }

  /** "auth" in any letter case anywhere in the message counts, as in
      "Unauthorized" or "AUTH_FAILED". */
  lemma AuthInAnyCase(a: string, word: string, b: string)
    requires ToLowerAscii(word) == "auth"
    ensures IsAuthError(a + word + b)
  {
    ToLowerAsciiAppend(a + word, b);
    ToLowerAsciiAppend(a, word);
    ContainsInMiddle(ToLowerAscii(a), "auth", ToLowerAscii(b));
  }

  /** A 401 reply from the analysis service rejects the key, whatever the
      error body says. */
  lemma UnauthorizedReplyRejectsKey(errorText: string, parse: string -> Result<Volcano.Parsed, string>,
                                    authErrorText: string)
    ensures var m := Volcano.ReplyItems(Volcano.Response(false, 401, errorText, None), parse);
      ClassifyFailure(Some(Volcano.Rethrown(m.error)), authErrorText) == FailureReport(authErrorText, true)
  {
    Volcano.UnauthorizedMentions401(errorText, parse);
  }

  /** Failures from the analysis service always carry a message, so the
      generic text only appears for foreign errors: a non-authentication
      failure shows exactly the service's message. */
  lemma ServiceFailureShowsItsMessage(message: string, authErrorText: string)
    requires !IsAuthError(Volcano.Rethrown(message))
    ensures ClassifyFailure(Some(Volcano.Rethrown(message)), authErrorText).error == Volcano.Rethrown(message)
  {
  }
}
