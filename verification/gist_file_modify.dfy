/** The gist-file editing screen (`GistFileModifyViewController`): its save
    command, the alert a failed save raises, and the screen title. */
module GistFileModify {
  import opened Common

  const NoContentMessage: string := "You cannot save a file without content!"
  const AlertTitle: string := "Error"
  const DefaultTitle: string := "Gist File"

  /** `String.IsNullOrEmpty`. */
  predicate IsNullOrEmpty(s: Option<string>) {
    s.None? || |s.value| == 0
  }

  /** The `Save` callback the presenting screen supplies. Given the filename and
      the content it returns the message of the exception it throws, or None
      when it returns normally. */
  type SaveCallback = (Option<string>, string) -> Option<string>

  /** One invocation of the `Save` callback. */
  datatype SaveCall = SaveCall(filename: Option<string>, content: string)

  /** How the command's task ends. */
  datatype Outcome = Completed | Threw(message: string)

  /** The callback invocations one execution of the command made, and how it ended. */
  datatype SaveRun = SaveRun(calls: seq<SaveCall>, outcome: Outcome)

  datatype Alert = Alert(title: string, text: string)

  /** `SaveCommand`: refuse missing content, otherwise hand the filename and
      content, unvalidated, to the callback if there is one. */
  function SaveCommand(filename: Option<string>, content: Option<string>, save: Option<SaveCallback>): (r: SaveRun)
    ensures |r.calls| <= 1
    ensures IsNullOrEmpty(content) ==> r.calls == [] && r.outcome == Threw(NoContentMessage)
    ensures |r.calls| == 1 <==> !IsNullOrEmpty(content) && save.Some?
    ensures |r.calls| == 1 ==> r.calls[0] == SaveCall(filename, content.value)
    ensures r.outcome.Completed? <==>
      !IsNullOrEmpty(content) && (save.None? || save.value(filename, content.value).None?)
  {
    if IsNullOrEmpty(content) then SaveRun([], Threw(NoContentMessage))
    else
      match save
      case None => SaveRun([], Completed)
      case Some(callback) =>
        var call := [SaveCall(filename, content.value)];
        match callback(filename, content.value)
        case None => SaveRun(call, Completed)
        case Some(message) => SaveRun(call, Threw(message))
  }

  /** The `ThrownExceptions` subscription: every failure is shown as an alert
      titled "Error" carrying the exception's message; success shows nothing. */
  function AlertFor(run: SaveRun): (a: Option<Alert>)
    ensures a.Some? <==> run.outcome.Threw?
    ensures a.Some? ==> a.value.title == AlertTitle && a.value.text == run.outcome.message
  {
    match run.outcome
    case Completed => None
    case Threw(message) => Some(Alert(AlertTitle, message))
  }

  /** The title rule applied whenever `Filename` changes. */
  function Title(filename: Option<string>): (t: string)
    ensures |t| > 0
    ensures !IsNullOrEmpty(filename) ==> t == filename.value
    ensures IsNullOrEmpty(filename) ==> t == DefaultTitle
  {
    if IsNullOrEmpty(filename) then DefaultTitle else filename.value
  }

  /** The title is the placeholder exactly when there is no filename to show
      or the filename happens to be the placeholder itself. */
  lemma TitleIsPlaceholderIff(filename: Option<string>)
    ensures Title(filename) == DefaultTitle <==>
      IsNullOrEmpty(filename) || filename.value == DefaultTitle
  {
  }

  /** Saving without content fails, alerts the user with the fixed message and
      never reaches the callback. */
  lemma EmptyContentIsRefused(filename: Option<string>, content: Option<string>, save: Option<SaveCallback>)
    requires IsNullOrEmpty(content)
    ensures var run := SaveCommand(filename, content, save);
      && run.calls == []
      && AlertFor(run) == Some(Alert(AlertTitle, NoContentMessage))
  {
  }

  /** The filename is not validated: a null or empty filename with content is
      handed to a callback that returns normally, and the save succeeds. */
  lemma MissingFilenameStillSaves(filename: Option<string>, content: Option<string>, callback: SaveCallback)
    requires IsNullOrEmpty(filename)
    requires !IsNullOrEmpty(content)
    requires callback(filename, content.value).None?
    ensures SaveCommand(filename, content, Some(callback)) ==
      SaveRun([SaveCall(filename, content.value)], Completed)
  {
  }

  /** With no callback set, saving content succeeds with no effect and no alert. */
  lemma NoCallbackSucceedsQuietly(filename: Option<string>, content: Option<string>)
    requires !IsNullOrEmpty(content)
    ensures var run := SaveCommand(filename, content, None);
      run == SaveRun([], Completed) && AlertFor(run).None?
  {
  }

  /** An exception from the callback itself ends the command and is shown the
      same way as the validation failure. */
  lemma CallbackFailureIsAlerted(filename: Option<string>, content: Option<string>, callback: SaveCallback)
    requires !IsNullOrEmpty(content)
    requires callback(filename, content.value).Some?
    ensures AlertFor(SaveCommand(filename, content, Some(callback))) ==
      Some(Alert(AlertTitle, callback(filename, content.value).value))
  {
  }
}
