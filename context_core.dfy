/** The `context_core` crate: the same git helpers as the gitscribe crate
    (modelled once, in module Git), a `generate_context` without a Jira
    section, and a blocking, non-streaming `call_ollama`. */
module ContextCore {
  import opened Wrappers
  import opened Text
  import opened Git
  import opened Ollama
  import GitscribeCore
  import Jira
  import OllamaStream

  const Title: string := "# Release Context\n\n## Strategic Context / Adhoc Notes\n"
  const HistoryHeading: string := "\n\n## Commit History\n"
  const ChangesHeading: string := "\n\n## Code Changes\n```diff\n"
  const Fence: string := "\n```"

  /** The document: the notes, then the commit history, then the diff in a
      `diff` fence, the sections separated by blank lines. */
  function PlainLayout(notes: string, log: string, diff: string): string {
    Title + notes + HistoryHeading + log + ChangesHeading + diff + Fence
  }

  /** The sections come in a fixed order: the title and notes open the
      document, the history follows the notes, and the fenced diff closes
      it. */
  lemma PlainLayoutOrder(notes: string, log: string, diff: string)
    ensures StartsWith(PlainLayout(notes, log, diff), Title + notes + HistoryHeading + log)
    ensures EndsWith(PlainLayout(notes, log, diff), ChangesHeading + diff + Fence)
  {
    var head := Title + notes + HistoryHeading + log;
    var tail := ChangesHeading + diff + Fence;
    assert PlainLayout(notes, log, diff) == head + tail;
  }

  lemma NotesLead(notes: string, log: string, diff: string)
    ensures StartsWith(PlainLayout(notes, log, diff), Title + notes)
  {
    var head := Title + notes;
    assert PlainLayout(notes, log, diff) == head + (HistoryHeading + log + ChangesHeading + diff + Fence);
  }

  /** It is the gitscribe layout with an empty Jira part. */
  lemma PlainIsJiraLess(notes: string, log: string, diff: string)
    ensures PlainLayout(notes, log, diff) == GitscribeCore.Layout(notes, "", log, diff)
  {
    assert "\n" + "" + "\n## Commit History\n" == HistoryHeading;
    SplitHeading(Title + notes, "\n", "", "\n## Commit History\n", HistoryHeading);
  }

  /** A heading written in three pieces is the same as written whole. */
  lemma SplitHeading(p: string, x: string, y: string, z: string, h: string)
    requires h == x + y + z
    ensures p + x + y + z == p + h
  {
  }

  /** `generate_context`: the notes or their placeholder, then the log, then
      the diff; the first failure is the result. */
  function GenerateContext(start: string, end: string, notes: Option<string>, git: GitRunner)
    : (r: Result<string, GitError>)
    ensures GetGitLog(start, end, git).Err? ==> r == Err(GetGitLog(start, end, git).error)
    ensures GetGitLog(start, end, git).Ok? && GitDiff(start, end, git).Err?
      ==> r == Err(GitDiff(start, end, git).error)
    ensures r.Ok? <==> GetGitLog(start, end, git).Ok? && GitDiff(start, end, git).Ok?
    ensures r.Ok? ==> StartsWith(r.value, Title + GitscribeCore.NotesOr(notes))
  {
    var notesContent := GitscribeCore.NotesOr(notes);
    var log := GetGitLog(start, end, git);
    if log.Err? then Err(log.error)
    else
      var diff := GitDiff(start, end, git);
      if diff.Err? then Err(diff.error)
      else
        NotesLead(notesContent, log.value, diff.value);
        Ok(PlainLayout(notesContent, log.value, diff.value))
  }

  /** Without Jira the two crates produce the same document and the same
      errors. */
  lemma AgreesWithoutJira(start: string, end: string, notes: Option<string>, git: GitRunner,
                          tracker: Jira.Request -> Jira.HttpOutcome, arrive: GitscribeCore.Arrival)
    ensures GenerateContext(start, end, notes, git)
         == GitscribeCore.ContextResult(start, end, notes, git, None, tracker, arrive)
  {
    var log := GetGitLog(start, end, git);
    var diff := GitDiff(start, end, git);
    if log.Ok? && diff.Ok? {
      SameDocument(GitscribeCore.NotesOr(notes), log.value, diff.value, tracker, arrive);
    }
  }

  lemma SameDocument(n: string, log: string, diff: string,
                     tracker: Jira.Request -> Jira.HttpOutcome, arrive: GitscribeCore.Arrival)
    ensures GitscribeCore.Layout(n, GitscribeCore.JiraPart(None, log, tracker, arrive), log, diff)
         == PlainLayout(n, log, diff)
  {
    assert GitscribeCore.JiraPart(None, log, tracker, arrive) == "";
    PlainIsJiraLess(n, log, diff);
  }

  /** The request the blocking `call_ollama` posts: never streaming, with
      `system` exactly when a system prompt is given. */
  function BlockingRequest(model: string, url: string, prompt: string, system: Option<string>)
    : (r: OllamaRequest)
    ensures !r.payload.stream
    ensures r.url == url && r.payload.model == model && r.payload.prompt == prompt
    ensures r.payload.system == system
  {
    BuildRequest(model, url, prompt, system, false)
  }

  /** `call_ollama` of the `context_core` crate: the `response` string of a
      2xx JSON reply, verbatim; a send failure, a non-2xx status (with its
      body), a body that is not JSON, and a missing or non-string
      `response` are errors. */
  function CallOllama(model: string, url: string, prompt: string, system: Option<string>, server: Server)
    : (r: Result<string, OllamaError>)
    ensures var reply := server(BlockingRequest(model, url, prompt, system));
      r.Ok? <==> reply.Answered? && IsSuccess(reply.status) && reply.json.Some? && reply.json.value.TextValue?
    ensures var reply := server(BlockingRequest(model, url, prompt, system));
      r.Ok? ==> r.value == reply.json.value.text
    ensures var reply := server(BlockingRequest(model, url, prompt, system));
      reply.SendFailed? ==> r == Err(SendError(reply.reason))
    ensures var reply := server(BlockingRequest(model, url, prompt, system));
      reply.Answered? && !IsSuccess(reply.status) ==> r == Err(ApiError(reply.status, reply.text))
    ensures var reply := server(BlockingRequest(model, url, prompt, system));
      (reply.Answered? && IsSuccess(reply.status) && reply.json.Some? && !reply.json.value.TextValue?)
        ==> r == Err(MissingResponse)
  {
    WholeResult(server(BlockingRequest(model, url, prompt, system)))
  }
}
