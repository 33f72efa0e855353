/** The stand-alone `rust-context-gen` binary: notes, log and diff, written
    into a raw-string template. Its git helpers are the shared ones of
    module Git, run in the current directory. Because the template is a raw
    string, each `\n` written after the notes, the log and the diff is the
    two characters backslash and `n`, not a line break. */
module RustContextGen {
  import opened Wrappers
  import opened Text
  import opened Git
  import ContextCore

  const NoNotes: string := "No adhoc notes provided."
  const NotesFileMissing: string := "No adhoc notes provided (File not found)."
  const DefaultOutput: string := "release_context.md"

  /** The two characters of a `\n` inside a raw string. */
  const Escape: string := ['\\', 'n']

  datatype GenError =
    | NotesFailed(read: ReadError)
    | GitFailed(git: GitError)
    | WriteFailed(path: string, reason: string)

  datatype FileWrite = FileWrite(path: string, content: string)

  /** `read_notes`: a placeholder when no path is given, another when the
      file does not exist, an error when it cannot be read. */
  function ReadNotes(path: Option<string>, probe: FileProbe): (r: Result<string, ReadError>)
    ensures path.None? ==> r == Ok(NoNotes)
    ensures path.Some? && probe.Missing? ==> r == Ok(NotesFileMissing)
    ensures path.Some? && probe.Readable? ==> r == Ok(probe.content)
    ensures r.Err? <==> path.Some? && probe.Unreadable?
    ensures r.Err? ==> r.error == ReadError("notes", path.value, probe.reason)
  {
    match path
    case None => Ok(NoNotes)
    case Some(p) =>
      match probe
      case Missing => Ok(NotesFileMissing)
      case Unreadable(reason) => Err(ReadError("notes", p, reason))
      case Readable(content) => Ok(content)
  }

  /** The output, as the raw-string template writes it. */
  function RawOutput(notes: string, log: string, diff: string): string {
    ContextCore.Title + notes + Escape + "\n## Commit History\n" + log + Escape
      + "\n## Code Changes\n```diff\n" + diff + Escape + "```"
  }

  /** The output ends with the diff, a literal backslash-n and the closing
      fence on the same line, and it is not the document the library crates
      produce: it is three characters longer. */
  lemma RawOutputEscapes(notes: string, log: string, diff: string)
    ensures EndsWith(RawOutput(notes, log, diff), diff + Escape + "```")
    ensures |RawOutput(notes, log, diff)| == |ContextCore.PlainLayout(notes, log, diff)| + 3
    ensures RawOutput(notes, log, diff) != ContextCore.PlainLayout(notes, log, diff)
  {
    var head := ContextCore.Title + notes + Escape + "\n## Commit History\n" + log + Escape
      + "\n## Code Changes\n```diff\n";
    assert RawOutput(notes, log, diff) == head + (diff + Escape + "```");
  }

  /** `main`: the notes, then the log, then the diff; the first failure ends
      the run before the output file is written. */
  function Main(start: string, end: string, notesPath: Option<string>, output: Option<string>,
                notesProbe: FileProbe, git: GitRunner, writeError: Option<string>)
    : (r: Result<FileWrite, GenError>)
    ensures ReadNotes(notesPath, notesProbe).Err? ==> r == Err(NotesFailed(ReadNotes(notesPath, notesProbe).error))
    ensures ReadNotes(notesPath, notesProbe).Ok? && GetGitLog(start, end, git).Err?
      ==> r == Err(GitFailed(GetGitLog(start, end, git).error))
    ensures ReadNotes(notesPath, notesProbe).Ok? && GetGitLog(start, end, git).Ok? && GitDiff(start, end, git).Err?
      ==> r == Err(GitFailed(GitDiff(start, end, git).error))
    ensures r.Ok? <==> (ReadNotes(notesPath, notesProbe).Ok? && GetGitLog(start, end, git).Ok?
                        && GitDiff(start, end, git).Ok? && writeError.None?)
    ensures r.Ok? ==> r.value == FileWrite(output.GetOr(DefaultOutput),
                                           RawOutput(ReadNotes(notesPath, notesProbe).value,
                                                     GetGitLog(start, end, git).value,
                                                     GitDiff(start, end, git).value))
  {
    var notes := ReadNotes(notesPath, notesProbe);
    if notes.Err? then Err(NotesFailed(notes.error))
    else
      var log := GetGitLog(start, end, git);
      if log.Err? then Err(GitFailed(log.error))
      else
        var diff := GitDiff(start, end, git);
        if diff.Err? then Err(GitFailed(diff.error))
        else
          var path := output.GetOr(DefaultOutput);
          if writeError.Some? then Err(WriteFailed(path, writeError.value))
          else Ok(FileWrite(path, RawOutput(notes.value, log.value, diff.value)))
  }
}
