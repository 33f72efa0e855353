/** The Python script `generate_context.py`: the same pipeline as the Rust
    crates, with its own notes defaults (a read failure becomes text rather
    than an error), git failures ending the process with status 1, and a
    trailing newline after the closing fence. `run` is what the process
    gave for a full command line, `git` included. */
module PyContextGen {
  import opened Wrappers
  import opened Text
  import opened Git
  import ContextCore

  const NoNotes: string := "No adhoc notes provided."
  const NotesFileMissing: string := "No adhoc notes provided (File not found)."
  const ReadErrorPrefix: string := "Error reading notes file: "
  const DefaultOutput: string := "release_context.md"

  /** How the script stops short of writing its output. */
  datatype Halt =
    | ExitStatus(status: int)
    | Raised(reason: string)

  datatype FileWrite = FileWrite(path: string, content: string)

  /** `read_notes`: never an error. An absent or empty path, a path that
      does not exist and a file that cannot be read each become text. */
  function ReadNotes(path: Option<string>, probe: FileProbe): (r: string)
    ensures path.None? || path.value == "" ==> r == NoNotes
    ensures path.Some? && path.value != "" && probe.Missing? ==> r == NotesFileMissing
    ensures path.Some? && path.value != "" && probe.Unreadable? ==> r == ReadErrorPrefix + probe.reason
    ensures path.Some? && path.value != "" && probe.Readable? ==> r == probe.content
  {
    if path.None? || path.value == "" then NoNotes
    else
      match probe
      case Missing => NotesFileMissing
      case Unreadable(reason) => ReadErrorPrefix + reason
      case Readable(content) => content
  }

  /** The log command line. */
  function LogCommand(start: string, end: string): (cmd: seq<string>)
    ensures cmd == ["git"] + LogArgs(start, end)
  {
    ["git", "log", "--pretty=format:- %s", Range(start, end)]
  }

  /** The diff command line: the base list, then the excludes in order. */
  function DiffCommandLine(start: string, end: string): (cmd: seq<string>)
    ensures cmd == ["git"] + DiffCommand(start, end)
  {
    ["git", "diff", Range(start, end), "--", "."] + Excludes
  }

  /** `run_git_command`: stripped stdout; a non-zero exit ends the process
      with status 1; a `git` that cannot be started raises. */
  function RunGit(outcome: ProcessOutcome): (r: Result<string, Halt>)
    ensures r.Ok? <==> outcome.Exited? && outcome.success
    ensures r.Ok? ==> r.value == Trim(outcome.stdout)
    ensures outcome.Exited? && !outcome.success ==> r == Err(ExitStatus(1))
  {
    match outcome
    case SpawnFailed(reason) => Err(Raised(reason))
    case Exited(success, stdout, _) => if success then Ok(Trim(stdout)) else Err(ExitStatus(1))
  }

  const Title: string := "# Release Context\n\n## Strategic Context / Adhoc Notes\n"

  /** The output, as the script's template writes it. */
  function Output(notes: string, log: string, diff: string): string {
    Title + notes + "\n\n## Commit History\n" + log + "\n\n## Code Changes\n```diff\n" + diff + "\n```\n"
  }

  /** It is the library crates' document with a newline at the end. */
  lemma OutputIsPlainWithNewline(notes: string, log: string, diff: string)
    ensures Output(notes, log, diff) == ContextCore.PlainLayout(notes, log, diff) + "\n"
    ensures EndsWith(Output(notes, log, diff), "```\n")
  {
    var plain := ContextCore.PlainLayout(notes, log, diff);
    assert "\n\n## Commit History\n" == ContextCore.HistoryHeading;
    assert "\n\n## Code Changes\n```diff\n" == ContextCore.ChangesHeading;
    assert "\n```\n" == ContextCore.Fence + "\n";
    assert Output(notes, log, diff) == plain + "\n";
    assert plain == ContextCore.Title + notes + ContextCore.HistoryHeading + log
      + ContextCore.ChangesHeading + diff + "\n" + "```";
  }

  /** `main`: the notes, then the log, then the diff, then the write; a git
      failure ends the process before anything is written, and so does a
      failed write, with status 1. */
  function Main(start: string, end: string, notesPath: Option<string>, output: Option<string>,
                notesProbe: FileProbe, run: seq<string> -> ProcessOutcome, writeError: Option<string>)
    : (r: Result<FileWrite, Halt>)
    ensures RunGit(run(LogCommand(start, end))).Err? ==> r == Err(RunGit(run(LogCommand(start, end))).error)
    ensures RunGit(run(LogCommand(start, end))).Ok? && RunGit(run(DiffCommandLine(start, end))).Err?
      ==> r == Err(RunGit(run(DiffCommandLine(start, end))).error)
    ensures r.Ok? <==> (RunGit(run(LogCommand(start, end))).Ok? && RunGit(run(DiffCommandLine(start, end))).Ok?
                        && writeError.None?)
    ensures (RunGit(run(LogCommand(start, end))).Ok? && RunGit(run(DiffCommandLine(start, end))).Ok?
             && writeError.Some?) ==> r == Err(ExitStatus(1))
    ensures r.Ok? ==> r.value.path == output.GetOr(DefaultOutput)
    ensures r.Ok? ==>
      r.value.content == ContextCore.PlainLayout(ReadNotes(notesPath, notesProbe),
                                                 RunGit(run(LogCommand(start, end))).value,
                                                 RunGit(run(DiffCommandLine(start, end))).value) + "\n"
  {
    var notes := ReadNotes(notesPath, notesProbe);
    var log := RunGit(run(LogCommand(start, end)));
    if log.Err? then Err(log.error)
    else
      var diff := RunGit(run(DiffCommandLine(start, end)));
      if diff.Err? then Err(diff.error)
      else if writeError.Some? then Err(ExitStatus(1))
      else
        OutputIsPlainWithNewline(notes, log.value, diff.value);
        Ok(FileWrite(output.GetOr(DefaultOutput), Output(notes, log.value, diff.value)))
  }
}
