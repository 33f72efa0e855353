/** The git helpers both crates share (`run_git_command`, `read_file_content`,
    `get_git_log`, `get_git_diff`, `list_git_refs`). The process itself is an
    opaque outcome: the caller supplies what `git` did for the given
    arguments. */
module Git {
  import opened Wrappers
  import opened Text

  /** What running `git <args>` produced, already decoded to text. */
  datatype ProcessOutcome =
    | SpawnFailed(reason: string)
    | Exited(success: bool, stdout: string, stderr: string)

  /** The errors `run_git_command` raises. */
  datatype GitError =
    | CouldNotRun(args: seq<string>, reason: string)
    | CommandFailed(args: seq<string>, stdout: string, stderr: string)

  /** What a file read found: `fs::metadata` failed, `read_to_string`
      failed, or the content. */
  datatype FileProbe = Missing | Unreadable(reason: string) | Readable(content: string)

  datatype ReadError = ReadError(description: string, path: string, reason: string)

  /** `git` in the working directory: the process result for an argument list. */
  type GitRunner = seq<string> -> ProcessOutcome

  /** `run_git_command`: trimmed stdout on success; otherwise an error that
      carries the arguments (and, for a non-zero exit, stdout and stderr). */
  function RunGitCommand(args: seq<string>, outcome: ProcessOutcome): (r: Result<string, GitError>)
    ensures r.Ok? <==> outcome.Exited? && outcome.success
    ensures r.Ok? ==> IsTrimmedSlice(r.value, outcome.stdout)
    ensures r.Ok? ==> NoSpaceAtEnds(r.value)
    ensures outcome.SpawnFailed? ==> r == Err(CouldNotRun(args, outcome.reason))
    ensures outcome.Exited? && !outcome.success
      ==> r == Err(CommandFailed(args, outcome.stdout, outcome.stderr))
  {
    match outcome
    case SpawnFailed(reason) => Err(CouldNotRun(args, reason))
    case Exited(success, stdout, stderr) =>
      if success then Ok(Trim(stdout)) else Err(CommandFailed(args, stdout, stderr))
  }

  /** `read_file_content`: no path or a missing file is `Ok(None)`; a file
      that exists but cannot be read is an error. */
  function ReadFileContent(path: Option<string>, description: string, probe: FileProbe)
    : (r: Result<Option<string>, ReadError>)
    ensures path.None? ==> r == Ok(None)
    ensures path.Some? ==> (r == Ok(None) <==> probe.Missing?)
    ensures path.Some? && probe.Readable? ==> r == Ok(Some(probe.content))
    ensures r.Err? <==> path.Some? && probe.Unreadable?
  {
    match path
    case None => Ok(None)
    case Some(p) =>
      match probe
      case Missing => Ok(None)
      case Unreadable(reason) => Err(ReadError(description, p, reason))
      case Readable(content) => Ok(Some(content))
  }

  /** `start..end`. */
  function Range(start: string, end: string): string {
    start + ".." + end
  }

  /** `get_git_log`'s arguments. */
  function LogArgs(start: string, end: string): (args: seq<string>)
    ensures |args| == 3 && args[0] == "log" && args[2] == Range(start, end)
  {
    ["log", "--pretty=format:- %s", Range(start, end)]
  }

  /** The twelve pathspecs `get_git_diff` excludes, in order. */
  const Excludes: seq<string> := [
    ":(exclude)package-lock.json",
    ":(exclude)yarn.lock",
    ":(exclude)*.png",
    ":(exclude)*.jpg",
    ":(exclude)*.jpeg",
    ":(exclude)*.gif",
    ":(exclude)*.svg",
    ":(exclude)*.ico",
    ":(exclude)__pycache__",
    ":(exclude)*.pyc",
    ":(exclude)node_modules",
    ":(exclude).git"
  ]

  /** `get_git_diff`'s argument vector, built as the source builds it: the
      four fixed arguments, then one push per exclude. */
  method DiffArgs(start: string, end: string) returns (args: seq<string>)
    ensures |args| == 4 + |Excludes|
    ensures args[..4] == ["diff", Range(start, end), "--", "."]
    ensures args[4..] == Excludes
    ensures args == DiffCommand(start, end)
  {
    args := ["diff", Range(start, end), "--", "."];
    var i := 0;
    while i < |Excludes|
      invariant 0 <= i <= |Excludes|
      invariant |args| == 4 + i
      invariant args[..4] == ["diff", Range(start, end), "--", "."]
      invariant args[4..] == Excludes[..i]
    {
      args := args + [Excludes[i]];
      i := i + 1;
    }
  }

  /** `get_git_log`. */
  function GetGitLog(start: string, end: string, git: GitRunner): (r: Result<string, GitError>)
    ensures r == RunGitCommand(LogArgs(start, end), git(LogArgs(start, end)))
    ensures r.Ok? <==> git(LogArgs(start, end)).Exited? && git(LogArgs(start, end)).success
    ensures r.Ok? ==> IsTrimmedSlice(r.value, git(LogArgs(start, end)).stdout)
    ensures r.Err? ==> r.error.args == LogArgs(start, end)
  {
    var args := LogArgs(start, end);
    RunGitCommand(args, git(args))
  }

  /** The arguments of `get_git_diff`: the range diff of the whole tree
      minus the excluded paths. */
  function DiffCommand(start: string, end: string): (args: seq<string>)
    ensures |args| == 4 + |Excludes|
    ensures args[0] == "diff" && args[1] == Range(start, end)
    ensures forall p :: p in Excludes ==> p in args
  {
    ["diff", Range(start, end), "--", "."] + Excludes
  }

  /** What `get_git_diff` returns for a range. */
  function GitDiff(start: string, end: string, git: GitRunner): (r: Result<string, GitError>)
    ensures r.Ok? <==> git(DiffCommand(start, end)).Exited? && git(DiffCommand(start, end)).success
    ensures r.Ok? ==> IsTrimmedSlice(r.value, git(DiffCommand(start, end)).stdout)
    ensures r.Err? ==> r.error.args == DiffCommand(start, end)
  {
    RunGitCommand(DiffCommand(start, end), git(DiffCommand(start, end)))
  }

  /** `get_git_diff`. */
  method GetGitDiff(start: string, end: string, git: GitRunner) returns (r: Result<string, GitError>)
    ensures r == GitDiff(start, end, git)
  {
    var args := DiffArgs(start, end);
    assert args == args[..4] + args[4..];
    r := RunGitCommand(args, git(args));
  }

  const RefArgs: seq<string> := ["for-each-ref", "--format=%(refname:short)", "refs/heads", "refs/tags"]

  /** `list_git_refs`: one entry per line of the trimmed output. */
  function ListGitRefs(git: GitRunner): (r: Result<seq<string>, GitError>)
    ensures r.Ok? <==> git(RefArgs).Exited? && git(RefArgs).success
    ensures r.Ok? ==> forall k :: 0 <= k < |r.value| ==> '\n' !in r.value[k]
    ensures r.Ok? ==> (r.value == [] <==> IsBlank(git(RefArgs).stdout))
  {
    match RunGitCommand(RefArgs, git(RefArgs))
    case Err(e) => Err(e)
    case Ok(output) => Ok(Lines(output))
  }

  /** When the trimmed output has no carriage returns, the refs are exactly
      its `\n`-separated lines, and joining them gives the output back. */
  lemma RefsAreOutputLines(git: GitRunner)
    requires git(RefArgs).Exited? && git(RefArgs).success
    requires !IsBlank(git(RefArgs).stdout) && '\r' !in Trim(git(RefArgs).stdout)
    ensures ListGitRefs(git).Ok?
    ensures ListGitRefs(git).value == Split(Trim(git(RefArgs).stdout), '\n')
    ensures Join(ListGitRefs(git).value, "\n") == Trim(git(RefArgs).stdout)
  {
    var o := git(RefArgs);
    var out := Trim(o.stdout);
    assert RunGitCommand(RefArgs, o) == Ok(out);
    assert ListGitRefs(git) == Ok(Lines(out));
    TrimmedLines(out);
  }

  lemma TrimmedLines(out: string)
    requires out != [] && NoSpaceAtEnds(out) && '\r' !in out
    ensures Lines(out) == Split(out, '\n')
    ensures Join(Lines(out), "\n") == out
  {
    LinesIsSplit(out);
    JoinSplit(out, '\n');
  }
}
