/** The `context_cli` binary: read the notes and the system prompt, build
    the context, then either post it to Ollama (auto mode, when a model is
    named) or write it out for manual use, with the system prompt in front
    when one is given. The files, git, the server and the final write are
    outcome parameters. */
module ContextCli {
  import opened Wrappers
  import opened Text
  import opened Git
  import opened Ollama
  import ContextCore

  /** The command line, after parsing; `ollamaUrl` has its default filled
      in already when not given. */
  datatype CliArgs = CliArgs(start: string, end: string, notes: Option<string>, output: Option<string>,
                             systemPrompt: Option<string>, ollamaModel: Option<string>, ollamaUrl: string)

  const DefaultOllamaUrl: string := "http://localhost:11434/api/generate"
  const NotesOutput: string := "release_notes.md"
  const ContextOutput: string := "release_context.md"
  const DataHeading: string := "\n\n---\n**Data to Process:**\n\n"

  datatype CliError =
    | ReadFailed(read: ReadError)
    | ContextFailed(git: GitError)
    | InferenceFailed(ollama: OllamaError)
    | WriteFailed(path: string, reason: string)

  /** The one file the run writes. */
  datatype FileWrite = FileWrite(path: string, content: string)

  /** The output file: the one given, else `release_notes.md` in auto mode
      and `release_context.md` in manual mode. */
  function OutputPath(args: CliArgs): (path: string)
    ensures args.output.Some? ==> path == args.output.value
    ensures args.output.None? && args.ollamaModel.Some? ==> path == NotesOutput
    ensures args.output.None? && args.ollamaModel.None? ==> path == ContextOutput
  {
    args.output.GetOr(if args.ollamaModel.Some? then NotesOutput else ContextOutput)
  }

  /** What manual mode writes: the context, behind the system prompt and a
      "Data to Process" heading when a prompt was read. */
  function ManualContent(prompt: Option<string>, context: string): (r: string)
    ensures prompt.None? ==> r == context
    ensures prompt.Some? ==> StartsWith(r, prompt.value + DataHeading) && EndsWith(r, context)
    ensures prompt.Some? ==> |r| == |prompt.value| + |DataHeading| + |context|
  {
    match prompt
    case None => context
    case Some(p) =>
      assert (p + DataHeading + context)[..|p + DataHeading|] == p + DataHeading;
      assert (p + DataHeading + context)[|p + DataHeading|..] == context;
      p + DataHeading + context
  }

  /** `main`: the notes file, then the system-prompt file, then the context;
      the first failure ends the run before anything is written. In auto
      mode the context is the prompt and the system-prompt file's content
      the system message. */
  function Run(args: CliArgs, notesProbe: FileProbe, promptProbe: FileProbe, git: GitRunner,
               server: Server, writeError: Option<string>)
    : (r: Result<FileWrite, CliError>)
    ensures var notes := ReadFileContent(args.notes, "Notes", notesProbe);
      notes.Err? ==> r == Err(ReadFailed(notes.error))
    ensures var notes := ReadFileContent(args.notes, "Notes", notesProbe);
      var prompt := ReadFileContent(args.systemPrompt, "System Prompt", promptProbe);
      notes.Ok? && prompt.Err? ==> r == Err(ReadFailed(prompt.error))
    ensures var notes := ReadFileContent(args.notes, "Notes", notesProbe);
      var prompt := ReadFileContent(args.systemPrompt, "System Prompt", promptProbe);
      notes.Ok? && prompt.Ok? ==>
        var context := ContextCore.GenerateContext(args.start, args.end, notes.value, git);
        && (context.Err? ==> r == Err(ContextFailed(context.error)))
        && (context.Ok? && args.ollamaModel.None? ==>
              r == (if writeError.Some? then Err(WriteFailed(OutputPath(args), writeError.value))
                    else Ok(FileWrite(OutputPath(args), ManualContent(prompt.value, context.value)))))
        && (context.Ok? && args.ollamaModel.Some? ==>
              var answer := ContextCore.CallOllama(args.ollamaModel.value, args.ollamaUrl, context.value,
                                                   prompt.value, server);
              && (answer.Err? ==> r == Err(InferenceFailed(answer.error)))
              && (answer.Ok? ==>
                    r == (if writeError.Some? then Err(WriteFailed(OutputPath(args), writeError.value))
                          else Ok(FileWrite(OutputPath(args), answer.value)))))
    ensures r.Ok? ==> r.value.path == OutputPath(args) && writeError.None?
  {
    var notes := ReadFileContent(args.notes, "Notes", notesProbe);
    if notes.Err? then Err(ReadFailed(notes.error))
    else
      var prompt := ReadFileContent(args.systemPrompt, "System Prompt", promptProbe);
      if prompt.Err? then Err(ReadFailed(prompt.error))
      else
        var context := ContextCore.GenerateContext(args.start, args.end, notes.value, git);
        if context.Err? then Err(ContextFailed(context.error))
        else
          var content :=
            if args.ollamaModel.Some? then
              ContextCore.CallOllama(args.ollamaModel.value, args.ollamaUrl, context.value, prompt.value, server)
            else
              Ok(ManualContent(prompt.value, context.value));
          if content.Err? then Err(InferenceFailed(content.error))
          else if writeError.Some? then Err(WriteFailed(OutputPath(args), writeError.value))
          else Ok(FileWrite(OutputPath(args), content.value))
  }
}
