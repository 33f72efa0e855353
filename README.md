# gitscribe release-context pipeline in Dafny

This project models the core of gitscribe, a tool that turns a git commit range into a
"release context" Markdown document and can hand that document to a local Ollama model
to draft release notes. The same pipeline exists in several copies, each modelled here
on its own terms:

- the `gitscribe_core` crate (module `GitscribeCore`), whose `generate_context` adds a
  "Linked Jira Issues" section and whose `call_ollama` can stream;
- the `context_core` crate (modules `ContextCore`, `JiraLite`), whose context has no Jira
  section and whose `call_ollama` is blocking;
- the `context_cli` binary (`ContextCli`), the stand-alone `rust-context-gen` binary
  (`RustContextGen`) and the Python script `generate_context.py` (`PyContextGen`);
- the gitscribe desktop app: its Tauri backend commands (`TauriCommands`) and the
  decision rules of its React window (`GitscribeUi`).

Shared pieces are modelled once:

- `Git`: `run_git_command`, `read_file_content`, the log and diff argument lists and
  `list_git_refs`. The two crates hold identical copies; `crates/context_core/src/lib.rs:7-84`
  is the same code as the cited `gitscribe_core` lines, and `rust-context-gen` runs the same
  commands without a working directory.
- `IssueKeys`: `extract_issue_keys`, identical in both crates
  (`crates/context_core/src/jira.rs:44-56`).
- `Jira`: `fetch_issue` of the gitscribe crate.
- `Ollama`: the request payload and the non-streaming reply handling.
- `OllamaStream`: the streaming loop as built.
- `BufferedStream`: the line-buffered streaming parser that corrects the streaming loop
  (see Findings). `GitscribeCore.CallOllama` and the Tauri commands use the loop as built;
  `GitscribeCore.CallOllamaBuffered` is the corrected call.
- `Text`: the standard-library string operations the source relies on (`trim`,
  `trim_end_matches`, `split`, `lines`, `join`, `replace`, string ordering).

Everything outside the program is an outcome parameter:

- the `git` process: `GitRunner`, a function from argument list to `ProcessOutcome`;
- files: `FileProbe`;
- the Jira server: a function from request to `HttpOutcome`;
- the Ollama server: `Server`;
- the JSON decode of one streamed line: `LineDecoder`;
- the completion order of the concurrent issue fetches: `Arrival`, constrained to be a
  permutation.

State that the source updates in place is a class:

- the templates folder: `TauriCommands.TemplatesDir`;
- the window's React state: `GitscribeUi.App`.

Loops that build values step by step are methods with invariants, each proved against a
specification function:

- the diff argument pushes;
- the issue-key scan and sort;
- the issue-section loop;
- the streaming loops;
- the template listing.

## Model

| member | source | states |
|---|---|---|
| Text.Trim | crates/gitscribe_core/src/lib.rs:23 | the result is a slice of the input with only whitespace cut off either end; it has no whitespace at either end; it is empty exactly when the input is blank |
| Text.TrimEndChar | crates/gitscribe_core/src/jira.rs:82 | the result is a prefix of the input; everything cut off is the given character; the result does not end with it |
| Text.Split | crates/gitscribe_core/src/lib.rs:229 | there is always at least one piece and no piece contains the separator |
| Text.JoinSplit | crates/gitscribe_core/src/lib.rs:229 | joining the pieces with the separator gives back the original text |
| Text.SplitJoin | crates/gitscribe_core/src/lib.rs:128-133 | splitting a join of separator-free pieces gives back the pieces |
| Text.ReplaceChar | crates/gitscribe_core/src/lib.rs:131 | text without the character is unchanged |
| Text.ReplaceIsJoin | crates/gitscribe_core/src/lib.rs:131 | replacing every occurrence of a character is joining the character-free pieces with the replacement |
| Text.ReplaceAppend | crates/gitscribe_core/src/lib.rs:131 | replacement distributes over concatenation |
| Text.ConcatAppend | crates/gitscribe_core/src/lib.rs:235 | the text accumulated from a run of tokens is the text of its first part followed by the text of the rest |
| Text.Lines | crates/gitscribe_core/src/lib.rs:91 | no line contains a line break; there are no lines exactly when the text is empty |
| Text.LinesIsSplit | crates/gitscribe_core/src/lib.rs:91 | for non-empty text that has no carriage return and does not end in a line break, the lines are the `\n`-separated pieces |
| Text.LessIrreflexive | crates/gitscribe_core/src/jira.rs:73 | string order is irreflexive |
| Text.LessTransitive | crates/gitscribe_core/src/jira.rs:73 | string order is transitive |
| Text.LessTotal | crates/gitscribe_core/src/jira.rs:73 | any two distinct strings are ordered one way or the other |
| Git.RunGitCommand | crates/gitscribe_core/src/lib.rs:11-32 | success exactly on a successful exit, giving stdout trimmed at both ends; a process that cannot start is an error carrying the arguments; a failed exit is an error carrying the arguments, stdout and stderr |
| Git.ReadFileContent | crates/gitscribe_core/src/lib.rs:34-48 | no path or a missing file gives `Ok(None)`; a readable file gives its content; an error happens exactly when the file exists but cannot be read |
| Git.LogArgs | crates/gitscribe_core/src/lib.rs:50-53 | three arguments: `log`, the pretty format, then `start..end` |
| Git.GetGitLog | crates/gitscribe_core/src/lib.rs:50-53 | the log command's run: success exactly on a successful exit, with trimmed output; an error names the log arguments |
| Git.DiffArgs | crates/gitscribe_core/src/lib.rs:55-76 | the argument vector built by pushes is `diff`, the range, `--`, `.`, then exactly the twelve excludes in listed order |
| Git.DiffCommand | crates/gitscribe_core/src/lib.rs:57-72 | 16 arguments, starting with `diff` and the range, containing every exclude |
| Git.GitDiff | crates/gitscribe_core/src/lib.rs:55-79 | success exactly on a successful exit of the diff command, with trimmed output; an error names the diff arguments |
| Git.GetGitDiff | crates/gitscribe_core/src/lib.rs:55-79 | the method that builds the arguments by pushes returns what `GitDiff` specifies |
| Git.ListGitRefs | crates/gitscribe_core/src/lib.rs:81-92 | success exactly on a successful exit; no entry contains a line break; no entries exactly when the output is blank |
| Git.RefsAreOutputLines | crates/context_core/src/lib.rs:81-83 | for non-blank output without carriage returns, the refs are the `\n`-separated lines of the trimmed output, and joining them gives that output back |
| IssueKeys.MatchAt | crates/gitscribe_core/src/jira.rs:65 | a match reported at an index satisfies the key pattern there, between word boundaries |
| IssueKeys.MatchAtComplete | crates/gitscribe_core/src/jira.rs:65 | every match of the pattern at an index is the one `MatchAt` reports |
| IssueKeys.NoMatchInside | crates/gitscribe_core/src/jira.rs:65-68 | no match starts strictly inside another, so the left-to-right scan finds every matching string |
| IssueKeys.FindMatches | crates/gitscribe_core/src/jira.rs:65-70 | the scan loop collects exactly the set of strings the pattern matches in the text |
| IssueKeys.Insert | crates/gitscribe_core/src/jira.rs:72-73 | inserting a new key keeps the sequence strictly ascending and adds exactly that key |
| IssueKeys.SortedKeys | crates/gitscribe_core/src/jira.rs:72-74 | strictly ascending, with exactly the elements of the set |
| IssueKeys.SortedSet | crates/gitscribe_core/src/jira.rs:72-74 | the collect-and-sort loop yields `SortedKeys` of the set |
| IssueKeys.AscendingUnique | crates/gitscribe_core/src/jira.rs:72-74 | two strictly ascending sequences with the same elements are equal, so sorting a set has one result |
| IssueKeys.ExtractIssueKeys | crates/gitscribe_core/src/jira.rs:63-75 | the result is strictly ascending, hence duplicate-free, and holds exactly the matched strings |
| IssueKeys.SameMatchesSameKeys | crates/gitscribe_core/src/jira.rs:66-74 | texts with the same matches give the same keys: repeating or reordering occurrences changes nothing |
| IssueKeys.ExtractedKeyShape | crates/gitscribe_core/src/jira.rs:65-69 | every key has the shape upper-case letter, `[A-Z0-9]+`, hyphen, digits; it is at least four characters long and occurs in the text between word boundaries |
| IssueKeys.NoUpperNoKeys | crates/gitscribe_core/src/jira.rs:65 | text with no upper-case letter, the empty text included, has no keys |
| Jira.DecodeComments | crates/gitscribe_core/src/jira.rs:34-43 | the comment array decodes exactly when every comment has a string body and an optional `updated`; it keeps the length and order |
| Jira.IssueUrl | crates/gitscribe_core/src/jira.rs:82-83 | the URL is the base with all of its trailing slashes removed, then `/rest/api/2/issue/` and the key |
| Jira.IssueUrlIgnoresTrailingSlash | crates/gitscribe_core/src/jira.rs:82 | an extra trailing slash on the base does not change the URL |
| Jira.IssueRequest | crates/gitscribe_core/src/jira.rs:82-92 | the request goes to `IssueUrl`, with `Authorization: Bearer <pat>` and `Accept: application/json` |
| Jira.CommentPairs | crates/gitscribe_core/src/jira.rs:99-103 | an absent container gives no comments; otherwise one (body, updated) pair per comment, in order |
| Jira.FetchIssue | crates/gitscribe_core/src/jira.rs:94-134 | never an error; `Some` exactly for a 2xx response whose body decodes; then every field is copied from the response |
| Jira.FetchIgnoresRequestedKey | crates/gitscribe_core/src/jira.rs:105-106 | the issue's key comes from the response, so the requested key does not change the result for a given outcome |
| JiraLite.FetchIssueLite | crates/context_core/src/jira.rs:58-95 | never an error; `Some` exactly for a 2xx response with string key, summary, status name and type name, which are copied |
| JiraLite.RichFetchImpliesLite | crates/context_core/src/jira.rs:74-79 | what the gitscribe crate resolves, the context crate resolves too, with the same four fields |
| JiraLite.LiteIsMorePermissive | crates/context_core/src/jira.rs:13-18 | a document without `updated` resolves in the context crate but not in the gitscribe crate |
| Ollama.BuildRequest | crates/gitscribe_core/src/lib.rs:187-197 | the payload carries the model and prompt, and `stream` as asked; `system` is present exactly when a system prompt is given, and equals it |
| Ollama.CheckStatus | crates/gitscribe_core/src/lib.rs:211-215 | no error exactly for a 2xx response; any other status is an error carrying the status and the body text |
| Ollama.WholeResult | crates/gitscribe_core/src/lib.rs:245-255 | success exactly for a 2xx JSON body whose `response` is a string, returned verbatim; a non-string or missing `response` is `MissingResponse` |
| OllamaStream.FirstFailure | crates/gitscribe_core/src/lib.rs:222-223 | every read before the index succeeded, and the read at the index failed |
| OllamaStream.ProcessLines | crates/gitscribe_core/src/lib.rs:229-242 | the inner loop passes exactly `LineTokens` of its lines to the callback, appends their concatenation, and stops exactly at a `done` line |
| OllamaStream.Emit | crates/gitscribe_core/src/lib.rs:234-237 | a line's token, when it has one, is both passed to the callback and appended to the accumulated text |
| OllamaStream.StreamResponse | crates/gitscribe_core/src/lib.rs:217-244 | as built: the callback receives each chunk's own tokens, in chunk order, up to the first failed read; success exactly when no read failed, returning the concatenation of the callback's tokens; otherwise the failed read's error |
| OllamaStream.LineTokensAppend | crates/gitscribe_core/src/lib.rs:229-242 | the inner loop over two runs of lines continues into the second exactly when the first has no `done` line |
| OllamaStream.SkippedLineIgnored | crates/gitscribe_core/src/lib.rs:230-233 | a blank or undecodable line contributes no token and stops nothing |
| OllamaStream.DoneStopsLines | crates/gitscribe_core/src/lib.rs:238-240 | a `done` line's token is the last one of its chunk; the lines after it are ignored |
| OllamaStream.StreamTokensAppend | crates/gitscribe_core/src/lib.rs:222-243 | the tokens of a stream are those of its first chunks followed by those of the rest, so `done` does not silence later chunks |
| OllamaStream.ChunksAreIndependent | crates/gitscribe_core/src/lib.rs:222-229 | a chunk's tokens depend on that chunk alone, whatever comes before and after it |
| BufferedStream.CompleteLines | crates/gitscribe_core/src/lib.rs:226-229 | one line fewer than the `\n`-separated pieces: the line after the last break is still pending |
| BufferedStream.SplitIsLinesAndPending | crates/gitscribe_core/src/lib.rs:226-229 | the pieces are the completed lines followed by the pending text |
| BufferedStream.SplitAppend | crates/gitscribe_core/src/lib.rs:226-229 | reading two pieces of text completes the first piece's lines, then the lines of its pending text followed by the second piece |
| BufferedStream.StreamOutcome | crates/gitscribe_core/src/lib.rs:217-244 | success exactly when every read succeeded or a `done` line came before the failed read; then the concatenated buffered tokens; otherwise the failed read's error |
| BufferedStream.FeedChunk | crates/gitscribe_core/src/lib.rs:224-242 | one read: the lines completed by the pending text plus the chunk go through the inner loop; what follows the last break is held back |
| BufferedStream.ReadChunk | crates/gitscribe_core/src/lib.rs:222-229 | one read keeps the loop invariant: the held text is the pending part of everything read, and the emitted tokens are those of every completed line |
| BufferedStream.ReadChunks | crates/gitscribe_core/src/lib.rs:222-243 | the read loop ends at a failed read, a `done` line or the end of the body, having emitted the tokens of exactly the lines completed so far |
| BufferedStream.StreamResponse | crates/gitscribe_core/src/lib.rs:217-244 | corrected: the callback receives `BufferedTokens`, the tokens of the body's lines as if the body had arrived whole; the result is `StreamOutcome` |
| BufferedStream.StoppedEarly | crates/gitscribe_core/src/lib.rs:238-240 | once a `done` line is complete, nothing read afterwards changes what is emitted |
| BufferedStream.SplitLineLostAsBuilt | crates/gitscribe_core/src/lib.rs:222-242 | a JSON line split across two reads yields no token from the loop as built, and its token from the buffered parser |
| GitscribeCore.NotesOr | crates/gitscribe_core/src/lib.rs:101 | the notes as given, or `No adhoc notes provided.` when absent |
| GitscribeCore.RenderComment | crates/gitscribe_core/src/lib.rs:131 | a comment is a list item starting with `- ` |
| GitscribeCore.CommentLines | crates/gitscribe_core/src/lib.rs:131 | the lines of a rendered comment are the lines of its body, the first one bulleted and every later one indented by two spaces |
| GitscribeCore.RenderComments | crates/gitscribe_core/src/lib.rs:125-134 | `No comments.` exactly when there are none; otherwise the list starts with a list item |
| GitscribeCore.DescriptionText | crates/gitscribe_core/src/lib.rs:142 | the description, or `No description provided.` when absent |
| GitscribeCore.IssueBlockFrame | crates/gitscribe_core/src/lib.rs:137 | each block opens with the `### key summary` heading line and closes with the `---` rule |
| GitscribeCore.DescriptionPlaceholder | crates/gitscribe_core/src/lib.rs:137-142 | a block for an issue without a description contains the description placeholder under its heading |
| GitscribeCore.CommentsPlaceholder | crates/gitscribe_core/src/lib.rs:125-137 | a block for an issue without comments contains `No comments.` under its heading |
| GitscribeCore.Resolved | crates/gitscribe_core/src/lib.rs:123-124 | no longer than the results; empty exactly when no result is `Ok(Some)` |
| GitscribeCore.ResolvedAppend | crates/gitscribe_core/src/lib.rs:123-124 | results are filtered, not truncated: the resolved issues of two runs are those of each, in order |
| GitscribeCore.FailedFetchIgnored | crates/gitscribe_core/src/lib.rs:123-124 | an `Err` or `Ok(None)` result contributes nothing and does not stop later results from rendering |
| GitscribeCore.CollectIssueSections | crates/gitscribe_core/src/lib.rs:122-146 | the loop's text is the blocks of the resolved issues in result order; it is empty exactly when nothing resolved |
| GitscribeCore.NoSectionsIff | crates/gitscribe_core/src/lib.rs:122-148 | no block text exactly when no result resolved |
| GitscribeCore.JiraSection | crates/gitscribe_core/src/lib.rs:148-150 | empty exactly when there are no blocks; otherwise the `## Linked Jira Issues` header followed by the blocks |
| GitscribeCore.Outcomes | crates/gitscribe_core/src/lib.rs:112-117 | one `fetch_issue` result per key, for that key's request |
| GitscribeCore.ReorderedResolves | crates/gitscribe_core/src/lib.rs:118-120 | completion order neither adds nor removes a resolved result |
| GitscribeCore.OutcomesResolve | crates/gitscribe_core/src/lib.rs:112-117 | some result resolves exactly when some key resolves |
| GitscribeCore.JiraPartEmpty | crates/gitscribe_core/src/lib.rs:105-150 | the Jira part is empty exactly when there is no configuration or no extracted key resolves, whatever the completion order |
| GitscribeCore.ContextResult | crates/gitscribe_core/src/lib.rs:94-169 | the log error comes first, then the diff error; a document exactly when both succeed |
| GitscribeCore.LinkedIssues | crates/gitscribe_core/src/lib.rs:105-152 | the Jira step (extract, fetch, collect, header) produces `JiraPart` |
| GitscribeCore.GenerateContext | crates/gitscribe_core/src/lib.rs:94-169 | the method returns `ContextResult`: layout with notes, Jira part, history and fenced diff |
| GitscribeCore.CallResult | crates/gitscribe_core/src/lib.rs:171-256 | a send failure or non-2xx status is that error; without a callback the whole-body result; with one, the loop as built: success exactly when no read failed, giving the concatenated tokens of every read split on its own, otherwise the first failed read's error |
| GitscribeCore.CallTokens | crates/gitscribe_core/src/lib.rs:217-242 | the callback receives tokens only when streaming with a 2xx status; then exactly the per-read tokens of every read before the first failed one; a successful streamed call returns exactly the concatenation of what the callback received |
| GitscribeCore.CallOllama | crates/gitscribe_core/src/lib.rs:171-256 | one request, streaming exactly when a callback is given; the result and the callback's tokens are `CallResult` and `CallTokens` of the reply, computed by the as-built loop `OllamaStream.StreamResponse` |
| GitscribeCore.CallOllamaBuffered | crates/gitscribe_core/src/lib.rs:217-244 | corrected streaming call: a non-2xx status is its error with nothing emitted; otherwise the callback receives `BufferedTokens` and the result is `StreamOutcome` |
| ContextCore.PlainLayoutOrder | crates/context_core/src/lib.rs:91-107 | the document opens with the title, notes, history heading and log, and closes with the changes heading, diff and fence |
| ContextCore.NotesLead | crates/context_core/src/lib.rs:87-95 | the document starts with the title and the notes |
| ContextCore.PlainIsJiraLess | crates/context_core/src/lib.rs:91-107 | the layout equals the gitscribe layout with an empty Jira part |
| ContextCore.GenerateContext | crates/context_core/src/lib.rs:86-108 | the log error first, then the diff error; otherwise a document starting with the title and the notes or their placeholder |
| ContextCore.AgreesWithoutJira | crates/context_core/src/lib.rs:86-108 | without Jira the two crates give the same document and the same errors |
| ContextCore.BlockingRequest | crates/context_core/src/lib.rs:118-126 | never streaming; `system` present exactly when a system prompt is given |
| ContextCore.CallOllama | crates/context_core/src/lib.rs:110-147 | success exactly for a 2xx JSON reply whose `response` is a string, returned verbatim; a send failure, a non-2xx status with its body, and a missing response are errors |
| ContextCli.OutputPath | crates/context_cli/src/main.rs:53-80 | an explicit output wins; otherwise `release_notes.md` in auto mode and `release_context.md` in manual mode |
| ContextCli.ManualContent | crates/context_cli/src/main.rs:74-78 | without a prompt the context unchanged; with one, the prompt, the "Data to Process" heading, then the context |
| ContextCli.Run | crates/context_cli/src/main.rs:40-88 | notes, prompt, context, then the model call in auto mode; the first failure ends the run before the write; auto mode sends the context as prompt and the prompt file as system message |
| RustContextGen.ReadNotes | rust-context-gen/src/main.rs:44-56 | the no-notes placeholder for no path, the file-not-found placeholder for a missing file, the content, or a read error |
| RustContextGen.RawOutputEscapes | rust-context-gen/src/main.rs:103-116 | the output ends with the diff, a literal backslash-n and the fence; it is three characters longer than the library layout, so it differs from it |
| RustContextGen.Main | rust-context-gen/src/main.rs:94-124 | notes, then log, then diff; each failure ends the run before the write; otherwise the raw-template document at the output path |
| PyContextGen.RunGit | src/generate_context.py:14-28 | stripped stdout on success; a failed exit ends the process with status 1 |
| PyContextGen.ReadNotes | src/generate_context.py:30-43 | a falsy path, a missing file, an unreadable file and a readable one each give their text; never an error |
| PyContextGen.LogCommand | src/generate_context.py:45-48 | `git` followed by the log arguments |
| PyContextGen.DiffCommandLine | src/generate_context.py:50-68 | `git` followed by the diff arguments with the twelve excludes in order |
| PyContextGen.OutputIsPlainWithNewline | src/generate_context.py:85-97 | the output is the library layout followed by a newline after the closing fence |
| PyContextGen.Main | src/generate_context.py:70-106 | log, then diff; a failure or a failed write ends the run; otherwise the document with its trailing newline at the output path |
| TauriCommands.JiraConfigFrom | apps/gitscribe/src-tauri/src/lib.rs:209-217 | a configuration exactly when both URL and token are given and non-empty, holding them |
| TauriCommands.GeneratePreviewCmd | apps/gitscribe/src-tauri/src/lib.rs:200-228 | the context for the typed notes and paired Jira settings, or its error |
| TauriCommands.Inferred | apps/gitscribe/src-tauri/src/lib.rs:270-278 | an inference result becomes the command's result, its error an inference failure |
| TauriCommands.GenerateAiCmd | apps/gitscribe/src-tauri/src/lib.rs:230-279 | a context error returns before any request and nothing is emitted; otherwise exactly one streaming request, carrying the context, goes to the fixed local URL, and the result and emitted tokens are `CallResult` and `CallTokens` of the reply, the streaming loop as built |
| TauriCommands.LoadFileCmd | apps/gitscribe/src-tauri/src/lib.rs:182-187 | a missing file is `File not found or empty`; a readable one its content; an unreadable one a read error |
| TauriCommands.WithDefault | apps/gitscribe/src-tauri/src/lib.rs:140-144 | `default.md` is present afterwards; existing entries are kept unchanged; only `default.md` is added, with the default prompt when absent |
| TauriCommands.WithDefaultIdempotent | apps/gitscribe/src-tauri/src/lib.rs:140-144 | making sure twice is making sure once |
| TauriCommands.TemplatesDir.Ensure | apps/gitscribe/src-tauri/src/lib.rs:132-147 | each step's failure is returned with what was done before it kept; on success the folder exists and holds `WithDefault` of its old entries; a folder that had to be created holds only the default template |
| TauriCommands.TemplateNamesExactly | apps/gitscribe/src-tauri/src/lib.rs:161-171 | a name is listed exactly when some entry is a regular file of that name ending in `.md` or `.txt` |
| TauriCommands.CollectTemplates | apps/gitscribe/src-tauri/src/lib.rs:158-172 | the first unreadable entry ends the loop with its error; otherwise the template names in listing order |
| TauriCommands.ListTemplatesCmd | apps/gitscribe/src-tauri/src/lib.rs:155-173 | the error is that of the first failing step: configuration, creation, default write, `read_dir`, or the first unreadable entry; once the folder is ensured it exists and holds `WithDefault` of its old entries; success exactly when every step succeeds, giving the template names in listing order; when the listing shows the folder and `default.md` is a file, it is among them |
| TauriCommands.DefaultListed | apps/gitscribe/src-tauri/src/lib.rs:140-171 | a listing of a folder whose `default.md` is a regular file names `default.md` |
| GitscribeUi.FirstContaining | apps/gitscribe/src/App.tsx:126-127 | the first name containing the part, or none exactly when no name does |
| GitscribeUi.PickModel | apps/gitscribe/src/App.tsx:124-129 | unchanged for an empty list or one that has it; otherwise the first `llama3` model, else the first `mistral` model, else the first model |
| GitscribeUi.PickModelStable | apps/gitscribe/src/App.tsx:124-129 | a second check against the same list keeps the picked model |
| GitscribeUi.PickTemplate | apps/gitscribe/src/App.tsx:109-110 | `default.md` when listed, else the first name, else the selection unchanged |
| GitscribeUi.ManualPrompt | apps/gitscribe/src/App.tsx:244-245 | the template, or `[No template loaded]` when empty, then the banner, then the context |
| GitscribeUi.Present | apps/gitscribe/src/App.tsx:264-266 | an absent or empty value is sent as absent |
| GitscribeUi.JiraSetting | apps/gitscribe/src/App.tsx:229-241 | a stored Jira setting is sent only when Jira is enabled and the value is non-empty |
| GitscribeUi.App.constructor | apps/gitscribe/src/App.tsx:14-33 | the window's initial state |
| GitscribeUi.App.CheckOllama | apps/gitscribe/src/App.tsx:116-134 | a listing makes the server reachable and sets the model by `PickModel`; a failure marks it unreachable; nothing else changes |
| GitscribeUi.App.LoadTemplates | apps/gitscribe/src/App.tsx:102-114 | a listing replaces the list and sets the selection by `PickTemplate`; a failure changes nothing |
| GitscribeUi.App.OnAiToken | apps/gitscribe/src/App.tsx:213-217 | the payload is appended to the shown text; nothing else changes |
| GitscribeUi.App.ReceiveTokens | apps/gitscribe/src/App.tsx:213-221 | the shown text gains the tokens' concatenation, in arrival order |
| GitscribeUi.App.GenerateManual | apps/gitscribe/src/App.tsx:235-251 | one preview command; the shown text is the manual prompt or the error; generating stops |
| GitscribeUi.App.GenerateAuto | apps/gitscribe/src/App.tsx:252-273 | with the server not reachable nothing is invoked and the shown text is the missing-Ollama message; otherwise one AI command with an empty template sent as absent, and the shown text is the streamed tokens followed by any error |
| GitscribeUi.App.Settle | apps/gitscribe/src/App.tsx:268-272 | a failure's text is appended to the streamed text, and generating stops |
| GitscribeUi.App.HandleGenerate | apps/gitscribe/src/App.tsx:223-274 | nothing happens unless the repository and both refs are set; otherwise the result tab, then the manual or auto branch with the Jira settings sent only when enabled; the inputs are unchanged |

## Left out

- Process spawning, HTTP, file reads and writes, and JSON decoding are outcome parameters. Nothing here models how git, Jira or Ollama compute their answers.
- Lossy UTF-8 decoding (`from_utf8_lossy`) is not modelled: outcomes are already text. The same goes for Python's decode errors.
- The issue-key pattern is stated over ASCII. Unicode word characters, which Rust's `\b` also treats as word characters, are not modelled.
- Whitespace for `trim` is ASCII whitespace only.
- `buffer_unordered(5)` is modelled only as an arbitrary completion order. The bound of five requests in flight is concurrency and is left out.
- The 300-second client timeout, the failure to build the HTTP client, and `println!`/`eprintln!` logging are left out.
- Errors stay structured. The text that `e.to_string()` and `format!` give them is not modelled.
- The body of `DEFAULT_PROMPT` is a parameter (`defaultPrompt`), not the literal text.
- `list_ollama_models` and `get_ollama_models_cmd` are left out: they are HTTP plumbing. The window receives their result as a parameter.
- `load_template_cmd` is left out: it only reads a file by name. `get_repo_refs_cmd` is `Git.ListGitRefs` with a working directory, and the working directory is part of the `GitRunner` parameter.
- The `context_cli` binary calls `generate_context` with three arguments against a four-parameter definition (`crates/context_cli/src/main.rs:50`). `ContextCli.Run` models the call without a working directory.
- In `src/generate_context.py:26-27` an f-string breaks across a line. `PyContextGen.RunGit` models the evident intent: the message goes to stderr and the process exits with status 1. The message text is not modelled.
- At `crates/gitscribe_core/src/lib.rs:131`, `c.replace` is applied to a (body, date) tuple, which does not type-check as written. `GitscribeCore.RenderComment` applies it to the comment body.
- Tauri menus and event wiring, React rendering, `LazyStore` persistence, `loadPreview`, the browser-preview mock data and the settings modal are UI and are not modelled.
- `apps/context_gui` is not part of this model.
- Git.RunGitCommand: the trimmed result is stated as a slice of stdout with whitespace cut off either end and none left at its ends. That determines it, but the contract does not name `trim`.
- GitscribeUi.App.HandleGenerate: the intermediate texts shown while a command runs ("Generating Context for Manual Copy..." and the cleared text) are overwritten before the handler ends. They are not part of the final state the contract states.

## Findings

| source | as written | input that shows it | evidently intended | confidence | as-written member | corrected member |
|---|---|---|---|---|---|---|
| crates/gitscribe_core/src/lib.rs:222-242 | each chunk of the streamed body is split at `\n` on its own, so a JSON line that arrives in two reads is decoded as two halves, neither of which is JSON, and its token is silently dropped | two reads `{"response":"H` and `i"}` followed by a line break | text after a chunk's last line break is carried into the next chunk, so every line is decoded whole (the source's own comment at lines 226-228 anticipates this); the line still pending when the body ends is decoded as the last line; the `done` line ends the stream | not executed | BufferedStream.SplitLineLostAsBuilt | BufferedStream.StreamResponse |
