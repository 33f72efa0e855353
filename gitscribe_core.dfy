/** `generate_context` and `call_ollama` of the gitscribe crate: the release
    context document with its optional "Linked Jira Issues" section, and the
    inference call in both its modes. Git, the issue tracker and the Ollama
    server are parameters that answer each request. */
module GitscribeCore {
  import opened Wrappers
  import opened Text
  import opened Git
  import opened IssueKeys
  import opened Jira
  import opened Ollama
  import opened OllamaStream
  import BufferedStream

  const NoNotes: string := "No adhoc notes provided."

  /** The notes as given, or the placeholder when there are none. */
  function NotesOr(notes: Option<string>): (r: string)
    ensures notes.Some? ==> r == notes.value
    ensures notes.None? ==> r == NoNotes
  {
    notes.GetOr(NoNotes)
  }

  /** The lines of a rendered comment: the first one bulleted, every later
      one indented by two spaces. */
  function Bulleted(lines: seq<string>): (r: seq<string>)
    requires |lines| >= 1
    ensures |r| == |lines|
  {
    ["- " + lines[0]] + Indented(lines[1..])
  }

  function Indented(lines: seq<string>): (r: seq<string>)
    ensures |r| == |lines|
    ensures forall i :: 0 <= i < |lines| ==> r[i] == "  " + lines[i]
  {
    seq(|lines|, i requires 0 <= i < |lines| => "  " + lines[i])
  }

  /** One comment as a list item: `- ` and the body, each line break of the
      body followed by two spaces of indentation. */
  function RenderComment(body: string): (r: string)
    ensures StartsWith(r, "- ")
  {
    "- " + ReplaceChar(body, '\n', "\n  ")
  }

  /** The lines of a rendered comment are the lines of its body, the first
      bulleted and the rest indented: a multi-line body stays inside its list
      item. */
  lemma CommentLines(body: string)
    ensures Split(RenderComment(body), '\n') == Bulleted(Split(body, '\n'))
  {
    var parts := Split(body, '\n');
    ReplaceIsJoin(body, '\n', "\n  ");
    PrefixJoinIndent("- ", parts);
    BulletedLinesFree(parts);
    SplitJoin(Bulleted(parts), '\n');
  }

  /** Bulleting and indenting add no line break. */
  lemma BulletedLinesFree(parts: seq<string>)
    requires |parts| >= 1
    requires forall k :: 0 <= k < |parts| ==> '\n' !in parts[k]
    ensures forall k :: 0 <= k < |Bulleted(parts)| ==> '\n' !in Bulleted(parts)[k]
  {
    var lines := Bulleted(parts);
    forall k | 0 <= k < |lines| ensures '\n' !in lines[k] {
      if k == 0 {
        assert lines[0] == "- " + parts[0];
      } else {
        assert lines[k] == "  " + parts[k];
      }
    }
  }

  /** `p + join(parts, "\n  ")` is `join` with `\n` of `p + parts[0]` and the
      indented remaining parts. */
  lemma {:induction false} PrefixJoinIndent(p: string, parts: seq<string>)
    requires |parts| >= 1
    ensures p + Join(parts, "\n  ") == Join([p + parts[0]] + Indented(parts[1..]), "\n")
    decreases |parts|
  {
    if |parts| == 1 {
      assert [p + parts[0]] + Indented(parts[1..]) == [p + parts[0]];
    } else {
      var rest := parts[1..];
      PrefixJoinIndent("  ", rest);
      assert rest[1..] == parts[2..];
      assert [("  " + rest[0])] + Indented(rest[1..]) == Indented(rest);
      JoinCons(p + parts[0], Indented(rest), "\n");
      calc {
        p + Join(parts, "\n  ");
        p + (parts[0] + "\n  " + Join(rest, "\n  "));
        (p + parts[0]) + "\n" + ("  " + Join(rest, "\n  "));
        (p + parts[0]) + "\n" + Join(Indented(rest), "\n");
      }
    }
  }

  /** The comment list of a block: `No comments.` when there are none,
      otherwise one list item per comment, in order, one per line. */
  function RenderComments(comments: seq<(string, Option<string>)>): (r: string)
    ensures comments == [] <==> r == "No comments."
    ensures comments != [] ==> StartsWith(r, "- ")
  {
    if |comments| == 0 then "No comments."
    else
      var items := seq(|comments|, i requires 0 <= i < |comments| => RenderComment(comments[i].0));
      JoinStartsWith(items, "\n");
      assert StartsWith(items[0], "- ");
      var r := Join(items, "\n");
      assert r[..2] == items[0][..2];
      assert r[0] == '-' && "No comments."[0] == 'N';
      r
  }

  lemma JoinStartsWith(parts: seq<string>, sep: string)
    requires |parts| >= 1
    ensures StartsWith(Join(parts, sep), parts[0])
  {
  }

  const NoDescription: string := "No description provided."

  function DescriptionText(description: Option<string>): (r: string)
    ensures description.None? ==> r == NoDescription
    ensures description.Some? ==> r == description.value
  {
    description.GetOr(NoDescription)
  }

  function Heading(issue: JiraIssue): string {
    "### " + issue.key + " " + issue.summary + "\n"
  }

  /** The block for one resolved issue: heading with key and summary, type
      and status, the description (or its placeholder), the comments (or
      theirs), and a closing rule. */
  function IssueBlock(issue: JiraIssue): (r: string)
    ensures r != []
  {
    Heading(issue) + BlockTail(issue)
  }

  function BlockTail(issue: JiraIssue): string {
    TypeLine(issue) + DescriptionPart(issue) + "\n" + CommentsPart(issue) + "\n---\n"
  }

  function TypeLine(issue: JiraIssue): string {
    "**Type:** " + issue.issueType + " | **Status:** " + issue.status + "\n\n"
  }

  function DescriptionPart(issue: JiraIssue): string {
    "**Description:**\n" + DescriptionText(issue.description) + "\n"
  }

  function CommentsPart(issue: JiraIssue): string {
    "**Comments:**\n" + RenderComments(issue.comments) + "\n"
  }

  /** Each block opens with its issue's heading line and closes with the
      rule. */
  lemma IssueBlockFrame(issue: JiraIssue)
    ensures StartsWith(IssueBlock(issue), Heading(issue))
    ensures EndsWith(IssueBlock(issue), "\n\n---\n")
  {
    var h, a, d, c := Heading(issue), TypeLine(issue), DescriptionPart(issue), CommentsPart(issue);
    PrefixOfConcat(h, BlockTail(issue));
    Regroup(h, a, d, "\n", c, "\n---\n");
    var front, list := h + a + d + "\n", RenderComments(issue.comments);
    assert IssueBlock(issue) == front + ("**Comments:**\n" + list + "\n") + "\n---\n";
    EndsAfter(front, "**Comments:**\n" + list, "\n", "\n---\n", "\n\n---\n");
  }

  /** Where the parts of a block meet. */
  lemma Regroup(h: string, a: string, d: string, x: string, c: string, y: string)
    ensures h + (a + d + x + c + y) == (h + a) + d + (x + c + y)
    ensures h + (a + d + x + c + y) == (h + a + d + x) + c + y
  {
  }

  lemma EndsAfter(p: string, q: string, n: string, r: string, t: string)
    requires t == n + r
    ensures EndsWith(p + (q + n) + r, t)
  {
    assert p + (q + n) + r == (p + q) + (n + r);
    SuffixOfConcat(p + q, n + r);
  }

  /** An absent description shows up as its placeholder. */
  lemma DescriptionPlaceholder(issue: JiraIssue)
    requires issue.description.None?
    ensures Contains(IssueBlock(issue), "**Description:**\n" + NoDescription + "\n")
  {
    var h, a, d, c := Heading(issue), TypeLine(issue), DescriptionPart(issue), CommentsPart(issue);
    Regroup(h, a, d, "\n", c, "\n---\n");
    InfixOfConcat(h + a, d, "\n" + c + "\n---\n");
  }

  /** An empty comment list shows up as its placeholder. */
  lemma CommentsPlaceholder(issue: JiraIssue)
    requires issue.comments == []
    ensures Contains(IssueBlock(issue), "**Comments:**\n" + "No comments." + "\n")
  {
    var h, a, d, c := Heading(issue), TypeLine(issue), DescriptionPart(issue), CommentsPart(issue);
    Regroup(h, a, d, "\n", c, "\n---\n");
    InfixOfConcat(h + a + d + "\n", c, "\n---\n");
  }

  predicate Resolves(f: FetchResult) {
    f.Ok? && f.value.Some?
  }

  /** The issues of the fetch results that resolved, in result order. */
  function Resolved(fetches: seq<FetchResult>): (r: seq<JiraIssue>)
    ensures |r| <= |fetches|
    ensures r == [] <==> forall f :: f in fetches ==> !Resolves(f)
  {
    if fetches == [] then []
    else
      var last := fetches[|fetches| - 1];
      var init := fetches[..|fetches| - 1];
      assert forall f :: f in fetches <==> f in init || f == last;
      Resolved(init) + (if Resolves(last) then [last.value.value] else [])
  }

  function Blocks(issues: seq<JiraIssue>): (r: seq<string>)
    ensures |r| == |issues|
    ensures forall i :: 0 <= i < |issues| ==> r[i] == IssueBlock(issues[i])
  {
    seq(|issues|, i requires 0 <= i < |issues| => IssueBlock(issues[i]))
  }

  /** The text of all blocks, one per resolved issue, in result order. */
  function IssueSections(fetches: seq<FetchResult>): string {
    Concat(Blocks(Resolved(fetches)))
  }

  /** The `for res in fetches` loop: appends a block per resolved issue. */
  method CollectIssueSections(fetches: seq<FetchResult>) returns (sections: string)
    ensures sections == IssueSections(fetches)
    ensures sections == "" <==> forall f :: f in fetches ==> !Resolves(f)
  {
    sections := "";
    var i := 0;
    while i < |fetches|
      invariant 0 <= i <= |fetches|
      invariant sections == IssueSections(fetches[..i])
    {
      SectionsStep(fetches, i);
      if Resolves(fetches[i]) {
        sections := sections + IssueBlock(fetches[i].value.value);
      }
      i := i + 1;
    }
    assert fetches[..i] == fetches;
    NoSectionsIff(fetches);
  }

  /** One more result: its block, if it resolved, follows the others. */
  lemma SectionsStep(fetches: seq<FetchResult>, i: nat)
    requires i < |fetches|
    ensures IssueSections(fetches[..i + 1])
         == IssueSections(fetches[..i]) + (if Resolves(fetches[i]) then IssueBlock(fetches[i].value.value) else "")
  {
    var before, f := fetches[..i], fetches[i];
    assert fetches[..i + 1][..i] == before && fetches[..i + 1][i] == f;
    var issues := Resolved(before);
    if Resolves(f) {
      assert Resolved(fetches[..i + 1]) == issues + [f.value.value];
      BlocksSnoc(issues, f.value.value);
      ConcatSnoc(Blocks(issues), IssueBlock(f.value.value));
    } else {
      assert Resolved(fetches[..i + 1]) == issues;
    }
  }

  lemma BlocksSnoc(issues: seq<JiraIssue>, issue: JiraIssue)
    ensures Blocks(issues + [issue]) == Blocks(issues) + [IssueBlock(issue)]
  {
  }

  /** No block is rendered exactly when no result resolved. */
  lemma NoSectionsIff(fetches: seq<FetchResult>)
    ensures IssueSections(fetches) == "" <==> forall f :: f in fetches ==> !Resolves(f)
  {
    SectionsEmpty(Blocks(Resolved(fetches)));
  }

  lemma {:induction false} SectionsEmpty(blocks: seq<string>)
    requires forall i :: 0 <= i < |blocks| ==> blocks[i] != ""
    ensures Concat(blocks) == "" <==> blocks == []
    decreases |blocks|
  {
    if blocks != [] {
      assert |Concat(blocks)| >= |blocks[|blocks| - 1]|;
    }
  }

  /** Results are filtered, not truncated: the resolved issues of a run of
      results are those of its parts, in order. */
  lemma {:induction false} ResolvedAppend(a: seq<FetchResult>, b: seq<FetchResult>)
    ensures Resolved(a + b) == Resolved(a) + Resolved(b)
    decreases |b|
  {
    if b == [] {
      assert a + b == a;
    } else {
      var init, last := b[..|b| - 1], b[|b| - 1];
      assert a + b == (a + init) + [last] && b == init + [last];
      ResolvedSnoc(a + init, last);
      ResolvedSnoc(init, last);
      ResolvedAppend(a, init);
      AppendAssoc(Resolved(a), Resolved(init), if Resolves(last) then [last.value.value] else []);
    }
  }

  lemma ResolvedSnoc(fetches: seq<FetchResult>, f: FetchResult)
    ensures Resolved(fetches + [f]) == Resolved(fetches) + (if Resolves(f) then [f.value.value] else [])
  {
    assert (fetches + [f])[..|fetches|] == fetches;
  }

  /** A failed or empty fetch contributes nothing and does not stop the
      results after it. */
  lemma FailedFetchIgnored(before: seq<FetchResult>, f: FetchResult, after: seq<FetchResult>)
    requires !Resolves(f)
    ensures IssueSections(before + [f] + after) == IssueSections(before + after)
  {
    ResolvedAppend(before + [f], after);
    ResolvedAppend(before, [f]);
    ResolvedAppend(before, after);
    assert Resolved([f]) == [];
    assert Resolved(before + [f] + after) == Resolved(before + after);
  }

  /** The optional section: nothing when no block was rendered. */
  function JiraSection(sections: string): (r: string)
    ensures sections == "" <==> r == ""
    ensures sections != "" ==> StartsWith(r, "\n## Linked Jira Issues\n\n") && EndsWith(r, sections)
  {
    if sections == "" then "" else "\n## Linked Jira Issues\n\n" + sections
  }

  /** The result of `fetch_issue` for each key, in key order. */
  function Outcomes(config: JiraConfig, keys: seq<string>, tracker: Request -> HttpOutcome)
    : (r: seq<FetchResult>)
    ensures |r| == |keys|
    ensures forall i :: 0 <= i < |keys| ==> r[i] == FetchIssue(config, keys[i], tracker(IssueRequest(config, keys[i])))
  {
    seq(|keys|, i requires 0 <= i < |keys| => FetchIssue(config, keys[i], tracker(IssueRequest(config, keys[i]))))
  }

  /** Results collected by `buffer_unordered`: the per-key outcomes in some
      completion order, which `arrive` chooses. */
  type Arrival = seq<FetchResult> -> seq<FetchResult>

  ghost predicate IsReordering(arrive: Arrival) {
    forall s :: multiset(arrive(s)) == multiset(s)
  }

  /** The key `k` resolves to an issue. */
  predicate KeyResolves(config: JiraConfig, k: string, tracker: Request -> HttpOutcome) {
    Resolves(FetchIssue(config, k, tracker(IssueRequest(config, k))))
  }

  /** The Jira part of the document for a commit log. */
  ghost function JiraPart(config: Option<JiraConfig>, log: string, tracker: Request -> HttpOutcome,
                          arrive: Arrival): string
  {
    match config
    case None => ""
    case Some(c) =>
      var keys := SortedKeys(MatchSet(log));
      if keys == [] then "" else JiraSection(IssueSections(arrive(Outcomes(c, keys, tracker))))
  }

  /** Reordering the results neither adds nor removes a resolved one. */
  lemma ReorderedResolves(outs: seq<FetchResult>, got: seq<FetchResult>)
    requires multiset(got) == multiset(outs)
    ensures (forall f :: f in got ==> !Resolves(f)) <==> (forall f :: f in outs ==> !Resolves(f))
  {
    forall f ensures f in got <==> f in outs {
      assert f in got <==> f in multiset(got);
      assert f in outs <==> f in multiset(outs);
    }
  }

  /** Some per-key outcome resolves exactly when some key does. */
  lemma OutcomesResolve(c: JiraConfig, keys: seq<string>, tracker: Request -> HttpOutcome)
    ensures (forall f :: f in Outcomes(c, keys, tracker) ==> !Resolves(f))
        <==> (forall k :: k in keys ==> !KeyResolves(c, k, tracker))
  {
    PointwiseResolves(Outcomes(c, keys, tracker), keys, k => KeyResolves(c, k, tracker));
  }

  /** The same for any results that match their keys one for one. */
  lemma PointwiseResolves(outs: seq<FetchResult>, keys: seq<string>, resolves: string -> bool)
    requires |outs| == |keys|
    requires forall i :: 0 <= i < |keys| ==> Resolves(outs[i]) == resolves(keys[i])
    ensures (forall f :: f in outs ==> !Resolves(f)) <==> (forall k :: k in keys ==> !resolves(k))
  {
    if exists k :: k in keys && resolves(k) {
      var k :| k in keys && resolves(k);
      var i :| 0 <= i < |keys| && keys[i] == k;
      assert outs[i] in outs;
    }
    if exists f :: f in outs && Resolves(f) {
      var f :| f in outs && Resolves(f);
      var i :| 0 <= i < |outs| && outs[i] == f;
      assert keys[i] in keys;
    }
  }

  /** The header appears exactly when a configuration is given and some key
      of the log resolves to an issue, whatever order the results arrive in. */
  lemma JiraPartEmpty(config: Option<JiraConfig>, log: string, tracker: Request -> HttpOutcome,
                      arrive: Arrival)
    requires IsReordering(arrive)
    ensures JiraPart(config, log, tracker, arrive) == "" <==>
      (config.None? || forall k :: k in MatchSet(log) ==> !KeyResolves(config.value, k, tracker))
  {
    if config.Some? {
      var found := MatchSet(log);
      SectionEmptyIff(config.value, SortedKeys(found), found, tracker, arrive);
    }
  }

  /** The same for any key list holding exactly the keys found. */
  lemma SectionEmptyIff(c: JiraConfig, keys: seq<string>, found: set<string>, tracker: Request -> HttpOutcome,
                        arrive: Arrival)
    requires IsReordering(arrive)
    requires forall k :: k in keys <==> k in found
    ensures (keys == [] || JiraSection(IssueSections(arrive(Outcomes(c, keys, tracker)))) == "")
        <==> forall k :: k in found ==> !KeyResolves(c, k, tracker)
  {
    if keys != [] {
      var outs := Outcomes(c, keys, tracker);
      NoSectionsIff(arrive(outs));
      ReorderedResolves(outs, arrive(outs));
      OutcomesResolve(c, keys, tracker);
    } else {
      assert forall k :: k !in found;
    }
  }

  /** The document: title, notes, the Jira part, commit history, and the
      diff fenced as `diff`. */
  function Layout(notes: string, jira: string, log: string, diff: string): string {
    "# Release Context\n\n## Strategic Context / Adhoc Notes\n" + notes + "\n" + jira
      + "\n## Commit History\n" + log + "\n\n## Code Changes\n```diff\n" + diff + "\n```"
  }

  /** What `generate_context` returns: the log error first, then the diff
      error; otherwise the document, with the issue blocks in the order the
      fetches completed. */
  ghost function ContextResult(start: string, end: string, notes: Option<string>, git: GitRunner,
                               jiraConfig: Option<JiraConfig>, tracker: Request -> HttpOutcome,
                               arrive: Arrival)
    : (r: Result<string, GitError>)
    ensures GetGitLog(start, end, git).Err? ==> r == Err(GetGitLog(start, end, git).error)
    ensures GetGitLog(start, end, git).Ok? && GitDiff(start, end, git).Err?
      ==> r == Err(GitDiff(start, end, git).error)
    ensures r.Ok? <==> GetGitLog(start, end, git).Ok? && GitDiff(start, end, git).Ok?
  {
    var log := GetGitLog(start, end, git);
    var diff := GitDiff(start, end, git);
    if log.Err? then Err(log.error)
    else if diff.Err? then Err(diff.error)
    else Ok(Layout(NotesOr(notes), JiraPart(jiraConfig, log.value, tracker, arrive), log.value, diff.value))
  }

  /** `generate_context`: the log, then the diff, then, when Jira is
      configured, the issues the log names, fetched concurrently. */
  method GenerateContext(start: string, end: string, notes: Option<string>, git: GitRunner,
                         jiraConfig: Option<JiraConfig>, tracker: Request -> HttpOutcome,
                         arrive: Arrival)
    returns (r: Result<string, GitError>)
    ensures r == ContextResult(start, end, notes, git, jiraConfig, tracker, arrive)
  {
    var notesContent := NotesOr(notes);
    var logResult := GetGitLog(start, end, git);
    if logResult.Err? {
      return Err(logResult.error);
    }
    var diffResult := GetGitDiff(start, end, git);
    if diffResult.Err? {
      return Err(diffResult.error);
    }
    var jiraSection := LinkedIssues(jiraConfig, logResult.value, tracker, arrive);
    r := Ok(Layout(notesContent, jiraSection, logResult.value, diffResult.value));
  }

  /** The Jira step of `generate_context`: the keys of the log, their
      issues fetched, and the section when some block was rendered. */
  method LinkedIssues(jiraConfig: Option<JiraConfig>, log: string, tracker: Request -> HttpOutcome,
                      arrive: Arrival)
    returns (jiraSection: string)
    ensures jiraSection == JiraPart(jiraConfig, log, tracker, arrive)
  {
    jiraSection := "";
    if jiraConfig.Some? {
      var keys := ExtractIssueKeys(log);
      if keys != [] {
        var fetches := arrive(Outcomes(jiraConfig.value, keys, tracker));
        var sections := CollectIssueSections(fetches);
        if sections != "" {
          jiraSection := "\n## Linked Jira Issues\n\n" + sections;
        }
      }
    }
  }

  /** The URL `generate_ai_cmd` posts to. */
  const OllamaUrl: string := "http://localhost:11434/api/generate"

  /** What `call_ollama` of the gitscribe crate returns for a reply: a send
      failure or a non-2xx status is an error; without a callback the whole
      body is decoded; with one, the streaming loop as built: each read is
      split into lines on its own, a `done` line ends only its own read, and
      the first failed read is the error. */
  function CallResult(reply: Reply, callback: bool, decode: LineDecoder): (r: Result<string, OllamaError>)
    ensures CheckStatus(reply).Some? ==> r == Err(CheckStatus(reply).value)
    ensures r.Ok? ==> reply.Answered? && Ollama.IsSuccess(reply.status)
    ensures !callback ==> r == WholeResult(reply)
    ensures CheckStatus(reply).None? && callback ==>
      && (r.Ok? <==> FirstFailure(reply.chunks) == |reply.chunks|)
      && (r.Ok? ==> r.value == Concat(StreamTokens(ReadTexts(reply.chunks), decode)))
      && (r.Err? ==> r.error == ChunkError(reply.chunks[FirstFailure(reply.chunks)].reason))
  {
    match CheckStatus(reply)
    case Some(e) => Err(e)
    case None =>
      if !callback then WholeResult(reply)
      else if FirstFailure(reply.chunks) == |reply.chunks| then
        Ok(Concat(StreamTokens(ReadTexts(reply.chunks), decode)))
      else
        Err(ChunkError(reply.chunks[FirstFailure(reply.chunks)].reason))
  }

  /** The tokens the callback receives, in order: none unless the call
      streams and the status is 2xx; then those of every read before the
      first failed one. A streamed call that succeeds returns exactly what
      the callback received. */
  function CallTokens(reply: Reply, callback: bool, decode: LineDecoder): (toks: seq<string>)
    ensures toks != [] ==> callback && CheckStatus(reply).None?
    ensures callback && CheckStatus(reply).None? ==>
      toks == StreamTokens(ChunkTexts(reply.chunks[..FirstFailure(reply.chunks)]), decode)
    ensures callback && CallResult(reply, callback, decode).Ok? ==>
      CallResult(reply, callback, decode).value == Concat(toks)
  {
    if callback && CheckStatus(reply).None? then StreamTokens(ReadTexts(reply.chunks), decode) else []
  }

  /** `call_ollama` of the gitscribe crate: it posts one request, streaming
      exactly when a callback is given. */
  method CallOllama(model: string, url: string, prompt: string, system: Option<string>,
                    callback: bool, server: Server, decode: LineDecoder)
    returns (r: Result<string, OllamaError>, emitted: seq<string>, request: OllamaRequest)
    ensures request == BuildRequest(model, url, prompt, system, callback)
    ensures r == CallResult(server(request), callback, decode)
    ensures emitted == CallTokens(server(request), callback, decode)
  {
    request := BuildRequest(model, url, prompt, system, callback);
    var reply := server(request);
    emitted := [];
    match CheckStatus(reply)
    case Some(e) =>
      r := Err(e);
    case None =>
      if callback {
        r, emitted := OllamaStream.StreamResponse(reply.chunks, decode);
      } else {
        r := WholeResult(reply);
      }
  }

  /** The streaming call with the line-buffered parser in place of the
      per-read split: the callback receives the tokens of the body's lines
      decoded whole, and the result is the buffered outcome. */
  method CallOllamaBuffered(model: string, url: string, prompt: string, system: Option<string>,
                            server: Server, decode: LineDecoder)
    returns (r: Result<string, OllamaError>, emitted: seq<string>, request: OllamaRequest)
    ensures request == BuildRequest(model, url, prompt, system, true)
    ensures CheckStatus(server(request)).Some? ==> r == Err(CheckStatus(server(request)).value) && emitted == []
    ensures CheckStatus(server(request)).None? ==>
      && emitted == BufferedStream.BufferedTokens(server(request).chunks, decode)
      && r == BufferedStream.StreamOutcome(server(request).chunks, decode)
  {
    request := BuildRequest(model, url, prompt, system, true);
    var reply := server(request);
    emitted := [];
    match CheckStatus(reply)
    case Some(e) =>
      r := Err(e);
    case None =>
      r, emitted := BufferedStream.StreamResponse(reply.chunks, decode);
  }
}
