/** The gitscribe desktop app's backend commands: the Jira credential
    pairing of the two generate commands, the templates folder with its
    default template, the template listing, and the notes-file loader.
    File-system calls are outcome parameters; the templates folder is an
    object whose state the commands change. */
module TauriCommands {
  import opened Wrappers
  import opened Text
  import opened Git
  import opened Jira
  import opened Ollama
  import OllamaStream
  import GitscribeCore

  /** A command's error, kept structured rather than rendered as text. */
  datatype CommandError =
    | ContextFailed(git: GitError)
    | InferenceFailed(ollama: OllamaError)
    | ReadFailed(read: ReadError)
    | Message(text: string)

  const FileNotFound: string := "File not found or empty"

  /** The Jira settings both generate commands build: a configuration only
      when both the URL and the token are given and neither is empty. */
  function JiraConfigFrom(url: Option<string>, pat: Option<string>): (r: Option<JiraConfig>)
    ensures r.Some? <==> url.Some? && pat.Some? && url.value != "" && pat.value != ""
    ensures r.Some? ==> r.value == JiraConfig(url.value, pat.value)
  {
    if url.Some? && pat.Some? && url.value != "" && pat.value != "" then
      Some(JiraConfig(url.value, pat.value))
    else
      None
  }

  /** The context both generate commands build: the notes as typed, with
      the Jira settings paired up. */
  ghost function CommandContext(start: string, end: string, notes: string, git: GitRunner,
                                jiraUrl: Option<string>, jiraPat: Option<string>,
                                tracker: Request -> HttpOutcome, arrive: GitscribeCore.Arrival)
    : Result<string, GitError>
  {
    GitscribeCore.ContextResult(start, end, Some(notes), git, JiraConfigFrom(jiraUrl, jiraPat), tracker, arrive)
  }

  /** `generate_preview_cmd`: the context document for the notes as typed. */
  method GeneratePreviewCmd(start: string, end: string, notes: string, git: GitRunner,
                            jiraUrl: Option<string>, jiraPat: Option<string>,
                            tracker: Request -> HttpOutcome, arrive: GitscribeCore.Arrival)
    returns (r: Result<string, CommandError>)
    ensures CommandContext(start, end, notes, git, jiraUrl, jiraPat, tracker, arrive).Ok? ==>
      r == Ok(CommandContext(start, end, notes, git, jiraUrl, jiraPat, tracker, arrive).value)
    ensures CommandContext(start, end, notes, git, jiraUrl, jiraPat, tracker, arrive).Err? ==>
      r == Err(ContextFailed(CommandContext(start, end, notes, git, jiraUrl, jiraPat, tracker, arrive).error))
  {
    var config := JiraConfigFrom(jiraUrl, jiraPat);
    var c := GitscribeCore.GenerateContext(start, end, Some(notes), git, config, tracker, arrive);
    if c.Ok? {
      r := Ok(c.value);
    } else {
      r := Err(ContextFailed(c.error));
    }
  }

  /** An inference outcome as a command result. */
  function Inferred(o: Result<string, OllamaError>): (r: Result<string, CommandError>)
    ensures r.Ok? <==> o.Ok?
    ensures o.Ok? ==> r.value == o.value
    ensures o.Err? ==> r.error == InferenceFailed(o.error)
  {
    if o.Ok? then Ok(o.value) else Err(InferenceFailed(o.error))
  }

  /** `generate_ai_cmd`: a context failure is returned before anything is
      posted; otherwise exactly one streaming request, carrying the context
      as its prompt, goes to the fixed local URL, and `emitted` is what the
      window receives as `ai-token` events. */
  method GenerateAiCmd(start: string, end: string, notes: string, git: GitRunner,
                       model: string, systemPrompt: Option<string>,
                       jiraUrl: Option<string>, jiraPat: Option<string>,
                       tracker: Request -> HttpOutcome, arrive: GitscribeCore.Arrival,
                       server: Server, decode: OllamaStream.LineDecoder)
    returns (r: Result<string, CommandError>, emitted: seq<string>, sent: seq<OllamaRequest>)
    ensures CommandContext(start, end, notes, git, jiraUrl, jiraPat, tracker, arrive).Err? ==>
      && r == Err(ContextFailed(CommandContext(start, end, notes, git, jiraUrl, jiraPat, tracker, arrive).error))
      && emitted == [] && sent == []
    ensures CommandContext(start, end, notes, git, jiraUrl, jiraPat, tracker, arrive).Ok? ==>
      sent == [BuildRequest(model, GitscribeCore.OllamaUrl,
                            CommandContext(start, end, notes, git, jiraUrl, jiraPat, tracker, arrive).value,
                            systemPrompt, true)]
    ensures |sent| == 1 ==> emitted == GitscribeCore.CallTokens(server(sent[0]), true, decode)
    ensures |sent| == 1 ==> r == Inferred(GitscribeCore.CallResult(server(sent[0]), true, decode))
    ensures |sent| <= 1
    ensures sent != [] ==> sent[0].payload.stream && sent[0].url == GitscribeCore.OllamaUrl
  {
    var config := JiraConfigFrom(jiraUrl, jiraPat);
    var c := GitscribeCore.GenerateContext(start, end, Some(notes), git, config, tracker, arrive);
    if c.Err? {
      return Err(ContextFailed(c.error)), [], [];
    }
    var o, toks, request := GitscribeCore.CallOllama(model, GitscribeCore.OllamaUrl, c.value,
                                                    systemPrompt, true, server, decode);
    emitted, sent := toks, [request];
    r := Inferred(o);
  }

  /** `load_file_cmd`: the notes file's content; a file that does not exist
      is the "not found" message, one that cannot be read is a read error.
      An existing empty file is returned as the empty string. */
  function LoadFileCmd(path: string, probe: FileProbe): (r: Result<string, CommandError>)
    ensures probe.Missing? ==> r == Err(Message(FileNotFound))
    ensures probe.Readable? ==> r == Ok(probe.content)
    ensures probe.Unreadable? ==> r == Err(ReadFailed(ReadError("User Notes", path, probe.reason)))
  {
    match ReadFileContent(Some(path), "User Notes", probe)
    case Err(e) => Err(ReadFailed(e))
    case Ok(None) => Err(Message(FileNotFound))
    case Ok(Some(content)) => Ok(content)
  }

  // ---------------------------------------------------------------------
  // The templates folder

  const DefaultName: string := "default.md"

  /** What a name in the templates folder holds. */
  datatype Entry = File(content: string) | Directory

  /** The folder's entries after the default template is made sure of: an
      existing `default.md`, whatever it is, is left alone. */
  function WithDefault(entries: map<string, Entry>, defaultPrompt: string): (r: map<string, Entry>)
    ensures DefaultName in r
    ensures forall n :: n in entries ==> n in r && r[n] == entries[n]
    ensures forall n :: n in r && n != DefaultName ==> n in entries
    ensures DefaultName !in entries ==> r[DefaultName] == File(defaultPrompt)
  {
    if DefaultName in entries then entries else entries[DefaultName := File(defaultPrompt)]
  }

  /** Making sure twice is making sure once. */
  lemma WithDefaultIdempotent(entries: map<string, Entry>, defaultPrompt: string)
    ensures WithDefault(WithDefault(entries, defaultPrompt), defaultPrompt) == WithDefault(entries, defaultPrompt)
  {
    assert DefaultName in WithDefault(entries, defaultPrompt);
  }

  /** The app's templates folder: whether it exists, and what it holds. */
  class TemplatesDir {
    var present: bool
    var entries: map<string, Entry>

    /** A folder that does not exist holds nothing. */
    ghost predicate Valid()
      reads this
    {
      !present ==> entries == map[]
    }

    constructor (present: bool, entries: map<string, Entry>)
      requires !present ==> entries == map[]
      ensures Valid()
      ensures this.present == present && this.entries == entries
    {
      this.present := present;
      this.entries := entries;
    }

    /** `ensure_templates_dir`: locate the configuration folder, create the
        templates folder if it is missing, then write the default template
        if no `default.md` exists. Each step's failure ends the call with
        that step's error; the outcome parameters say which step fails. */
    method Ensure(configError: Option<string>, createError: Option<string>, writeError: Option<string>,
                  defaultPrompt: string)
      returns (r: Result<(), string>)
      requires Valid()
      modifies this
      ensures Valid()
      ensures configError.Some? ==> r == Err(configError.value) && unchanged(this)
      ensures configError.None? && !old(present) && createError.Some?
        ==> r == Err(createError.value) && unchanged(this)
      ensures r.Ok? <==> (configError.None? && (old(present) || createError.None?)
                          && (DefaultName in old(entries) || writeError.None?))
      ensures r.Ok? ==> present && entries == WithDefault(old(entries), defaultPrompt)
      ensures r.Ok? && !old(present) ==> entries == map[DefaultName := File(defaultPrompt)]
      ensures r.Err? && configError.None? && (old(present) || createError.None?)
        ==> present && entries == old(entries) && r == Err(writeError.value)
    {
      if configError.Some? {
        return Err(configError.value);
      }
      if !present {
        if createError.Some? {
          return Err(createError.value);
        }
        present := true;
      }
      if DefaultName !in entries {
        if writeError.Some? {
          return Err(writeError.value);
        }
        entries := entries[DefaultName := File(defaultPrompt)];
      }
      r := Ok(());
    }
  }

  // ---------------------------------------------------------------------
  // Listing templates

  /** One entry of `read_dir`: a readable entry, with its name when that is
      valid UTF-8, or a failure to read the entry. */
  datatype DirItem = Item(name: Option<string>, isFile: bool) | ItemFailed(reason: string)

  /** What `read_dir` gave: a failure, or the entries in the order listed. */
  datatype Listing = ListFailed(reason: string) | Listed(items: seq<DirItem>)

  predicate IsTemplateName(name: string) {
    EndsWith(name, ".md") || EndsWith(name, ".txt")
  }

  /** The item names a template: a regular file whose name is text ending
      in `.md` or `.txt`. */
  predicate IsTemplate(item: DirItem) {
    item.Item? && item.isFile && item.name.Some? && IsTemplateName(item.name.value)
  }

  /** The template names among the items, in listing order. */
  function TemplateNames(items: seq<DirItem>): seq<string> {
    if items == [] then []
    else
      var last := items[|items| - 1];
      TemplateNames(items[..|items| - 1]) + (if IsTemplate(last) then [last.name.value] else [])
  }

  /** A name is listed exactly when some item is a template file of that
      name. */
  lemma {:induction false} TemplateNamesExactly(items: seq<DirItem>, name: string)
    ensures name in TemplateNames(items) <==>
      (exists i :: 0 <= i < |items| && IsTemplate(items[i]) && items[i].name.value == name)
    decreases |items|
  {
    if items != [] {
      var init := items[..|items| - 1];
      TemplateNamesExactly(init, name);
      if exists i :: 0 <= i < |init| && IsTemplate(init[i]) && init[i].name.value == name {
        var i :| 0 <= i < |init| && IsTemplate(init[i]) && init[i].name.value == name;
        assert items[i] == init[i];
      }
      if exists i :: 0 <= i < |items| && IsTemplate(items[i]) && items[i].name.value == name {
        var i :| 0 <= i < |items| && IsTemplate(items[i]) && items[i].name.value == name;
        if i < |init| {
          assert init[i] == items[i];
        }
      }
    }
  }

  /** The index of the first entry that could not be read, or `|items|`. */
  function FirstItemFailure(items: seq<DirItem>): (n: nat)
    ensures n <= |items|
    ensures forall k :: 0 <= k < n ==> items[k].Item?
    ensures n < |items| ==> items[n].ItemFailed?
  {
    if items == [] || items[0].ItemFailed? then 0 else 1 + FirstItemFailure(items[1..])
  }

  /** The loop of `list_templates_cmd`: the first unreadable entry ends it
      with that entry's error; otherwise the template names, in order. */
  method CollectTemplates(items: seq<DirItem>) returns (r: Result<seq<string>, string>)
    ensures r.Ok? <==> FirstItemFailure(items) == |items|
    ensures r.Ok? ==> r.value == TemplateNames(items)
    ensures r.Err? ==> r.error == items[FirstItemFailure(items)].reason
  {
    var templates := [];
    var i := 0;
    while i < |items|
      invariant 0 <= i <= |items|
      invariant forall k :: 0 <= k < i ==> items[k].Item?
      invariant templates == TemplateNames(items[..i])
    {
      var item := items[i];
      if item.ItemFailed? {
        ItemFailureAt(items, i);
        return Err(item.reason);
      }
      assert items[..i + 1][..i] == items[..i];
      if item.isFile && item.name.Some? && IsTemplateName(item.name.value) {
        templates := templates + [item.name.value];
      }
      i := i + 1;
    }
    assert items[..i] == items;
    NoItemFailure(items);
    r := Ok(templates);
  }

  lemma {:induction false} ItemFailureAt(items: seq<DirItem>, c: nat)
    requires c < |items| && items[c].ItemFailed?
    requires forall k :: 0 <= k < c ==> items[k].Item?
    ensures FirstItemFailure(items) == c
    decreases c
  {
    if c > 0 {
      ItemFailureAt(items[1..], c - 1);
    }
  }

  lemma {:induction false} NoItemFailure(items: seq<DirItem>)
    requires forall k :: 0 <= k < |items| ==> items[k].Item?
    ensures FirstItemFailure(items) == |items|
    decreases |items|
  {
    if items != [] {
      NoItemFailure(items[1..]);
    }
  }

  /** The folder was made sure of: each step of `ensure_templates_dir`
      succeeded for a folder in this state. */
  predicate Ensured(present: bool, entries: map<string, Entry>, configError: Option<string>,
                    createError: Option<string>, writeError: Option<string>)
  {
    configError.None? && (present || createError.None?) && (DefaultName in entries || writeError.None?)
  }

  /** The listing shows the folder's entries: every item read is an entry of
      that name, a regular file exactly when the entry is a file, and every
      entry is among the items. */
  ghost predicate ListsEntries(items: seq<DirItem>, entries: map<string, Entry>) {
    && (forall i :: 0 <= i < |items| && items[i].Item? ==>
          items[i].name.Some? && items[i].name.value in entries
          && (items[i].isFile <==> entries[items[i].name.value].File?))
    && (forall n :: n in entries ==> exists i :: 0 <= i < |items| && items[i] == Item(Some(n), entries[n].File?))
  }

  /** A listing of a folder whose `default.md` is a file names it. */
  lemma DefaultListed(items: seq<DirItem>, entries: map<string, Entry>)
    requires ListsEntries(items, entries)
    requires DefaultName in entries && entries[DefaultName].File?
    ensures DefaultName in TemplateNames(items)
  {
    var i :| 0 <= i < |items| && items[i] == Item(Some(DefaultName), entries[DefaultName].File?);
    assert EndsWith(DefaultName, ".md");
    TemplateNamesExactly(items, DefaultName);
  }

  /** `list_templates_cmd`: make sure of the folder, list it, and keep the
      template names. `listing` is what `read_dir` gives for the folder. The
      error is that of the first step that fails. */
  method ListTemplatesCmd(dir: TemplatesDir, configError: Option<string>, createError: Option<string>,
                          writeError: Option<string>, defaultPrompt: string, listing: Listing)
    returns (r: Result<seq<string>, string>)
    requires dir.Valid()
    modifies dir
    ensures dir.Valid()
    ensures configError.Some? ==> r == Err(configError.value) && unchanged(dir)
    ensures configError.None? && !old(dir.present) && createError.Some?
      ==> r == Err(createError.value) && unchanged(dir)
    ensures configError.None? && (old(dir.present) || createError.None?) && DefaultName !in old(dir.entries)
            && writeError.Some?
      ==> r == Err(writeError.value) && dir.present && dir.entries == old(dir.entries)
    ensures Ensured(old(dir.present), old(dir.entries), configError, createError, writeError) ==>
      && dir.present && dir.entries == WithDefault(old(dir.entries), defaultPrompt)
      && (listing.ListFailed? ==> r == Err(listing.reason))
      && (listing.Listed? && FirstItemFailure(listing.items) < |listing.items| ==>
            r == Err(listing.items[FirstItemFailure(listing.items)].reason))
      && (listing.Listed? && FirstItemFailure(listing.items) == |listing.items| ==>
            r == Ok(TemplateNames(listing.items)))
    ensures r.Ok? <==> (Ensured(old(dir.present), old(dir.entries), configError, createError, writeError)
                        && listing.Listed? && FirstItemFailure(listing.items) == |listing.items|)
    ensures r.Ok? && ListsEntries(listing.items, dir.entries)
            && (DefaultName !in old(dir.entries) || old(dir.entries)[DefaultName].File?)
      ==> DefaultName in r.value
  {
    var ensured := dir.Ensure(configError, createError, writeError, defaultPrompt);
    if ensured.Err? {
      return Err(ensured.error);
    }
    match listing
    case ListFailed(reason) =>
      r := Err(reason);
    case Listed(items) =>
      r := CollectTemplates(items);
      if r.Ok? && ListsEntries(items, dir.entries)
         && (DefaultName !in old(dir.entries) || old(dir.entries)[DefaultName].File?) {
        DefaultListed(items, dir.entries);
      }
  }
}
