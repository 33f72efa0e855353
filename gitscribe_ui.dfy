/** The decision rules of the gitscribe window: which model and template to
    select when the lists arrive, how the manual prompt is composed, the
    guards of Generate, and how streamed tokens accumulate. The window's
    state is an object; what the backend commands return, and the tokens
    that arrive while one runs, are parameters. Rendering, persistence and
    the browser-preview mock data are not part of this model. */
module GitscribeUi {
  import opened Wrappers
  import opened Text

  const PreferredModel: string := "llama3"
  const FallbackModel: string := "mistral"
  const DefaultTemplate: string := "default.md"
  const NoTemplate: string := "[No template loaded]"
  const DataBanner: string := "\n\n*** DATA TO PROCESS ***\n\n"
  const ManualStarted: string := "Generating Context for Manual Copy..."
  const ContextErrorPrefix: string := "Error generating context: "
  const OllamaMissing: string := "Error: Ollama is not detected. Please verify it is running on http://localhost:11434"
  const NotesErrorPrefix: string := "\n\nError generating release notes: "

  /** `Array.prototype.find` with `includes`: the first name containing
      `part`, if any. */
  function FirstContaining(names: seq<string>, part: string): (r: Option<string>)
    ensures r.None? <==> forall i :: 0 <= i < |names| ==> !Contains(names[i], part)
    ensures r.Some? ==> exists i :: 0 <= i < |names| && names[i] == r.value && Contains(r.value, part)
                          && forall j :: 0 <= j < i ==> !Contains(names[j], part)
  {
    if names == [] then None
    else if Contains(names[0], part) then Some(names[0])
    else
      var rest := FirstContaining(names[1..], part);
      assert forall i :: 1 <= i < |names| ==> names[i] == names[1..][i - 1];
      if rest.Some? then
        var k :| 0 <= k < |names[1..]| && names[1..][k] == rest.value && Contains(rest.value, part)
                 && forall j :: 0 <= j < k ==> !Contains(names[1..][j], part);
        assert names[k + 1] == rest.value;
        rest
      else
        rest
  }

  /** The model after `checkOllama` lists `available`: kept when the list
      is empty or already has it; otherwise the first `llama3` model, else
      the first `mistral` model, else the first model. */
  function PickModel(current: string, available: seq<string>): (r: string)
    ensures available == [] || current in available ==> r == current
    ensures available != [] && current !in available ==> r in available
    ensures available != [] && current !in available && FirstContaining(available, PreferredModel).Some?
      ==> r == FirstContaining(available, PreferredModel).value
    ensures (available != [] && current !in available && FirstContaining(available, PreferredModel).None?
             && FirstContaining(available, FallbackModel).Some?)
      ==> r == FirstContaining(available, FallbackModel).value
    ensures (available != [] && current !in available && FirstContaining(available, PreferredModel).None?
             && FirstContaining(available, FallbackModel).None?)
      ==> r == available[0]
  {
    if available == [] || current in available then current
    else
      var llama := FirstContaining(available, PreferredModel);
      var mistral := FirstContaining(available, FallbackModel);
      if llama.Some? then llama.value
      else if mistral.Some? then mistral.value
      else available[0]
  }

  /** A second listing of the same models keeps the model the first one
      picked. */
  lemma PickModelStable(current: string, available: seq<string>)
    ensures PickModel(PickModel(current, available), available) == PickModel(current, available)
  {
  }

  /** The template after `loadTemplates` lists `names`: `default.md` when
      listed, else the first name, else the selection as it was. */
  function PickTemplate(selected: string, names: seq<string>): (r: string)
    ensures DefaultTemplate in names ==> r == DefaultTemplate
    ensures DefaultTemplate !in names && names != [] ==> r == names[0]
    ensures names == [] ==> r == selected
    ensures names != [] ==> r in names
  {
    if DefaultTemplate in names then DefaultTemplate
    else if names != [] then names[0]
    else selected
  }

  /** The prompt manual mode shows: the loaded template, or a placeholder
      when none is loaded, then a banner, then the context. */
  function ManualPrompt(systemPrompt: string, context: string): (r: string)
    ensures var head := (if systemPrompt == "" then NoTemplate else systemPrompt) + DataBanner;
      StartsWith(r, head) && r[|head|..] == context
  {
    var head := (if systemPrompt == "" then NoTemplate else systemPrompt) + DataBanner;
    assert (head + context)[..|head|] == head;
    assert (head + context)[|head|..] == context;
    head + context
  }

  /** JavaScript's `value || undefined` on a text setting: an absent or
      empty value is sent as absent. */
  function Present(value: Option<string>): (r: Option<string>)
    ensures r.Some? <==> value.Some? && value.value != ""
    ensures r.Some? ==> r.value == value.value
  {
    if value.Some? && value.value != "" then value else None
  }

  /** Generate does nothing until the repository and both refs are set. */
  predicate Blocked(repoPath: string, startRef: string, endRef: string) {
    repoPath == "" || startRef == "" || endRef == ""
  }

  datatype Mode = Manual | Auto
  datatype OllamaStatus = Checking | Reachable | Unreachable
  datatype Tab = Strategy | Preview | Result

  /** A backend command the window invoked, with its arguments. */
  datatype Invocation =
    | PreviewCmd(repoPath: string, start: string, end: string, notes: string,
                 jiraUrl: Option<string>, jiraPat: Option<string>)
    | AiCmd(repoPath: string, start: string, end: string, notes: string, model: string,
            systemPrompt: Option<string>, jiraUrl: Option<string>, jiraPat: Option<string>)

  /** The window's state. */
  class App {
    var repoPath: string
    var startRef: string
    var endRef: string
    var notes: string
    var model: string
    var mode: Mode
    var ollamaStatus: OllamaStatus
    var ollamaModels: seq<string>
    var templates: seq<string>
    var selectedTemplate: string
    var systemPrompt: string
    var isJiraEnabled: bool
    var aiContent: string
    var isGenerating: bool
    var activeTab: Tab

    /** The initial state of the window. */
    constructor ()
      ensures repoPath == "" && startRef == "" && endRef == "" && notes == ""
      ensures model == PreferredModel && mode == Auto && ollamaStatus == Checking
      ensures ollamaModels == [] && templates == [] && selectedTemplate == "" && systemPrompt == ""
      ensures !isJiraEnabled && aiContent == "" && !isGenerating && activeTab == Strategy
    {
      repoPath, startRef, endRef, notes := "", "", "", "";
      model, mode, ollamaStatus := PreferredModel, Auto, Checking;
      ollamaModels, templates, selectedTemplate, systemPrompt := [], [], "", "";
      isJiraEnabled, aiContent, isGenerating, activeTab := false, "", false, Strategy;
    }

    /** `checkOllama` once the model list request settles: a list makes the
        server reachable and may change the model; a failure marks it
        unreachable and changes nothing else. */
    method CheckOllama(listed: Result<seq<string>, string>)
      modifies this
      ensures listed.Ok? ==> ollamaStatus == Reachable && ollamaModels == listed.value
                             && model == PickModel(old(model), listed.value)
      ensures listed.Err? ==> ollamaStatus == Unreachable && ollamaModels == old(ollamaModels)
                              && model == old(model)
      ensures repoPath == old(repoPath) && startRef == old(startRef) && endRef == old(endRef)
      ensures notes == old(notes) && mode == old(mode) && templates == old(templates)
      ensures selectedTemplate == old(selectedTemplate) && systemPrompt == old(systemPrompt)
      ensures isJiraEnabled == old(isJiraEnabled) && aiContent == old(aiContent)
      ensures isGenerating == old(isGenerating) && activeTab == old(activeTab)
    {
      ollamaStatus := Checking;
      if listed.Ok? {
        ollamaModels := listed.value;
        ollamaStatus := Reachable;
        model := PickModel(model, listed.value);
      } else {
        ollamaStatus := Unreachable;
      }
    }

    /** `loadTemplates` once the listing settles: a listing replaces the
        list and picks the selection; a failure changes nothing. */
    method LoadTemplates(listed: Result<seq<string>, string>)
      modifies this
      ensures listed.Ok? ==> templates == listed.value
                             && selectedTemplate == PickTemplate(old(selectedTemplate), listed.value)
      ensures listed.Err? ==> unchanged(this)
      ensures repoPath == old(repoPath) && startRef == old(startRef) && endRef == old(endRef)
      ensures notes == old(notes) && model == old(model) && mode == old(mode)
      ensures ollamaStatus == old(ollamaStatus) && ollamaModels == old(ollamaModels)
      ensures systemPrompt == old(systemPrompt) && isJiraEnabled == old(isJiraEnabled)
      ensures aiContent == old(aiContent) && isGenerating == old(isGenerating) && activeTab == old(activeTab)
    {
      if listed.Ok? {
        templates := listed.value;
        selectedTemplate := PickTemplate(selectedTemplate, listed.value);
      }
    }

    /** What the user and the earlier requests have set: everything
        Generate reads and leaves alone. */
    function Inputs(): InputState
      reads this
    {
      InputState(repoPath, startRef, endRef, notes, model, mode, ollamaStatus, ollamaModels,
                 templates, selectedTemplate, systemPrompt, isJiraEnabled)
    }

    /** The `ai-token` listener: the payload is appended to the shown
        text. */
    method OnAiToken(payload: string)
      modifies this
      ensures aiContent == old(aiContent) + payload
      ensures Inputs() == old(Inputs())
      ensures isGenerating == old(isGenerating) && activeTab == old(activeTab)
    {
      aiContent := aiContent + payload;
    }

    /** The `ai-token` events that arrive while `generate_ai_cmd` runs,
        each passed to the listener in arrival order. */
    method ReceiveTokens(tokens: seq<string>)
      modifies this
      ensures aiContent == old(aiContent) + Concat(tokens)
      ensures Inputs() == old(Inputs())
      ensures isGenerating == old(isGenerating) && activeTab == old(activeTab)
    {
      var i := 0;
      while i < |tokens|
        invariant 0 <= i <= |tokens|
        invariant aiContent == old(aiContent) + Concat(tokens[..i])
        invariant Inputs() == old(Inputs())
        invariant isGenerating == old(isGenerating) && activeTab == old(activeTab)
      {
        ConcatSnoc(tokens[..i], tokens[i]);
        assert tokens[..i + 1] == tokens[..i] + [tokens[i]];
        OnAiToken(tokens[i]);
        i := i + 1;
      }
      assert tokens[..i] == tokens;
    }

    /** The manual branch of `handleGenerate`: build the context, then show
        it behind the loaded template, or show the error. */
    method GenerateManual(jiraUrl: Option<string>, jiraPat: Option<string>, preview: Result<string, string>)
      returns (invoked: seq<Invocation>)
      modifies this
      ensures invoked == [PreviewCmd(repoPath, startRef, endRef, notes, jiraUrl, jiraPat)]
      ensures aiContent == (if preview.Ok? then ManualPrompt(systemPrompt, preview.value)
                            else ContextErrorPrefix + preview.error)
      ensures Inputs() == old(Inputs()) && !isGenerating && activeTab == old(activeTab)
    {
      aiContent := ManualStarted;
      invoked := [PreviewCmd(repoPath, startRef, endRef, notes, jiraUrl, jiraPat)];
      if preview.Ok? {
        aiContent := ManualPrompt(systemPrompt, preview.value);
      } else {
        aiContent := ContextErrorPrefix + preview.error;
      }
      isGenerating := false;
    }

    /** The auto branch of `handleGenerate`: nothing is invoked unless the
        server was found; otherwise the shown text restarts empty, gathers
        the streamed tokens, and ends with the error when the command
        fails. */
    method GenerateAuto(jiraUrl: Option<string>, jiraPat: Option<string>, tokens: seq<string>,
                        generated: Result<string, string>)
      returns (invoked: seq<Invocation>)
      modifies this
      ensures ollamaStatus != Reachable ==> invoked == [] && aiContent == OllamaMissing
      ensures ollamaStatus == Reachable ==>
        && invoked == [AiCmd(repoPath, startRef, endRef, notes, model, Present(Some(systemPrompt)),
                             jiraUrl, jiraPat)]
        && aiContent == Concat(tokens) + (if generated.Err? then NotesErrorPrefix + generated.error else "")
      ensures Inputs() == old(Inputs()) && !isGenerating && activeTab == old(activeTab)
    {
      if ollamaStatus != Reachable {
        aiContent := OllamaMissing;
        isGenerating := false;
        return [];
      }
      aiContent := "";
      invoked := [AiCmd(repoPath, startRef, endRef, notes, model, Present(Some(systemPrompt)), jiraUrl, jiraPat)];
      ReceiveTokens(tokens);
      assert aiContent == Concat(tokens);
      Settle(generated);
    }

    /** The end of `generate_ai_cmd`'s invocation: a failure's text is
        appended to what was streamed, and generating stops. */
    method Settle(generated: Result<string, string>)
      modifies this
      ensures aiContent == old(aiContent) + (if generated.Err? then NotesErrorPrefix + generated.error else "")
      ensures Inputs() == old(Inputs()) && !isGenerating && activeTab == old(activeTab)
    {
      if generated.Err? {
        aiContent := aiContent + (NotesErrorPrefix + generated.error);
      } else {
        assert aiContent + "" == aiContent;
      }
      isGenerating := false;
    }

    /** `handleGenerate`. `storedUrl` and `storedPat` are the saved Jira
        settings, read only when Jira is enabled; `preview` and `generated`
        are what the invoked command returns (an error as its text);
        `tokens` are the `ai-token` events that arrive while
        `generate_ai_cmd` runs. The result lists the commands invoked. */
    method HandleGenerate(storedUrl: Option<string>, storedPat: Option<string>,
                          preview: Result<string, string>, tokens: seq<string>,
                          generated: Result<string, string>)
      returns (invoked: seq<Invocation>)
      modifies this
      ensures Blocked(old(repoPath), old(startRef), old(endRef)) ==> invoked == [] && unchanged(this)
      ensures Inputs() == old(Inputs())
      ensures !Blocked(repoPath, startRef, endRef) ==> activeTab == Result && !isGenerating
      ensures !Blocked(repoPath, startRef, endRef) && mode == Manual ==>
        && invoked == [PreviewCmd(repoPath, startRef, endRef, notes,
                                  JiraSetting(isJiraEnabled, storedUrl), JiraSetting(isJiraEnabled, storedPat))]
        && aiContent == (if preview.Ok? then ManualPrompt(systemPrompt, preview.value)
                         else ContextErrorPrefix + preview.error)
      ensures (!Blocked(repoPath, startRef, endRef) && mode == Auto && ollamaStatus != Reachable)
        ==> invoked == [] && aiContent == OllamaMissing
      ensures (!Blocked(repoPath, startRef, endRef) && mode == Auto && ollamaStatus == Reachable) ==>
        && invoked == [AiCmd(repoPath, startRef, endRef, notes, model, Present(Some(systemPrompt)),
                             JiraSetting(isJiraEnabled, storedUrl), JiraSetting(isJiraEnabled, storedPat))]
        && aiContent == Concat(tokens) + (if generated.Err? then NotesErrorPrefix + generated.error else "")
    {
      if Blocked(repoPath, startRef, endRef) {
        return [];
      }
      isGenerating := true;
      activeTab := Result;
      var jiraUrl := JiraSetting(isJiraEnabled, storedUrl);
      var jiraPat := JiraSetting(isJiraEnabled, storedPat);
      if mode == Manual {
        invoked := GenerateManual(jiraUrl, jiraPat, preview);
      } else {
        invoked := GenerateAuto(jiraUrl, jiraPat, tokens, generated);
      }
    }
  }

  /** The window state Generate leaves as it found it. */
  datatype InputState = InputState(repoPath: string, startRef: string, endRef: string, notes: string,
                                   model: string, mode: Mode, ollamaStatus: OllamaStatus,
                                   ollamaModels: seq<string>, templates: seq<string>,
                                   selectedTemplate: string, systemPrompt: string, isJiraEnabled: bool)

  /** A saved Jira setting as Generate sends it: absent unless Jira is
      enabled and the value is non-empty. */
  function JiraSetting(enabled: bool, stored: Option<string>): (r: Option<string>)
    ensures r.Some? <==> enabled && stored.Some? && stored.value != ""
    ensures r.Some? ==> r.value == stored.value
  {
    if enabled then Present(stored) else None
  }

}
