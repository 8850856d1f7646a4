/** The editor session of the browser script: the module globals `currentConfig`,
    `currentFormKey` and `hasUnsavedChanges`, the editor text, the form selector and what the
    form container shows, and the handlers that change them.

    Every handler is a method of `EditorSession` proved against a pure transition on
    `Snapshot`; the properties of the session are lemmas about those transitions. What the
    user or the network decides (a confirmation, whether a request succeeded, the YAML a load
    returned) is a parameter. The YAML decoder is the session's `parse` function. */
module Session {
  import opened Common
  import opened Schema
  import opened Renderer
  import opened Collector
  import opened Payload
  import opened Naming

  // ---------------------------------------------------------------------------
  // State

  /** Why the form container shows an error instead of a form. */
  datatype FormErrorKind =
    | InvalidConfiguration   // "Invalid YAML configuration. Please check the format."
    | RenderFailed           // "Error parsing YAML: …", a field that made the renderer throw

  /** What `dynamicFormContainer` holds. */
  datatype View = Blank | Rendered(form: FormView) | FormError(kind: FormErrorKind)

  /** The session's state: editor text, `currentConfig`, `currentFormKey`,
      `hasUnsavedChanges`, the selector's value and the form container. */
  datatype Snapshot = Snapshot(
    editorText: string,
    config: Option<Config>,
    formKey: Option<string>,
    dirty: bool,
    selector: string,
    view: View)

  /** `parseYAML`: the decoded document when it is truthy, else `None`. */
  type Parser = string -> Option<Config>

  /** What the decoder is known to do with blank text: `jsyaml.load("")` is `undefined`, and a
      text made only of whitespace holds no mapping, so it never has `fields`. (Whitespace that
      YAML does not treat as blank, such as U+00A0, decodes to a truthy string.) */
  ghost predicate BlankHasNoFields(parse: Parser) {
    parse("").None? && forall t :: AllWhitespace(t) ==> !HasFields(parse(t))
  }

  const Initial := Snapshot("", None, None, false, "", Blank)

  /** `updateSaveButton`: the save button is enabled exactly when there are unsaved changes
      and a form is selected. */
  predicate SaveEnabled(s: Snapshot) {
    s.dirty && s.formKey.Some?
  }

  /** Does the configuration in use have a `fields` list to render? */
  predicate HasFields(config: Option<Config>) {
    config.Some? && config.value.fields.Some?
  }

  /** The container after `renderDynamicForm(config)`, or after it threw. */
  function ShownFor(config: Config): (v: View)
    requires config.fields.Some?
    ensures v.Rendered? <==> FormFor(config).Some?
    ensures v.Rendered? ==> v.form == FormFor(config).value
    ensures !v.Rendered? ==> v == FormError(RenderFailed)
  {
    match FormFor(config)
    case Some(f) => Rendered(f)
    case None => FormError(RenderFailed)
  }

  /** The invariant every handler keeps: a selected key is never empty, the configuration in
      use is the decoding of the editor text, a configuration with fields is shown as its
      rendering, and the "invalid configuration" error is only ever shown for a non-blank
      text without fields. */
  predicate Coherent(s: Snapshot, parse: Parser) {
    (s.formKey.Some? ==> s.formKey.value != "")
    && s.config == parse(s.editorText)
    && (HasFields(s.config) ==> s.view == ShownFor(s.config.value))
    && (s.view == FormError(InvalidConfiguration) ==> !AllWhitespace(s.editorText) && !HasFields(s.config))
    && (s.view == FormError(RenderFailed) ==> HasFields(s.config))
  }

  // ---------------------------------------------------------------------------
  // Transitions

  /** `parseAndRenderForm()`: a shown error is removed, the text is decoded, and a
      configuration with fields is rendered; otherwise a non-blank text shows the
      invalid-configuration error and a blank one leaves the container as it was. */
  function ParseStep(s: Snapshot, parse: Parser): Snapshot {
    var config := parse(s.editorText);
    var base := if s.view.FormError? then Blank else s.view;
    var view :=
      if HasFields(config) then ShownFor(config.value)
      else if Trim(s.editorText) != "" then FormError(InvalidConfiguration)
      else base;
    s.(config := config, view := view)
  }

  /** `onYamlChange()` after the user has typed `text`. */
  function EditStep(s: Snapshot, text: string, parse: Parser): Snapshot {
    ParseStep(s.(editorText := text, dirty := true), parse)
  }

  /** `clearEditor()`. The selector is left alone. */
  function ClearStep(s: Snapshot): Snapshot {
    s.(editorText := "", view := Blank, config := None, formKey := None, dirty := false)
  }

  /** `loadSelectedForm()` for the form named by the selector. `confirmed` is the answer to
      the unsaved-changes prompt (asked only when the session is dirty); `fetched` is the
      `yamlContent` of the loaded form, `None` when the load failed. */
  function LoadStep(s: Snapshot, confirmed: bool, fetched: Option<string>, parse: Parser): Snapshot {
    if s.dirty && !confirmed then s.(selector := s.formKey.GetOr(""))
    else if s.selector == "" then ClearStep(s)
    else
      var t := s.(formKey := Some(s.selector));
      if fetched.Some? && fetched.value != "" then
        ParseStep(t.(editorText := fetched.value), parse).(dirty := false)
      else t
  }

  /** The body of the `PUT /api/forms/<name>` request. */
  datatype SaveRequest = SaveRequest(name: string, title: Json, yamlContent: string)

  /** The request `saveFormConfiguration()` sends: none without a selected form or without
      changes, none when the editor text does not decode. */
  function SaveRequestOf(s: Snapshot, parse: Parser): Option<SaveRequest> {
    if s.formKey.None? || !s.dirty then None
    else
      match parse(s.editorText)
      case None => None
      case Some(c) => Some(SaveRequest(s.formKey.value, Or(c.title, JStr(s.formKey.value)), s.editorText))
  }

  /** `saveFormConfiguration()`: `saved` is whether the registry accepted the request. */
  function SaveStep(s: Snapshot, parse: Parser, saved: bool): Snapshot {
    if SaveRequestOf(s, parse).Some? && saved then s.(dirty := false) else s
  }

  /** `deleteCurrentForm()`: `deleted` is whether the registry removed the form. */
  function DeleteStep(s: Snapshot, deleted: bool): Snapshot {
    if s.formKey.Some? && deleted then ClearStep(s).(selector := "") else s
  }

  /** The body of the `POST /api/forms` request. */
  datatype CreateRequest = CreateRequest(name: string, title: string)
  {
    /** The request's `yamlContent`: the starter template for its title. */
    function YamlContent(): string {
      DefaultFormTemplate(title)
    }
  }

  /** The request `createNewForm()` sends for the text typed into the name box, if the name
      passes the checks. */
  function CreateRequestOf(raw: string): (r: Option<CreateRequest>)
    ensures r.Some? <==> CheckNewFormName(raw).Accepted?
  {
    match CheckNewFormName(raw)
    case Accepted(name) =>
      var title := TitleFromName(name);
      Some(CreateRequest(name, title))
    case _ => None
  }

  /** The selector's value after `formSelector.value = formName`: the name when the reloaded
      list offers it, otherwise `""`, since a `<select>` given a value none of its options
      has selects nothing. `listed` is whether the `loadAllForms()` that follows a successful
      create succeeded; a failure there is swallowed and leaves the old options in place. */
  function SelectedAfterCreate(name: string, listed: bool): string {
    if listed then name else ""
  }

  /** `createNewForm()`: after a successful create the selector is set to the new name and
      the selection is loaded. */
  function CreateStep(s: Snapshot, raw: string, created: bool, listed: bool, confirmed: bool, fetched: Option<string>, parse: Parser): Snapshot {
    match CreateRequestOf(raw)
    case Some(req) =>
      if created then LoadStep(s.(selector := SelectedAfterCreate(req.name, listed)), confirmed, fetched, parse) else s
    case None => s
  }

  // ---------------------------------------------------------------------------
  // Sending

  /** Why `sendPayload()` refused before any request. */
  datatype Refusal = NoConfig | NoToken | NoRepository

  /** The body of the `POST /api/github/dispatch` request: the payload plus the token and the
      repository. */
  datatype DispatchRequest = DispatchRequest(payload: DispatchPayload, githubToken: string, githubRepository: string)

  /** What came back from the backend: the request failed, or a status and the body decoded as
      JSON (`None` when it is not JSON). */
  datatype Reply = NetworkFailure | Response(status: int, body: Option<Json>)

  /** The response modal. */
  datatype Modal =
    | Dispatched(message: Option<Json>, repository: string, workflow: string, eventType: string, timestamp: Option<Json>)
    | DispatchFailed(result: Json)
    | NetworkError

  datatype SendOutcome =
    | Refused(reason: Refusal)
    | CollectFailed                                  // `getFormData` threw: the error modal, no request
    | Sent(request: DispatchRequest, modal: Modal)

  /** A property read `obj.key`, `None` for `undefined`. */
  function Member(v: Json, key: string): Option<Json> {
    if v.JObj? && key in v.fields then Some(v.fields[key]) else None
  }

  /** The modal `sendPayload()` opens for a reply. */
  function ModalFor(reply: Reply, p: DispatchPayload): (m: Modal)
    ensures m.Dispatched? <==> reply.Response? && reply.body.Some? && reply.body.value != JNull && 200 <= reply.status < 300
    ensures m.DispatchFailed? <==> reply.Response? && reply.body.Some? && !(200 <= reply.status < 300)
    ensures m.DispatchFailed? ==> m.result == reply.body.value
    ensures m.Dispatched? ==>
              m.repository == p.clientPayload.targetRepository && m.workflow == p.clientPayload.workflow
              && m.eventType == p.eventType
              && m.message == Member(reply.body.value, "message") && m.timestamp == Member(reply.body.value, "timestamp")
  {
    match reply
    case NetworkFailure => NetworkError
    case Response(status, body) =>
      if body.None? then NetworkError
      else if 200 <= status < 300 then
        // `result.message` on a `null` body throws, and the `catch` opens the network-error modal
        if body.value == JNull then NetworkError
        else Dispatched(Member(body.value, "message"), p.clientPayload.targetRepository, p.clientPayload.workflow,
                        p.eventType, Member(body.value, "timestamp"))
      else DispatchFailed(body.value)
  }

  /** `!currentConfig.github || !currentConfig.github.repository`. */
  predicate HasRepository(config: Config) {
    config.github.Some? && config.github.value.repository.Some? && config.github.value.repository.value != ""
  }

  /** `sendPayload()` with the token box holding `token`, the rendered form's controls in
      the state `surface`, the two clock reads and the backend's reply. */
  function SendOutcomeOf(s: Snapshot, token: string, surface: seq<Control>, isoNow: string, millis: nat, reply: Reply): SendOutcome {
    if s.config.None? then Refused(NoConfig)
    else if Trim(token) == "" then Refused(NoToken)
    else if !HasRepository(s.config.value) then Refused(NoRepository)
    else if s.view.Rendered? && s.config.value.fields.None? then CollectFailed
    else
      var form := if s.view.Rendered? then Some(surface) else None;
      var p := SentPayload(s.config.value, FormDataOf(s.config, form), isoNow, millis);
      Sent(DispatchRequest(p, Trim(token), s.config.value.github.value.repository.value), ModalFor(reply, p))
  }

  // ---------------------------------------------------------------------------
  // The session object

  class EditorSession {
    const parse: Parser
    var editorText: string
    var config: Option<Config>
    var formKey: Option<string>
    var dirty: bool
    var selector: string
    var view: View

    function State(): Snapshot
      reads this
    {
      Snapshot(editorText, config, formKey, dirty, selector, view)
    }

    ghost predicate Valid()
      reads this
    {
      BlankHasNoFields(parse) && Coherent(State(), parse)
    }

    constructor(parse: Parser)
      requires BlankHasNoFields(parse)
      ensures Valid()
      ensures State() == Initial && this.parse == parse
    {
      this.parse := parse;
      editorText := "";
      config := None;
      formKey := None;
      dirty := false;
      selector := "";
      view := Blank;
      new;
      assert AllWhitespace(editorText);
    }

    /** The store of one transition's result. */
    method Store(s: Snapshot)
      modifies this
      ensures State() == s
    {
      editorText := s.editorText;
      config := s.config;
      formKey := s.formKey;
      dirty := s.dirty;
      selector := s.selector;
      view := s.view;
    }

    method ParseAndRenderForm()
      requires BlankHasNoFields(parse) && (formKey.Some? ==> formKey.value != "")
      modifies this
      ensures Valid()
      ensures State() == ParseStep(old(State()), parse)
    {
      ParseStepCoherent(State(), parse);
      var shown := if view.FormError? then Blank else view;
      var decoded := parse(editorText);
      if decoded.Some? && decoded.value.fields.Some? {
        var form := RenderDynamicForm(decoded.value);
        if form.Some? {
          shown := Rendered(form.value);
        } else {
          shown := FormError(RenderFailed);
        }
      } else if Trim(editorText) != "" {
        shown := FormError(InvalidConfiguration);
      }
      config := decoded;
      view := shown;
    }

    method OnYamlChange(text: string)
      requires Valid()
      modifies this
      ensures Valid()
      ensures State() == EditStep(old(State()), text, parse)
    {
      ghost var s0 := State();
      editorText := text;
      dirty := true;
      assert State() == s0.(editorText := text, dirty := true);
      ParseAndRenderForm();
    }

    method ClearEditor()
      requires Valid()
      modifies this
      ensures Valid()
      ensures State() == ClearStep(old(State()))
    {
      assert AllWhitespace("");
      editorText := "";
      view := Blank;
      config := None;
      formKey := None;
      dirty := false;
    }

    method LoadSelectedForm(confirmed: bool, fetched: Option<string>)
      requires Valid()
      modifies this
      ensures Valid()
      ensures State() == LoadStep(old(State()), confirmed, fetched, parse)
    {
      LoadStepCoherent(State(), confirmed, fetched, parse);
      if dirty && !confirmed {
        selector := formKey.GetOr("");
        return;
      }
      if selector == "" {
        ClearEditor();
        return;
      }
      formKey := Some(selector);
      if fetched.Some? && fetched.value != "" {
        editorText := fetched.value;
        Store(ParseStep(State(), parse));
        dirty := false;
      }
    }

    method SaveFormConfiguration(saved: bool) returns (request: Option<SaveRequest>)
      requires Valid()
      modifies this
      ensures Valid()
      ensures request == SaveRequestOf(old(State()), parse)
      ensures State() == SaveStep(old(State()), parse, saved)
    {
      if formKey.None? || !dirty {
        return None;
      }
      var decoded := parse(editorText);
      if decoded.None? {
        return None;
      }
      request := Some(SaveRequest(formKey.value, Or(decoded.value.title, JStr(formKey.value)), editorText));
      if saved {
        dirty := false;
      }
    }

    method DeleteCurrentForm(deleted: bool) returns (request: Option<string>)
      requires Valid()
      modifies this
      ensures Valid()
      ensures request == old(formKey)
      ensures State() == DeleteStep(old(State()), deleted)
    {
      if formKey.None? {
        return None;
      }
      request := formKey;
      if deleted {
        ClearEditor();
        selector := "";
      }
    }

    method CreateNewForm(raw: string, created: bool, listed: bool, confirmed: bool, fetched: Option<string>) returns (request: Option<CreateRequest>)
      requires Valid()
      modifies this
      ensures Valid()
      ensures request == CreateRequestOf(raw)
      ensures State() == CreateStep(old(State()), raw, created, listed, confirmed, fetched, parse)
    {
      request := CreateRequestOf(raw);
      if request.None? {
        return;
      }
      if created {
        SelectAndLoad(request.value.name, listed, confirmed, fetched);
      }
    }

    /** The tail of `createNewForm()`: set the selector to the new name, then load whatever
        it selects. */
    method SelectAndLoad(name: string, listed: bool, confirmed: bool, fetched: Option<string>)
      requires Valid()
      modifies this
      ensures Valid()
      ensures State() == LoadStep(old(State()).(selector := SelectedAfterCreate(name, listed)), confirmed, fetched, parse)
    {
      ghost var s0 := State();
      selector := if listed then name else "";
      assert State() == s0.(selector := SelectedAfterCreate(name, listed));
      LoadSelectedForm(confirmed, fetched);
    }

    /** `sendPayload()`. It changes no session state. */
    method SendPayload(token: string, surface: seq<Control>, isoNow: string, millis: nat, reply: Reply) returns (outcome: SendOutcome)
      ensures outcome == SendOutcomeOf(State(), token, surface, isoNow, millis, reply)
    {
      if config.None? {
        return Refused(NoConfig);
      }
      var githubToken := Trim(token);
      if githubToken == "" {
        return Refused(NoToken);
      }
      if !HasRepository(config.value) {
        return Refused(NoRepository);
      }
      var form := if view.Rendered? then Some(surface) else None;
      if form.Some? && config.value.fields.None? {
        return CollectFailed;
      }
      var formData := GetFormData(config, form);
      var payload := SentPayload(config.value, formData, isoNow, millis);
      var repository := config.value.github.value.repository.value;
      outcome := Sent(DispatchRequest(payload, githubToken, repository), ModalFor(reply, payload));
    }
  }

  // ---------------------------------------------------------------------------
  // The invariant is kept

  lemma ParseStepCoherent(s: Snapshot, parse: Parser)
    requires s.formKey.Some? ==> s.formKey.value != ""
    ensures Coherent(ParseStep(s, parse), parse)
  {
    TrimEmptyIffBlank(s.editorText);
  }

  lemma LoadStepCoherent(s: Snapshot, confirmed: bool, fetched: Option<string>, parse: Parser)
    requires BlankHasNoFields(parse) && Coherent(s, parse)
    ensures Coherent(LoadStep(s, confirmed, fetched, parse), parse)
  {
    if !(s.dirty && !confirmed) && s.selector != "" && fetched.Some? && fetched.value != "" {
      ParseStepCoherent(s.(formKey := Some(s.selector), editorText := fetched.value), parse);
    } else {
      assert AllWhitespace("");
    }
  }

  lemma CreateStepCoherent(s: Snapshot, raw: string, created: bool, listed: bool, confirmed: bool, fetched: Option<string>, parse: Parser)
    requires BlankHasNoFields(parse) && Coherent(s, parse)
    ensures Coherent(CreateStep(s, raw, created, listed, confirmed, fetched, parse), parse)
  {
    var req := CreateRequestOf(raw);
    if req.Some? && created {
      LoadStepCoherent(s.(selector := SelectedAfterCreate(req.value.name, listed)), confirmed, fetched, parse);
    }
  }

  // ---------------------------------------------------------------------------
  // Properties of the handlers

  /** Editing marks the session dirty, so saving is then possible exactly when a form is
      selected; clearing makes it impossible. */
  lemma EditingEnablesSave(s: Snapshot, text: string, parse: Parser)
    ensures var e := EditStep(s, text, parse);
            e.dirty && e.editorText == text && e.config == parse(text) && e.formKey == s.formKey
            && (SaveEnabled(e) <==> s.formKey.Some?)
    ensures !SaveEnabled(ClearStep(s))
  {
  }

  /** `clearEditor` empties the editor and the container and resets the three globals. */
  lemma ClearResets(s: Snapshot, parse: Parser)
    requires BlankHasNoFields(parse)
    ensures var c := ClearStep(s);
            c.editorText == "" && c.view == Blank && c.config.None? && c.formKey.None? && !c.dirty
            && c.selector == s.selector && Coherent(c, parse)
  {
    assert AllWhitespace("");
  }

  /** Decoding: a text that does not decode leaves no configuration in use; a blank text never
      shows an error (whatever was shown before stays, unless it was an error); a non-blank
      text without fields shows the invalid-configuration error. */
  lemma ParseOutcomes(s: Snapshot, parse: Parser)
    requires BlankHasNoFields(parse)
    ensures parse(s.editorText).None? ==> ParseStep(s, parse).config.None?
    ensures AllWhitespace(s.editorText) ==>
              !ParseStep(s, parse).view.FormError?
              && (s.view.Rendered? ==> ParseStep(s, parse).view == s.view)
    ensures !AllWhitespace(s.editorText) && !HasFields(parse(s.editorText)) ==>
              ParseStep(s, parse).view == FormError(InvalidConfiguration)
    ensures HasFields(parse(s.editorText)) ==>
              ParseStep(s, parse).view == ShownFor(parse(s.editorText).value)
  {
    TrimEmptyIffBlank(s.editorText);
  }

  /** Saving does nothing unless the save button is enabled; a text that does not decode
      keeps the changes unsaved; a save the registry accepts clears the flag and nothing else,
      and sends the editor text under the selected name with the configuration's title,
      falling back to the name. */
  lemma SaveOutcomes(s: Snapshot, parse: Parser, saved: bool)
    requires Coherent(s, parse)
    ensures !SaveEnabled(s) ==> SaveRequestOf(s, parse).None? && SaveStep(s, parse, saved) == s
    ensures s.config.None? ==> SaveRequestOf(s, parse).None? && SaveStep(s, parse, saved) == s
    ensures SaveEnabled(s) && s.config.Some? ==>
              SaveRequestOf(s, parse) == Some(SaveRequest(s.formKey.value, Or(s.config.value.title, JStr(s.formKey.value)), s.editorText))
              && SaveStep(s, parse, saved) == (if saved then s.(dirty := false) else s)
  {
  }

  /** Switching forms: declining the prompt only puts the selector back on the current form;
      an empty selection clears the editor; a form that loads replaces the text, is decoded
      and rendered, and starts clean. */
  lemma LoadOutcomes(s: Snapshot, confirmed: bool, fetched: Option<string>, parse: Parser)
    ensures s.dirty && !confirmed ==>
              LoadStep(s, confirmed, fetched, parse) == s.(selector := s.formKey.GetOr(""))
    ensures !(s.dirty && !confirmed) && s.selector == "" ==>
              LoadStep(s, confirmed, fetched, parse) == ClearStep(s)
    ensures !(s.dirty && !confirmed) && s.selector != "" && fetched.Some? && fetched.value != "" ==>
              var l := LoadStep(s, confirmed, fetched, parse);
              l.formKey == Some(s.selector) && l.editorText == fetched.value && !l.dirty
              && l.config == parse(fetched.value)
  {
  }

  /** A confirmed switch to a form that fails to load still selects it, and keeps the
      previous form's unsaved text: the next save writes that text under the new name. */
  lemma FailedLoadKeepsTextUnderNewKey(s: Snapshot, parse: Parser)
    requires Coherent(s, parse) && s.dirty && s.selector != "" && s.config.Some?
    ensures var l := LoadStep(s, true, None, parse);
            l.formKey == Some(s.selector) && l.dirty && l.editorText == s.editorText
            && SaveRequestOf(l, parse).Some? && SaveRequestOf(l, parse).value.name == s.selector
            && SaveRequestOf(l, parse).value.yamlContent == s.editorText
  {
  }

  /** Deleting needs a selected form; a deletion the registry confirms clears the editor and
      the selector, a refused one changes nothing. */
  lemma DeleteOutcomes(s: Snapshot, deleted: bool)
    ensures s.formKey.None? || !deleted ==> DeleteStep(s, deleted) == s
    ensures s.formKey.Some? && deleted ==>
              DeleteStep(s, deleted) == Snapshot("", None, None, false, "", Blank)
  {
  }

  /** Creating: a name that fails the checks sends nothing and changes nothing; an accepted
      one sends the trimmed name and its title. A create the registry refuses changes
      nothing. After a successful create whose form list reloaded, the new form is selected
      and, once fetched, loaded clean. When the reload failed, the new name is not among the
      selector's options: the switch then either puts the selector back on the current form
      (unsaved changes, prompt declined) or clears the editor. */
  lemma CreateOutcomes(s: Snapshot, raw: string, created: bool, listed: bool, confirmed: bool, fetched: Option<string>, parse: Parser)
    ensures !CheckNewFormName(raw).Accepted? ==>
              CreateRequestOf(raw).None? && CreateStep(s, raw, created, listed, confirmed, fetched, parse) == s
    ensures CheckNewFormName(raw).Accepted? ==>
              CreateRequestOf(raw) == Some(CreateRequest(Trim(raw), TitleFromName(Trim(raw))))
    ensures CheckNewFormName(raw).Accepted? && !created ==>
              CreateStep(s, raw, created, listed, confirmed, fetched, parse) == s
    ensures CheckNewFormName(raw).Accepted? && created && listed ==>
              CreateStep(s, raw, created, listed, confirmed, fetched, parse)
              == LoadStep(s.(selector := Trim(raw)), confirmed, fetched, parse)
    ensures CheckNewFormName(raw).Accepted? && created && listed && !(s.dirty && !confirmed)
            && fetched.Some? && fetched.value != "" ==>
              var c := CreateStep(s, raw, created, listed, confirmed, fetched, parse);
              c.formKey == Some(Trim(raw)) && c.editorText == fetched.value && !c.dirty
              && c.config == parse(fetched.value)
    ensures CheckNewFormName(raw).Accepted? && created && !listed ==>
              CreateStep(s, raw, created, listed, confirmed, fetched, parse)
              == if s.dirty && !confirmed then s.(selector := s.formKey.GetOr("")) else ClearStep(s.(selector := ""))
  {
    if CheckNewFormName(raw).Accepted? && created {
      var s1 := s.(selector := SelectedAfterCreate(Trim(raw), listed));
      LoadOutcomes(s1, confirmed, fetched, parse);
    }
  }

  /** The starter template sent for a new form (see `DefaultFormTemplate`) names a workflow
      and an event type derived from the form's name: each run of hyphens becomes one `-` or
      `_`, followed by "-workflow.yml" or "_automation". */
  lemma CreatedTemplateNames(raw: string)
    requires CheckNewFormName(raw).Accepted?
    ensures var req := CreateRequestOf(raw).value;
            var name := Trim(raw);
            req.name == name && req.title == TitleFromName(name)
            && TemplateWorkflow(req.title) == CollapseHyphens(name, "-") + "-workflow.yml"
            && TemplateEventType(req.title) == CollapseHyphens(name, "_") + "_automation"
  {
    TemplateNamesFromName(Trim(raw));
  }

  /** The send guard: no request is made without a configuration, with a blank token, or
      without a repository in the `github` block, checked in that order. */
  lemma SendGuard(s: Snapshot, token: string, surface: seq<Control>, isoNow: string, millis: nat, reply: Reply)
    ensures var o := SendOutcomeOf(s, token, surface, isoNow, millis, reply);
            (o == Refused(NoConfig) <==> s.config.None?)
            && (o == Refused(NoToken) <==> s.config.Some? && AllWhitespace(token))
            && (o == Refused(NoRepository) <==> s.config.Some? && !AllWhitespace(token) && !HasRepository(s.config.value))
            && (o.Sent? <==> s.config.Some? && !AllWhitespace(token) && HasRepository(s.config.value)
                             && !(s.view.Rendered? && s.config.value.fields.None?))
  {
    TrimEmptyIffBlank(token);
  }

  /** What is sent is the payload on display plus the trimmed token and the payload's own
      target repository. */
  lemma SentIsDisplayed(s: Snapshot, token: string, surface: seq<Control>, isoNow: string, millis: nat, reply: Reply)
    requires SendOutcomeOf(s, token, surface, isoNow, millis, reply).Sent?
    ensures var r := SendOutcomeOf(s, token, surface, isoNow, millis, reply).request;
            var form := if s.view.Rendered? then Some(surface) else None;
            Some(r.payload) == DisplayedPayload(s.config, FormDataOf(s.config, form), isoNow, millis)
            && r.githubToken == Trim(token) && r.githubToken != ""
            && r.githubRepository == r.payload.clientPayload.targetRepository
            && r.githubRepository == s.config.value.github.value.repository.value
  {
    var form := if s.view.Rendered? then Some(surface) else None;
    DisplayedEqualsSent(s.config.value, FormDataOf(s.config, form), isoNow, millis);
  }
}
