/** The dispatch payload that `updatePayload` displays and `sendPayload` posts: both derive
    it from the configuration, the collected form data and the clock with the same chain of
    `||` fallbacks, so both go through `Assemble`. */
module Payload {
  import opened Common
  import opened Schema
  import opened Collector

  datatype FormConfigInfo = FormConfigInfo(title: Json, description: Json)

  datatype ClientPayload = ClientPayload(
    automationType: string,
    timestamp: string,
    requestId: string,
    workflow: string,
    targetRepository: string,
    formData: map<string, FormValue>,
    formConfig: FormConfigInfo)

  datatype DispatchPayload = DispatchPayload(eventType: string, clientPayload: ClientPayload)

  /** `currentConfig.github || {}`. */
  const NoGitHub := GitHub(None, None, None)

  function Workflow(g: GitHub): string {
    OrString(g.workflow, "workflow.yml")
  }

  function Repository(g: GitHub): string {
    OrString(g.repository, "unknown/unknown")
  }

  /** `workflow.replace('.yml', '')`: the first ".yml", wherever it is, is removed. */
  function AutomationType(workflow: string): string {
    ReplaceFirst(workflow, ".yml", "")
  }

  /** `.replace(/[-\s]/g, '_')`. */
  function Underscored(s: string): (r: string)
    ensures |r| == |s|
    ensures forall i :: 0 <= i < |s| ==> r[i] == (if s[i] == '-' || IsJsWhitespace(s[i]) then '_' else s[i])
  {
    seq(|s|, i requires 0 <= i < |s| => if s[i] == '-' || IsJsWhitespace(s[i]) then '_' else s[i])
  }

  function EventType(g: GitHub): string {
    OrString(g.eventType, Underscored(AutomationType(Workflow(g))) + "_automation")
  }

  /** `req_${Date.now()}`. */
  function RequestId(millis: nat): string {
    "req_" + Decimal(millis)
  }

  /** The payload built from the `github` block `g` in use, the configuration's title and
      description, the form data, and the two clock reads (`new Date().toISOString()` and
      `Date.now()`, taken separately). */
  function Assemble(config: Config, g: GitHub, formData: map<string, FormValue>, isoNow: string, millis: nat): DispatchPayload {
    var workflow := Workflow(g);
    DispatchPayload(
      EventType(g),
      ClientPayload(
        AutomationType(workflow),
        isoNow,
        RequestId(millis),
        workflow,
        Repository(g),
        formData,
        FormConfigInfo(Or(config.title, JStr("Untitled Form")), Or(config.description, JStr("")))))
  }

  /** `updatePayload()`: nothing without a configuration; a missing `github` block reads as `{}`. */
  function DisplayedPayload(config: Option<Config>, formData: map<string, FormValue>, isoNow: string, millis: nat): Option<DispatchPayload> {
    if config.None? then None
    else Some(Assemble(config.value, config.value.github.GetOr(NoGitHub), formData, isoNow, millis))
  }

  /** The payload `sendPayload()` builds once its guard has established that `github` is set. */
  function SentPayload(config: Config, formData: map<string, FormValue>, isoNow: string, millis: nat): DispatchPayload
    requires config.github.Some?
  {
    Assemble(config, config.github.value, formData, isoNow, millis)
  }

  // ---------------------------------------------------------------------------
  // Properties of the derivation

  /** The two copies of the derivation agree whenever the send guard lets a payload through. */
  lemma DisplayedEqualsSent(config: Config, formData: map<string, FormValue>, isoNow: string, millis: nat)
    requires config.github.Some?
    ensures DisplayedPayload(Some(config), formData, isoNow, millis) == Some(SentPayload(config, formData, isoNow, millis))
  {
  }

  /** Every fallback at once: an empty `github` block targets "workflow.yml" in
      "unknown/unknown" with event type "workflow_automation". */
  lemma EmptyGitHubFallbacks(config: Config, formData: map<string, FormValue>, isoNow: string, millis: nat)
    ensures var p := Assemble(config, NoGitHub, formData, isoNow, millis);
            p.eventType == "workflow_automation" && p.clientPayload.workflow == "workflow.yml"
            && p.clientPayload.automationType == "workflow" && p.clientPayload.targetRepository == "unknown/unknown"
  {
    WorkflowParts();
    assert "workflow" + "_automation" == "workflow_automation";
  }

  /** Without an explicit `event_type`, the event type is the automation type with dashes and
      whitespace turned into underscores, followed by "_automation". */
  lemma FallbackEventTypeFollowsAutomationType(config: Config, g: GitHub, formData: map<string, FormValue>, isoNow: string, millis: nat)
    requires g.eventType.None? || g.eventType.value == ""
    ensures var p := Assemble(config, g, formData, isoNow, millis);
            p.eventType == Underscored(p.clientPayload.automationType) + "_automation"
            && forall i :: 0 <= i < |p.clientPayload.automationType| ==>
                 p.eventType[i] != '-' && !IsJsWhitespace(p.eventType[i])
  {
  }

  /** A ".yml" suffix is exactly what is removed when the rest holds no ".yml". */
  lemma YmlSuffixStripped(stem: string)
    requires IndexOf(stem, ".yml").None?
    ensures AutomationType(stem + ".yml") == stem
  {
    var s := stem + ".yml";
    var n := |stem|;
    assert s[n..n + 4] == ".yml";
    assert OccursAt(s, ".yml", n);
    forall j | 0 <= j < n ensures !OccursAt(s, ".yml", j) {
      if j + 4 <= n {
        assert s[j..j + 4] == stem[j..j + 4];
        assert !OccursAt(stem, ".yml", j);
      } else {
        assert s[j..j + 4][n - j] == s[n] == '.';
        assert ".yml"[n - j] != '.';
      }
    }
    var k := IndexOf(s, ".yml").value;
    assert k == n;
    assert s[..n] == stem;
    assert s[n + 4..] == [];
  }

  /** In a workflow name whose part before the first ".yml" has no dot, that ".yml" is the
      one removed, whatever follows it. */
  lemma FirstYmlRemoved(head: string, rest: string)
    requires '.' !in head
    ensures AutomationType(head + ".yml" + rest) == head + rest
  {
    var s := head + ".yml" + rest;
    var n := |head|;
    assert s[n..n + 4] == ".yml";
    assert OccursAt(s, ".yml", n);
    forall j | 0 <= j < n ensures !OccursAt(s, ".yml", j) {
      assert s[j] == head[j];
      if j + 4 <= |s| {
        assert s[j..j + 4][0] == s[j];
      }
    }
    var k := IndexOf(s, ".yml").value;
    assert k == n;
    assert s[..n] == head;
    assert s[n + 4..] == rest;
  }

  /** Only the first ".yml" goes, even when it is not at the end: a name that also ends in
      ".yml" keeps that ending. */
  lemma AutomationTypeRemovesFirstOccurrence(head: string, middle: string)
    requires '.' !in head
    ensures AutomationType(head + ".yml" + middle + ".yml") == head + middle + ".yml"
  {
    FirstYmlRemoved(head, middle + ".yml");
    assert head + ".yml" + middle + ".yml" == head + ".yml" + (middle + ".yml");
    assert head + (middle + ".yml") == head + middle + ".yml";
  }

  /** Example: workflow "deploy-prod.yml" with no event type gives "deploy_prod_automation". */
  lemma DeployProdEventType(repository: Option<string>)
    ensures EventType(GitHub(repository, Some("deploy-prod.yml"), None)) == "deploy_prod_automation"
  {
    DeployProdParts();
    assert "deploy_prod" + "_automation" == "deploy_prod_automation";
  }

  lemma DeployProdParts()
    ensures AutomationType("deploy-prod.yml") == "deploy-prod"
    ensures Underscored("deploy-prod") == "deploy_prod"
  {
    DeployProdStem();
    DeployProdUnderscored();
  }

  lemma DeployProdStem()
    ensures AutomationType("deploy-prod.yml") == "deploy-prod"
  {
    FirstYmlRemoved("deploy-prod", "");
    assert "deploy-prod" + ".yml" + "" == "deploy-prod.yml";
  }

  lemma DeployProdUnderscored()
    ensures Underscored("deploy-prod") == "deploy_prod"
  {
    UnderscoredLetters("deploy");
    UnderscoredLetters("prod");
    UnderscoredJoin("deploy", "prod");
    assert "deploy" + "-" + "prod" == "deploy-prod";
    assert "deploy" + "_" + "prod" == "deploy_prod";
  }

  lemma WorkflowParts()
    ensures AutomationType("workflow.yml") == "workflow"
    ensures Underscored("workflow") == "workflow"
  {
    FirstYmlRemoved("workflow", "");
    assert "workflow" + ".yml" + "" == "workflow.yml";
    UnderscoredLetters("workflow");
  }

  /** Lower-case letters pass through `Underscored` unchanged. */
  lemma UnderscoredLetters(s: string)
    requires forall i :: 0 <= i < |s| ==> 'a' <= s[i] <= 'z'
    ensures Underscored(s) == s
  {
  }

  /** A dash between two parts becomes an underscore. */
  lemma UnderscoredJoin(a: string, b: string)
    ensures Underscored(a + "-" + b) == Underscored(a) + "_" + Underscored(b)
  {
    var s := a + "-" + b;
    var r := Underscored(a) + "_" + Underscored(b);
    forall i | 0 <= i < |s| ensures Underscored(s)[i] == r[i] {
      if i < |a| {
        assert s[i] == a[i];
      } else if i > |a| {
        assert s[i] == b[i - |a| - 1];
      }
    }
  }

  /** Two dispatches at different milliseconds carry different request ids. */
  lemma RequestIdsDiffer(m1: nat, m2: nat)
    requires m1 != m2
    ensures RequestId(m1) != RequestId(m2)
  {
    if RequestId(m1) == RequestId(m2) {
      assert RequestId(m1)[4..] == Decimal(m1);
      assert RequestId(m2)[4..] == Decimal(m2);
      DecimalInjective(m1, m2);
    }
  }
}
