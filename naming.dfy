/** New-form naming in the browser script: the name check of `createNewForm`, the title it
    derives from the name, and the starter YAML of `defaultFormTemplate`. */
module Naming {
  import opened Common

  // ---------------------------------------------------------------------------
  // The name check

  /** The outcome of the checks `createNewForm` makes before calling the registry. */
  datatype NameCheck =
    | Accepted(name: string)   // the trimmed name goes on to `createForm`
    | EmptyName                // "Please enter a form name"
    | BadName                  // "Form name must contain only lowercase letters, numbers, and hyphens"

  /** The character class `[a-z0-9-]`. */
  predicate IsNameChar(c: char) {
    'a' <= c <= 'z' || '0' <= c <= '9' || c == '-'
  }

  /** `/^[a-z0-9-]+$/.test(s)`. */
  predicate IsValidName(s: string) {
    |s| > 0 && forall i :: 0 <= i < |s| ==> IsNameChar(s[i])
  }

  /** The input box's value is trimmed; an empty result and a result outside the pattern are
      refused, anything else is the form's name. */
  function CheckNewFormName(raw: string): (r: NameCheck)
    ensures r.EmptyName? <==> AllWhitespace(raw)
    ensures r.Accepted? <==> IsValidName(Trim(raw))
    ensures r.Accepted? ==> r.name == Trim(raw) && IsValidName(r.name)
  {
    TrimEmptyIffBlank(raw);
    var name := Trim(raw);
    if name == "" then EmptyName
    else if !IsValidName(name) then BadName
    else Accepted(name)
  }

  /** A string with no whitespace at either end trims to itself. */
  lemma TrimKeeps(s: string)
    requires s != [] ==> !IsJsWhitespace(s[0]) && !IsJsWhitespace(s[|s| - 1])
    ensures Trim(s) == s
  {
    assert TrimStart(s) == s;
    assert TrimEnd(s) == s;
  }

  /** A name that already matches the pattern is accepted unchanged. */
  lemma ValidNameAccepted(s: string)
    requires IsValidName(s)
    ensures CheckNewFormName(s) == Accepted(s)
  {
    assert IsNameChar(s[0]) && IsNameChar(s[|s| - 1]);
    TrimKeeps(s);
  }

  /** A name with no surrounding whitespace that breaks the pattern is refused. */
  lemma UnpaddedBadNameRefused(s: string)
    requires s != [] && !IsJsWhitespace(s[0]) && !IsJsWhitespace(s[|s| - 1])
    requires !IsValidName(s)
    ensures CheckNewFormName(s) == BadName
  {
    TrimKeeps(s);
    assert !AllWhitespace(s);
  }

  /** A name with a capital or a space is refused. */
  lemma SpacedCapitalNameRefused()
    ensures CheckNewFormName("My Form") == BadName
  {
    var raw := "My Form";
    assert raw[0] == 'M' && raw[|raw| - 1] == 'm';
    assert !IsNameChar(raw[0]);
    UnpaddedBadNameRefused(raw);
  }

  /** A lower-case hyphenated name is kept as it is. */
  lemma HyphenatedNameAccepted()
    ensures CheckNewFormName("my-form") == Accepted("my-form")
  {
    var raw := "my-form";
    assert forall i :: 0 <= i < |raw| ==> IsNameChar(raw[i]);
    ValidNameAccepted(raw);
  }

  /** Blank input is refused before the pattern is tried. */
  lemma BlankNameRefused()
    ensures CheckNewFormName(" \t") == EmptyName
  {
    assert AllWhitespace(" \t");
  }

  // ---------------------------------------------------------------------------
  // The title

  /** `replace(/-/g, ' ')`. */
  function HyphensToSpaces(s: string): (r: string)
    ensures |r| == |s|
    ensures forall i :: 0 <= i < |s| ==> r[i] == (if s[i] == '-' then ' ' else s[i])
  {
    seq(|s|, i requires 0 <= i < |s| => if s[i] == '-' then ' ' else s[i])
  }

  /** The regular-expression class `\w`. */
  predicate IsWordChar(c: char) {
    'a' <= c <= 'z' || 'A' <= c <= 'Z' || '0' <= c <= '9' || c == '_'
  }

  /** `toUpperCase` of a `\w` character (all ASCII). */
  function Upper(c: char): char {
    if 'a' <= c <= 'z' then (c as int - 32) as char else c
  }

  /** `toLowerCase`, for ASCII letters. */
  function Lower(c: char): char {
    if 'A' <= c <= 'Z' then (c as int + 32) as char else c
  }

  function LowerString(s: string): (r: string)
    ensures |r| == |s|
    ensures forall i :: 0 <= i < |s| ==> r[i] == Lower(s[i])
  {
    seq(|s|, i requires 0 <= i < |s| => Lower(s[i]))
  }

  /** Is there a word boundary `\b` just before index `i` followed by a word character? */
  predicate StartsWord(s: string, i: int)
    requires 0 <= i < |s|
  {
    IsWordChar(s[i]) && (i == 0 || !IsWordChar(s[i - 1]))
  }

  /** `replace(/\b\w/g, l => l.toUpperCase())`: each word character that begins a run of word
      characters is upper-cased, every other character is kept. */
  function CapitalizeWords(s: string): (r: string)
    ensures |r| == |s|
    ensures forall i :: 0 <= i < |s| ==> r[i] == (if StartsWord(s, i) then Upper(s[i]) else s[i])
  {
    seq(|s|, i requires 0 <= i < |s| => if StartsWord(s, i) then Upper(s[i]) else s[i])
  }

  /** The title `createNewForm` gives a new form. */
  function TitleFromName(name: string): string {
    CapitalizeWords(HyphensToSpaces(name))
  }

  /** For an accepted name, the title has the name's length, a space exactly where the name has
      a hyphen, an upper-case letter exactly where a letter starts a hyphen-separated word, and
      lower-cases back to the name with its hyphens turned into spaces. */
  lemma TitleOfValidName(name: string)
    requires IsValidName(name)
    ensures var t := TitleFromName(name);
            |t| == |name|
            && (forall i :: 0 <= i < |name| ==> (t[i] == ' ' <==> name[i] == '-'))
            && (forall i :: 0 <= i < |name| ==>
                  ('A' <= t[i] <= 'Z' <==> 'a' <= name[i] <= 'z' && (i == 0 || name[i - 1] == '-')))
            && LowerString(t) == HyphensToSpaces(name)
  {
    var h := HyphensToSpaces(name);
    var t := TitleFromName(name);
    forall i | 0 <= i < |name|
      ensures (t[i] == ' ' <==> name[i] == '-')
      ensures ('A' <= t[i] <= 'Z' <==> 'a' <= name[i] <= 'z' && (i == 0 || name[i - 1] == '-'))
      ensures Lower(t[i]) == h[i]
    {
      assert IsNameChar(name[i]);
      if i > 0 {
        assert IsNameChar(name[i - 1]);
      }
    }
  }

  /** Two sample names and their titles. */
  lemma TitleExamples()
    ensures TitleFromName("my-form") == "My Form"
    ensures TitleFromName("2fa-setup") == "2fa Setup"
  {
    assert HyphensToSpaces("my-form") == "my form";
    assert CapitalizeWords("my form") == "My Form";
    assert HyphensToSpaces("2fa-setup") == "2fa setup";
    assert CapitalizeWords("2fa setup") == "2fa Setup";
  }

  // ---------------------------------------------------------------------------
  // The template

  /** `replace(/\s+/g, sep)`: every maximal run of whitespace becomes one `sep`. */
  function CollapseWhitespace(s: string, sep: string): (r: string)
    ensures (forall k :: 0 <= k < |sep| ==> !IsJsWhitespace(sep[k])) ==>
              forall i :: 0 <= i < |r| ==> !IsJsWhitespace(r[i])
    decreases |s|
  {
    if s == [] then []
    else if IsJsWhitespace(s[0]) then
      sep + CollapseWhitespace(TrimStart(s), sep)
    else [s[0]] + CollapseWhitespace(s[1..], sep)
  }

  /** The hyphens at the front of `s` removed. */
  function DropHyphens(s: string): (r: string)
    ensures |r| <= |s| && r == s[|s| - |r|..]
    ensures r != [] ==> r[0] != '-'
  {
    if s != [] && s[0] == '-' then DropHyphens(s[1..]) else s
  }

  /** Reference definition on the name itself: every maximal run of hyphens becomes one `sep`. */
  function CollapseHyphens(s: string, sep: string): string
    decreases |s|
  {
    if s == [] then []
    else if s[0] == '-' then sep + CollapseHyphens(DropHyphens(s[1..]), sep)
    else [s[0]] + CollapseHyphens(s[1..], sep)
  }

  /** The workflow file name written into the template. */
  function TemplateWorkflow(title: string): string {
    CollapseWhitespace(LowerString(title), "-") + "-workflow.yml"
  }

  /** The event type written into the template. */
  function TemplateEventType(title: string): string {
    CollapseWhitespace(LowerString(title), "_") + "_automation"
  }

  /** The lines after the `github` block: five sample fields, one of each kind. */
  const SampleLines: seq<string> := [
      "fields:",
      "  - name: \"textExample\"",
      "    label: \"Text Input Example\"",
      "    type: \"text\"",
      "    required: true",
      "    placeholder: \"Enter some text here\"",
      "    note: \"This is an example note explaining field behavior or requirements\"",
      "",
      "  - name: \"emailExample\"",
      "    label: \"Email Input Example\"",
      "    type: \"email\"",
      "    required: true",
      "    placeholder: \"user@example.com\"",
      "",
      "  - name: \"numberExample\"",
      "    label: \"Number Input Example\"",
      "    type: \"number\"",
      "    required: false",
      "    min: 1",
      "    max: 100",
      "    default: 10",
      "",
      "  - name: \"dateExample\"",
      "    label: \"Date/Time Input Example\"",
      "    type: \"datetime-local\"",
      "    required: false",
      "",
      "  - name: \"dropdownExample\"",
      "    label: \"Dropdown Selection Example\"",
      "    type: \"dropdown\"",
      "    required: true",
      "    note: \"This question should auto populate its answer choices from /api/v2/maintenance. The answer choices provided are just examples.\"",
      "    options:",
      "      - value: \"option1\"",
      "        label: \"First Option\"",
      "      - value: \"option2\"",
      "        label: \"Second Option\"",
      "      - value: \"option3\"",
      "        label: \"Third Option\"",
      "",
      "  - name: \"checkboxExample\"",
      "    label: \"Multiple Choice Example\"",
      "    type: \"checkbox\"",
      "    required: false",
      "    options:",
      "      - value: \"choice1\"",
      "        label: \"First Choice\"",
      "      - value: \"choice2\"",
      "        label: \"Second Choice\"",
      "      - value: \"choice3\"",
      "        label: \"Third Choice\"",
      "",
      "  - name: \"textareaExample\"",
      "    label: \"Long Text Example\"",
      "    type: \"textarea\"",
      "    required: false",
      "    placeholder: \"Enter detailed information here...\"",
      "    note: \"This field supports markdown formatting in the final implementation\""
  ]

  /** Lines joined by line breaks, with none after the last. */
  function JoinLines(lines: seq<string>): string {
    if lines == [] then ""
    else if |lines| == 1 then lines[0]
    else lines[0] + "\n" + JoinLines(lines[1..])
  }

  function SampleFields(): string {
    JoinLines(SampleLines)
  }

  /** The first line of the template. */
  function TitleLine(title: string): string {
    "title: \"" + title + "\"\n"
  }

  /** The lines between the title line and the sample fields. */
  function GitHubLines(title: string): string {
    FixedLines() + WorkflowLine(title)
    + EventTypeLine(title)
    + "\n"
  }

  /** The description line, the `github:` key and the placeholder repository. */
  function FixedLines(): string {
    "description: \"Getting started template with examples of all field types\"\n"
    + "github:\n"
    + "  repository: \"your-org/your-repo\"\n"
  }

  function WorkflowLine(title: string): string {
    "  workflow: \"" + TemplateWorkflow(title) + "\"\n"
  }

  function EventTypeLine(title: string): string {
    "  event_type: \"" + TemplateEventType(title) + "\"\n"
  }

  /** `defaultFormTemplate(title)`: the title line, a fixed description, a `github` block
      pointing at the derived workflow and event type, then the sample fields. */
  function DefaultFormTemplate(title: string): (r: string)
    ensures |TitleLine(title)| <= |r| && r[..|TitleLine(title)|] == TitleLine(title)
    ensures exists i :: OccursAt(r, WorkflowLine(title), i)
    ensures exists i :: OccursAt(r, EventTypeLine(title), i)
  {
    var r := TitleLine(title) + GitHubLines(title) + SampleFields();
    PartsOccur(TitleLine(title), FixedLines(), WorkflowLine(title), EventTypeLine(title), SampleFields());
    r
  }

  /** Where each part of a five-part concatenation sits. */
  lemma PartsOccur(a: string, b: string, w: string, e: string, c: string)
    ensures var r := a + (b + w + e + "\n") + c;
            |a| <= |r| && r[..|a|] == a
            && OccursAt(r, w, |a| + |b|) && OccursAt(r, e, |a| + |b| + |w|)
  {
    var r := a + (b + w + e + "\n") + c;
    assert r == a + b + w + e + ("\n" + c);
    assert r[|a| + |b|..|a| + |b| + |w|] == w;
    assert r[|a| + |b| + |w|..|a| + |b| + |w| + |e|] == e;
  }

  /** Whitespace at the front of a hyphen-free-of-whitespace name's spaced form is exactly its
      leading hyphens. */
  lemma {:induction false} TrimStartOfSpaced(s: string)
    requires forall i :: 0 <= i < |s| ==> !IsJsWhitespace(s[i])
    ensures TrimStart(HyphensToSpaces(s)) == HyphensToSpaces(DropHyphens(s))
    decreases |s|
  {
    var h := HyphensToSpaces(s);
    if s != [] && s[0] == '-' {
      assert h[1..] == HyphensToSpaces(s[1..]);
      TrimStartOfSpaced(s[1..]);
    } else if s != [] {
      assert !IsJsWhitespace(h[0]);
    }
  }

  /** Collapsing whitespace runs in the spaced form of a name collapses its hyphen runs. */
  lemma {:induction false} CollapseSpaced(s: string, sep: string)
    requires forall i :: 0 <= i < |s| ==> !IsJsWhitespace(s[i])
    ensures CollapseWhitespace(HyphensToSpaces(s), sep) == CollapseHyphens(s, sep)
    decreases |s|
  {
    if s == [] {
    } else if s[0] == '-' {
      var d := SpacedHyphenRun(s, sep);
      CollapseSpaced(d, sep);
    } else {
      SpacedOtherChar(s, sep);
      CollapseSpaced(s[1..], sep);
    }
  }

  /** One step of `CollapseSpaced` at a run of hyphens: both sides emit `sep` and continue
      after the run. */
  lemma SpacedHyphenRun(s: string, sep: string) returns (d: string)
    requires s != [] && s[0] == '-'
    requires forall i :: 0 <= i < |s| ==> !IsJsWhitespace(s[i])
    ensures d == DropHyphens(s[1..]) && |d| < |s|
    ensures forall i :: 0 <= i < |d| ==> !IsJsWhitespace(d[i])
    ensures CollapseWhitespace(HyphensToSpaces(s), sep) == sep + CollapseWhitespace(HyphensToSpaces(d), sep)
    ensures CollapseHyphens(s, sep) == sep + CollapseHyphens(d, sep)
  {
    d := DropHyphens(s[1..]);
    TrimStartOfSpaced(s);
    assert DropHyphens(s) == d;
    assert forall i :: 0 <= i < |d| ==> d[i] == s[|s| - |d| + i];
  }

  /** One step of `CollapseSpaced` at any other character: both sides keep it. */
  lemma SpacedOtherChar(s: string, sep: string)
    requires s != [] && s[0] != '-'
    requires !IsJsWhitespace(s[0])
    ensures CollapseWhitespace(HyphensToSpaces(s), sep) == [s[0]] + CollapseWhitespace(HyphensToSpaces(s[1..]), sep)
  {
    var h := HyphensToSpaces(s);
    assert !IsJsWhitespace(h[0]);
    assert h[1..] == HyphensToSpaces(s[1..]);
  }

  /** For an accepted name, the template's workflow and event type are the name with each run
      of hyphens collapsed to one `-` or `_`, followed by "-workflow.yml" or "_automation". */
  lemma TemplateNamesFromName(name: string)
    requires IsValidName(name)
    ensures TemplateWorkflow(TitleFromName(name)) == CollapseHyphens(name, "-") + "-workflow.yml"
    ensures TemplateEventType(TitleFromName(name)) == CollapseHyphens(name, "_") + "_automation"
  {
    TitleOfValidName(name);
    forall i | 0 <= i < |name| ensures !IsJsWhitespace(name[i]) {
      assert IsNameChar(name[i]);
    }
    CollapseSpaced(name, "-");
    CollapseSpaced(name, "_");
  }
}
