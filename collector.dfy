/** The form-state collector `getFormData`: the FormData entries of the rendered form are
    folded into a string-or-list record, then every checkbox field is overwritten with the
    values of its checked boxes. */
module Collector {
  import opened Common
  import opened Schema
  import opened Renderer

  /** A collected value: a string, or the list the folding builds for repeated names. */
  datatype FormValue = Single(s: string) | Multi(items: seq<string>)

  /** Truthiness of the value already stored under a key: `""` is falsy, an array never is. */
  predicate StoredTruthy(v: FormValue) {
    match v
    case Single(s) => s != ""
    case Multi(_) => true
  }

  /** A control of the rendered form, in document order, with its live state. */
  datatype Control =
    | TextControl(name: string, value: string)               // an <input> of a free-text type, or a <textarea>
    | SelectControl(name: string, selected: Option<string>)  // a <select>; None when it has no option
    | CheckControl(name: string, value: string, checked: bool)

  /** The FormData entries one control contributes. `FormData` skips a control whose name
      is empty. */
  function ControlEntries(c: Control): seq<(string, string)> {
    if c.name == "" then []
    else
      match c
      case TextControl(n, v) => [(n, v)]
      case SelectControl(n, sel) => if sel.Some? then [(n, sel.value)] else []
      case CheckControl(n, v, checked) => if checked then [(n, v)] else []
  }

  /** `new FormData(form).entries()`: the entries of the controls in document order. */
  function Entries(controls: seq<Control>): seq<(string, string)> {
    if controls == [] then []
    else Entries(controls[..|controls| - 1]) + ControlEntries(controls[|controls| - 1])
  }

  /** `form.querySelectorAll('input[name="<name>"]:checked')` mapped to the box values. */
  function CheckedValues(controls: seq<Control>, name: string): seq<string> {
    if controls == [] then []
    else
      var c := controls[|controls| - 1];
      CheckedValues(controls[..|controls| - 1], name)
      + (if c.CheckControl? && c.name == name && c.checked then [c.value] else [])
  }

  function Lookup(data: map<string, FormValue>, key: string): Option<FormValue> {
    if key in data then Some(data[key]) else None
  }

  /** The value stored for a key after one more entry `value`: appended when the stored
      value is truthy (turning a string into a two-element list), otherwise overwritten. */
  function StepValue(stored: Option<FormValue>, value: string): FormValue {
    if stored.Some? && StoredTruthy(stored.value) then
      match stored.value
      case Multi(xs) => Multi(xs + [value])
      case Single(s) => Multi([s, value])
    else Single(value)
  }

  /** The object built by the `for (let [key, value] of formData.entries())` loop. */
  function Fold(entries: seq<(string, string)>): map<string, FormValue> {
    if entries == [] then map[]
    else
      var data := Fold(entries[..|entries| - 1]);
      var (k, v) := entries[|entries| - 1];
      data[k := StepValue(Lookup(data, k), v)]
  }

  predicate IsCheckboxField(f: FieldDef) {
    f.kind == "checkbox"
  }

  /** The `currentConfig.fields.forEach` pass: each checkbox field's key is overwritten with
      the list of its checked values, even an empty one. */
  function Overlay(data: map<string, FormValue>, fields: seq<FieldDef>, controls: seq<Control>): map<string, FormValue> {
    if fields == [] then data
    else
      var d := Overlay(data, fields[..|fields| - 1], controls);
      var f := fields[|fields| - 1];
      if IsCheckboxField(f) then d[f.name := Multi(CheckedValues(controls, f.name))] else d
  }

  /** What `getFormData()` returns for the current configuration and the rendered form
      (`None` when no form element is on the page). The script only reaches the checkbox pass
      with a configuration that has `fields`: the form is rendered from them. */
  function FormDataOf(config: Option<Config>, form: Option<seq<Control>>): map<string, FormValue>
    requires config.Some? && form.Some? ==> config.value.fields.Some?
  {
    if config.None? || form.None? then map[]
    else Overlay(Fold(Entries(form.value)), config.value.fields.value, form.value)
  }

  /** `getFormData()`, as the script runs it: early returns, then the two loops. */
  method GetFormData(config: Option<Config>, form: Option<seq<Control>>) returns (data: map<string, FormValue>)
    requires config.Some? && form.Some? ==> config.value.fields.Some?
    ensures data == FormDataOf(config, form)
  {
    if config.None? {
      return map[];
    }
    if form.None? {
      return map[];
    }
    var controls := form.value;
    var entries := Entries(controls);
    data := map[];
    var i := 0;
    while i < |entries|
      invariant 0 <= i <= |entries|
      invariant data == Fold(entries[..i])
    {
      var (key, value) := entries[i];
      assert entries[..i + 1][..i] == entries[..i];
      if key in data && StoredTruthy(data[key]) {
        match data[key]
        case Multi(xs) =>
          data := data[key := Multi(xs + [value])];
        case Single(s) =>
          data := data[key := Multi([s, value])];
      } else {
        data := data[key := Single(value)];
      }
      i := i + 1;
    }
    assert entries[..|entries|] == entries;
    var fields := config.value.fields.value;
    var j := 0;
    while j < |fields|
      invariant 0 <= j <= |fields|
      invariant data == Overlay(Fold(entries), fields[..j], controls)
    {
      assert fields[..j + 1][..j] == fields[..j];
      if fields[j].kind == "checkbox" {
        data := data[fields[j].name := Multi(CheckedValues(controls, fields[j].name))];
      }
      j := j + 1;
    }
    assert fields[..|fields|] == fields;
  }

  // ---------------------------------------------------------------------------
  // The folding, key by key

  /** The values of the entries named `key`, in order. */
  function ValuesOf(entries: seq<(string, string)>, key: string): seq<string> {
    if entries == [] then []
    else
      var e := entries[|entries| - 1];
      ValuesOf(entries[..|entries| - 1], key) + (if e.0 == key then [e.1] else [])
  }

  /** The folding of one key's values on their own. */
  function FoldValues(values: seq<string>): Option<FormValue> {
    if values == [] then None
    else Some(StepValue(FoldValues(values[..|values| - 1]), values[|values| - 1]))
  }

  /** Each key folds independently of every other key. */
  lemma {:induction false} FoldByKey(entries: seq<(string, string)>, key: string)
    ensures Lookup(Fold(entries), key) == FoldValues(ValuesOf(entries, key))
  {
    if entries != [] {
      var init := entries[..|entries| - 1];
      var e := entries[|entries| - 1];
      FoldByKey(init, key);
      var data := Fold(init);
      var vs := ValuesOf(init, key);
      assert Fold(entries) == data[e.0 := StepValue(Lookup(data, e.0), e.1)];
      if e.0 == key {
        assert ValuesOf(entries, key) == vs + [e.1];
        assert (vs + [e.1])[..|vs|] == vs;
      } else {
        assert ValuesOf(entries, key) == vs + [];
        assert vs + [] == vs;
      }
    }
  }

  /** The values left once leading empty strings are dropped, keeping at least one. */
  function DropLeadingEmpty(values: seq<string>): (r: seq<string>)
    requires values != []
    ensures r != [] && (|r| > 1 ==> r[0] != "")
  {
    if |values| > 1 && values[0] == "" then DropLeadingEmpty(values[1..]) else values
  }

  /** A single value stays a string; two or more make a list. */
  function Settle(values: seq<string>): FormValue
    requires values != []
  {
    if |values| == 1 then Single(values[0]) else Multi(values)
  }

  lemma {:induction false} DropLeadingEmptyAppend(values: seq<string>, v: string)
    requires values != []
    ensures DropLeadingEmpty(values + [v])
            == if DropLeadingEmpty(values) == [""] then [v] else DropLeadingEmpty(values) + [v]
  {
    var w := values + [v];
    assert |w| > 1 && w[0] == values[0];
    if |values| == 1 {
      assert DropLeadingEmpty(values) == values;
      if values[0] == "" {
        assert w[1..] == [v];
      }
    } else if values[0] == "" {
      assert DropLeadingEmpty(values) == DropLeadingEmpty(values[1..]);
      assert w[1..] == values[1..] + [v];
      DropLeadingEmptyAppend(values[1..], v);
    } else {
      assert DropLeadingEmpty(values) == values;
      assert DropLeadingEmpty(w) == w;
    }
  }

  /** Closed form of the folding of one key: empty strings before the first non-empty value
      are overwritten; from there on every value is kept, as a string when it is the only
      one and as a list otherwise. */
  lemma {:induction false} FoldValuesClosedForm(values: seq<string>)
    requires values != []
    ensures FoldValues(values) == Some(Settle(DropLeadingEmpty(values)))
  {
    var init := values[..|values| - 1];
    var v := values[|values| - 1];
    assert values == init + [v];
    assert FoldValues(values) == Some(StepValue(FoldValues(init), v));
    if init == [] {
      assert DropLeadingEmpty(values) == [v];
    } else {
      FoldValuesClosedForm(init);
      DropLeadingEmptyAppend(init, v);
      var d := DropLeadingEmpty(init);
      if d == [""] {
        assert Settle(d) == Single("");
      } else if |d| == 1 {
        assert Settle(d) == Single(d[0]) && d[0] != "";
        assert DropLeadingEmpty(values) == [d[0], v];
      } else {
        assert Settle(d) == Multi(d);
      }
    }
  }

  /** The value collected for a key no checkbox field owns, from the entries named by it. */
  lemma CollectedPlainKey(config: Config, controls: seq<Control>, key: string)
    requires config.fields.Some?
    requires forall f :: f in config.fields.value && IsCheckboxField(f) ==> f.name != key
    ensures var vs := ValuesOf(Entries(controls), key);
            Lookup(FormDataOf(Some(config), Some(controls)), key)
            == if vs == [] then None else Some(Settle(DropLeadingEmpty(vs)))
  {
    OverlayLookup(Fold(Entries(controls)), config.fields.value, controls, key);
    FoldByKey(Entries(controls), key);
    var vs := ValuesOf(Entries(controls), key);
    if vs != [] {
      FoldValuesClosedForm(vs);
    }
  }

  /** No FormData entry carries the empty name. */
  lemma {:induction false} NoEntryNamedEmpty(controls: seq<Control>)
    ensures ValuesOf(Entries(controls), "") == []
  {
    if controls != [] {
      var init := controls[..|controls| - 1];
      var c := controls[|controls| - 1];
      NoEntryNamedEmpty(init);
      var es := Entries(init);
      if ControlEntries(c) == [] {
        assert Entries(controls) == es;
      } else {
        assert |ControlEntries(c)| == 1 && ControlEntries(c)[0].0 != "";
        assert Entries(controls)[..|es|] == es;
      }
    }
  }

  /** A control whose name is empty contributes nothing: unless a checkbox field is named
      `""`, the collected record has no `""` key. */
  lemma EmptyNameCollectsNothing(config: Config, controls: seq<Control>)
    requires config.fields.Some?
    requires forall f :: f in config.fields.value && IsCheckboxField(f) ==> f.name != ""
    ensures "" !in FormDataOf(Some(config), Some(controls))
  {
    CollectedPlainKey(config, controls, "");
    NoEntryNamedEmpty(controls);
  }

  /** The first (and only) entry of a key is stored as a string. */
  lemma OnlyEntryIsString(entries: seq<(string, string)>, key: string, v: string)
    requires ValuesOf(entries, key) == [v]
    ensures key in Fold(entries) && Fold(entries)[key] == Single(v)
  {
    FoldByKey(entries, key);
  }

  /** A later entry folds into a list only behind a truthy value: an earlier "" is overwritten. */
  lemma FoldingExamples()
    ensures FoldValues(["", "b"]) == Some(Single("b"))
    ensures FoldValues(["a", "b"]) == Some(Multi(["a", "b"]))
    ensures FoldValues(["a", "", "c"]) == Some(Multi(["a", "", "c"]))
  {
    assert ["", "b"][..1] == [""];
    assert ["a", "b"][..1] == ["a"];
    assert ["a", "", "c"][..2] == ["a", ""];
    assert ["a", "", "c"][..2][..1] == ["a"];
    assert FoldValues(["a", ""]) == Some(Multi(["a", ""]));
    assert ["a", ""] + ["c"] == ["a", "", "c"];
  }

  // ---------------------------------------------------------------------------
  // The checkbox pass

  predicate HasCheckboxNamed(fields: seq<FieldDef>, key: string) {
    exists i :: 0 <= i < |fields| && IsCheckboxField(fields[i]) && fields[i].name == key
  }

  lemma {:induction false} OverlayLookup(data: map<string, FormValue>, fields: seq<FieldDef>, controls: seq<Control>, key: string)
    ensures Lookup(Overlay(data, fields, controls), key)
            == if HasCheckboxNamed(fields, key) then Some(Multi(CheckedValues(controls, key))) else Lookup(data, key)
  {
    if fields != [] {
      var init := fields[..|fields| - 1];
      OverlayLookup(data, init, controls, key);
      if HasCheckboxNamed(fields, key) && !HasCheckboxNamed(init, key) {
        assert fields[|fields| - 1].name == key;
      }
      if HasCheckboxNamed(init, key) {
        var i :| 0 <= i < |init| && IsCheckboxField(init[i]) && init[i].name == key;
        assert fields[i] == init[i];
      }
    }
  }

  /** Every checkbox field's key holds the list of its checked values, even when none is
      checked, whatever the folding stored there. */
  lemma CheckboxKeyHoldsCheckedList(config: Config, controls: seq<Control>, f: FieldDef)
    requires config.fields.Some? && f in config.fields.value && IsCheckboxField(f)
    ensures f.name in FormDataOf(Some(config), Some(controls))
    ensures FormDataOf(Some(config), Some(controls))[f.name] == Multi(CheckedValues(controls, f.name))
  {
    var fs := config.fields.value;
    var i :| 0 <= i < |fs| && fs[i] == f;
    assert HasCheckboxNamed(fs, f.name);
    OverlayLookup(Fold(Entries(controls)), fs, controls, f.name);
  }

  /** Without a configuration or without a rendered form nothing is collected. */
  lemma NothingWithoutConfigOrForm(config: Option<Config>, form: Option<seq<Control>>)
    requires config.None? || form.None?
    ensures FormDataOf(config, form) == map[]
  {
  }

  lemma {:induction false} CheckedValuesAppend(a: seq<Control>, b: seq<Control>, name: string)
    ensures CheckedValues(a + b, name) == CheckedValues(a, name) + CheckedValues(b, name)
  {
    if b != [] {
      var b' := b[..|b| - 1];
      assert (a + b)[..|a + b| - 1] == a + b';
      var c := b[|b| - 1];
      assert (a + b)[|a + b| - 1] == c;
      var tail := if c.CheckControl? && c.name == name && c.checked then [c.value] else [];
      assert CheckedValues(b, name) == CheckedValues(b', name) + tail;
      assert CheckedValues(a + b, name) == CheckedValues(a + b', name) + tail;
      CheckedValuesAppend(a, b', name);
    } else {
      assert a + b == a;
    }
  }

  /** The live controls of a rendered checkbox group once the user has ticked the boxes whose
      values are in `ticked` (in whatever order). */
  function LiveBoxes(boxes: seq<Checkbox>, ticked: set<string>): seq<Control> {
    seq(|boxes|, i requires 0 <= i < |boxes| => CheckControl(boxes[i].name, boxes[i].value, boxes[i].value in ticked))
  }

  /** The option values in `ticked`, in schema order. */
  function TickedInSchemaOrder(opts: seq<Choice>, ticked: set<string>): seq<string> {
    if opts == [] then []
    else
      var o := opts[|opts| - 1];
      TickedInSchemaOrder(opts[..|opts| - 1], ticked) + (if o.value in ticked then [o.value] else [])
  }

  lemma {:induction false} LiveGroupValues(name: string, opts: seq<Choice>, ticked: set<string>)
    ensures CheckedValues(LiveBoxes(CheckboxBoxes(name, opts), ticked), name) == TickedInSchemaOrder(opts, ticked)
  {
    if opts != [] {
      var init := opts[..|opts| - 1];
      var live := LiveBoxes(CheckboxBoxes(name, opts), ticked);
      assert live[..|live| - 1] == LiveBoxes(CheckboxBoxes(name, init), ticked);
      LiveGroupValues(name, init, ticked);
    }
  }

  /** A checkbox field collects the ticked option values in the order of its options, not
      the order they were ticked in, when no other control on the page is a checked box of
      the same name. */
  lemma CheckboxValuesInSchemaOrder(f: FieldDef, ticked: set<string>, before: seq<Control>, after: seq<Control>)
    requires IsCheckboxField(f) && f.options.Some?
    requires CheckedValues(before, f.name) == [] && CheckedValues(after, f.name) == []
    ensures RenderField(f).Some? && RenderField(f).value.input.CheckboxGroup?
    ensures CheckedValues(before + LiveBoxes(RenderField(f).value.input.boxes, ticked) + after, f.name)
            == TickedInSchemaOrder(f.options.value, ticked)
  {
    var live := LiveBoxes(RenderField(f).value.input.boxes, ticked);
    CheckedValuesAppend(before + live, after, f.name);
    CheckedValuesAppend(before, live, f.name);
    LiveGroupValues(f.name, f.options.value, ticked);
  }
}
