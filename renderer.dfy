/** The field renderer of `renderDynamicForm`: each field definition becomes a descriptor of
    the label, input and note the script writes as HTML. Markup, escaping and event wiring
    are not modelled; the descriptor keeps exactly the attributes the markup carries. */
module Renderer {
  import opened Common
  import opened Schema

  /** An `<option>` of a `<select>`. */
  datatype ChoiceView = ChoiceView(value: string, caption: string, selected: bool)

  /** An `<input type="checkbox">` with its `<label>`; every box starts unchecked. */
  datatype Checkbox = Checkbox(id: string, name: string, value: string, caption: string)

  /** The input element of one field. An optional attribute is `Some` exactly when the
      markup carries it. */
  datatype Input =
    | FreeInput(inputType: string, name: string, required: bool, placeholder: Option<Json>,
                min: Option<Json>, max: Option<Json>, value: Option<Json>)
    | TextArea(name: string, required: bool, placeholder: Option<Json>, content: Json)
    | Select(name: string, required: bool, choices: seq<ChoiceView>)
    | CheckboxGroup(boxes: seq<Checkbox>)
    | NoInput

  /** One `form-group` div: the `required` class, the label, the input and the note. */
  datatype FieldView = FieldView(required: bool, labelFor: string, caption: string, input: Input, note: Option<Json>)

  /** The whole rendered form: heading, optional description, fields, and the value the
      submit button's caption interpolates. */
  datatype FormView = FormView(heading: Json, description: Option<Json>, fields: seq<FieldView>, submitTitle: Option<Json>)

  /** The empty first option of a dropdown that is not required. */
  const Sentinel := ChoiceView("", "Select an option", false)

  /** The `type` values rendered as a single `<input>` of that type. */
  predicate IsFreeTextKind(kind: string) {
    kind == "text" || kind == "email" || kind == "number" || kind == "datetime-local"
  }

  predicate IsKnownKind(kind: string) {
    IsFreeTextKind(kind) || kind == "textarea" || kind == "dropdown" || kind == "checkbox"
  }

  /** An attribute written as `${v ? `attr="${v}"` : ''}`: present only for a truthy value. */
  function Attr(v: Option<Json>): (r: Option<Json>)
    ensures r.Some? <==> Truthy(v)
    ensures r.Some? ==> r == v
  {
    if Truthy(v) then v else None
  }

  function DropdownChoices(f: FieldDef, opts: seq<Choice>): seq<ChoiceView> {
    (if Truthy(f.required) then [] else [Sentinel])
    + seq(|opts|, i requires 0 <= i < |opts| =>
            ChoiceView(opts[i].value, opts[i].caption, f.defaultValue == Some(JStr(opts[i].value))))
  }

  function CheckboxBoxes(name: string, opts: seq<Choice>): seq<Checkbox> {
    seq(|opts|, i requires 0 <= i < |opts| =>
          Checkbox(name + "_" + opts[i].value, name, opts[i].value, opts[i].caption))
  }

  /** The descriptor for one field, or `None` when the script throws: a dropdown or checkbox
      field without an `options` list makes `field.options.forEach` raise a TypeError. */
  function RenderField(f: FieldDef): (r: Option<FieldView>)
    ensures r.None? <==> (f.kind == "dropdown" || f.kind == "checkbox") && f.options.None?
    ensures r.Some? ==> r.value.required == Truthy(f.required) && r.value.labelFor == f.name
                        && r.value.caption == f.caption && r.value.note == Attr(f.note)
    ensures r.Some? && !IsKnownKind(f.kind) ==> r.value.input == NoInput
    ensures r.Some? && IsFreeTextKind(f.kind) ==>
              r.value.input == FreeInput(f.kind, f.name, Truthy(f.required), Attr(f.placeholder),
                                         Attr(f.min), Attr(f.max), Attr(f.defaultValue))
    ensures r.Some? && f.kind == "textarea" ==>
              r.value.input == TextArea(f.name, Truthy(f.required), Attr(f.placeholder),
                                        if Truthy(f.defaultValue) then f.defaultValue.value else JStr(""))
    ensures r.Some? && f.kind == "dropdown" ==>
              var opts := f.options.value;
              var off := if Truthy(f.required) then 0 else 1;
              r.value.input.Select? && r.value.input.name == f.name && r.value.input.required == Truthy(f.required)
              && |r.value.input.choices| == |opts| + off
              && (off == 1 ==> r.value.input.choices[0] == Sentinel)
              && forall i :: 0 <= i < |opts| ==>
                   r.value.input.choices[off + i].value == opts[i].value
                   && r.value.input.choices[off + i].caption == opts[i].caption
                   && (r.value.input.choices[off + i].selected <==> f.defaultValue == Some(JStr(opts[i].value)))
    ensures r.Some? && f.kind == "checkbox" ==>
              var opts := f.options.value;
              r.value.input.CheckboxGroup? && |r.value.input.boxes| == |opts|
              && forall i :: 0 <= i < |opts| ==>
                   r.value.input.boxes[i].id == f.name + "_" + opts[i].value
                   && r.value.input.boxes[i].name == f.name && r.value.input.boxes[i].value == opts[i].value
                   && r.value.input.boxes[i].caption == opts[i].caption
  {
    if (f.kind == "dropdown" || f.kind == "checkbox") && f.options.None? then None
    else
      var input :=
        if IsFreeTextKind(f.kind) then
          FreeInput(f.kind, f.name, Truthy(f.required), Attr(f.placeholder), Attr(f.min), Attr(f.max), Attr(f.defaultValue))
        else if f.kind == "textarea" then
          TextArea(f.name, Truthy(f.required), Attr(f.placeholder), Or(f.defaultValue, JStr("")))
        else if f.kind == "dropdown" then
          Select(f.name, Truthy(f.required), DropdownChoices(f, f.options.value))
        else if f.kind == "checkbox" then
          CheckboxGroup(CheckboxBoxes(f.name, f.options.value))
        else NoInput;
      Some(FieldView(Truthy(f.required), f.name, f.caption, input, Attr(f.note)))
  }

  /** Every field rendered, or `None` as soon as one throws. */
  function RenderAll(fields: seq<FieldDef>): (r: Option<seq<FieldView>>)
    ensures r.Some? <==> forall i :: 0 <= i < |fields| ==> RenderField(fields[i]).Some?
    ensures r.Some? ==>
              |r.value| == |fields|
              && forall i :: 0 <= i < |fields| ==> Some(r.value[i]) == RenderField(fields[i])
  {
    if fields == [] then Some([])
    else
      var init := RenderAll(fields[..|fields| - 1]);
      var last := RenderField(fields[|fields| - 1]);
      if init.None? || last.None? then None else Some(init.value + [last.value])
  }

  /** The form `renderDynamicForm` shows for a configuration whose `fields` is set. */
  function FormFor(config: Config): (r: Option<FormView>)
    requires config.fields.Some?
    ensures r.Some? <==> RenderAll(config.fields.value).Some?
    ensures r.Some? ==>
              r.value.heading == Or(config.title, JStr("Dynamic Form"))
              && r.value.description == Attr(config.description)
              && r.value.submitTitle == config.title
              && Some(r.value.fields) == RenderAll(config.fields.value)
  {
    match RenderAll(config.fields.value)
    case None => None
    case Some(views) => Some(FormView(Or(config.title, JStr("Dynamic Form")), Attr(config.description), views, config.title))
  }

  /** The `config.fields.forEach` loop of `renderDynamicForm`: the markup is assembled field
      by field and written to the page only once every field has rendered, so one field that
      throws leaves nothing rendered. */
  method RenderFields(fields: seq<FieldDef>) returns (views: Option<seq<FieldView>>)
    ensures views == RenderAll(fields)
  {
    var acc: seq<FieldView> := [];
    var i := 0;
    while i < |fields|
      invariant 0 <= i <= |fields|
      invariant |acc| == i
      invariant forall j :: 0 <= j < i ==> Some(acc[j]) == RenderField(fields[j])
    {
      var v := RenderField(fields[i]);
      if v.None? {
        return None;
      }
      acc := acc + [v.value];
      i := i + 1;
    }
    assert acc == RenderAll(fields).value;
    views := Some(acc);
  }

  /** `renderDynamicForm(config)`: the heading falls back to "Dynamic Form", the description
      paragraph appears only for a truthy description. */
  method RenderDynamicForm(config: Config) returns (form: Option<FormView>)
    requires config.fields.Some?
    ensures form == FormFor(config)
  {
    var views := RenderFields(config.fields.value);
    if views.None? {
      return None;
    }
    form := Some(FormView(Or(config.title, JStr("Dynamic Form")), Attr(config.description), views.value, config.title));
  }
}
