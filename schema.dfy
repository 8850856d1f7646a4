/** The decoded form configuration (the YAML document held by the editor).

    A key the document leaves out is `None`. A YAML document that decodes to a truthy value
    other than a mapping (a bare string, say) behaves in the script exactly like a mapping
    with every key absent, and is represented that way. */
module Schema {
  import opened Common

  /** One entry of a field's `options` list. */
  datatype Choice = Choice(value: string, caption: string)

  /** One entry of `fields`. `kind` is the field's `type` key, kept as written: the script
      dispatches on the raw string and ignores kinds it does not know. */
  datatype FieldDef = FieldDef(
    name: string,
    caption: string,
    kind: string,
    required: Option<Json>,
    placeholder: Option<Json>,
    note: Option<Json>,
    min: Option<Json>,
    max: Option<Json>,
    defaultValue: Option<Json>,
    options: Option<seq<Choice>>)

  /** The `github` block: where the dispatch goes. */
  datatype GitHub = GitHub(repository: Option<string>, workflow: Option<string>, eventType: Option<string>)

  datatype Config = Config(
    title: Option<Json>,
    description: Option<Json>,
    github: Option<GitHub>,
    fields: Option<seq<FieldDef>>)
}
