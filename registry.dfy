/** The form registry of the Flask backend: the `forms` collection and the four handlers that
    read and change it (`get_form`, `create_form`, `update_form`, `delete_form`), with
    `get_forms` and `serialize_form`.

    The collection is a sequence of documents in insertion order; `find_one`, `update_one`
    and `delete_one` act on the first document whose `name` equals the one asked for. The
    unique index on `name` is the invariant `UniqueNames`. Clock reads and the fresh
    ObjectId are parameters. */
module Registry {
  import opened Common

  /** A stored document. `id` is the ObjectId read as a 96-bit number; the timestamps are
      the server clock at insertion and at the last update. */
  datatype FormDoc = FormDoc(id: nat, name: Json, title: Json, yamlContent: Json, createdAt: nat, updatedAt: nat)

  /** `serialize_form(doc)`: the same document with `_id` as its 24-digit hex string. */
  datatype Serialized = Serialized(id: string, name: Json, title: Json, yamlContent: Json, createdAt: nat, updatedAt: nat)

  /** A response body. A 500 carries only the fixed prefix of the exception message. */
  datatype Body =
    | FormBody(form: Serialized)
    | FormsBody(forms: seq<Serialized>)
    | NullBody
    | ErrorBody(error: string)
    | MessageBody(message: string)

  datatype Reply = Reply(status: int, body: Body)

  /** A handler's reply with the collection it leaves behind. */
  datatype Outcome = Outcome(reply: Reply, docs: seq<FormDoc>)

  /** ObjectIds are 12 bytes: every id is below 2^96 = 16^24. */
  const IdLimit: nat := 0x1_0000_0000_0000_0000_0000_0000

  lemma IdLimitIsPow16()
    ensures IdLimit == Pow16(24)
  {
    assert Pow16(6) == 0x100_0000;
    Pow16Split(6, 6);
    Pow16Split(12, 12);
  }

  const DatabaseError := Reply(500, ErrorBody("Database error"))
  const NotFound := Reply(404, ErrorBody("Form not found"))

  // ---------------------------------------------------------------------------
  // The collection

  predicate UniqueNames(docs: seq<FormDoc>) {
    forall i, j :: 0 <= i < j < |docs| ==> docs[i].name != docs[j].name
  }

  predicate Wellformed(docs: seq<FormDoc>) {
    UniqueNames(docs)
    && (forall i, j :: 0 <= i < j < |docs| ==> docs[i].id != docs[j].id)
    && (forall i :: 0 <= i < |docs| ==> docs[i].id < IdLimit)
  }

  /** The index of the first document named `name`: what `find_one({'name': name})` finds. */
  function FindByName(docs: seq<FormDoc>, name: Json): (r: Option<nat>)
    ensures r.Some? ==> r.value < |docs| && docs[r.value].name == name
                        && forall j :: 0 <= j < r.value ==> docs[j].name != name
    ensures r.None? ==> forall j :: 0 <= j < |docs| ==> docs[j].name != name
  {
    if docs == [] then None
    else if docs[0].name == name then Some(0)
    else
      match FindByName(docs[1..], name)
      case None => None
      case Some(k) => Some(k + 1)
  }

  /** With unique names, the document found is the one with that name. */
  lemma FindUnique(docs: seq<FormDoc>, i: nat)
    requires UniqueNames(docs) && i < |docs|
    ensures FindByName(docs, docs[i].name) == Some(i)
  {
  }

  function Serialize(d: FormDoc): (r: Serialized)
    ensures |r.id| == 24 && forall k :: 0 <= k < 24 ==> '0' <= r.id[k] <= '9' || 'a' <= r.id[k] <= 'f'
    ensures r.name == d.name && r.title == d.title && r.yamlContent == d.yamlContent
    ensures r.createdAt == d.createdAt && r.updatedAt == d.updatedAt
  {
    Serialized(HexDigits(d.id, 24), d.name, d.title, d.yamlContent, d.createdAt, d.updatedAt)
  }

  /** The `_id` string reads back as the ObjectId, so distinct ObjectIds serialize to
      distinct strings. */
  lemma SerializedIdReadsBack(a: FormDoc, b: FormDoc)
    requires a.id < IdLimit && b.id < IdLimit
    ensures HexValue(Serialize(a).id) == a.id
    ensures a.id != b.id ==> Serialize(a).id != Serialize(b).id
  {
    IdLimitIsPow16();
    HexRoundTrip(a.id, 24);
    HexRoundTrip(b.id, 24);
  }

  // ---------------------------------------------------------------------------
  // Reading

  /** `get_form(form_name)`. */
  function GetReply(docs: seq<FormDoc>, formName: string): Reply {
    match FindByName(docs, JStr(formName))
    case None => NotFound
    case Some(i) => Reply(200, FormBody(Serialize(docs[i])))
  }

  /** `get_forms()`: every document, serialized, in collection order. */
  function ListReply(docs: seq<FormDoc>): (r: Reply)
    ensures r.status == 200 && r.body.FormsBody? && |r.body.forms| == |docs|
    ensures forall i :: 0 <= i < |docs| ==> r.body.forms[i] == Serialize(docs[i])
  {
    Reply(200, FormsBody(seq(|docs|, i requires 0 <= i < |docs| => Serialize(docs[i]))))
  }

  /** A form is found exactly when a document has that name; what comes back is that
      document, with an `_id` string that reads back as its ObjectId. */
  lemma GetMeaning(docs: seq<FormDoc>, formName: string)
    requires Wellformed(docs)
    ensures GetReply(docs, formName) == NotFound <==> forall j :: 0 <= j < |docs| ==> docs[j].name != JStr(formName)
    ensures GetReply(docs, formName) != NotFound ==>
              exists i :: 0 <= i < |docs| && docs[i].name == JStr(formName)
                          && GetReply(docs, formName) == Reply(200, FormBody(Serialize(docs[i])))
                          && HexValue(GetReply(docs, formName).body.form.id) == docs[i].id
  {
    var r := FindByName(docs, JStr(formName));
    if r.Some? {
      SerializedIdReadsBack(docs[r.value], docs[r.value]);
    }
  }

  // ---------------------------------------------------------------------------
  // Creating

  const CreateRequired: seq<string> := ["name", "title", "yamlContent"]

  /** An object body that passes the scan has all three fields. */
  lemma CreateFieldsPresent(data: Json)
    requires data.JObj?
    requires ScanRequired(data, CreateRequired).AllPresent? || FirstMissing(data.fields, CreateRequired).None?
    ensures "name" in data.fields && "title" in data.fields && "yamlContent" in data.fields
  {
    ScanRequiredMeaning(data, CreateRequired);
    assert CreateRequired[0] == "name" && CreateRequired[1] == "title" && CreateRequired[2] == "yamlContent";
  }

  /** `create_form()` with request body `data`, the ObjectId the insert gets and the two
      clock reads. */
  function CreateOutcome(docs: seq<FormDoc>, data: Json, newId: nat, createdAt: nat, updatedAt: nat): Outcome {
    match ScanRequired(data, CreateRequired)
    case Raises => Outcome(DatabaseError, docs)
    case Missing(f) => Outcome(Reply(400, ErrorBody("Missing required field: " + f)), docs)
    case AllPresent =>
      if !data.JObj? then Outcome(DatabaseError, docs)
      else
        CreateFieldsPresent(data);
        var m := data.fields;
        if FindByName(docs, m["name"]).Some? then
          Outcome(Reply(409, ErrorBody("Form with this name already exists")), docs)
        else
          var d := FormDoc(newId, m["name"], m["title"], m["yamlContent"], createdAt, updatedAt);
          Outcome(Reply(201, FormBody(Serialize(d))), docs + [d])
  }

  /** The first missing field of `name`, `title`, `yamlContent` is reported before the
      duplicate check; a duplicate name is refused; otherwise exactly one document is
      appended, holding the three fields and the two timestamps, and it is what comes back.
      Every refusal leaves the collection as it was. */
  lemma CreateOutcomes(docs: seq<FormDoc>, data: Json, newId: nat, createdAt: nat, updatedAt: nat)
    ensures var o := CreateOutcome(docs, data, newId, createdAt, updatedAt);
            o.reply.status != 201 ==> o.docs == docs
    ensures data.JObj? && FirstMissing(data.fields, CreateRequired).Some? ==>
              CreateOutcome(docs, data, newId, createdAt, updatedAt).reply
              == Reply(400, ErrorBody("Missing required field: " + FirstMissing(data.fields, CreateRequired).value))
    ensures data.JObj? && FirstMissing(data.fields, CreateRequired).None? ==>
              "name" in data.fields && "title" in data.fields && "yamlContent" in data.fields
    ensures data.JObj? && FirstMissing(data.fields, CreateRequired).None? ==>
              var o := CreateOutcome(docs, data, newId, createdAt, updatedAt);
              var m := data.fields;
              (o.reply.status == 409 <==> exists j :: 0 <= j < |docs| && docs[j].name == m["name"])
              && (o.reply.status == 201 <==> !exists j :: 0 <= j < |docs| && docs[j].name == m["name"])
              && (o.reply.status == 201 ==>
                    var d := FormDoc(newId, m["name"], m["title"], m["yamlContent"], createdAt, updatedAt);
                    o.docs == docs + [d] && o.reply.body == FormBody(Serialize(d)))
    ensures !(data.JObj? || data.JArr? || data.JStr?) ==>
              CreateOutcome(docs, data, newId, createdAt, updatedAt) == Outcome(DatabaseError, docs)
  {
    ScanRequiredMeaning(data, CreateRequired);
    if data.JObj? && FirstMissing(data.fields, CreateRequired).None? {
      CreateFieldsPresent(data);
      var f := FindByName(docs, data.fields["name"]);
      if f.Some? {
        assert docs[f.value].name == data.fields["name"];
      }
    }
  }

  /** A successful create with a fresh ObjectId keeps names and ids unique. */
  lemma CreateKeepsWellformed(docs: seq<FormDoc>, data: Json, newId: nat, createdAt: nat, updatedAt: nat)
    requires Wellformed(docs) && newId < IdLimit
    requires forall j :: 0 <= j < |docs| ==> docs[j].id != newId
    ensures Wellformed(CreateOutcome(docs, data, newId, createdAt, updatedAt).docs)
  {
    if ScanRequired(data, CreateRequired).AllPresent? && data.JObj? {
      CreateFieldsPresent(data);
      var m := data.fields;
      if FindByName(docs, m["name"]).None? {
        AppendKeepsWellformed(docs, FormDoc(newId, m["name"], m["title"], m["yamlContent"], createdAt, updatedAt));
      }
    }
  }

  /** Appending a document with a fresh name and a fresh ObjectId keeps names and ids unique. */
  lemma AppendKeepsWellformed(docs: seq<FormDoc>, d: FormDoc)
    requires Wellformed(docs) && d.id < IdLimit
    requires forall j :: 0 <= j < |docs| ==> docs[j].id != d.id && docs[j].name != d.name
    ensures Wellformed(docs + [d])
  {
    var after := docs + [d];
    assert forall j :: 0 <= j < |docs| ==> after[j] == docs[j];
  }

  // ---------------------------------------------------------------------------
  // Updating

  /** One `if key in data: update_fields[key] = data[key]` step; `None` once it has raised. */
  function AddIfPresent(acc: Option<map<string, Json>>, data: Json, key: string): Option<map<string, Json>> {
    if acc.None? then None
    else
      match PyContains(data, key)
      case None => None
      case Some(false) => acc
      case Some(true) => if data.JObj? then Some(acc.value[key := data.fields[key]]) else None
  }

  /** The `update_fields` dict `update_form` builds, `None` when building it raises. For an
      object body it holds exactly those of `yamlContent`, `title` and `name` that the body
      has, with the body's values. */
  function UpdateFieldsOf(data: Json): (r: Option<map<string, Json>>)
    ensures data.JObj? ==>
              r.Some?
              && (forall k :: k in r.value <==> k in data.fields && (k == "yamlContent" || k == "title" || k == "name"))
              && (forall k :: k in r.value ==> r.value[k] == data.fields[k])
    ensures !(data.JObj? || data.JArr? || data.JStr?) ==> r.None?
  {
    AddIfPresent(AddIfPresent(AddIfPresent(Some(map[]), data, "yamlContent"), data, "title"), data, "name")
  }

  function Pick(u: map<string, Json>, key: string, otherwise: Json): Json {
    if key in u then u[key] else otherwise
  }

  /** The `$set` of `update_fields` plus `updatedAt` on one document. */
  function Apply(d: FormDoc, u: map<string, Json>, now: nat): FormDoc {
    d.(name := Pick(u, "name", d.name), title := Pick(u, "title", d.title),
       yamlContent := Pick(u, "yamlContent", d.yamlContent), updatedAt := now)
  }

  /** Would setting the `name` in `u` on document `i` break the unique index? */
  predicate RenameClashes(docs: seq<FormDoc>, i: nat, u: map<string, Json>) {
    "name" in u && exists j :: 0 <= j < |docs| && j != i && docs[j].name == u["name"]
  }

  /** `update_form(form_name)` with request body `data` and the clock read `now`. The
      document is re-read by its old name afterwards, so a renamed one reads back as null. */
  function UpdateOutcome(docs: seq<FormDoc>, formName: string, data: Json, now: nat): Outcome {
    match UpdateFieldsOf(data)
    case None => Outcome(DatabaseError, docs)
    case Some(u) =>
      if u == map[] then Outcome(Reply(400, ErrorBody("Nothing to update")), docs)
      else
        match FindByName(docs, JStr(formName))
        case None => Outcome(NotFound, docs)
        case Some(i) =>
          if RenameClashes(docs, i, u) then Outcome(DatabaseError, docs)
          else
            var after := docs[i := Apply(docs[i], u, now)];
            match FindByName(after, JStr(formName))
            case None => Outcome(Reply(200, NullBody), after)
            case Some(k) => Outcome(Reply(200, FormBody(Serialize(after[k]))), after)
  }

  /** An object body with none of the three keys is refused with 400 whether or not the form
      exists: the emptiness test comes before the lookup. */
  lemma NothingToUpdateBeforeNotFound(docs: seq<FormDoc>, formName: string, data: Json, now: nat)
    requires data.JObj? && "yamlContent" !in data.fields && "title" !in data.fields && "name" !in data.fields
    ensures UpdateOutcome(docs, formName, data, now) == Outcome(Reply(400, ErrorBody("Nothing to update")), docs)
  {
    var u := UpdateFieldsOf(data).value;
    assert u == map[] by {
      forall k | k in u ensures false {
      }
    }
  }

  /** With at least one field to set: an unknown form is 404 and a rename onto another
      form's name is a 500 (the unique index refuses it), both leaving the collection alone;
      otherwise the update succeeds with 200 and only the first
      document with that name changes, and only in the supplied fields and `updatedAt` —
      its ObjectId and `createdAt` stay. The reply is the updated document, or null when the
      name was changed. */
  lemma UpdateEffects(docs: seq<FormDoc>, formName: string, data: Json, now: nat)
    requires UniqueNames(docs)
    requires UpdateFieldsOf(data).Some? && UpdateFieldsOf(data).value != map[]
    ensures var o := UpdateOutcome(docs, formName, data, now);
            var u := UpdateFieldsOf(data).value;
            (o.reply == NotFound <==> forall j :: 0 <= j < |docs| ==> docs[j].name != JStr(formName))
            && (o.reply.status != 200 ==> o.docs == docs)
            && (o.reply.status == 200 ==>
                  exists i :: 0 <= i < |docs| && docs[i].name == JStr(formName) && !RenameClashes(docs, i, u)
                    && o.docs == docs[i := Apply(docs[i], u, now)]
                    && o.docs[i].id == docs[i].id && o.docs[i].createdAt == docs[i].createdAt
                    && o.docs[i].updatedAt == now
                    && (o.docs[i].name == JStr(formName) ==> o.reply.body == FormBody(Serialize(o.docs[i])))
                    && (o.docs[i].name != JStr(formName) ==> o.reply.body == NullBody))
            && ((exists i :: 0 <= i < |docs| && docs[i].name == JStr(formName) && !RenameClashes(docs, i, u)) ==>
                  o.reply.status == 200)
            && ((exists i :: 0 <= i < |docs| && docs[i].name == JStr(formName) && RenameClashes(docs, i, u)) ==>
                  o == Outcome(DatabaseError, docs))
  {
    var u := UpdateFieldsOf(data).value;
    var f := FindByName(docs, JStr(formName));
    if f.Some? && !RenameClashes(docs, f.value, u) {
      var i := f.value;
      var after := docs[i := Apply(docs[i], u, now)];
      if after[i].name == JStr(formName) {
        assert UniqueNames(after);
        FindUnique(after, i);
      } else {
        assert forall j :: 0 <= j < |after| ==> after[j].name != JStr(formName);
      }
    }
  }

  /** Every update keeps names and ids unique. */
  lemma UpdateKeepsWellformed(docs: seq<FormDoc>, formName: string, data: Json, now: nat)
    requires Wellformed(docs)
    ensures Wellformed(UpdateOutcome(docs, formName, data, now).docs)
  {
    var o := UpdateOutcome(docs, formName, data, now);
    if o.docs != docs {
      var u := UpdateFieldsOf(data).value;
      var i := FindByName(docs, JStr(formName)).value;
      assert !RenameClashes(docs, i, u);
      var after := docs[i := Apply(docs[i], u, now)];
      assert o.docs == after;
      forall a, b | 0 <= a < b < |after| ensures after[a].name != after[b].name {
        if a == i || b == i {
          if "name" !in u {
            assert after[i].name == docs[i].name;
          }
        }
      }
    }
  }

  // ---------------------------------------------------------------------------
  // Deleting

  /** `delete_form(form_name)`. */
  function DeleteOutcome(docs: seq<FormDoc>, formName: string): Outcome {
    match FindByName(docs, JStr(formName))
    case None => Outcome(NotFound, docs)
    case Some(i) => Outcome(Reply(200, MessageBody("Form deleted")), docs[..i] + docs[i + 1..])
  }

  /** An unknown form is 404 with no change; otherwise that one document goes, the others
      keep their order, and with unique names no document of that name is left. */
  lemma DeleteEffects(docs: seq<FormDoc>, formName: string)
    requires UniqueNames(docs)
    ensures var o := DeleteOutcome(docs, formName);
            (o.reply == NotFound <==> forall j :: 0 <= j < |docs| ==> docs[j].name != JStr(formName))
            && (o.reply == NotFound ==> o.docs == docs)
            && (o.reply != NotFound ==>
                  o.reply == Reply(200, MessageBody("Form deleted")) && |o.docs| == |docs| - 1
                  && (exists i :: 0 <= i < |docs| && docs[i].name == JStr(formName)
                                  && o.docs == docs[..i] + docs[i + 1..])
                  && forall j :: 0 <= j < |o.docs| ==> o.docs[j].name != JStr(formName))
  {
    var f := FindByName(docs, JStr(formName));
    if f.Some? {
      var i := f.value;
      var rest := docs[..i] + docs[i + 1..];
      forall j | 0 <= j < |rest| ensures rest[j].name != JStr(formName) {
        if j < i { assert rest[j] == docs[j]; } else { assert rest[j] == docs[j + 1]; }
      }
    }
  }

  lemma DeleteKeepsWellformed(docs: seq<FormDoc>, formName: string)
    requires Wellformed(docs)
    ensures Wellformed(DeleteOutcome(docs, formName).docs)
  {
    var f := FindByName(docs, JStr(formName));
    if f.Some? {
      var i := f.value;
      var rest := docs[..i] + docs[i + 1..];
      assert forall j :: 0 <= j < |rest| ==> rest[j] == (if j < i then docs[j] else docs[j + 1]);
    }
  }

  // ---------------------------------------------------------------------------
  // The collection object

  class FormRegistry {
    var docs: seq<FormDoc>

    ghost predicate Valid()
      reads this
    {
      Wellformed(docs)
    }

    constructor()
      ensures Valid() && docs == []
    {
      docs := [];
    }

    method GetForm(formName: string) returns (reply: Reply)
      ensures reply == GetReply(docs, formName)
    {
      var found := FindByName(docs, JStr(formName));
      if found.None? {
        return NotFound;
      }
      reply := Reply(200, FormBody(Serialize(docs[found.value])));
    }

    method ListForms() returns (reply: Reply)
      ensures reply == ListReply(docs)
    {
      var forms: seq<Serialized> := [];
      var i := 0;
      while i < |docs|
        invariant 0 <= i <= |docs|
        invariant |forms| == i
        invariant forall j :: 0 <= j < i ==> forms[j] == Serialize(docs[j])
      {
        forms := forms + [Serialize(docs[i])];
        i := i + 1;
      }
      reply := Reply(200, FormsBody(forms));
    }

    method CreateForm(data: Json, newId: nat, createdAt: nat, updatedAt: nat) returns (reply: Reply)
      requires Valid() && newId < IdLimit
      requires forall j :: 0 <= j < |docs| ==> docs[j].id != newId
      modifies this
      ensures Valid()
      ensures Outcome(reply, docs) == CreateOutcome(old(docs), data, newId, createdAt, updatedAt)
    {
      CreateKeepsWellformed(docs, data, newId, createdAt, updatedAt);
      var scan := CheckRequired(data, CreateRequired);
      match scan {
        case Raises =>
          return DatabaseError;
        case Missing(field) =>
          return Reply(400, ErrorBody("Missing required field: " + field));
        case AllPresent =>
      }
      if !data.JObj? {
        return DatabaseError;
      }
      CreateFieldsPresent(data);
      var m := data.fields;
      if FindByName(docs, m["name"]).Some? {
        return Reply(409, ErrorBody("Form with this name already exists"));
      }
      var d := FormDoc(newId, m["name"], m["title"], m["yamlContent"], createdAt, updatedAt);
      docs := docs + [d];
      reply := Reply(201, FormBody(Serialize(d)));
    }

    method UpdateForm(formName: string, data: Json, now: nat) returns (reply: Reply)
      requires Valid()
      modifies this
      ensures Valid()
      ensures Outcome(reply, docs) == UpdateOutcome(old(docs), formName, data, now)
    {
      UpdateKeepsWellformed(docs, formName, data, now);
      var updateFields: map<string, Json> := map[];
      var present := PyContains(data, "yamlContent");
      if present.None? {
        return DatabaseError;
      }
      if present.value {
        if !data.JObj? {
          return DatabaseError;
        }
        updateFields := updateFields["yamlContent" := data.fields["yamlContent"]];
      }
      present := PyContains(data, "title");
      if present.value {
        if !data.JObj? {
          return DatabaseError;
        }
        updateFields := updateFields["title" := data.fields["title"]];
      }
      present := PyContains(data, "name");
      if present.value {
        if !data.JObj? {
          return DatabaseError;
        }
        updateFields := updateFields["name" := data.fields["name"]];
      }
      assert Some(updateFields) == UpdateFieldsOf(data);
      if updateFields == map[] {
        return Reply(400, ErrorBody("Nothing to update"));
      }
      var found := FindByName(docs, JStr(formName));
      if found.None? {
        return NotFound;
      }
      var i := found.value;
      if RenameClashes(docs, i, updateFields) {
        return DatabaseError;
      }
      docs := docs[i := Apply(docs[i], updateFields, now)];
      var reread := FindByName(docs, JStr(formName));
      if reread.None? {
        return Reply(200, NullBody);
      }
      reply := Reply(200, FormBody(Serialize(docs[reread.value])));
    }

    method DeleteForm(formName: string) returns (reply: Reply)
      requires Valid()
      modifies this
      ensures Valid()
      ensures Outcome(reply, docs) == DeleteOutcome(old(docs), formName)
    {
      DeleteKeepsWellformed(docs, formName);
      var found := FindByName(docs, JStr(formName));
      if found.None? {
        return NotFound;
      }
      var i := found.value;
      docs := docs[..i] + docs[i + 1..];
      reply := Reply(200, MessageBody("Form deleted"));
    }
  }
}
