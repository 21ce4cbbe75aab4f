/** The generic add-item form of AdminSection: a map from declared field
    name to the text typed so far. */
module AdminForm {
  import opened Wire
  import opened Store

  /** The form's state, `formData`. */
  type Form = map<string, string>

  /** The field names a section's form declares, in order. Labels and input
      kinds only affect rendering. */
  function FieldsOf(s: Section): (fields: seq<string>)
    ensures |fields| == 4
    ensures forall i, j :: 0 <= i < j < |fields| ==> fields[i] != fields[j]
    ensures "id" !in fields && "_id" !in fields
  {
    match s
    case Works => ["title", "category", "imageUrl", "description"]
    case Certifications => ["name", "issuer", "date", "imageUrl"]
    case Blog => ["title", "date", "slug", "excerpt"]
  }

  /** `fields.reduce((acc, field) => ({ ...acc, [field.name]: '' }), acc)`:
      every declared field is added as empty, every other key of `acc` is
      kept. */
  function Blank(fields: seq<string>, acc: Form): (r: Form)
    ensures r.Keys == acc.Keys + (set f | f in fields)
    ensures forall k :: k in r ==> r[k] == if k in fields then "" else acc[k]
    decreases |fields|
  {
    if fields == [] then acc else Blank(fields[1..], acc[fields[0] := ""])
  }

  /** The initial and the reset `formData`: every declared field empty. */
  function EmptyForm(fields: seq<string>): (r: Form)
    ensures r.Keys == set f | f in fields
    ensures forall k :: k in r ==> r[k] == ""
  {
    Blank(fields, map[])
  }

  /** The `required` attribute on every input: the browser only dispatches
      `submit` when no declared field is empty. */
  predicate Filled(form: Form, fields: seq<string>)
    ensures Filled(form, fields) ==> (set f | f in fields) <= form.Keys
  {
    forall f :: f in fields ==> f in form && form[f] != ""
  }

  /** A form just reset cannot be submitted again until something is typed:
      the browser blocks the empty required fields. */
  lemma {:induction false} ResetBlocksResubmit(fields: seq<string>)
    requires fields != []
    ensures !Filled(EmptyForm(fields), fields)
  {
    assert fields[0] in fields;
  }

  /** The JSON body `onAdd` sends for a submitted form. */
  function ToItem(form: Form): (item: Item)
    ensures item.Keys == form.Keys
    ensures forall k :: k in form ==> Field(item, k) == Str(form[k])
  {
    map k | k in form :: Str(form[k])
  }

  /** If the backend echoes the submitted fields with an added `_id`, the
      item appended to the section carries every submitted field verbatim and
      `id` equal to that `_id`. */
  lemma SubmittedFieldsSurvive(p: Portfolio, s: Section, form: Form, status: int, serverId: string)
    requires "id" !in form && "_id" !in form
    ensures AfterAdd(p, s, Resolved(Response(status, Object(ToItem(form)["_id" := Str(serverId)])))).Appended?
    ensures
      var added := AfterAdd(p, s, Resolved(Response(status, Object(ToItem(form)["_id" := Str(serverId)])))).data.Get(s);
      var item := added[|added| - 1];
      && |added| == |p.Get(s)| + 1
      && Field(item, "id") == Str(serverId)
      && forall k :: k in form ==> Field(item, k) == Str(form[k])
  {
    var created := ToItem(form)["_id" := Str(serverId)];
    AddKeepsFields(p, s, status, created);
  }

  /** A form keyed by a section's declared fields, as AdminSection keeps
      it, meets the premise of `SubmittedFieldsSurvive`: an add from the
      admin panel whose reply echoes the form with an `_id` appends an item
      with every typed field and `id` equal to that `_id`. */
  lemma SectionSubmissionSurvives(p: Portfolio, s: Section, form: Form, status: int, serverId: string)
    requires form.Keys == set f | f in FieldsOf(s)
    ensures AfterAdd(p, s, Resolved(Response(status, Object(ToItem(form)["_id" := Str(serverId)])))).Appended?
    ensures
      var added := AfterAdd(p, s, Resolved(Response(status, Object(ToItem(form)["_id" := Str(serverId)])))).data.Get(s);
      var item := added[|added| - 1];
      && |added| == |p.Get(s)| + 1
      && Field(item, "id") == Str(serverId)
      && forall k :: k in form ==> Field(item, k) == Str(form[k])
  {
    SubmittedFieldsSurvive(p, s, form, status, serverId);
  }

  /** The AdminSection component's form state. */
  class AdminSection {
    const fields: seq<string>
    var formData: Form

    /** The form holds exactly the declared fields. */
    ghost predicate Valid()
      reads this
    {
      formData.Keys == set f | f in fields
    }

    /** `useState(formFields.reduce(...))`: every declared field empty. */
    constructor (fields: seq<string>)
      ensures this.fields == fields
      ensures formData == EmptyForm(fields)
      ensures Valid()
    {
      this.fields := fields;
      formData := EmptyForm(fields);
    }

    /** `handleInputChange`: the input's `name` is one of the declared fields,
      since every input is rendered from them; only that key changes. */
    method HandleInputChange(name: string, value: string)
      requires Valid() && name in fields
      modifies this
      ensures Valid()
      ensures formData == old(formData)[name := value]
      ensures forall k :: k in formData && k != name ==> formData[k] == old(formData)[k]
    {
      formData := formData[name := value];
    }

    /** `handleSubmit`: when the browser lets the form submit, hand the
      current record to `onAdd` and reset every field to empty; otherwise
      nothing happens. */
    method HandleSubmit() returns (sent: Option<Form>)
      requires Valid()
      modifies this
      ensures Valid()
      ensures Filled(old(formData), fields) ==> sent == Some(old(formData)) && formData == EmptyForm(fields)
      ensures !Filled(old(formData), fields) ==> sent == None && formData == old(formData)
    {
      if Filled(formData, fields) {
        sent := Some(formData);
        formData := EmptyForm(fields);
      } else {
        sent := None;
      }
    }
  }
}
