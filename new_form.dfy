/**
 * The form builder of src/pages/NewForm.tsx: a title, a description and a
 * list of field definitions that the user appends to, edits by position
 * and deletes by position, then stores under their account.
 */
module NewForm {
  import opened Wrappers

  /** One field definition: `{ name, type, required }`. */
  datatype Field = Field(name: string, inputType: string, required: bool)

  /** `Partial<Field>`: the keys an edit carries. */
  datatype FieldPatch = FieldPatch(name: Option<string>, inputType: Option<string>, required: Option<bool>)

  /** The field `addField` appends. */
  const BlankField: Field := Field("", "text", false)

  /** The row the builder asks the database to store. */
  datatype FormInsert = FormInsert(title: string, description: string, fields: seq<Field>, userId: string)

  /** `{ ...f, ...field }`: the keys present in the patch win. */
  function Patched(f: Field, p: FieldPatch): Field {
    Field(
      if p.name.Some? then p.name.value else f.name,
      if p.inputType.Some? then p.inputType.value else f.inputType,
      if p.required.Some? then p.required.value else f.required)
  }

  /** A patch with no keys changes nothing, and applying a patch twice is applying it once. */
  lemma PatchLaws(f: Field, p: FieldPatch)
    ensures Patched(f, FieldPatch(None, None, None)) == f
    ensures Patched(Patched(f, p), p) == Patched(f, p)
  {
  }

  /** The three edits the builder's inputs send each overwrite exactly their own key. */
  lemma SingleKeyPatches(f: Field, s: string, b: bool)
    ensures Patched(f, FieldPatch(Some(s), None, None)) == f.(name := s)
    ensures Patched(f, FieldPatch(None, Some(s), None)) == f.(inputType := s)
    ensures Patched(f, FieldPatch(None, None, Some(b))) == f.(required := b)
  {
  }

  /** `fields.map((f, i) => i === index ? { ...f, ...patch } : f)` */
  function UpdatedAt(s: seq<Field>, index: int, p: FieldPatch): (r: seq<Field>)
    ensures |r| == |s|
    ensures forall i :: 0 <= i < |s| && i != index ==> r[i] == s[i]
    ensures 0 <= index < |s| ==> r[index] == Patched(s[index], p)
  {
    if s == [] then []
    else
      var last := |s| - 1;
      UpdatedAt(s[..last], index, p) + [if last == index then Patched(s[last], p) else s[last]]
  }

  /** `fields.filter((_, i) => i !== index)` */
  function RemovedAt(s: seq<Field>, index: int): (r: seq<Field>)
    ensures 0 <= index < |s| ==> r == s[..index] + s[index + 1..]
    ensures !(0 <= index < |s|) ==> r == s
  {
    if s == [] then []
    else
      var last := |s| - 1;
      var kept := RemovedAt(s[..last], index);
      if last == index then kept
      else
        assert s == s[..last] + [s[last]];
        kept + [s[last]]
  }

  /** An edit at a position outside the list leaves it as it was. */
  lemma UpdateOutOfRange(s: seq<Field>, index: int, p: FieldPatch)
    requires !(0 <= index < |s|)
    ensures UpdatedAt(s, index, p) == s
  {
  }

  /** Adding a field and then removing the last position gives the list back. */
  lemma AddThenRemove(s: seq<Field>)
    ensures RemovedAt(s + [BlankField], |s|) == s
  {
    assert (s + [BlankField])[..|s|] == s;
  }

  /** Removing a position keeps the other fields, in their order. */
  lemma RemoveKeepsOthers(s: seq<Field>, index: int)
    requires 0 <= index < |s|
    ensures |RemovedAt(s, index)| == |s| - 1
    ensures forall i :: 0 <= i < index ==> RemovedAt(s, index)[i] == s[i]
    ensures forall i :: index <= i < |s| - 1 ==> RemovedAt(s, index)[i] == s[i + 1]
  {
  }

  /** The builder's state. */
  class FormEditor {
    var title: string
    var description: string
    var fields: seq<Field>

    /** An empty builder. */
    constructor ()
      ensures title == "" && description == "" && fields == []
    {
      title := "";
      description := "";
      fields := [];
    }

    /** The title input. */
    method SetTitle(v: string)
      modifies this
      ensures title == v && description == old(description) && fields == old(fields)
    {
      title := v;
    }

    /** The description input. */
    method SetDescription(v: string)
      modifies this
      ensures description == v && title == old(title) && fields == old(fields)
    {
      description := v;
    }

    /** `addField`: a blank text field is appended. */
    method AddField()
      modifies this
      ensures fields == old(fields) + [BlankField]
      ensures title == old(title) && description == old(description)
    {
      fields := fields + [BlankField];
    }

    /** `updateField`: the keys of the patch overwrite the field at `index`. */
    method UpdateField(index: int, p: FieldPatch)
      modifies this
      ensures fields == UpdatedAt(old(fields), index, p)
      ensures title == old(title) && description == old(description)
    {
      fields := UpdatedAt(fields, index, p);
    }

    /** `removeField`: the field at `index` is dropped. */
    method RemoveField(index: int)
      modifies this
      ensures fields == RemovedAt(old(fields), index)
      ensures title == old(title) && description == old(description)
    {
      fields := RemovedAt(fields, index);
    }

    /**
     * `handleSubmit`: with no signed-in user nothing is stored; otherwise
     * the title, description and fields are stored under the user's id.
     */
    method HandleSubmit(userId: Option<string>) returns (insert: Option<FormInsert>)
      ensures userId.None? || userId.value == "" ==> insert == None
      ensures userId.Some? && userId.value != "" ==>
        insert == Some(FormInsert(title, description, fields, userId.value))
    {
      if userId.None? || userId.value == "" {
        return None;
      }
      insert := Some(FormInsert(title, description, fields, userId.value));
    }
  }
}
