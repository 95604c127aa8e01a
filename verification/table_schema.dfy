/** The JSONTableSchema class: an ordered list of field descriptors and a
    format version, loaded from a parsed JSON document, grown one field at a
    time, and exported back to dictionary form.

    Every method of the class that changes `self` is a pure function here
    that returns an Outcome: the state of the object after the call, and the
    exception it raised, if any. */
module TableSchema {
  import opened Errors
  import opened JsonValue
  import opened Vocabulary

  /** The revision of JSON Table Schema implemented. */
  const DefaultVersion: string := "1.0-pre3.1"

  const FieldsKey: string := "fields"
  const VersionKey: string := "json_table_schema_version"
  const NameKey: string := "name"
  const TypeKey: string := "type"

  /** The keys every field entry of a document must have, checked in order. */
  const RequiredFieldDescriptorKeys: seq<string> := [NameKey, TypeKey]

  /** A stored descriptor: the dictionary {name, type}. add_field only
      accepts strings, so both are strings once stored. */
  datatype Field = Field(name: string, typ: string)

  /** The object's state. The version is whatever JSON value the loaded
      document held under its version key, or the default string. */
  datatype Schema = Schema(fields: seq<Field>, version: Value)

  /** The object after a call, and the exception the call raised, if any. */
  datatype Outcome = Outcome(schema: Schema, error: Option<Error>)

  /** The input the constructor gets: no text, text that does not parse, or
      the parsed document. */
  datatype Source = NoText | Malformed | Parsed(doc: Value)

  /** A freshly constructed object. */
  const Empty: Schema := Schema([], Str(DefaultVersion))

  // ---------------------------------------------------------------- invariant

  predicate UniqueNames(fs: seq<Field>) {
    forall j, k :: 0 <= j < k < |fs| ==> fs[j].name != fs[k].name
  }

  predicate ValidTypes(fs: seq<Field>) {
    forall k :: 0 <= k < |fs| ==> IsValidType(fs[k].typ)
  }

  /** What add_field, the only writer of the field list, keeps true. */
  predicate Wellformed(s: Schema) {
    UniqueNames(s.fields) && ValidTypes(s.fields)
  }

  // ---------------------------------------------------------------- field_ids

  /** The names of the stored descriptors, in list order. */
  function FieldIds(s: Schema): (ids: seq<string>)
    ensures |ids| == |s.fields|
    ensures forall k :: 0 <= k < |ids| ==> ids[k] == s.fields[k].name
  {
    seq(|s.fields|, k requires 0 <= k < |s.fields| => s.fields[k].name)
  }

  /** A name is a field id exactly when some stored descriptor carries it. */
  lemma IdsAreNames(s: Schema)
    ensures forall n :: n in FieldIds(s) <==> exists f :: f in s.fields && f.name == n
  {
    forall n | n in FieldIds(s)
      ensures exists f :: f in s.fields && f.name == n
    {
      var k :| 0 <= k < |s.fields| && FieldIds(s)[k] == n;
      assert s.fields[k] in s.fields;
    }
  }

  // ---------------------------------------------------------------- add_field

  /** add_field(name, type): text checks on name then type, then the
      duplicate check, then the vocabulary check, then append. A duplicate
      name is reported before its type is looked at. */
  function AddField(s: Schema, name: Value, typ: Value): (r: Outcome)
    ensures !name.Str? ==> r == Outcome(s, Some(FormatError(NameNotString)))
    ensures name.Str? && !typ.Str? ==> r == Outcome(s, Some(FormatError(TypeNotString)))
    ensures name.Str? && typ.Str? && name.text in FieldIds(s) ==>
              r == Outcome(s, Some(DuplicateFieldId("field_name")))
    ensures name.Str? && typ.Str? && name.text !in FieldIds(s) && !IsValidType(typ.text) ==>
              r == Outcome(s, Some(FormatError(InvalidType(typ.text, name.text))))
    ensures r.error.None? <==>
              name.Str? && typ.Str? && name.text !in FieldIds(s) && IsValidType(typ.text)
    ensures r.error.None? ==> r.schema == s.(fields := s.fields + [Field(name.text, typ.text)])
    ensures r.error.None? ==> FieldIds(r.schema) == FieldIds(s) + [name.text]
    ensures r.error.Some? ==> r.schema == s
  {
    if !name.Str? then Outcome(s, Some(FormatError(NameNotString)))
    else if !typ.Str? then Outcome(s, Some(FormatError(TypeNotString)))
    else if name.text in FieldIds(s) then Outcome(s, Some(DuplicateFieldId("field_name")))
    else match CheckType(typ.text, name.text)
      case Some(e) => Outcome(s, Some(e))
      case None =>
        var s' := s.(fields := s.fields + [Field(name.text, typ.text)]);
        assert FieldIds(s') == FieldIds(s) + [name.text];
        Outcome(s', None)
  }

  /** add_field is the single place that enforces the invariant, and it does:
      the new name is fresh and the new type is in the vocabulary. */
  lemma AddFieldKeepsWellformed(s: Schema, name: Value, typ: Value)
    requires Wellformed(s)
    ensures Wellformed(AddField(s, name, typ).schema)
  {
    var r := AddField(s, name, typ);
    if r.error.None? {
      var fs := r.schema.fields;
      forall j, k | 0 <= j < k < |fs| ensures fs[j].name != fs[k].name {
        if k == |s.fields| {
          assert fs[j].name == FieldIds(s)[j];
        }
      }
    }
  }

  // ---------------------------------------------------------------- read_json

  /** The first key of `keys` that `entry` lacks, scanning in order. */
  function FirstMissingKey(entry: map<string, Value>, keys: seq<string>): (r: Option<string>)
    ensures r.None? <==> forall j :: 0 <= j < |keys| ==> keys[j] in entry
    ensures r.Some? ==>
              exists j :: 0 <= j < |keys| && keys[j] == r.value && r.value !in entry
                          && forall i :: 0 <= i < j ==> keys[i] in entry
  {
    if keys == [] then None
    else if keys[0] !in entry then Some(keys[0])
    else
      var rest := FirstMissingKey(entry, keys[1..]);
      assert forall j :: 1 <= j < |keys| ==> keys[1..][j - 1] == keys[j];
      rest
  }

  /** A document entry that add_field can be called with: an object holding
      string `name` and `type` (other keys are ignored). */
  predicate IsDescriptor(e: Value) {
    && e.Object?
    && NameKey in e.members && e.members[NameKey].Str?
    && TypeKey in e.members && e.members[TypeKey].Str?
  }

  /** The descriptor add_field stores for such an entry. */
  function DescriptorOf(e: Value): Field
    requires IsDescriptor(e)
  {
    Field(e.members[NameKey].text, e.members[TypeKey].text)
  }

  /** One iteration of the read_json loop, without the version update: the
      entry must be a dictionary, must hold the required keys (name first),
      and is then handed to add_field. */
  function ReadEntry(s: Schema, e: Value, index: nat): (r: Outcome)
    ensures !e.Object? ==> r == Outcome(s, Some(NameError))
    ensures e.Object? && NameKey !in e.members ==>
              r == Outcome(s, Some(FormatError(MissingDescriptorKey(index, NameKey))))
    ensures e.Object? && NameKey in e.members && TypeKey !in e.members ==>
              r == Outcome(s, Some(FormatError(MissingDescriptorKey(index, TypeKey))))
    ensures e.Object? && NameKey in e.members && TypeKey in e.members ==>
              r == AddField(s, e.members[NameKey], e.members[TypeKey])
    ensures r.error.None? <==>
              IsDescriptor(e) && DescriptorOf(e).name !in FieldIds(s) && IsValidType(DescriptorOf(e).typ)
    ensures r.error.None? ==> r.schema == s.(fields := s.fields + [DescriptorOf(e)])
    ensures r.error.Some? ==> r.schema == s
  {
    match e
    case Object(m) =>
      (match FirstMissingKey(m, RequiredFieldDescriptorKeys)
       case Some(key) => Outcome(s, Some(FormatError(MissingDescriptorKey(index, key))))
       case None =>
         assert RequiredFieldDescriptorKeys[0] in m && RequiredFieldDescriptorKeys[1] in m;
         AddField(s, m[NameKey], m[TypeKey]))
    case _ => Outcome(s, Some(NameError))
  }

  /** `fs` are the descriptors of the first |fs| entries of `es`, in order. */
  predicate DescribesPrefix(fs: seq<Field>, es: seq<Value>)
    decreases |fs|
  {
    fs == [] || (es != [] && IsDescriptor(es[0]) && fs[0] == DescriptorOf(es[0]) && DescribesPrefix(fs[1..], es[1..]))
  }

  /** The read_json loop over the remaining `entries`, the first of which has
      position `index` in the document. After every entry that was added, the
      version is set to `version`; the first failing entry stops the loop, and
      what was appended before it stays. What it appends are the descriptors
      of the entries it got through, in document order. */
  function AddEntries(s: Schema, entries: seq<Value>, index: nat, version: Value): (r: Outcome)
    ensures s.fields <= r.schema.fields
    ensures r.error.None? ==> |r.schema.fields| == |s.fields| + |entries|
    ensures r.error.Some? ==> |r.schema.fields| < |s.fields| + |entries|
    ensures DescribesPrefix(r.schema.fields[|s.fields|..], entries)
    ensures |r.schema.fields| == |s.fields| ==> r.schema.version == s.version
    ensures |r.schema.fields| > |s.fields| ==> r.schema.version == version
    decreases |entries|
  {
    if entries == [] then
      Outcome(s, None)
    else
      var step := ReadEntry(s, entries[0], index);
      if step.error.Some? then
        step
      else
        var next := step.schema.(version := version);
        var r := AddEntries(next, entries[1..], index + 1, version);
        var n := |s.fields|;
        assert r.schema.fields[n..][1..] == r.schema.fields[n + 1..];
        r
  }

  /** The loop keeps the invariant even when it stops early. */
  lemma {:induction false} AddEntriesKeepsWellformed(s: Schema, entries: seq<Value>, index: nat, version: Value)
    ensures Wellformed(s) ==> Wellformed(AddEntries(s, entries, index, version).schema)
    decreases |entries|
  {
    if entries != [] {
      var step := ReadEntry(s, entries[0], index);
      if step.error.None? {
        var m := entries[0].members;
        if Wellformed(s) {
          AddFieldKeepsWellformed(s, m[NameKey], m[TypeKey]);
        }
        AddEntriesKeepsWellformed(step.schema.(version := version), entries[1..], index + 1, version);
      }
    }
  }

  /** The version read_json assigns: the document's own, or the default. */
  function VersionOf(doc: map<string, Value>): (v: Value)
    ensures VersionKey in doc ==> v == doc[VersionKey]
    ensures VersionKey !in doc ==> v == Str(DefaultVersion)
  {
    Get(doc, VersionKey, Str(DefaultVersion))
  }

  /** read_json(doc). A document that is not an object fails the way
      Python's `in` and indexing fail on it. */
  function ReadJson(s: Schema, doc: Value): (r: Outcome)
    ensures doc.Object? && FieldsKey !in doc.members ==>
              r == Outcome(s, Some(FormatError(MissingFields)))
    ensures doc.Object? && FieldsKey in doc.members && !doc.members[FieldsKey].Array? ==>
              r == Outcome(s, Some(FormatError(FieldsNotArray)))
    ensures doc.Scalar? ==> r == Outcome(s, Some(TypeError))
    ensures !doc.Object? ==> r.schema == s && r.error.Some?
    ensures doc.Object? && FieldsKey in doc.members && doc.members[FieldsKey] == Array([]) ==>
              r == Outcome(s, None)
    ensures s.fields <= r.schema.fields
    ensures |r.schema.fields| == |s.fields| ==> r.schema.version == s.version
    ensures |r.schema.fields| > |s.fields| ==>
              doc.Object? && r.schema.version == VersionOf(doc.members)
    ensures Wellformed(s) ==> Wellformed(r.schema)
  {
    match doc
    case Object(m) =>
      if FieldsKey !in m then Outcome(s, Some(FormatError(MissingFields)))
      else if !m[FieldsKey].Array? then Outcome(s, Some(FormatError(FieldsNotArray)))
      else
        AddEntriesKeepsWellformed(s, m[FieldsKey].items, 0, VersionOf(m));
        AddEntries(s, m[FieldsKey].items, 0, VersionOf(m))
    case Array(items) =>
      Outcome(s, Some(if Str(FieldsKey) in items then TypeError else FormatError(MissingFields)))
    case Str(text) =>
      Outcome(s, Some(if IsSubstring(FieldsKey, text) then TypeError else FormatError(MissingFields)))
    case Scalar =>
      Outcome(s, Some(TypeError))
  }

  /** A list or string document fails at `"fields" in doc` (when that is
      false) or at `doc["fields"]` (when it is true), and the object is
      left unchanged. */
  lemma ReadJsonListOrString(s: Schema, doc: Value)
    requires doc.Array? || doc.Str?
    ensures var found := if doc.Array? then Str(FieldsKey) in doc.items else IsSubstring(FieldsKey, doc.text);
            ReadJson(s, doc) == Outcome(s, Some(if found then TypeError else FormatError(MissingFields)))
  {
  }

  // ---------------------------------------------------------------- __init__

  /** The constructor. A parsed document is loaded into the empty object
      by read_json, whose errors propagate (none of them is a ValueError);
      text that does not parse is reported on the error stream and leaves
      the empty object. */
  function Init(src: Source): (r: Outcome)
    ensures src.Parsed? ==> r == ReadJson(Empty, src.doc)
    ensures src.NoText? || src.Malformed? ==> r == Outcome(Empty, None)
    ensures src.Parsed? && !src.doc.Object? ==> r.error.Some? && r.schema == Empty
    ensures Wellformed(r.schema)
  {
    match src
    case Parsed(doc) => ReadJson(Empty, doc)
    case _ => Outcome(Empty, None)
  }

  // ---------------------------------------------------------------- as_dict

  /** A stored descriptor as the dictionary it is held as. */
  function RenderField(f: Field): (v: Value)
    ensures IsDescriptor(v) && DescriptorOf(v) == f
    ensures v.members.Keys == {NameKey, TypeKey}
  {
    Object(map[NameKey := Str(f.name), TypeKey := Str(f.typ)])
  }

  /** as_dict: exactly the version and the field list, in list order. */
  function AsDict(s: Schema): (d: Value)
    ensures d.Object? && d.members.Keys == {VersionKey, FieldsKey}
    ensures d.members[VersionKey] == s.version
    ensures d.members[FieldsKey].Array? && |d.members[FieldsKey].items| == |s.fields|
    ensures forall k :: 0 <= k < |s.fields| ==>
              IsDescriptor(d.members[FieldsKey].items[k])
              && DescriptorOf(d.members[FieldsKey].items[k]) == s.fields[k]
              && d.members[FieldsKey].items[k].members.Keys == {NameKey, TypeKey}
  {
    var items := seq(|s.fields|, k requires 0 <= k < |s.fields| => RenderField(s.fields[k]));
    Object(map[VersionKey := s.version, FieldsKey := Array(items)])
  }

  // ---------------------------------------------------------------- remove_field

  /** `descriptor[key]` on a stored descriptor, which has exactly the keys
      name and type; None is the KeyError Python raises. */
  function DescriptorGet(f: Field, key: string): (r: Option<string>)
    ensures r.Some? <==> key == NameKey || key == TypeKey
    ensures key == NameKey ==> r == Some(f.name)
  {
    if key == NameKey then Some(f.name)
    else if key == TypeKey then Some(f.typ)
    else None
  }

  /** Python 2's eager `filter(lambda i: i[key] != id, fields)`: keeps, in
      order, the descriptors whose `key` differs from `id`; None when the
      lookup raises KeyError on some descriptor. */
  function FilterOut(fields: seq<Field>, key: string, id: string): (r: Option<seq<Field>>)
    ensures r.None? <==> |fields| > 0 && key != NameKey && key != TypeKey
    ensures r.Some? ==> |r.value| <= |fields|
  {
    if fields == [] then Some([])
    else match DescriptorGet(fields[0], key)
      case None => None
      case Some(v) =>
        match FilterOut(fields[1..], key, id)
        case None => None
        case Some(rest) => Some(if v != id then [fields[0]] + rest else rest)
  }

  /** What the filter keeps: exactly the descriptors whose `key` differs
      from `id`. */
  lemma {:induction false} FilterOutKeeps(fields: seq<Field>, key: string, id: string)
    ensures FilterOut(fields, key, id).Some? ==>
              forall f :: f in FilterOut(fields, key, id).value <==>
                f in fields && DescriptorGet(f, key) != Some(id)
  {
    if fields != [] {
      FilterOutKeeps(fields[1..], key, id);
      assert fields == [fields[0]] + fields[1..];
    }
  }

  /** remove_field, parameterised by the key its filter looks up. */
  function RemoveFieldBy(key: string, s: Schema, id: string): (r: Outcome)
    ensures id !in FieldIds(s) ==> r == Outcome(s, Some(KeyError))
    ensures r.schema.version == s.version
  {
    if id !in FieldIds(s) then Outcome(s, Some(KeyError))
    else match FilterOut(s.fields, key, id)
      case None => Outcome(s, Some(KeyError))
      case Some(fs) => Outcome(s.(fields := fs), None)
  }

  /** remove_field as written: the filter looks up `id`, a key no stored
      descriptor has, so every call raises KeyError and nothing is removed. */
  function RemoveFieldAsWritten(s: Schema, id: string): (r: Outcome)
    ensures r == Outcome(s, Some(KeyError))
  {
    RemoveFieldBy("id", s, id)
  }

  /** remove_field filtering on `name`, the key descriptors are stored and
      looked up by everywhere else. */
  function RemoveField(s: Schema, id: string): (r: Outcome)
    ensures id !in FieldIds(s) ==> r == Outcome(s, Some(KeyError))
    ensures id in FieldIds(s) ==> r.error.None?
    ensures r.schema.version == s.version
    ensures id !in FieldIds(r.schema)
    ensures forall n :: n in FieldIds(r.schema) <==> n in FieldIds(s) && n != id
  {
    var r := RemoveFieldBy(NameKey, s, id);
    FilterOutKeeps(s.fields, NameKey, id);
    IdsAreNames(s);
    IdsAreNames(r.schema);
    r
  }
}
