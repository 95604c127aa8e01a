/** Properties that relate several calls of the schema class: loading a
    valid document, the round trips between loading and exporting, where a
    failing load stops, and removal as the inverse of a successful add. */
module TableSchemaProperties {
  import opened Errors
  import opened JsonValue
  import opened Vocabulary
  import opened TableSchema

  /** Every entry is an object with string `name` and `type`. */
  predicate AllDescriptors(es: seq<Value>) {
    forall k :: 0 <= k < |es| ==> IsDescriptor(es[k])
  }

  /** The descriptors of such entries, in document order. */
  function Descriptors(es: seq<Value>): (fs: seq<Field>)
    requires AllDescriptors(es)
    ensures |fs| == |es|
    ensures forall k :: 0 <= k < |es| ==> fs[k] == DescriptorOf(es[k])
  {
    seq(|es|, k requires 0 <= k < |es| => DescriptorOf(es[k]))
  }

  // ---------------------------------------------------------------- loading

  /** The error one loop iteration raises, as a list of checks in the order
      the code makes them: the entry is a dictionary, it has `name`, it has
      `type`, both are strings, the name is fresh, the type is known. */
  function EntryError(s: Schema, e: Value, index: nat): Option<Error> {
    if !e.Object? then Some(NameError)
    else if NameKey !in e.members then Some(FormatError(MissingDescriptorKey(index, NameKey)))
    else if TypeKey !in e.members then Some(FormatError(MissingDescriptorKey(index, TypeKey)))
    else if !e.members[NameKey].Str? then Some(FormatError(NameNotString))
    else if !e.members[TypeKey].Str? then Some(FormatError(TypeNotString))
    else if e.members[NameKey].text in FieldIds(s) then Some(DuplicateFieldId("field_name"))
    else if !IsValidType(e.members[TypeKey].text) then
      Some(FormatError(InvalidType(e.members[TypeKey].text, e.members[NameKey].text)))
    else None
  }

  /** One iteration raises exactly the first failing check of that list. */
  lemma ReadEntryError(s: Schema, e: Value, index: nat)
    ensures ReadEntry(s, e, index).error == EntryError(s, e, index)
  {
  }

  /** One iteration of the loop, unfolded, with the error as listed above. */
  lemma AddEntriesStep(s: Schema, entries: seq<Value>, index: nat, version: Value)
    requires entries != []
    ensures var err := EntryError(s, entries[0], index);
            AddEntries(s, entries, index, version) ==
              if err.Some? then Outcome(s, err)
              else AddEntries(Schema(s.fields + [DescriptorOf(entries[0])], version), entries[1..], index + 1, version)
  {
    ReadEntryError(s, entries[0], index);
  }

  /** The first of such entries passes every check, and the rest meet the
      same conditions against the fields with it appended. */
  lemma FirstEntryAccepted(s: Schema, entries: seq<Value>, index: nat, version: Value)
    requires entries != [] && AllDescriptors(entries)
    requires UniqueNames(s.fields + Descriptors(entries))
    requires ValidTypes(s.fields + Descriptors(entries))
    ensures EntryError(s, entries[0], index).None?
    ensures var next := Schema(s.fields + [DescriptorOf(entries[0])], version);
            && AllDescriptors(entries[1..])
            && next.fields + Descriptors(entries[1..]) == s.fields + Descriptors(entries)
  {
    var all := s.fields + Descriptors(entries);
    var d := DescriptorOf(entries[0]);
    var n := |s.fields|;
    assert all[n] == d;
    forall j | 0 <= j < n ensures FieldIds(s)[j] != d.name {
      assert all[j] == s.fields[j];
    }
    assert IsValidType(d.typ);
    assert AllDescriptors(entries[1..]);
    assert (s.fields + [d]) + Descriptors(entries[1..]) == all;
  }

  /** The read_json loop over entries that are all descriptors, whose names
      are fresh and distinct and whose types are valid, appends all of them
      in order, raises nothing, and sets the version iff there was an entry. */
  lemma {:induction false} AddValidEntries(s: Schema, entries: seq<Value>, index: nat, version: Value)
    requires AllDescriptors(entries)
    requires UniqueNames(s.fields + Descriptors(entries))
    requires ValidTypes(s.fields + Descriptors(entries))
    ensures AddEntries(s, entries, index, version) ==
              Outcome(Schema(s.fields + Descriptors(entries), if entries == [] then s.version else version), None)
    decreases |entries|
  {
    if entries == [] {
      assert s.fields + Descriptors(entries) == s.fields;
    } else {
      AddEntriesStep(s, entries, index, version);
      FirstEntryAccepted(s, entries, index, version);
      var next := Schema(s.fields + [DescriptorOf(entries[0])], version);
      AddValidEntries(next, entries[1..], index + 1, version);
    }
  }

  /** read_json on a document whose `fields` array lists fresh, distinct,
      validly typed descriptors: the schema gains exactly those descriptors
      in document order and nothing is raised. The version becomes the
      document's (or the default) only when the array is non-empty. */
  lemma ReadValidDocument(s: Schema, members: map<string, Value>)
    requires FieldsKey in members && members[FieldsKey].Array?
    requires AllDescriptors(members[FieldsKey].items)
    requires UniqueNames(s.fields + Descriptors(members[FieldsKey].items))
    requires ValidTypes(s.fields + Descriptors(members[FieldsKey].items))
    ensures var items := members[FieldsKey].items;
            ReadJson(s, Object(members)) ==
              Outcome(Schema(s.fields + Descriptors(items),
                             if items == [] then s.version else VersionOf(members)), None)
  {
    AddValidEntries(s, members[FieldsKey].items, 0, VersionOf(members));
  }

  /** Loading such a document into a fresh object: field_ids are the
      document's names in document order. */
  lemma ReadFreshIds(members: map<string, Value>)
    requires FieldsKey in members && members[FieldsKey].Array?
    requires AllDescriptors(members[FieldsKey].items)
    requires UniqueNames(Descriptors(members[FieldsKey].items))
    requires ValidTypes(Descriptors(members[FieldsKey].items))
    ensures var items := members[FieldsKey].items;
            var r := ReadJson(Empty, Object(members));
            && r.error.None?
            && |FieldIds(r.schema)| == |items|
            && forall k :: 0 <= k < |items| ==>
                 FieldIds(r.schema)[k] == items[k].members[NameKey].text
                 && r.schema.fields[k].typ == items[k].members[TypeKey].text
  {
    assert Empty.fields + Descriptors(members[FieldsKey].items) == Descriptors(members[FieldsKey].items);
    ReadValidDocument(Empty, members);
  }

  /** Constructing an object from such a document loads it: nothing is
      raised, the object holds the document's descriptors in document
      order, and the version is the document's when `fields` is non-empty
      and the default otherwise. */
  lemma InitLoads(members: map<string, Value>)
    requires FieldsKey in members && members[FieldsKey].Array?
    requires AllDescriptors(members[FieldsKey].items)
    requires UniqueNames(Descriptors(members[FieldsKey].items))
    requires ValidTypes(Descriptors(members[FieldsKey].items))
    ensures var items := members[FieldsKey].items;
            Init(Parsed(Object(members))) ==
              Outcome(Schema(Descriptors(items),
                             if items == [] then Str(DefaultVersion) else VersionOf(members)), None)
  {
    assert Empty.fields + Descriptors(members[FieldsKey].items) == Descriptors(members[FieldsKey].items);
    ReadValidDocument(Empty, members);
  }

  /** The loop stopped at the first entry it did not append, with that
      entry's error. */
  predicate StoppedAtFirstBadEntry(s: Schema, entries: seq<Value>, index: nat, r: Outcome) {
    var n := |r.schema.fields| - |s.fields|;
    r.error.Some? ==> 0 <= n < |entries| && r.error == EntryError(r.schema, entries[n], index + n)
  }

  /** The inductive step: appending the first entry and stopping correctly
      on the rest means stopping correctly on the whole list. */
  lemma StoppedAfterGoodEntry(s: Schema, entries: seq<Value>, index: nat, version: Value, r: Outcome)
    requires entries != [] && IsDescriptor(entries[0])
    requires |r.schema.fields| >= |s.fields| + 1
    requires StoppedAtFirstBadEntry(Schema(s.fields + [DescriptorOf(entries[0])], version), entries[1..], index + 1, r)
    ensures StoppedAtFirstBadEntry(s, entries, index, r)
  {
    var n := |r.schema.fields| - |s.fields| - 1;
    if r.error.Some? {
      assert entries[n + 1] == entries[1..][n];
    }
  }

  /** When the loop stops, the error is the one the first entry it did not
      append raises, against the fields appended so far and at that entry's
      position in the document. */
  lemma {:induction false} AddEntriesStopsAtFirstBadEntry(s: Schema, entries: seq<Value>, index: nat, version: Value)
    ensures StoppedAtFirstBadEntry(s, entries, index, AddEntries(s, entries, index, version))
    decreases |entries|
  {
    if entries != [] {
      AddEntriesStep(s, entries, index, version);
      if EntryError(s, entries[0], index).None? {
        var next := Schema(s.fields + [DescriptorOf(entries[0])], version);
        AddEntriesStopsAtFirstBadEntry(next, entries[1..], index + 1, version);
        StoppedAfterGoodEntry(s, entries, index, version, AddEntries(next, entries[1..], index + 1, version));
      }
    }
  }

  // ---------------------------------------------------------------- round trip

  /** The field array as_dict exports is a list of descriptors of the
      stored fields. */
  lemma ExportedFieldsDescribeSchema(s: Schema)
    ensures var items := AsDict(s).members[FieldsKey].items;
            AllDescriptors(items) && Descriptors(items) == s.fields
  {
  }

  /** Exporting a well-formed object with at least one field and loading
      the result into a fresh object gives back the same fields and version. */
  lemma RoundTrip(s: Schema)
    requires Wellformed(s)
    requires |s.fields| > 0
    ensures ReadJson(Empty, AsDict(s)) == Outcome(s, None)
  {
    var d := AsDict(s);
    ExportedFieldsDescribeSchema(s);
    assert Empty.fields + Descriptors(d.members[FieldsKey].items) == s.fields;
    ReadValidDocument(Empty, d.members);
  }

  /** Because the version is only assigned inside the loop, the round trip
      of a well-formed object holds exactly when it has a field or still has
      the default version. */
  lemma RoundTripNeedsAField(s: Schema)
    requires Wellformed(s)
    ensures ReadJson(Empty, AsDict(s)) == Outcome(s, None) <==>
              |s.fields| > 0 || s.version == Str(DefaultVersion)
  {
    if |s.fields| > 0 {
      RoundTrip(s);
    } else {
      var d := AsDict(s);
      assert d.members[FieldsKey] == Array([]);
      assert s.fields == [];
    }
  }

  /** Loading a valid document into a fresh object and exporting it gives
      the document's descriptors in document order, with the document's
      version (or the default) when there was a field and the default
      otherwise. */
  lemma ReadThenExport(members: map<string, Value>)
    requires FieldsKey in members && members[FieldsKey].Array?
    requires AllDescriptors(members[FieldsKey].items)
    requires UniqueNames(Descriptors(members[FieldsKey].items))
    requires ValidTypes(Descriptors(members[FieldsKey].items))
    ensures var items := members[FieldsKey].items;
            var d := AsDict(ReadJson(Empty, Object(members)).schema);
            && AllDescriptors(d.members[FieldsKey].items)
            && Descriptors(d.members[FieldsKey].items) == Descriptors(items)
            && d.members[VersionKey] == if items == [] then Str(DefaultVersion) else VersionOf(members)
  {
    assert Empty.fields + Descriptors(members[FieldsKey].items) == Descriptors(members[FieldsKey].items);
    ReadValidDocument(Empty, members);
    ExportedFieldsDescribeSchema(ReadJson(Empty, Object(members)).schema);
  }

  // ---------------------------------------------------------------- remove_field

  /** Filtering on name for a name no descriptor carries keeps everything. */
  lemma {:induction false} FilterOutAbsentName(fs: seq<Field>, id: string)
    requires forall k :: 0 <= k < |fs| ==> fs[k].name != id
    ensures FilterOut(fs, NameKey, id) == Some(fs)
  {
    if fs != [] {
      FilterOutAbsentName(fs[1..], id);
      assert [fs[0]] + fs[1..] == fs;
    }
  }

  /** Filtering on name for the name of the descriptor at `k`, in a list
      with distinct names, removes exactly that descriptor and keeps the
      order of the rest. */
  lemma {:induction false} FilterOutUniqueName(fs: seq<Field>, k: nat)
    requires UniqueNames(fs)
    requires k < |fs|
    ensures FilterOut(fs, NameKey, fs[k].name) == Some(fs[..k] + fs[k + 1..])
  {
    var id := fs[k].name;
    var tail := fs[1..];
    assert forall j :: 0 <= j < |tail| ==> tail[j] == fs[j + 1];
    if k == 0 {
      FilterOutAbsentName(tail, id);
      assert fs[..0] + fs[1..] == tail;
    } else {
      assert fs[0].name != id;
      assert tail[k - 1] == fs[k];
      FilterOutUniqueName(tail, k - 1);
      assert FilterOut(fs, NameKey, id) == Some([fs[0]] + (tail[..k - 1] + tail[k..]));
      assert [fs[0]] + (tail[..k - 1] + tail[k..]) == fs[..k] + fs[k + 1..];
    }
  }

  /** remove_field (filtering on name) on a well-formed object removes the
      one descriptor with that name and keeps the order of the others. */
  lemma RemoveFieldExact(s: Schema, k: nat)
    requires Wellformed(s)
    requires k < |s.fields|
    ensures RemoveField(s, s.fields[k].name) ==
              Outcome(s.(fields := s.fields[..k] + s.fields[k + 1..]), None)
  {
    FilterOutUniqueName(s.fields, k);
    assert FieldIds(s)[k] == s.fields[k].name;
  }

  /** Removal keeps the invariant. */
  lemma RemoveFieldKeepsWellformed(s: Schema, id: string)
    requires Wellformed(s)
    ensures Wellformed(RemoveField(s, id).schema)
  {
    if id in FieldIds(s) {
      var k :| 0 <= k < |s.fields| && FieldIds(s)[k] == id;
      RemoveFieldExact(s, k);
      var fs := s.fields[..k] + s.fields[k + 1..];
      forall j | 0 <= j < |fs|
        ensures fs[j] == s.fields[if j < k then j else j + 1]
      {
      }
    }
  }

  /** Removing the field just added undoes the add. */
  lemma AddThenRemove(s: Schema, name: string, typ: string)
    requires Wellformed(s)
    requires AddField(s, Str(name), Str(typ)).error.None?
    ensures RemoveField(AddField(s, Str(name), Str(typ)).schema, name) == Outcome(s, None)
  {
    var added := AddField(s, Str(name), Str(typ)).schema;
    AddFieldKeepsWellformed(s, Str(name), Str(typ));
    RemoveFieldExact(added, |s.fields|);
    assert added.fields[..|s.fields|] + added.fields[|s.fields| + 1..] == s.fields;
  }

  /** As written, remove_field leaves a field in place that the corrected
      version removes. */
  lemma RemoveFieldAsWrittenKeepsField(s: Schema)
    requires s == Schema([Field("id", "integer")], Str(DefaultVersion))
    ensures RemoveFieldAsWritten(s, "id") == Outcome(s, Some(KeyError))
    ensures RemoveField(s, "id") == Outcome(Schema([], Str(DefaultVersion)), None)
  {
    assert FieldIds(s)[0] == "id";
  }
}
