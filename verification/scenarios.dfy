/** Worked examples: small documents and what loading them does. The
    strings of each example are named by parameters that its requires
    clause fixes. */
module Scenarios {
  import opened Errors
  import opened JsonValue
  import opened Vocabulary
  import opened TableSchema
  import opened TableSchemaProperties

  /** A field entry as it appears in a document. */
  function Entry(name: string, typ: string): (e: Value)
    ensures IsDescriptor(e) && DescriptorOf(e) == Field(name, typ)
  {
    Object(map[NameKey := Str(name), TypeKey := Str(typ)])
  }

  /** `{"fields": [{"name": "id", "type": "integer"}, {"name": "name",
      "type": "string"}]}`: both are loaded in order, the version is the
      default, and nothing is raised. */
  lemma TwoFieldsLoad(doc: Value, id: string, integer: string, name: string, str: string)
    requires id == "id" && integer == "integer" && name == "name" && str == "string"
    requires doc == Object(map[FieldsKey := Array([Entry(id, integer), Entry(name, str)])])
    ensures ReadJson(Empty, doc) ==
              Outcome(Schema([Field(id, integer), Field(name, str)], Str(DefaultVersion)), None)
  {
    var items := doc.members[FieldsKey].items;
    ValidTypesAreLabelsAndUris(integer);
    ValidTypesAreLabelsAndUris(str);
    var first := Schema([Field(id, integer)], Str(DefaultVersion));
    AddEntriesStep(Empty, items, 0, Str(DefaultVersion));
    assert Empty.fields + [Field(id, integer)] == first.fields;
    AddEntriesStep(first, items[1..], 1, Str(DefaultVersion));
    assert FieldIds(first) == [id];
    assert items[1..][1..] == [];
  }

  /** ... and as_dict then gives the default version and the same field
      list as the document. */
  lemma TwoFieldsExport(id: string, integer: string, name: string, str: string)
    requires id == "id" && integer == "integer" && name == "name" && str == "string"
    ensures AsDict(Schema([Field(id, integer), Field(name, str)], Str(DefaultVersion))) ==
              Object(map[VersionKey := Str(DefaultVersion),
                         FieldsKey := Array([Entry(id, integer), Entry(name, str)])])
  {
    var d := AsDict(Schema([Field(id, integer), Field(name, str)], Str(DefaultVersion)));
    assert d.members[FieldsKey].items == [Entry(id, integer), Entry(name, str)];
  }

  /** `{"fields": [{"name": "id", "type": "integer"}, {"name": "id", ...}]}`:
      the repeated name is reported as a duplicate whatever string its type
      is, valid or not, and the first descriptor stays loaded. */
  lemma DuplicateBeforeType(doc: Value, id: string, integer: string, typ: string)
    requires id == "id" && integer == "integer"
    requires doc == Object(map[FieldsKey := Array([Entry(id, integer), Entry(id, typ)])])
    ensures ReadJson(Empty, doc) ==
              Outcome(Schema([Field(id, integer)], Str(DefaultVersion)), Some(DuplicateFieldId("field_name")))
  {
    var items := doc.members[FieldsKey].items;
    ValidTypesAreLabelsAndUris(integer);
    var first := Schema([Field(id, integer)], Str(DefaultVersion));
    AddEntriesStep(Empty, items, 0, Str(DefaultVersion));
    assert Empty.fields + [Field(id, integer)] == first.fields;
    AddEntriesStep(first, items[1..], 1, Str(DefaultVersion));
    assert FieldIds(first)[0] == id;
  }

  /** `{"fields": [{"name": "id", "type": "integer"}, {"name": "id",
      "type": t}]}` with `t` a number, list, object, boolean or null: the
      repeated name is reported as a non-string type, because that test
      comes before the duplicate test; the first descriptor stays loaded. */
  lemma NonStringTypeBeforeDuplicate(doc: Value, id: string, integer: string, typ: Value)
    requires id == "id" && integer == "integer"
    requires !typ.Str?
    requires doc == Object(map[FieldsKey := Array([Entry(id, integer),
                                                   Object(map[NameKey := Str(id), TypeKey := typ])])])
    ensures ReadJson(Empty, doc) ==
              Outcome(Schema([Field(id, integer)], Str(DefaultVersion)), Some(FormatError(TypeNotString)))
  {
    var items := doc.members[FieldsKey].items;
    ValidTypesAreLabelsAndUris(integer);
    var first := Schema([Field(id, integer)], Str(DefaultVersion));
    AddEntriesStep(Empty, items, 0, Str(DefaultVersion));
    assert Empty.fields + [Field(id, integer)] == first.fields;
    AddEntriesStep(first, items[1..], 1, Str(DefaultVersion));
  }

  /** `{"fields": [{"name": n, "type": t}]}` with `t` neither a label nor
      a listed URI (`"frobnicate"`, say): the unknown type is reported with
      the type and the field name, and nothing is loaded. */
  lemma UnknownType(doc: Value, name: string, typ: string)
    requires typ !in TypeLabels && typ !in TypeUris
    requires doc == Object(map[FieldsKey := Array([Entry(name, typ)])])
    ensures ReadJson(Empty, doc) == Outcome(Empty, Some(FormatError(InvalidType(typ, name))))
  {
    ValidTypesAreLabelsAndUris(typ);
    AddEntriesStep(Empty, doc.members[FieldsKey].items, 0, Str(DefaultVersion));
  }
}
