# JSON Table Schema model

A Dafny model of the `JSONTableSchema` class of the json-table-schema
Python package, which partly supports JSON Table Schema revision
1.0-pre3.1. An object of the class holds an ordered list of field
descriptors (`{"name": ..., "type": ...}`) and a format version. The class
can:

- load a parsed JSON document (`read_json`);
- add a field (`add_field`), checking that the name and type are strings,
  that the name is fresh, and that the type is in a closed vocabulary
  (`check_type`);
- remove a field (`remove_field`);
- list the field names (`field_ids`);
- export the object as a dictionary (`as_dict`).

Layout, one module per file:

- `errors.dfy` (`Errors`): the exceptions the class raises or lets escape.
  Each is a variant of one tagged error type, and each FormatError carries
  the index, key, type or field name its message is built from.
- `json_value.dfy` (`JsonValue`): the parsed JSON value the class consumes,
  and the Python `dict.get` and `str in str` operations it uses.
- `vocabulary.dfy` (`Vocabulary`): the type table and `check_type`.
- `table_schema.dfy` (`TableSchema`): the class itself. Every mutator is a
  pure function that returns an `Outcome`. An Outcome pairs the object's
  state after the call with the exception raised, if any. When an exception
  escapes, the Outcome's state is the state the object is left in.
- `table_schema_properties.dfy` (`TableSchemaProperties`): properties that
  relate several calls, and a reference definition of the error one loop
  iteration raises.
- `scenarios.dfy` (`Scenarios`): worked examples on small documents.

Behaviour modelled as the code has it:

- **URIs are valid types.** `check_type` compares against every string of
  every row of the table, so the URIs listed beside the thirteen labels
  are accepted too.
- **The duplicate check sits between the string checks and the vocabulary
  check.** `add_field` first checks that the name and the type are strings,
  then checks for a duplicate name, and only then looks the type up in the
  vocabulary (lines 89-97). The DuplicateFieldId it raises carries the
  literal text `"field_name"`, not the name.
- **A non-dictionary entry raises NameError.** The error message formats an
  unbound variable `idx`, so `read_json` raises Python's NameError there, not
  a FormatError. The model keeps this as its own error, `NameError`.
- **The version is set inside the loop.** `read_json` assigns the format
  version after each appended entry. A document with an empty `fields` array
  therefore leaves the version unchanged. The version is whatever JSON value
  the document holds under `json_table_schema_version`, not necessarily a
  string.
- **Earlier appends stay.** A `read_json` that fails part-way keeps the
  entries it appended before the failure.
- **Only name and type are stored.** `add_field` stores a new dictionary
  with those two keys, so other keys of a document's entries are not kept.
- **A top-level value that is not an object fails the way Python does.**
  - A number, boolean or null raises TypeError.
  - A list raises TypeError if it contains the string `"fields"`, and
    FormatError (missing `fields`) otherwise.
  - A string raises TypeError if `"fields"` is a substring of it, and
    FormatError (missing `fields`) otherwise.

The model follows Python 2 semantics where `jsontableschema/__init__.py`
depends on them:

- `isinstance(x, (str, unicode))` at lines 89 and 91 accepts either kind of
  string, so both are one string type here.
- `filter` at line 107 returns a list and runs its predicate on every
  descriptor at once. This is why the `remove_field` as written raises
  KeyError, rather than storing a lazy filter object that fails later.

Inputs the model takes as parameters:

- The constructor's JSON parse is a parameter (`TableSchema.Source`). Text
  that fails to parse leaves an empty object with the default version, and
  the diagnostic is written to stderr.

## Model

| member | source | states |
|---|---|---|
| Vocabulary.FoundInSomeRow | jsontableschema/__init__.py:119-123 | The nested loop over the table finds a type exactly when some row of the table contains it. |
| Vocabulary.ValidTypesAreLabelsAndUris | jsontableschema/__init__.py:27-41 | A type name is valid exactly when it is one of the thirteen labels or one of the ten URIs listed beside them. |
| Vocabulary.CheckTypeAcceptsExactlyListed | jsontableschema/__init__.py:117-127 | check_type accepts a string exactly when it is a label or a listed URI. Any other string gets the InvalidType error. |
| Vocabulary.CheckTypeIsExact | jsontableschema/__init__.py:121 | Matching is exact and case-sensitive: `String` and the alias `json` are rejected. |
| JsonValue.IsSubstring | jsontableschema/__init__.py:61 | `"fields" in doc` on a string is true exactly when "fields" occurs in it at some position. |
| TableSchema.IdsAreNames | jsontableschema/__init__.py:84-86 | A string is a field id exactly when some stored descriptor has it as its name. |
| TableSchema.AddField | jsontableschema/__init__.py:88-102 | The checks run in order: a non-string name, then a non-string type, then a duplicate name (payload "field_name"), then an invalid type. The call succeeds exactly when all four pass. On success the descriptor is appended and field_ids gains the name at the end. On failure the object is unchanged. |
| TableSchema.AddFieldKeepsWellformed | jsontableschema/__init__.py:94-102 | add_field keeps the invariant: names are distinct and every type is valid. |
| TableSchema.FirstMissingKey | jsontableschema/__init__.py:74-77 | The required keys are scanned in order. The result is none exactly when the entry has every key; otherwise it is the first key missing, and all keys before it are present. |
| TableSchema.ReadEntry | jsontableschema/__init__.py:68-79 | One loop iteration: a non-dictionary entry gives NameError, a missing `name` and then a missing `type` give FormatError with the index, and otherwise add_field decides. It succeeds exactly for a descriptor with a fresh name and a valid type. On success it appends that descriptor; on failure it leaves the object unchanged. |
| TableSchema.AddEntries | jsontableschema/__init__.py:68-82 | The loop only appends, so the old fields stay a prefix and there is no rollback. With no error it appends one descriptor per entry; with an error it appends fewer. What it appends describes the leading entries in document order. Once something was appended the version is the document's; otherwise it is unchanged. |
| TableSchema.AddEntriesKeepsWellformed | jsontableschema/__init__.py:68-82 | The loop keeps the invariant, including when it stops early. |
| TableSchema.ReadJson | jsontableschema/__init__.py:59-82 | These failures leave the object unchanged: a missing `fields` and a non-list `fields` give FormatError; a number, boolean or null gives TypeError; any other non-object document gives some error. An empty `fields` list changes nothing. Fields are only appended. The version is set from the document exactly when a field was appended. The invariant is kept. |
| TableSchema.ReadJsonListOrString | jsontableschema/__init__.py:61-64 | A list document gives TypeError when it contains the string "fields" and FormatError (missing `fields`) otherwise. A string document gives TypeError when "fields" is a substring of it and FormatError (missing `fields`) otherwise. Either way the object is unchanged. |
| TableSchema.Init | jsontableschema/__init__.py:47-57 | A parsed document is loaded into the empty object exactly as read_json loads it (line 55), and read_json's errors leave the constructor because none of them is a ValueError. No text, or text that does not parse, gives the empty object with the default version and no error. A parsed document that is not an object raises. The result always satisfies the invariant. When read_json raises, no object reaches the caller, so the state the Outcome holds then cannot be observed. |
| TableSchema.RenderField | jsontableschema/__init__.py:99-102 | A stored descriptor is a dictionary with exactly the keys `name` and `type`, and it reads back as the same field. |
| TableSchema.AsDict | jsontableschema/__init__.py:112-115 | as_dict has exactly the two keys `json_table_schema_version` and `fields`. The version is the object's. The field list has one descriptor per stored field, in order, each with exactly the keys name and type. |
| TableSchema.FilterOut | jsontableschema/__init__.py:107 | The eager Python 2 filter raises KeyError exactly when the list is non-empty and the key is neither `name` nor `type`. It never lengthens the list. |
| TableSchema.FilterOutKeeps | jsontableschema/__init__.py:107 | When the filter succeeds it keeps exactly the descriptors whose `key` value differs from the id. |
| TableSchema.RemoveFieldBy | jsontableschema/__init__.py:104-107 | An unknown name raises KeyError and leaves the object unchanged. The version is never touched. |
| TableSchema.RemoveFieldAsWritten | jsontableschema/__init__.py:104-107 | As written, every call raises KeyError and leaves the object unchanged, because the filter looks up `id`, a key no descriptor has. |
| TableSchema.RemoveField | jsontableschema/__init__.py:104-107 | With the filter on `name`: an unknown name raises KeyError and leaves the object unchanged. A known name raises nothing and disappears from field_ids. Every other id stays. The version is unchanged. |
| TableSchemaProperties.ReadEntryError | jsontableschema/__init__.py:68-97 | One iteration raises exactly the first failing check, in the code's order: not a dictionary, no `name`, no `type`, name not text, type not text, duplicate name, unknown type. |
| TableSchemaProperties.AddEntriesStep | jsontableschema/__init__.py:68-82 | One iteration of the loop: it stops with the entry's error, or it appends the entry's descriptor, sets the version and continues with the next index. |
| TableSchemaProperties.FirstEntryAccepted | jsontableschema/__init__.py:70-79 | An entry whose name is fresh and whose type is valid passes every check of the loop body. |
| TableSchemaProperties.AddValidEntries | jsontableschema/__init__.py:68-82 | When every entry is a descriptor and the names are fresh and distinct with valid types, the loop appends all of them in order, raises nothing, and sets the version exactly when there was an entry. |
| TableSchemaProperties.ReadValidDocument | jsontableschema/__init__.py:59-82 | read_json of such a document appends exactly its descriptors in document order. The version becomes the document's, or the default, exactly when `fields` is non-empty. |
| TableSchemaProperties.ReadFreshIds | jsontableschema/__init__.py:84-86 | After such a load into a new object, field_ids lists the document's names in document order, and the stored types are the document's types. |
| TableSchemaProperties.InitLoads | jsontableschema/__init__.py:47-82 | Constructing an object from a document whose entries are descriptors with distinct names and valid types raises nothing. The object holds exactly the document's descriptors in document order. Its version is the document's when `fields` is non-empty and the default otherwise. |
| TableSchemaProperties.AddEntriesStopsAtFirstBadEntry | jsontableschema/__init__.py:68-82 | When the loop raises, it stopped at the first entry it did not append. The error is that entry's error, computed against the fields appended so far and at that entry's index. |
| TableSchemaProperties.ExportedFieldsDescribeSchema | jsontableschema/__init__.py:112-115 | as_dict's field list consists of descriptors that read back as exactly the stored fields. |
| TableSchemaProperties.RoundTrip | jsontableschema/__init__.py:59-82 | Exporting a well-formed object with at least one field and reading the result into a new object gives back the same fields and version, with no error. |
| TableSchemaProperties.RoundTripNeedsAField | jsontableschema/__init__.py:81-82 | For a well-formed object, the round trip holds exactly when the object has a field or still has the default version. This is because the version is only read inside the loop. |
| TableSchemaProperties.ReadThenExport | jsontableschema/__init__.py:59-115 | Loading a valid document into a new object and exporting it gives back the document's descriptors in document order. The exported version is the document's (or the default) when `fields` is non-empty, and the default otherwise. |
| TableSchemaProperties.FilterOutAbsentName | jsontableschema/__init__.py:107 | Filtering on a name that no descriptor carries keeps the whole list. |
| TableSchemaProperties.FilterOutUniqueName | jsontableschema/__init__.py:107 | In a list with distinct names, filtering on the name of descriptor k removes exactly that descriptor and keeps the order of the others. |
| TableSchemaProperties.RemoveFieldExact | jsontableschema/__init__.py:104-107 | On a well-formed object, removing field k's name deletes exactly position k and changes nothing else. |
| TableSchemaProperties.RemoveFieldKeepsWellformed | jsontableschema/__init__.py:104-107 | Removal keeps the invariant. |
| TableSchemaProperties.AddThenRemove | jsontableschema/__init__.py:88-107 | Removing the field that a successful add_field just appended gives back the original object. |
| TableSchemaProperties.RemoveFieldAsWrittenKeepsField | jsontableschema/__init__.py:104-107 | Take an object holding one field named "id". As written, removing "id" raises KeyError and keeps the field. With the filter on name, the field is removed and no error is raised. |
| Scenarios.TwoFieldsLoad | jsontableschema/__init__.py:59-82 | Loading `{"fields": [{"name": "id", "type": "integer"}, {"name": "name", "type": "string"}]}` gives those two fields in order, the default version, and no error. |
| Scenarios.TwoFieldsExport | jsontableschema/__init__.py:112-115 | Exporting that object gives the default version and the document's own field list. |
| Scenarios.DuplicateBeforeType | jsontableschema/__init__.py:94-97 | A repeated name "id" whose type is a string, valid or not, raises DuplicateFieldId("field_name"), and the first descriptor stays loaded. |
| Scenarios.NonStringTypeBeforeDuplicate | jsontableschema/__init__.py:89-95 | A repeated name "id" whose type is not a string (a number, list, object, boolean or null) raises the non-string-type FormatError, because that check comes before the duplicate check. The first descriptor stays loaded. |
| Scenarios.UnknownType | jsontableschema/__init__.py:117-127 | A single entry whose type is neither a label nor a listed URI (such as "frobnicate") raises FormatError citing that type and the field name, and nothing is loaded. |

## Left out

- JSON text: parsing (`json.loads`) and serialisation are not modelled. `as_json`, which is `json.dumps(as_dict(), indent=2)`, is therefore left out. The model works on parsed values, and a parse failure is the `Malformed` constructor of `TableSchema.Source`.
- The diagnostic written to stderr on a parse failure is I/O and is not modelled. Only its effect is kept: an empty object and no error.
- Message text: error messages are not modelled as strings. Each FormatError carries the values its message is formatted from.
- JSON numbers, booleans and null are one `Scalar` value, because the class never looks inside them.
- `NotJSONError` is declared but never raised, so it has no variant.
- `TableSchema.RemoveField` and `TableSchema.RemoveFieldAsWritten` take the id as a string. A non-string id, such as `remove_field(5)`, is never in field_ids and raises KeyError at line 106. That path is not modelled separately.
- `TableSchema.AsDict` returns a value, not the object's own list. Aliasing through the returned dictionary is not modelled; in the code, mutating `as_dict()["fields"]` would change the object.
- The module-level imports and the package metadata (`setup.py`) are not part of this model.

## Findings

| source | as written | input that shows it | evidently intended | confidence | as-written member | corrected member |
|---|---|---|---|---|---|---|
| jsontableschema/__init__.py:107 | `remove_field` filters on `i["id"]`, but stored descriptors only have `name` and `type` keys. | `remove_field("id")` on an object holding the field `{"name": "id", "type": "integer"}` raises KeyError and removes nothing. | Filter on `i["name"]`, the key that field_ids and the duplicate check use. | high, not executed | TableSchema.RemoveFieldAsWritten, TableSchemaProperties.RemoveFieldAsWrittenKeepsField | TableSchema.RemoveField, TableSchemaProperties.RemoveFieldExact, TableSchemaProperties.AddThenRemove |
