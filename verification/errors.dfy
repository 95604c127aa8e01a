/** The three kinds of failure the schema class raises, together with the
    Python built-in exceptions that escape from it, as one tagged result type. */
module Errors {

  /** The conventional optional value. */
  datatype Option<+T> = None | Some(value: T)

  /** What a FormatError complains about. Each alternative carries the
      context that the source's message text is formatted from. */
  datatype FormatProblem =
    | MissingFields                                  // top-level `fields` key absent
    | FieldsNotArray                                 // `fields` is not a list
    | MissingDescriptorKey(index: nat, key: string)  // entry `index` lacks `key`
    | NameNotString                                  // add_field: name is not text
    | TypeNotString                                  // add_field: type is not text
    | InvalidType(typ: string, fieldName: string)    // check_type rejected `typ`

  datatype Error =
    | FormatError(problem: FormatProblem)
      /** The payload is the literal text the source passes, not the name. */
    | DuplicateFieldId(message: string)
      /** remove_field: the name is unknown, or the filter looked up a key the
          descriptor does not have. */
    | KeyError
      /** A field entry that is not an object: the message formatting refers
          to an unbound variable, so Python raises NameError. */
    | NameError
      /** read_json was given a JSON value that is not an object and on which
          `"fields" in doc` or `doc["fields"]` fails. */
    | TypeError
}
