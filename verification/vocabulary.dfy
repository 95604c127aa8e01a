/** The closed vocabulary of field types and the check against it. */
module Vocabulary {
  import opened Errors

  /** One row per type: its label first, then the URIs that name the same
      type. Matching is against every string of every row. */
  const ValidTypeNames: seq<seq<string>> := [
    ["string", "http://www.w3.org/2001/XMLSchema#string"],
    ["number", "http://www.w3.org/2001/XMLSchema#float"],
    ["integer", "http://www.w3.org/2001/XMLSchema#int", "http://www.w3.org/2001/XMLSchema#nonNegativeInteger"],
    ["date"],
    ["time"],
    ["date-time", "http://www.w3.org/2001/XMLSchema#dateTime"],
    ["boolean", "http://www.w3.org/2001/XMLSchema#boolean"],
    ["binary"],
    ["object", "http://www.elasticsearch.org/guide/en/elasticsearch/reference/current/mapping-object-type.html"],
    ["geopoint", "http://www.elasticsearch.org/guide/en/elasticsearch/reference/current/mapping-geo-point-type.html"],
    ["geojson"],
    ["array", "http://www.elasticsearch.org/guide/en/elasticsearch/reference/current/mapping-array-type.html"],
    ["any", "http://www.w3.org/2001/XMLSchema#anyURI"]
  ]

  /** The thirteen type labels of JSON Table Schema 1.0-pre3.1. */
  const TypeLabels: set<string> := {
    "string", "number", "integer", "date", "time", "date-time", "boolean",
    "binary", "object", "geopoint", "geojson", "array", "any"
  }

  /** The equivalent URIs listed beside the labels. */
  const TypeUris: set<string> := {
    "http://www.w3.org/2001/XMLSchema#string",
    "http://www.w3.org/2001/XMLSchema#float",
    "http://www.w3.org/2001/XMLSchema#int",
    "http://www.w3.org/2001/XMLSchema#nonNegativeInteger",
    "http://www.w3.org/2001/XMLSchema#dateTime",
    "http://www.w3.org/2001/XMLSchema#boolean",
    "http://www.elasticsearch.org/guide/en/elasticsearch/reference/current/mapping-object-type.html",
    "http://www.elasticsearch.org/guide/en/elasticsearch/reference/current/mapping-geo-point-type.html",
    "http://www.elasticsearch.org/guide/en/elasticsearch/reference/current/mapping-array-type.html",
    "http://www.w3.org/2001/XMLSchema#anyURI"
  }

  /** The nested scan over the rows: true as soon as a row holds `t`. */
  function FoundIn(rows: seq<seq<string>>, t: string): bool
  {
    rows != [] && (t in rows[0] || FoundIn(rows[1..], t))
  }

  /** The scan finds `t` exactly when some row holds it. */
  lemma {:induction false} FoundInSomeRow(rows: seq<seq<string>>, t: string)
    ensures FoundIn(rows, t) <==> exists k :: 0 <= k < |rows| && t in rows[k]
  {
    if rows != [] {
      FoundInSomeRow(rows[1..], t);
      assert forall k :: 1 <= k < |rows| ==> rows[1..][k - 1] == rows[k];
    }
  }

  /** A type name is valid when some row of the vocabulary holds it, label
      or URI alike. */
  predicate IsValidType(t: string) {
    FoundIn(ValidTypeNames, t)
  }

  /** The accepted names are exactly the thirteen labels and the listed URIs. */
  lemma ValidTypesAreLabelsAndUris(t: string)
    ensures IsValidType(t) <==> t in TypeLabels || t in TypeUris
  {
    var V := ValidTypeNames;
    FoundInSomeRow(V, t);
    if t in TypeLabels || t in TypeUris {
      assert t in V[0] || t in V[1] || t in V[2] || t in V[3] || t in V[4] || t in V[5] || t in V[6]
        || t in V[7] || t in V[8] || t in V[9] || t in V[10] || t in V[11] || t in V[12];
    } else {
      assert forall k :: 0 <= k < |V| ==> t !in V[k];
    }
  }

  /** check_type: no error when the scan finds the type in some row,
      otherwise a FormatError naming the type and the field it was given for. */
  function CheckType(typ: string, fieldName: string): (r: Option<Error>)
    ensures r.None? <==> IsValidType(typ)
    ensures r.Some? ==> r.value == FormatError(InvalidType(typ, fieldName))
  {
    if IsValidType(typ) then None
    else Some(FormatError(InvalidType(typ, fieldName)))
  }

  /** check_type accepts exactly the labels and the listed URIs. */
  lemma CheckTypeAcceptsExactlyListed(typ: string, fieldName: string)
    ensures CheckType(typ, fieldName) ==
              if typ in TypeLabels || typ in TypeUris then None
              else Some(FormatError(InvalidType(typ, fieldName)))
  {
    ValidTypesAreLabelsAndUris(typ);
  }

  /** Matching is case-sensitive, and the alias `json` mentioned beside
      `object` is not a valid name. */
  lemma CheckTypeIsExact(typ: string, fieldName: string)
    requires typ == "String" || typ == "json"
    ensures CheckType(typ, fieldName) == Some(FormatError(InvalidType(typ, fieldName)))
  {
    ValidTypesAreLabelsAndUris(typ);
  }
}
