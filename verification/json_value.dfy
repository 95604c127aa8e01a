/** The already-parsed JSON value that the schema class consumes and produces. */
module JsonValue {

  /** A JSON value as Python's json module returns it. Numbers, booleans and
      null are never inspected by the schema class beyond "not a string, not a
      list, not a dict", so they share one constructor. */
  datatype Value =
    | Str(text: string)
    | Array(items: seq<Value>)
    | Object(members: map<string, Value>)
    | Scalar

  /** `dict.get(key, default)`. */
  function Get(m: map<string, Value>, key: string, default: Value): (v: Value)
    ensures key in m ==> v == m[key]
    ensures key !in m ==> v == default
  {
    if key in m then m[key] else default
  }

  /** Python's `needle in text` on two strings: a substring test. */
  predicate IsSubstring(needle: string, text: string)
    decreases |text|
    ensures IsSubstring(needle, text) <==> exists k :: 0 <= k <= |text| && needle <= text[k..]
  {
    if needle <= text then
      assert needle <= text[0..];
      true
    else if |text| == 0 then
      false
    else
      var rest := IsSubstring(needle, text[1..]);
      assert forall k :: 1 <= k <= |text| ==> text[1..][k - 1..] == text[k..];
      rest
  }
}
