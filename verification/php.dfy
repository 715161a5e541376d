/**
 * The few PHP value semantics the driver's guards depend on. Strings are the
 * only scalars modelled; `null` is `None`.
 */
module Php {
  import opened Wrappers

  /** PHP truthiness of a string: every string except "" and "0" is true. */
  predicate Truthy(s: string) {
    s != "" && s != "0"
  }

  /** PHP's `empty()` on a string or null. */
  predicate Empty(v: Option<string>) {
    v.None? || !Truthy(v.value)
  }

  /** PHP's string form of a boolean: true is "1" and false is "". */
  function BoolString(b: bool): (s: string)
    ensures Truthy(s) == b
  {
    if b then "1" else ""
  }

  /** `$array[$key]` on an associative array of strings; a missing key reads as null. */
  function Index(a: map<string, string>, key: string): (v: Option<string>)
    ensures v.Some? <==> key in a
    ensures v.Some? ==> v.value == a[key]
  {
    if key in a then Some(a[key]) else None
  }
}
