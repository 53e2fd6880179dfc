/**
 * The request body values this model covers: a field that is absent, an explicit `null`, or
 * a string (JSON numbers, booleans, arrays and objects are not modelled), and the two idioms
 * the handlers apply to them: truthiness tests (`!x`, `x || y`) and the
 * `x !== undefined ? x : y` test.
 */
module Js {
  import opened Wrappers

  /** A body field as modelled: absent, an explicit `null`, or a string. */
  datatype JsValue = Undefined | Null | Str(s: string)

  /** JavaScript truthiness on these values: only a non-empty string is truthy. */
  predicate Truthy(v: JsValue) {
    v.Str? && v.s != ""
  }

  /** The SQL value a bound parameter takes: `undefined` and `null` both bind NULL. */
  function Column(v: JsValue): Option<string> {
    if v.Str? then Some(v.s) else None
  }

  /** `v || fallback`: a truthy body value wins, anything else falls back to the stored value. */
  function OrElse(v: JsValue, fallback: Option<string>): Option<string> {
    if Truthy(v) then Some(v.s) else fallback
  }

  /** `v !== undefined ? v : fallback`: any value that is present, even `""` or `null`, wins. */
  function DefinedOr(v: JsValue, fallback: Option<string>): Option<string> {
    if v.Undefined? then fallback else Column(v)
  }

  /** Against a non-empty stored value, the two update rules differ exactly on `null` and `""`. */
  lemma RulesDifferOnFalsyPresentValues(v: JsValue, fallback: Option<string>)
    requires fallback.Some? && fallback.value != ""
    ensures OrElse(v, fallback) != DefinedOr(v, fallback) <==> (v.Null? || v == Str(""))
  {
  }
}
