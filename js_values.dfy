/**
 * The few JavaScript value notions the swap form depends on: a number that
 * may be NaN, an optional value, and the truthiness tests the form applies
 * to numbers (`x || 0`, `!prices[k]`).
 */
module JsValues {

  datatype Option<+T> = None | Some(value: T)

  /** A JavaScript number restricted to the values the form can produce:
      a finite value or NaN (`parseFloat` of a non-numeric string,
      `undefined - x`, `x + NaN`). Infinities are not modelled. */
  datatype Number = Finite(value: real) | NaN

  /** Subtraction: NaN on either side gives NaN. */
  function Sub(a: Number, b: Number): (r: Number)
    ensures r.Finite? <==> a.Finite? && b.Finite?
    ensures r.Finite? ==> r.value + b.value == a.value
  {
    if a.Finite? && b.Finite? then Finite(a.value - b.value) else NaN
  }

  /** Addition: NaN on either side gives NaN. */
  function Add(a: Number, b: Number): (r: Number)
    ensures r.Finite? <==> a.Finite? && b.Finite?
    ensures r.Finite? ==> r.value - b.value == a.value
  {
    if a.Finite? && b.Finite? then Finite(a.value + b.value) else NaN
  }

  /** `m[k] || 0` on a map of numbers: a missing key, NaN and 0 are falsy
      and all give 0; any other finite value is kept. */
  function OrZero(m: map<string, Number>, k: string): (r: real)
    ensures k in m && m[k].Finite? ==> r == m[k].value
    ensures !(k in m && m[k].Finite?) ==> r == 0.0
  {
    if k in m && m[k].Finite? then m[k].value else 0.0
  }

  /** `!!m[k]` on a map of (non-NaN) numbers: present and non-zero. */
  predicate Truthy(m: map<string, real>, k: string) {
    k in m && m[k] != 0.0
  }
}
