/** Optional values: the model's stand-in for JavaScript's `undefined`/`null` on an optional field. */
module Options {

  datatype Option<+T> = None | Some(value: T) {

    /** The carried value, or `default` when there is none (`o ?? default`). */
    function GetOr(default: T): T {
      match this
      case Some(v) => v
      case None => default
    }
  }
}

/**
 * The few JavaScript value conventions the library leans on: truthiness of an
 * optional number or string, the `a || b` fallback it implies, and `Math.min`,
 * `Math.max`, `Math.abs` over reals.  NaN is not modelled, so a number is falsy
 * exactly when it is missing or zero.
 */
module Js {
  import opened Options

  predicate TruthyNumber(o: Option<real>) {
    o.Some? && o.value != 0.0
  }

  predicate TruthyString(o: Option<string>) {
    o.Some? && o.value != ""
  }

  /** `o || fallback` where `o` is an optional number. */
  function NumberOr(o: Option<real>, fallback: real): real {
    if TruthyNumber(o) then o.value else fallback
  }

  /** `o || fallback` where `o` is an optional string. */
  function StringOr(o: Option<string>, fallback: string): string {
    if TruthyString(o) then o.value else fallback
  }

  function Min(a: real, b: real): real {
    if a <= b then a else b
  }

  function Max(a: real, b: real): real {
    if a >= b then a else b
  }

  function Abs(a: real): real {
    if a >= 0.0 then a else -a
  }
}
