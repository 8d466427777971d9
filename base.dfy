/**
 * Values shared by the client-side model: an optional value standing for
 * `undefined`/`null`, and JavaScript truthiness of the few kinds of values
 * the modelled code tests with `if (x)` or `x || fallback`.
 */
module Base {

  /** `None` is `undefined` or `null`; `Some(v)` is a present value. */
  datatype Option<+T> = None | Some(value: T)

  /** Truthiness of a `string | undefined | null`: present and non-empty. */
  predicate TruthyText(o: Option<string>)
  {
    o.Some? && o.value != ""
  }

  /** Truthiness of a `number | undefined | null` holding an integer: present and non-zero. */
  predicate TruthyNumber(o: Option<int>)
  {
    o.Some? && o.value != 0
  }
}
