/** Optional values and the JavaScript truthiness tests the front end relies on. */
module Values {

  /** `undefined` (None) or a present value (Some). */
  datatype Option<+T> = None | Some(value: T)

  /** `if (s)` on a `string | undefined`: both `undefined` and `""` are falsy. */
  predicate TruthyString(s: Option<string>)
  {
    s.Some? && s.value != ""
  }

  /** `if (n)` on a `number | undefined`: `undefined` and `0` are falsy. */
  predicate TruthyNumber(n: Option<real>)
  {
    n.Some? && n.value != 0.0
  }

  /** `if (chainId)` on a chain id that may be unknown: unknown and `0` are falsy. */
  predicate TruthyInt(n: Option<int>)
  {
    n.Some? && n.value != 0
  }
}
