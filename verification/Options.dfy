/** The optional value used throughout the models (`None` in Electrum). */
module Options {
  datatype Option<+T> = None | Some(value: T)

  /** An optional number is present and at most `n`; absent numbers compare as "not yet". */
  predicate Le(x: Option<int>, n: int) {
    x.Some? && x.value <= n
  }
}
