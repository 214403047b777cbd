/** Small value wrappers shared by the whole model. */
module Wrappers {

  /** An optional value: a JSON field that may be absent, a header that may be missing,
      a storage call that may report an error. */
  datatype Option<+T> = None | Some(value: T)

  /** JavaScript truthiness of an optional JSON number: an absent field and 0 are falsy.
      (NaN, the only other falsy number, is not representable in the model.) */
  predicate Falsy(x: Option<real>) {
    x.None? || x.value == 0.0
  }
}
