/** Java references that may be null are modelled as `Option`: `None` stands for null. */
module Wrappers {

  datatype Option<+T> = None | Some(value: T)

  /** True of a null or empty string, as `s == null || s.isEmpty()` in Java. */
  predicate IsNullOrEmpty(s: Option<string>)
  {
    s.None? || s.value == ""
  }
}
