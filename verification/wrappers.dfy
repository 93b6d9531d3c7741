/** The conventional optional value, for properties that may be absent. */
module Wrappers {

  datatype Option<+T> = None | Some(value: T)

  /** The smaller of two naturals. */
  function Min(a: nat, b: nat): (r: nat)
    ensures r <= a && r <= b && (r == a || r == b)
  {
    if a <= b then a else b
  }
}
