/** Small shared helpers. */
module Collections {
  datatype Option<+T> = None | Some(value: T)

  /** Some element of a non-empty set. */
  ghost function Pick<T>(s: set<T>): (x: T)
    requires s != {}
    ensures x in s
  {
    var x :| x in s; x
  }

  function Min(a: nat, b: nat): nat {
    if a < b then a else b
  }
}
