module Wrappers {

  datatype Option<+T> = None | Some(value: T)

  /** Some element of a set, as an unordered `LIMIT 1` query finds it. */
  method AnyOf<T(==)>(s: set<T>) returns (r: Option<T>)
    ensures r.Some? ==> r.value in s
    ensures r.None? ==> s == {}
  {
    if x :| x in s {
      r := Some(x);
    } else {
      r := None;
    }
  }
}
