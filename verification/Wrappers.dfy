/** Optional values, for pointers that can be null, and searching a table from its first slot. */
module Wrappers {
  datatype Option<+T> = None | Some(value: T)

  /** The first index at which a test holds, or the length. */
  function FirstWhere<T>(s: seq<T>, test: T -> bool): (i: nat)
    ensures i <= |s|
    ensures forall j :: 0 <= j < i ==> !test(s[j])
    ensures i < |s| ==> test(s[i])
  {
    if s == [] || test(s[0]) then 0 else 1 + FirstWhere(s[1..], test)
  }
}
