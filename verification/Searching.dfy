/** JavaScript's `findIndex`, and the lookup of a key in an insertion-ordered map. */
module Searching {
  /** The first position whose element satisfies `p`, or the length of `s` when there is none. */
  function IndexWhere<T>(s: seq<T>, p: T -> bool): (k: nat)
    ensures k <= |s|
    ensures k < |s| ==> p(s[k])
    ensures forall j :: 0 <= j < k ==> !p(s[j])
  {
    if s == [] || p(s[0]) then 0 else 1 + IndexWhere(s[1..], p)
  }
}
