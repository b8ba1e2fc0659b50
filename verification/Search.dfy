/** Searching a list from the front, which is how a buffer looks for a key, a node or a free slot. */
module Search {

  // The first position where `p` holds, or the length of the list.
  function First<T>(list: seq<T>, p: T -> bool): (k: nat)
    ensures k <= |list|
    ensures k < |list| ==> p(list[k])
    ensures forall j | 0 <= j < k :: !p(list[j])
  {
    if list == [] || p(list[0]) then 0 else 1 + First(list[1..], p)
  }
}
