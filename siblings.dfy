/** The rules the gallery services share for ordered children (collections of
    a card, images of a collection, dialogues of an image): a new child is
    placed after its siblings, and a reorder gives each listed id the
    position at which the list names it. */
module Siblings {

  /** The last position at which `id` is listed, or -1. A reorder loop that
      meets an id twice leaves the later position. */
  function LastPosition(ids: seq<int>, id: int): (r: int)
    ensures -1 <= r < |ids|
    ensures r >= 0 ==> ids[r] == id && forall k :: r < k < |ids| ==> ids[k] != id
    ensures r < 0 <==> id !in ids
  {
    if ids == [] then -1
    else if ids[|ids| - 1] == id then |ids| - 1
    else LastPosition(ids[..|ids| - 1], id)
  }

  /** Listing one more id moves that id to the new last position and no
      other id. */
  lemma LastPositionSnoc(ids: seq<int>, x: int, id: int)
    ensures LastPosition(ids + [x], id) == if id == x then |ids| else LastPosition(ids, id)
  {
    assert (ids + [x])[..|ids|] == ids;
  }

  /** In a list without repeats, the id at position i is last listed at i. */
  lemma LastPositionDistinct(ids: seq<int>, i: int)
    requires 0 <= i < |ids|
    requires forall a, b :: 0 <= a < b < |ids| ==> ids[a] != ids[b]
    ensures LastPosition(ids, ids[i]) == i
  {
  }

  /** The position of the first listed id that `present` refuses, or |ids|:
      the reorder loop throws on that id before it reaches the others. */
  function FirstMissing(ids: seq<int>, present: int -> bool): (r: int)
    ensures 0 <= r <= |ids|
    ensures forall j :: 0 <= j < r ==> present(ids[j])
    ensures r < |ids| ==> !present(ids[r])
  {
    if ids == [] then 0
    else if !present(ids[0]) then 0
    else 1 + FirstMissing(ids[1..], present)
  }
}
