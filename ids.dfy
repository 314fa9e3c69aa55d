/**
 * The id a submitted form gives its record, shared by the inventory and the
 * recipe forms: the edited record's id when it is truthy (non-zero),
 * otherwise a new one.
 */
module Ids {
  import opened Types

  /** The keys of a collection, in order. */
  function KeysOf<T>(s: seq<T>, key: T -> int): seq<int>
  {
    seq(|s|, i requires 0 <= i < |s| => key(s[i]))
  }

  /**
   * The rule as the forms write it: `editing?.id || collection.length + 1`,
   * over the ids in use. A new id is fresh only while those ids are exactly
   * 1..n in order; Scenarios.IdCollisionAfterDelete shows it failing otherwise.
   */
  function AssignIdAsWritten(editingId: Option<int>, ids: seq<int>): (id: int)
    ensures id != 0
    ensures (editingId.None? || editingId.value == 0) && (forall i :: 0 <= i < |ids| ==> ids[i] == i + 1)
      ==> id !in ids && id > 0
  {
    if editingId.Some? && editingId.value != 0 then editingId.value else |ids| + 1
  }

  /** The largest id in use, or 0 when there is none that is positive. */
  function MaxId(ids: seq<int>): (m: int)
    ensures m >= 0
    ensures forall i :: 0 <= i < |ids| ==> ids[i] <= m
    ensures m == 0 || m in ids
  {
    if ids == [] then 0
    else
      var rest := MaxId(ids[1..]);
      if ids[0] > rest then ids[0] else rest
  }

  /** The rule corrected so that a new record never reuses an id in use: the edited id, or one more than the largest. */
  function AssignId(editingId: Option<int>, ids: seq<int>): (id: int)
    ensures id != 0
    ensures editingId.Some? && editingId.value != 0 ==> id == editingId.value
    ensures editingId.None? || editingId.value == 0 ==> id !in ids && id > 0
  {
    if editingId.Some? && editingId.value != 0 then editingId.value else MaxId(ids) + 1
  }

  /** While the ids are exactly 1..n in order, the corrected rule agrees with the written one. */
  lemma {:induction false} AssignIdAgreesWhenDense(editingId: Option<int>, ids: seq<int>)
    requires forall i :: 0 <= i < |ids| ==> ids[i] == i + 1
    ensures AssignId(editingId, ids) == AssignIdAsWritten(editingId, ids)
  {
    if ids != [] {
      assert ids[|ids| - 1] == |ids|;
      assert MaxId(ids) >= |ids|;
    }
  }

  /** When a record is being edited, both rules keep its (non-zero) id, whatever ids are in use. */
  lemma AssignIdAgreesOnEdit(v: int, ids: seq<int>)
    requires v != 0
    ensures AssignIdAsWritten(Some(v), ids) == AssignId(Some(v), ids) == v
  {
  }
}
