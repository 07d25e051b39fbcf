/**
  The drop rule of the board: the dragged item (as captured when the drag
  started) is taken out of the sequence and put back, in the target bucket,
  either just before the item it was dropped on or at the tail of the
  target bucket.
*/
module Reorder {
  import opened CashflowTypes
  import opened ItemList

  /** JavaScript truthiness of an optional id: undefined and "" are both false. */
  predicate IsTruthy(id: Option<string>)
  {
    id.Some? && id.value != ""
  }

  /** The first index holding the id in bucket b, or -1 when there is none. */
  function FindIndex(s: seq<Item>, id: string, b: Bucket): (i: int)
    ensures -1 <= i < |s|
    ensures i >= 0 ==> s[i].id == id && s[i].bucket == b
    ensures forall j :: 0 <= j < |s| && (i < 0 || j < i) ==> !(s[j].id == id && s[j].bucket == b)
  {
    if |s| == 0 then -1
    else if s[0].id == id && s[0].bucket == b then 0
    else
      var i := FindIndex(s[1..], id, b);
      if i < 0 then -1 else i + 1
  }

  /** A target that is present in the target bucket once the dragged item is removed. */
  predicate TargetFound(withoutDragged: seq<Item>, targetBucket: Bucket, targetItemId: Option<string>)
  {
    IsTruthy(targetItemId) && FindIndex(withoutDragged, targetItemId.value, targetBucket) >= 0
  }

  /** Where the dragged item is spliced back in. */
  function DropIndex(withoutDragged: seq<Item>, targetBucket: Bucket, targetItemId: Option<string>): (k: nat)
    ensures k <= |withoutDragged|
    ensures TargetFound(withoutDragged, targetBucket, targetItemId) ==>
      k < |withoutDragged| && withoutDragged[k].id == targetItemId.value && withoutDragged[k].bucket == targetBucket
    ensures !TargetFound(withoutDragged, targetBucket, targetItemId) ==>
      forall j :: k <= j < |withoutDragged| ==> withoutDragged[j].bucket != targetBucket
  {
    if TargetFound(withoutDragged, targetBucket, targetItemId) then
      FindIndex(withoutDragged, targetItemId.value, targetBucket)
    else BucketTail(withoutDragged, targetBucket)
  }

  /**
    The sequence after a drop; with nothing being dragged it is unchanged.
    Otherwise it is one longer than the sequence without the dragged item,
    and holds the dragged item, moved to the target bucket, at the drop index.
  */
  function Drop(prev: seq<Item>, dragged: Option<Item>, targetBucket: Bucket, targetItemId: Option<string>): (r: seq<Item>)
    ensures dragged.None? ==> r == prev
    ensures dragged.Some? ==>
      var w := RemoveItem(prev, dragged.value.id);
      |r| == |w| + 1 && r[DropIndex(w, targetBucket, targetItemId)] == dragged.value.(bucket := targetBucket)
  {
    if dragged.None? then prev
    else
      var withoutDragged := RemoveItem(prev, dragged.value.id);
      Insert(withoutDragged, DropIndex(withoutDragged, targetBucket, targetItemId),
             dragged.value.(bucket := targetBucket))
  }

  /**
    Only the dragged item moves: removing it from the result gives the
    previous sequence without it, in the same order, and it occurs exactly
    once, at the splice position, carrying the target bucket.
  */
  lemma DropMovesOnlyDragged(prev: seq<Item>, d: Item, targetBucket: Bucket, targetItemId: Option<string>)
    ensures var w := RemoveItem(prev, d.id);
            var r := Drop(prev, Some(d), targetBucket, targetItemId);
            var k := DropIndex(w, targetBucket, targetItemId);
            && |r| == |w| + 1
            && r[k] == d.(bucket := targetBucket)
            && RemoveItem(r, d.id) == w
            && (forall i :: 0 <= i < |r| ==> (r[i].id == d.id <==> i == k))
  {
    var w := RemoveItem(prev, d.id);
    var k := DropIndex(w, targetBucket, targetItemId);
    var x := d.(bucket := targetBucket);
    var r := Insert(w, k, x);
    RemoveItemFootprint(prev, d.id);
    RemoveItemKeepsInserted(w, k, x);
    forall i | 0 <= i < |r| && i != k ensures r[i].id != d.id {
      if i < k {
        assert r[i] == w[i];
      } else {
        assert r[i] == w[i - 1];
      }
    }
  }

  /** A target found in the target bucket ends up immediately after the dragged item. */
  lemma DropBeforeTarget(prev: seq<Item>, d: Item, targetBucket: Bucket, targetItemId: Option<string>)
    requires TargetFound(RemoveItem(prev, d.id), targetBucket, targetItemId)
    ensures var w := RemoveItem(prev, d.id);
            var r := Drop(prev, Some(d), targetBucket, targetItemId);
            var j := FindIndex(w, targetItemId.value, targetBucket);
            && r[j] == d.(bucket := targetBucket)
            && r[j + 1] == w[j]
            && r[j + 1].id == targetItemId.value && r[j + 1].bucket == targetBucket
  {
    var w := RemoveItem(prev, d.id);
    var j := FindIndex(w, targetItemId.value, targetBucket);
    assert Insert(w, j, d.(bucket := targetBucket))[j + 1] == w[j];
  }

  /**
    Without a target found in the target bucket, the dragged item becomes the
    last item of the target bucket's column.
  */
  lemma DropAtBucketTail(prev: seq<Item>, d: Item, targetBucket: Bucket, targetItemId: Option<string>)
    requires !TargetFound(RemoveItem(prev, d.id), targetBucket, targetItemId)
    ensures var w := RemoveItem(prev, d.id);
            var r := Drop(prev, Some(d), targetBucket, targetItemId);
            && r == AppendToBucket(w, d.(bucket := targetBucket))
            && InBucket(r, targetBucket) == InBucket(w, targetBucket) + [d.(bucket := targetBucket)]
  {
    AppendToBucketOwnColumn(RemoveItem(prev, d.id), d.(bucket := targetBucket));
  }

  /** A drop onto the dragged item itself falls through to the bucket tail. */
  lemma SelfDropGoesToTail(prev: seq<Item>, d: Item, targetBucket: Bucket)
    ensures Drop(prev, Some(d), targetBucket, Some(d.id)) ==
            AppendToBucket(RemoveItem(prev, d.id), d.(bucket := targetBucket))
  {
    RemoveItemFootprint(prev, d.id);
  }

  /** A self-drop within the item's own bucket makes it the last item of that column. */
  lemma SelfDropToColumnTail(prev: seq<Item>, d: Item)
    ensures InBucket(Drop(prev, Some(d), d.bucket, Some(d.id)), d.bucket) ==
            InBucket(RemoveItem(prev, d.id), d.bucket) + [d]
  {
    SelfDropGoesToTail(prev, d, d.bucket);
    assert d.(bucket := d.bucket) == d;
    AppendToBucketOwnColumn(RemoveItem(prev, d.id), d);
  }

  /** An instance: dropping a onto itself in [a, b], both IN, gives [b, a]. */
  lemma SelfDropReorders(a: Item, b: Item)
    requires a.id != b.id && a.bucket == In && b.bucket == In
    ensures Drop([a, b], Some(a), In, Some(a.id)) == [b, a]
  {
    SelfDropGoesToTail([a, b], a, In);
    assert RemoveItem([a, b], a.id) == [b] by {
      assert [a, b][1..] == [b];
      assert [b][1..] == [];
    }
    assert BucketTail([b], In) == 1;
    assert a.(bucket := In) == a;
  }

  /** Every column other than the target's loses the dragged item and nothing else. */
  lemma DropOtherColumns(prev: seq<Item>, d: Item, targetBucket: Bucket, targetItemId: Option<string>, b: Bucket)
    requires b != targetBucket
    ensures InBucket(Drop(prev, Some(d), targetBucket, targetItemId), b) == InBucket(RemoveItem(prev, d.id), b)
  {
    var w := RemoveItem(prev, d.id);
    InsertOtherBucket(w, DropIndex(w, targetBucket, targetItemId), d.(bucket := targetBucket), b);
  }

  /** A dragged item no longer in the sequence is inserted anyway: the sequence grows by one. */
  lemma StaleDragReinserted(prev: seq<Item>, d: Item, targetBucket: Bucket, targetItemId: Option<string>)
    requires !HasId(prev, d.id)
    ensures |Drop(prev, Some(d), targetBucket, targetItemId)| == |prev| + 1
    ensures d.(bucket := targetBucket) in Drop(prev, Some(d), targetBucket, targetItemId)
  {
    RemoveItemFootprint(prev, d.id);
  }

  /** A drop keeps the ids unique. */
  lemma DropKeepsUniqueIds(prev: seq<Item>, dragged: Option<Item>, targetBucket: Bucket, targetItemId: Option<string>)
    requires UniqueIds(prev)
    ensures UniqueIds(Drop(prev, dragged, targetBucket, targetItemId))
  {
    if dragged.Some? {
      var w := RemoveItem(prev, dragged.value.id);
      RemoveItemFootprint(prev, dragged.value.id);
      RemoveItemKeepsUniqueIds(prev, dragged.value.id);
      InsertKeepsUniqueIds(w, DropIndex(w, targetBucket, targetItemId), dragged.value.(bucket := targetBucket));
    }
  }
}
