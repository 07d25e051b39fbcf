/**
  The board's state: the one item sequence with the mode and display period
  read at start-up, the net total they determine, and the two list updates that find their insertion point
  with a backward scan (creating an item and dropping a dragged one).
*/
module BoardState {
  import opened CashflowTypes
  import opened Loading
  import opened ItemList
  import opened Reorder
  import opened AmountResolver
  import opened Totals

  /**
    The backward scan shared by createItem and handleDrop: the position just
    after the last item of bucket b, or the end of the sequence when b has no
    item.
  */
  method BucketTailIndex(s: seq<Item>, b: Bucket) returns (insertIndex: nat)
    ensures insertIndex <= |s|
    ensures forall j :: insertIndex <= j < |s| ==> s[j].bucket != b
    ensures (0 < insertIndex && s[insertIndex - 1].bucket == b) ||
            (insertIndex == |s| && forall j :: 0 <= j < |s| ==> s[j].bucket != b)
    ensures insertIndex == BucketTail(s, b)
  {
    insertIndex := |s|;
    var i := |s| - 1;
    while i >= 0
      invariant -1 <= i < |s|
      invariant insertIndex == |s|
      invariant forall j :: i < j < |s| ==> s[j].bucket != b
      decreases i + 1
    {
      if s[i].bucket == b {
        insertIndex := i + 1;
        break;
      }
      i := i - 1;
    }
    BucketTailUnique(s, b, insertIndex);
  }

  class Board {
    var items: seq<Item>
    var mode: Mode
    var displayPeriod: Period

    /** The start-up state: stored records migrated, stored mode and period validated. */
    constructor (saved: Option<seq<RawItem>>, savedMode: Option<string>, savedPeriod: Option<string>)
      ensures items == LoadItems(saved)
      ensures mode == StoredMode(savedMode)
      ensures displayPeriod == StoredPeriod(savedPeriod)
    {
      items := LoadItems(saved);
      mode := StoredMode(savedMode);
      displayPeriod := StoredPeriod(savedPeriod);
    }

    /** The net total in the board's current mode and display period. */
    function Total(): (t: real)
      reads this
      ensures t == SignedTotal(items, mode, displayPeriod)
    {
      NetTotal(items, mode, displayPeriod)
    }

    /** Switching between REAL and WHAT IF; the items and the display period stay. */
    method SetMode(m: Mode)
      modifies this`mode
      ensures mode == m
    {
      mode := m;
    }

    /** Switching the display period converts the net total like an amount, from the old period to the new one. */
    method SetDisplayPeriod(p: Period)
      modifies this`displayPeriod
      ensures displayPeriod == p
      ensures Total() == NormalizeAmount(old(Total()), old(displayPeriod), p)
    {
      NetTotalConverts(items, mode, displayPeriod, p);
      displayPeriod := p;
    }

    /**
      createItem: the new item, with a fresh id and both timestamps set to
      now, goes just after the last item of its bucket, or at the end when
      the bucket is empty.
    */
    method CreateItem(draft: Draft, id: string, now: Timestamp)
      requires !HasId(items, id)
      modifies this`items
      ensures items == AppendToBucket(old(items), FromDraft(draft, id, now))
      ensures |items| == |old(items)| + 1
      ensures InBucket(items, draft.bucket) == InBucket(old(items), draft.bucket) + [FromDraft(draft, id, now)]
      ensures forall b :: b != draft.bucket ==> InBucket(items, b) == InBucket(old(items), b)
      ensures RemoveItem(items, id) == old(items)
      ensures UniqueIds(old(items)) ==> UniqueIds(items)
    {
      var newItem := FromDraft(draft, id, now);
      var prev := items;
      var insertIndex := BucketTailIndex(prev, draft.bucket);
      items := prev[..insertIndex] + [newItem] + prev[insertIndex..];
      AppendToBucketOwnColumn(prev, newItem);
      forall b | b != draft.bucket ensures InBucket(items, b) == InBucket(prev, b) {
        AppendToBucketOtherColumns(prev, newItem, b);
      }
      RemoveItemKeepsInserted(prev, insertIndex, newItem);
      if UniqueIds(prev) {
        AppendToBucketKeepsUniqueIds(prev, newItem);
      }
    }

    /**
      handleDrop: with an item being dragged, remove every item with its id,
      then splice the dragged snapshot, moved to the target bucket, back in
      before the target item when that item is found in the target bucket,
      else at the tail of the target bucket.
    */
    method HandleDrop(dragged: Option<Item>, targetBucket: Bucket, targetItemId: Option<string>)
      modifies this`items
      ensures items == Drop(old(items), dragged, targetBucket, targetItemId)
      ensures dragged.None? ==> items == old(items)
      ensures UniqueIds(old(items)) ==> UniqueIds(items)
    {
      if UniqueIds(items) {
        DropKeepsUniqueIds(items, dragged, targetBucket, targetItemId);
      }
      if dragged.None? {
        return;
      }
      var draggedItem := dragged.value;
      var prev := items;
      var isSameBucket := draggedItem.bucket == targetBucket;
      var updatedItem := if !isSameBucket then draggedItem.(bucket := targetBucket) else draggedItem;
      var withoutDragged := RemoveItem(prev, draggedItem.id);
      var insertIndex: nat;
      if IsTruthy(targetItemId) {
        var targetIndex := FindIndex(withoutDragged, targetItemId.value, targetBucket);
        if targetIndex >= 0 {
          insertIndex := targetIndex;
        } else {
          insertIndex := BucketTailIndex(withoutDragged, targetBucket);
        }
      } else {
        insertIndex := BucketTailIndex(withoutDragged, targetBucket);
      }
      items := withoutDragged[..insertIndex] + [updatedItem] + withoutDragged[insertIndex..];
    }
  }
}
