/**
  The ordered item list behind the board. One sequence holds the items of
  all three buckets; a bucket's column is the sequence filtered by bucket,
  so an item's position in the sequence is its only display order. Every
  list update is a function from the previous sequence to the next one.
*/
module ItemList {
  import opened CashflowTypes
  import opened AmountResolver

  predicate HasId(s: seq<Item>, id: string)
  {
    exists i :: 0 <= i < |s| && s[i].id == id
  }

  predicate UniqueIds(s: seq<Item>)
  {
    forall i, j :: 0 <= i < j < |s| ==> s[i].id != s[j].id
  }

  // ---------------------------------------------------------------------------
  // Projection and removal (both are filters of the one sequence)
  // ---------------------------------------------------------------------------

  /**
    The column of bucket b: its items, in sequence order. Which items it holds
    is stated by InBucketMembers, and their order by InBucketConcat.
  */
  function InBucket(s: seq<Item>, b: Bucket): (r: seq<Item>)
    ensures |r| <= |s|
  {
    if |s| == 0 then []
    else (if s[0].bucket == b then [s[0]] else []) + InBucket(s[1..], b)
  }

  /** The column holds exactly the sequence's items of that bucket. */
  lemma {:induction false} InBucketMembers(s: seq<Item>, b: Bucket)
    ensures forall x :: x in InBucket(s, b) <==> x in s && x.bucket == b
  {
    if |s| > 0 {
      InBucketMembers(s[1..], b);
      assert s == [s[0]] + s[1..];
    }
  }

  /** Projecting a concatenation projects each part, in order. */
  lemma {:induction false} InBucketConcat(a: seq<Item>, c: seq<Item>, b: Bucket)
    ensures InBucket(a + c, b) == InBucket(a, b) + InBucket(c, b)
  {
    if |a| == 0 {
      assert a + c == c;
    } else {
      var head := if a[0].bucket == b then [a[0]] else [];
      calc {
        InBucket(a + c, b);
        { assert (a + c)[0] == a[0]; assert (a + c)[1..] == a[1..] + c; }
        head + InBucket(a[1..] + c, b);
        { InBucketConcat(a[1..], c, b); }
        head + (InBucket(a[1..], b) + InBucket(c, b));
        (head + InBucket(a[1..], b)) + InBucket(c, b);
        InBucket(a, b) + InBucket(c, b);
      }
    }
  }

  /**
    Removes every item with the given id and keeps the rest. Which items
    survive is stated by RemoveItemMembers, and their order by RemoveItemConcat.
  */
  function RemoveItem(s: seq<Item>, id: string): (r: seq<Item>)
    ensures |r| <= |s|
  {
    if |s| == 0 then []
    else (if s[0].id != id then [s[0]] else []) + RemoveItem(s[1..], id)
  }

  /** The result holds exactly the items whose id differs from the removed one. */
  lemma {:induction false} RemoveItemMembers(s: seq<Item>, id: string)
    ensures forall x :: x in RemoveItem(s, id) <==> x in s && x.id != id
  {
    if |s| > 0 {
      RemoveItemMembers(s[1..], id);
      assert s == [s[0]] + s[1..];
    }
  }

  /** Removal keeps the survivors in their order: it distributes over concatenation. */
  lemma {:induction false} RemoveItemConcat(a: seq<Item>, c: seq<Item>, id: string)
    ensures RemoveItem(a + c, id) == RemoveItem(a, id) + RemoveItem(c, id)
  {
    if |a| == 0 {
      assert a + c == c;
    } else {
      var head := if a[0].id != id then [a[0]] else [];
      calc {
        RemoveItem(a + c, id);
        { assert (a + c)[0] == a[0]; assert (a + c)[1..] == a[1..] + c; }
        head + RemoveItem(a[1..] + c, id);
        { RemoveItemConcat(a[1..], c, id); }
        head + (RemoveItem(a[1..], id) + RemoveItem(c, id));
        (head + RemoveItem(a[1..], id)) + RemoveItem(c, id);
        RemoveItem(a, id) + RemoveItem(c, id);
      }
    }
  }

  /** After removal no item has the id; removing an unknown id changes nothing. */
  lemma {:induction false} RemoveItemFootprint(s: seq<Item>, id: string)
    ensures !HasId(RemoveItem(s, id), id)
    ensures !HasId(s, id) ==> RemoveItem(s, id) == s
  {
    var r := RemoveItem(s, id);
    assert !HasId(r, id) by {
      RemoveItemMembers(s, id);
      forall i | 0 <= i < |r| ensures r[i].id != id {
        assert r[i] in r;
      }
    }
    if |s| > 0 && !HasId(s, id) {
      assert !HasId(s[1..], id) by {
        forall i | 0 <= i < |s| - 1 ensures s[1..][i].id != id {
          assert s[1..][i] == s[i + 1];
        }
      }
      RemoveItemFootprint(s[1..], id);
      assert s[0].id != id;
      assert r == [s[0]] + RemoveItem(s[1..], id);
      assert s == [s[0]] + s[1..];
    }
  }

  /** Removal keeps the ids unique. */
  lemma {:induction false} RemoveItemKeepsUniqueIds(s: seq<Item>, id: string)
    requires UniqueIds(s)
    ensures UniqueIds(RemoveItem(s, id))
  {
    if |s| > 0 {
      var tail := RemoveItem(s[1..], id);
      RemoveItemKeepsUniqueIds(s[1..], id);
      RemoveItemMembers(s[1..], id);
      if s[0].id != id {
        forall j | 0 <= j < |tail| ensures tail[j].id != s[0].id {
          assert tail[j] in tail;
          var m :| 0 <= m < |s[1..]| && s[1..][m] == tail[j];
          assert s[m + 1] == tail[j];
        }
      }
    }
  }

  // ---------------------------------------------------------------------------
  // updateItem
  // ---------------------------------------------------------------------------

  /** A partial item: each present field overrides the item's own. */
  datatype Patch = Patch(
    id: Option<string>,
    title: Option<string>,
    realAmount: Option<Option<real>>,
    whatIfAmount: Option<Option<real>>,
    frequency: Option<Period>,
    bucket: Option<Bucket>,
    color: Option<Color>,
    createdAt: Option<Timestamp>,
    updatedAt: Option<Timestamp>,
    createdByUserId: Option<Option<string>>)

  function Override<T>(current: T, patched: Option<T>): T
  {
    if patched.Some? then patched.value else current
  }

  /**
    The item with every field the patch sets replaced by the patch's value;
    the fields the patch leaves unset, updatedAt among them, keep their values.
  */
  function ApplyPatch(it: Item, p: Patch): (r: Item)
    ensures if p.id.Some? then r.id == p.id.value else r.id == it.id
    ensures if p.title.Some? then r.title == p.title.value else r.title == it.title
    ensures if p.realAmount.Some? then r.realAmount == p.realAmount.value else r.realAmount == it.realAmount
    ensures if p.whatIfAmount.Some? then r.whatIfAmount == p.whatIfAmount.value else r.whatIfAmount == it.whatIfAmount
    ensures if p.frequency.Some? then r.frequency == p.frequency.value else r.frequency == it.frequency
    ensures if p.bucket.Some? then r.bucket == p.bucket.value else r.bucket == it.bucket
    ensures if p.color.Some? then r.color == p.color.value else r.color == it.color
    ensures if p.createdAt.Some? then r.createdAt == p.createdAt.value else r.createdAt == it.createdAt
    ensures if p.updatedAt.Some? then r.updatedAt == p.updatedAt.value else r.updatedAt == it.updatedAt
    ensures if p.createdByUserId.Some? then r.createdByUserId == p.createdByUserId.value else r.createdByUserId == it.createdByUserId
  {
    Item(
      Override(it.id, p.id),
      Override(it.title, p.title),
      Override(it.realAmount, p.realAmount),
      Override(it.whatIfAmount, p.whatIfAmount),
      Override(it.frequency, p.frequency),
      Override(it.bucket, p.bucket),
      Override(it.color, p.color),
      Override(it.createdAt, p.createdAt),
      Override(it.updatedAt, p.updatedAt),
      Override(it.createdByUserId, p.createdByUserId))
  }

  /** Patching twice with the same patch is patching once; the empty patch changes nothing. */
  lemma ApplyPatchIdempotent(it: Item, p: Patch)
    ensures ApplyPatch(ApplyPatch(it, p), p) == ApplyPatch(it, p)
    ensures ApplyPatch(it, Patch(None, None, None, None, None, None, None, None, None, None)) == it
  {
  }

  /** Applies the patch to every item with the id; the length and all other items are unchanged. */
  function UpdateItem(s: seq<Item>, id: string, patch: Patch): (r: seq<Item>)
    ensures |r| == |s|
    ensures forall i :: 0 <= i < |s| && s[i].id != id ==> r[i] == s[i]
    ensures forall i :: 0 <= i < |s| && s[i].id == id ==> r[i] == ApplyPatch(s[i], patch)
  {
    if |s| == 0 then []
    else [if s[0].id == id then ApplyPatch(s[0], patch) else s[0]] + UpdateItem(s[1..], id, patch)
  }

  /** Updating an unknown id returns the sequence unchanged. */
  lemma UpdateItemUnknownId(s: seq<Item>, id: string, patch: Patch)
    requires !HasId(s, id)
    ensures UpdateItem(s, id, patch) == s
  {
  }

  /** Repeating an update changes nothing more. */
  lemma UpdateItemIdempotent(s: seq<Item>, id: string, patch: Patch)
    ensures UpdateItem(UpdateItem(s, id, patch), id, patch) == UpdateItem(s, id, patch)
  {
    var r := UpdateItem(s, id, patch);
    forall i | 0 <= i < |s| && s[i].id == id
      ensures UpdateItem(r, id, patch)[i] == r[i]
    {
      ApplyPatchIdempotent(s[i], patch);
    }
  }

  /** A patch that leaves the bucket alone updates each column in place. */
  lemma {:induction false} UpdateItemInBucket(s: seq<Item>, id: string, patch: Patch, b: Bucket)
    requires patch.bucket.None?
    ensures InBucket(UpdateItem(s, id, patch), b) == UpdateItem(InBucket(s, b), id, patch)
  {
    if |s| > 0 {
      var r := UpdateItem(s, id, patch);
      assert r == [r[0]] + UpdateItem(s[1..], id, patch);
      assert r[1..] == UpdateItem(s[1..], id, patch);
      UpdateItemInBucket(s[1..], id, patch, b);
    }
  }

  /** A patch that does not change the id keeps the ids unique. */
  lemma UpdateItemKeepsUniqueIds(s: seq<Item>, id: string, patch: Patch)
    requires UniqueIds(s)
    requires patch.id.None? || patch.id == Some(id)
    ensures UniqueIds(UpdateItem(s, id, patch))
  {
    var r := UpdateItem(s, id, patch);
    forall i, j | 0 <= i < j < |r| ensures r[i].id != r[j].id {
      assert r[i].id == s[i].id && r[j].id == s[j].id;
    }
  }

  // ---------------------------------------------------------------------------
  // Insertion at a position and at the tail of a bucket
  // ---------------------------------------------------------------------------

  /** The sequence with x spliced in at index k, before the item that was there. */
  function Insert(s: seq<Item>, k: nat, x: Item): (r: seq<Item>)
    requires k <= |s|
    ensures |r| == |s| + 1 && r[k] == x
    ensures r[..k] == s[..k] && r[k + 1..] == s[k..]
  {
    s[..k] + [x] + s[k..]
  }

  /** The index of the last item of bucket b, or -1 when the bucket has none. */
  function LastIndexIn(s: seq<Item>, b: Bucket): (i: int)
    ensures -1 <= i < |s|
    ensures i >= 0 ==> s[i].bucket == b
    ensures forall j :: i < j < |s| ==> s[j].bucket != b
  {
    if |s| == 0 then -1
    else if s[|s| - 1].bucket == b then |s| - 1
    else LastIndexIn(s[..|s| - 1], b)
  }

  /**
    Where an item joins bucket b: just after the bucket's last item, or at the
    end of the sequence when the bucket is empty. No item of b lies at or
    after that position.
  */
  function BucketTail(s: seq<Item>, b: Bucket): (k: nat)
    ensures k <= |s|
    ensures forall j :: k <= j < |s| ==> s[j].bucket != b
    ensures (0 < k && s[k - 1].bucket == b) || (k == |s| && forall j :: 0 <= j < |s| ==> s[j].bucket != b)
  {
    var i := LastIndexIn(s, b);
    if i >= 0 then i + 1 else |s|
  }

  /** Those two conditions determine the bucket-tail position. */
  lemma BucketTailUnique(s: seq<Item>, b: Bucket, k: nat)
    requires k <= |s|
    requires forall j :: k <= j < |s| ==> s[j].bucket != b
    requires (0 < k && s[k - 1].bucket == b) || (k == |s| && forall j :: 0 <= j < |s| ==> s[j].bucket != b)
    ensures k == BucketTail(s, b)
  {
  }

  /** A column with no item of the bucket is empty. */
  lemma InBucketNone(s: seq<Item>, b: Bucket)
    requires forall j :: 0 <= j < |s| ==> s[j].bucket != b
    ensures InBucket(s, b) == []
  {
    InBucketMembers(s, b);
    if InBucket(s, b) != [] {
      assert InBucket(s, b)[0] in InBucket(s, b);
    }
  }

  /** Inserting an item anywhere leaves the columns of the other buckets unchanged. */
  lemma InsertOtherBucket(s: seq<Item>, k: nat, x: Item, b: Bucket)
    requires k <= |s| && x.bucket != b
    ensures InBucket(Insert(s, k, x), b) == InBucket(s, b)
  {
    InBucketConcat(s[..k] + [x], s[k..], b);
    InBucketConcat(s[..k], [x], b);
    InBucketConcat(s[..k], s[k..], b);
    assert s[..k] + s[k..] == s;
  }

  /** The bucket-tail insertion of createItem and of a drop on an empty area. */
  function AppendToBucket(s: seq<Item>, x: Item): (r: seq<Item>)
    ensures |r| == |s| + 1 && r[BucketTail(s, x.bucket)] == x
    ensures forall j :: BucketTail(s, x.bucket) < j < |r| ==> r[j].bucket != x.bucket
  {
    var k := BucketTail(s, x.bucket);
    var r := Insert(s, k, x);
    assert forall j :: k < j < |r| ==> r[j] == s[j - 1];
    r
  }

  /** Joining a bucket at its tail makes the item the last of its column. */
  lemma AppendToBucketOwnColumn(s: seq<Item>, x: Item)
    ensures InBucket(AppendToBucket(s, x), x.bucket) == InBucket(s, x.bucket) + [x]
  {
    var b, k := x.bucket, BucketTail(s, x.bucket);
    var front, back := s[..k], s[k..];
    var withX := front + [x];
    assert InBucket(back, b) == [] by {
      forall j | 0 <= j < |back| ensures back[j].bucket != b {
        assert back[j] == s[k + j];
      }
      InBucketNone(back, b);
    }
    assert InBucket(withX, b) == InBucket(front, b) + [x] by {
      InBucketConcat(front, [x], b);
      assert [x][1..] == [];
      assert InBucket([x], b) == [x];
    }
    assert InBucket(s, b) == InBucket(front, b) by {
      assert front + back == s;
      InBucketConcat(front, back, b);
    }
    calc {
      InBucket(AppendToBucket(s, x), b);
      { assert AppendToBucket(s, x) == withX + back; }
      InBucket(withX + back, b);
      { InBucketConcat(withX, back, b); }
      InBucket(withX, b) + InBucket(back, b);
      InBucket(s, b) + [x];
    }
  }

  /** Joining a bucket at its tail leaves the other columns unchanged. */
  lemma AppendToBucketOtherColumns(s: seq<Item>, x: Item, b: Bucket)
    requires b != x.bucket
    ensures InBucket(AppendToBucket(s, x), b) == InBucket(s, b)
  {
    InsertOtherBucket(s, BucketTail(s, x.bucket), x, b);
  }

  /** Removing x's id from front + [x] + back, neither part holding it, leaves front + back. */
  lemma RemoveItemBetween(front: seq<Item>, x: Item, back: seq<Item>)
    requires !HasId(front, x.id) && !HasId(back, x.id)
    ensures RemoveItem(front + [x] + back, x.id) == front + back
  {
    var withX := front + [x];
    RemoveItemFootprint(front, x.id);
    RemoveItemFootprint(back, x.id);
    assert RemoveItem(withX, x.id) == front by {
      RemoveItemConcat(front, [x], x.id);
      assert [x][1..] == [];
      assert RemoveItem([x], x.id) == [];
    }
    RemoveItemConcat(withX, back, x.id);
  }

  /** Removing the id of an item inserted into a sequence without it gives back that sequence. */
  lemma RemoveItemKeepsInserted(s: seq<Item>, k: nat, x: Item)
    requires k <= |s| && !HasId(s, x.id)
    ensures RemoveItem(Insert(s, k, x), x.id) == s
  {
    var front, back := s[..k], s[k..];
    assert !HasId(front, x.id) by {
      forall i | 0 <= i < k ensures front[i].id != x.id {
        assert front[i] == s[i];
      }
    }
    assert !HasId(back, x.id) by {
      forall i | 0 <= i < |s| - k ensures back[i].id != x.id {
        assert back[i] == s[k + i];
      }
    }
    RemoveItemBetween(front, x, back);
    assert Insert(s, k, x) == front + [x] + back;
    assert front + back == s;
  }

  /** Items created one after another in one bucket are listed in creation order. */
  function AppendAllToBucket(s: seq<Item>, xs: seq<Item>): seq<Item>
    decreases |xs|
  {
    if |xs| == 0 then s else AppendAllToBucket(AppendToBucket(s, xs[0]), xs[1..])
  }

  /** Appending the head of xs and then its tail appends all of xs. */
  lemma ExtendColumn(col: seq<Item>, xs: seq<Item>)
    requires |xs| > 0
    ensures (col + [xs[0]]) + xs[1..] == col + xs
  {
    assert xs == [xs[0]] + xs[1..];
  }

  lemma {:induction false} AppendAllKeepsOrder(s: seq<Item>, xs: seq<Item>, b: Bucket)
    requires forall j :: 0 <= j < |xs| ==> xs[j].bucket == b
    ensures InBucket(AppendAllToBucket(s, xs), b) == InBucket(s, b) + xs
    decreases |xs|
  {
    if |xs| > 0 {
      var x, rest := xs[0], xs[1..];
      var s1 := AppendToBucket(s, x);
      assert AppendAllToBucket(s, xs) == AppendAllToBucket(s1, rest);
      assert InBucket(s1, b) == InBucket(s, b) + [x] by {
        assert x.bucket == b;
        AppendToBucketOwnColumn(s, x);
      }
      assert forall j :: 0 <= j < |rest| ==> rest[j].bucket == b by {
        forall j | 0 <= j < |rest| ensures rest[j].bucket == b {
          assert rest[j] == xs[j + 1];
        }
      }
      AppendAllKeepsOrder(s1, rest, b);
      ExtendColumn(InBucket(s, b), xs);
    } else {
      assert xs == [];
    }
  }

  /** createItem's new record: the draft's fields, a fresh id, both timestamps now, no creator. */
  datatype Draft = Draft(
    title: string,
    realAmount: Option<real>,
    whatIfAmount: Option<real>,
    frequency: Period,
    bucket: Bucket,
    color: Color)

  function FromDraft(d: Draft, id: string, now: Timestamp): (it: Item)
    ensures it.id == id && it.createdAt == now && it.updatedAt == now && it.createdByUserId == None
    ensures Draft(it.title, it.realAmount, it.whatIfAmount, it.frequency, it.bucket, it.color) == d
  {
    Item(id, d.title, d.realAmount, d.whatIfAmount, d.frequency, d.bucket, d.color, now, now, None)
  }

  /** Creating an item with a fresh id keeps the ids unique. */
  lemma AppendToBucketKeepsUniqueIds(s: seq<Item>, x: Item)
    requires UniqueIds(s) && !HasId(s, x.id)
    ensures UniqueIds(AppendToBucket(s, x))
  {
    InsertKeepsUniqueIds(s, BucketTail(s, x.bucket), x);
  }

  lemma InsertKeepsUniqueIds(s: seq<Item>, k: nat, x: Item)
    requires k <= |s| && UniqueIds(s) && !HasId(s, x.id)
    ensures UniqueIds(Insert(s, k, x))
  {
    var r := Insert(s, k, x);
    forall i, j | 0 <= i < j < |r| ensures r[i].id != r[j].id {
      var i' := if i < k then i else i - 1;
      var j' := if j < k then j else j - 1;
      assert i != k ==> r[i] == s[i'];
      assert j != k ==> r[j] == s[j'];
    }
  }
}
