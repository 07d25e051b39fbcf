/**
  The net total shown at the top of the board: what the IN column
  contributes minus what the OUT column contributes, in the current mode and
  display period.
*/
module Totals {
  import opened CashflowTypes
  import opened AmountResolver
  import opened ItemList
  import opened Reorder

  /** The sum of the items' contributions, a fold from 0; items left out of the math add nothing. */
  function SumActive(s: seq<Item>, mode: Mode, displayPeriod: Period): (r: real)
    ensures (forall i :: 0 <= i < |s| ==> !ShouldIncludeInMath(s[i], mode)) ==> r == 0.0
  {
    if |s| == 0 then 0.0
    else
      assert forall i :: 0 <= i < |s| - 1 ==> s[1..][i] == s[i + 1];
      ActiveAmountForMath(s[0], mode, displayPeriod) + SumActive(s[1..], mode, displayPeriod)
  }

  /** The IN column's sum minus the OUT column's sum: every IN item added, every OUT item subtracted. */
  function NetTotal(s: seq<Item>, mode: Mode, displayPeriod: Period): (t: real)
    ensures t == SignedTotal(s, mode, displayPeriod)
  {
    ColumnSumsAreSignedTotal(s, mode, displayPeriod);
    SumActive(InBucket(s, In), mode, displayPeriod) - SumActive(InBucket(s, Out), mode, displayPeriod)
  }

  /** An item's effect on the net total: added from IN, subtracted from OUT, none from HOLDING. */
  function Signed(x: Item, mode: Mode, displayPeriod: Period): real
  {
    SignFor(x.bucket, ActiveAmountForMath(x, mode, displayPeriod))
  }

  function SignFor(b: Bucket, v: real): real
  {
    match b
    case In => v
    case Out => -v
    case Holding => 0.0
  }

  /** A reference definition: every item's signed contribution, in one pass over the sequence. */
  function SignedTotal(s: seq<Item>, mode: Mode, displayPeriod: Period): real
  {
    if |s| == 0 then 0.0
    else Signed(s[0], mode, displayPeriod) + SignedTotal(s[1..], mode, displayPeriod)
  }

  lemma SumActiveCons(x: Item, t: seq<Item>, mode: Mode, displayPeriod: Period)
    ensures SumActive([x] + t, mode, displayPeriod) == ActiveAmountForMath(x, mode, displayPeriod) + SumActive(t, mode, displayPeriod)
  {
    assert ([x] + t)[1..] == t;
  }

  /** The head of a sequence adds its contribution to its own column's sum only. */
  lemma SumActiveInBucketCons(x: Item, t: seq<Item>, b: Bucket, mode: Mode, displayPeriod: Period)
    ensures SumActive(InBucket([x] + t, b), mode, displayPeriod) ==
            (if x.bucket == b then ActiveAmountForMath(x, mode, displayPeriod) else 0.0) +
            SumActive(InBucket(t, b), mode, displayPeriod)
  {
    assert ([x] + t)[0] == x;
    assert ([x] + t)[1..] == t;
    if x.bucket == b {
      assert InBucket([x] + t, b) == [x] + InBucket(t, b);
      SumActiveCons(x, InBucket(t, b), mode, displayPeriod);
    } else {
      assert InBucket([x] + t, b) == [] + InBucket(t, b);
      assert [] + InBucket(t, b) == InBucket(t, b);
    }
  }

  /** The two column sums agree with the signed one-pass total. */
  lemma {:induction false} ColumnSumsAreSignedTotal(s: seq<Item>, mode: Mode, displayPeriod: Period)
    ensures SumActive(InBucket(s, In), mode, displayPeriod) - SumActive(InBucket(s, Out), mode, displayPeriod) ==
            SignedTotal(s, mode, displayPeriod)
  {
    if |s| > 0 {
      var x, t := s[0], s[1..];
      assert s == [x] + t;
      ColumnSumsAreSignedTotal(t, mode, displayPeriod);
      SumActiveInBucketCons(x, t, In, mode, displayPeriod);
      SumActiveInBucketCons(x, t, Out, mode, displayPeriod);
    }
  }

  lemma {:induction false} SignedTotalConcat(a: seq<Item>, c: seq<Item>, mode: Mode, displayPeriod: Period)
    ensures SignedTotal(a + c, mode, displayPeriod) == SignedTotal(a, mode, displayPeriod) + SignedTotal(c, mode, displayPeriod)
  {
    if |a| == 0 {
      assert a + c == c;
    } else {
      assert (a + c)[0] == a[0];
      assert (a + c)[1..] == a[1..] + c;
      SignedTotalConcat(a[1..], c, mode, displayPeriod);
    }
  }

  /** Inserting an item anywhere changes the net total by the item's signed contribution. */
  lemma NetTotalInsert(s: seq<Item>, k: nat, x: Item, mode: Mode, displayPeriod: Period)
    requires k <= |s|
    ensures NetTotal(Insert(s, k, x), mode, displayPeriod) ==
            NetTotal(s, mode, displayPeriod) + Signed(x, mode, displayPeriod)
  {
    var front, back := s[..k], s[k..];
    assert Insert(s, k, x) == (front + [x]) + back;
    assert front + back == s;
    SignedTotalConcat(front + [x], back, mode, displayPeriod);
    SignedTotalConcat(front, [x], mode, displayPeriod);
    SignedTotalConcat(front, back, mode, displayPeriod);
    assert [x][1..] == [];
  }

  /** HOLDING items never affect the net total. */
  lemma HoldingNeverCounts(s: seq<Item>, k: nat, x: Item, mode: Mode, displayPeriod: Period)
    requires k <= |s| && x.bucket == Holding
    ensures NetTotal(Insert(s, k, x), mode, displayPeriod) == NetTotal(s, mode, displayPeriod)
  {
    NetTotalInsert(s, k, x, mode, displayPeriod);
  }

  /** Creating an item adds its signed contribution to the net total. */
  lemma NetTotalAfterCreate(s: seq<Item>, x: Item, mode: Mode, displayPeriod: Period)
    ensures NetTotal(AppendToBucket(s, x), mode, displayPeriod) ==
            NetTotal(s, mode, displayPeriod) + Signed(x, mode, displayPeriod)
  {
    NetTotalInsert(s, BucketTail(s, x.bucket), x, mode, displayPeriod);
  }

  /**
    After a drop the net total is that of the sequence without the dragged
    item plus the dragged item's contribution counted in the target bucket.
  */
  lemma NetTotalAfterDrop(prev: seq<Item>, d: Item, targetBucket: Bucket, targetItemId: Option<string>,
                          mode: Mode, displayPeriod: Period)
    ensures NetTotal(Drop(prev, Some(d), targetBucket, targetItemId), mode, displayPeriod) ==
            NetTotal(RemoveItem(prev, d.id), mode, displayPeriod) +
            Signed(d.(bucket := targetBucket), mode, displayPeriod)
  {
    var w := RemoveItem(prev, d.id);
    var k := DropIndex(w, targetBucket, targetItemId);
    var x := d.(bucket := targetBucket);
    assert Drop(prev, Some(d), targetBucket, targetItemId) == Insert(w, k, x);
    NetTotalInsert(w, k, x, mode, displayPeriod);
  }

  lemma SignedRescales(x: Item, mode: Mode, p: Period, q: Period)
    ensures Signed(x, mode, q) == Signed(x, mode, p) * PeriodsPerYear(p) / PeriodsPerYear(q)
  {
    var a, b := ActiveAmountForMath(x, mode, p), ActiveAmountForMath(x, mode, q);
    ActiveAmountRescales(x, mode, p, q);
    SignForScaled(x.bucket, a, b, PeriodsPerYear(p), PeriodsPerYear(q), Signed(x, mode, p), Signed(x, mode, q));
  }

  /** Scaling commutes with the sign a bucket gives. */
  lemma SignForScaled(bk: Bucket, a: real, b: real, P: real, Q: real, sa: real, sb: real)
    requires Q > 0.0 && b == a * P / Q
    requires sa == SignFor(bk, a) && sb == SignFor(bk, b)
    ensures sb == sa * P / Q
  {
  }

  /** Changing the display period rescales the one-pass signed total by the ratio of the periods. */
  lemma {:induction false} SignedTotalRescales(s: seq<Item>, mode: Mode, p: Period, q: Period)
    ensures SignedTotal(s, mode, q) == SignedTotal(s, mode, p) * PeriodsPerYear(p) / PeriodsPerYear(q)
  {
    if |s| > 0 {
      var P, Q := PeriodsPerYear(p), PeriodsPerYear(q);
      SignedRescales(s[0], mode, p, q);
      SignedTotalRescales(s[1..], mode, p, q);
      Distribute(Signed(s[0], mode, p), SignedTotal(s[1..], mode, p), P, Q);
    }
  }

  lemma Distribute(u: real, t: real, P: real, Q: real)
    requires Q > 0.0
    ensures u * P / Q + t * P / Q == (u + t) * P / Q
  {
  }

  /** Switching the display period rescales the net total by the ratio of the periods. */
  lemma NetTotalRescales(s: seq<Item>, mode: Mode, p: Period, q: Period)
    ensures NetTotal(s, mode, q) == NetTotal(s, mode, p) * PeriodsPerYear(p) / PeriodsPerYear(q)
  {
    SignedTotalRescales(s, mode, p, q);
  }

  /** The net total at period q is the net total at period p converted from p to q like an amount. */
  lemma NetTotalConverts(s: seq<Item>, mode: Mode, p: Period, q: Period)
    ensures NetTotal(s, mode, q) == NormalizeAmount(NetTotal(s, mode, p), p, q)
  {
    NetTotalRescales(s, mode, p, q);
  }

  /** A monthly real-only amount counts in full in REAL mode with a monthly display period. */
  lemma MonthlyRealContribution(x: Item, v: real)
    requires x.realAmount == Some(v) && x.whatIfAmount.None? && x.frequency == M
    ensures ActiveAmountForMath(x, Real, M) == v
  {
    assert DisplayAmount(x, Real) == Some(v);
    assert NormalizeAmount(v, M, M) == v;
  }

  /**
    A monthly salary of 3000 and a monthly rent of 1200, created on an empty
    board, give a net total of 1800 per month and 1800 * 12 / 52 per week.
  */
  lemma SalaryAndRent(salary: Item, rent: Item)
    requires salary.realAmount == Some(3000.0) && salary.whatIfAmount.None? && salary.frequency == M && salary.bucket == In
    requires rent.realAmount == Some(1200.0) && rent.whatIfAmount.None? && rent.frequency == M && rent.bucket == Out
    ensures NetTotal(AppendToBucket(AppendToBucket([], salary), rent), Real, M) == 1800.0
    ensures NetTotal(AppendToBucket(AppendToBucket([], salary), rent), Real, W) == 1800.0 * 12.0 / 52.0
  {
    var s1 := AppendToBucket([], salary);
    var s := AppendToBucket(s1, rent);
    assert Signed(salary, Real, M) == 3000.0 by {
      MonthlyRealContribution(salary, 3000.0);
    }
    assert Signed(rent, Real, M) == -1200.0 by {
      MonthlyRealContribution(rent, 1200.0);
    }
    assert NetTotal(s1, Real, M) == 3000.0 by {
      NetTotalAfterCreate([], salary, Real, M);
    }
    assert NetTotal(s, Real, M) == 1800.0 by {
      NetTotalAfterCreate(s1, rent, Real, M);
    }
    assert NetTotal(s, Real, W) == 1800.0 * 12.0 / 52.0 by {
      NetTotalRescales(s, Real, M, W);
      assert PeriodsPerYear(M) == 12.0 && PeriodsPerYear(W) == 52.0;
    }
  }

}
