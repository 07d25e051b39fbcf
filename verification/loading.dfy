/**
  What happens to stored data at start-up: every stored record is migrated to
  the current item shape, and the stored mode and display period are kept
  only when they are valid codes.
*/
module Loading {
  import opened CashflowTypes

  /** The scalar JSON values a stored field may hold. */
  datatype Json = JNull | JNumber(n: real) | JString(s: string) | JBool(b: bool)

  /**
    A record as parsed from storage. The optional slots distinguish a missing
    key (None) from a key that is present: for the two amounts, Some(None) is
    a stored null and Some(Some(v)) a stored number.
  */
  datatype RawItem = RawItem(
    id: string,
    title: string,
    bucket: Bucket,
    color: Color,
    createdAt: Timestamp,
    updatedAt: Timestamp,
    createdByUserId: Option<string>,
    realAmount: Option<Option<real>>,
    whatIfAmount: Option<Option<real>>,
    amount: Option<Json>,
    frequency: Option<Json>)

  function PeriodCode(p: Period): string
  {
    match p
    case D => "D"
    case W => "W"
    case M => "M"
    case Q => "Q"
    case Y => "Y"
  }

  /** The period a stored code names, if it names one. */
  function ParsePeriod(s: string): (r: Option<Period>)
    ensures r.Some? ==> PeriodCode(r.value) == s
  {
    if s == "D" then Some(D)
    else if s == "W" then Some(W)
    else if s == "M" then Some(M)
    else if s == "Q" then Some(Q)
    else if s == "Y" then Some(Y)
    else None
  }

  /** Every period's code parses back to that period. */
  lemma ParsePeriodCode(p: Period)
    ensures ParsePeriod(PeriodCode(p)) == Some(p)
  {
  }

  /** A frequency slot holding one of the strings "D", "W", "M", "Q", "Y". */
  predicate IsFrequencyCode(f: Option<Json>): (r: bool)
    ensures r <==> f.Some? && f.value.JString? && f.value.s in {"D", "W", "M", "Q", "Y"}
  {
    f.Some? && f.value.JString? && ParsePeriod(f.value.s).Some?
  }

  /** A stored amount with a missing key read as null: only a stored number gives a number. */
  function OrNull(x: Option<Option<real>>): (r: Option<real>)
    ensures r.None? <==> x == None || x == Some(None)
    ensures r.Some? ==> x == Some(r)
  {
    if x.Some? then x.value else None
  }

  /** The record shape the rest of the program expects. */
  predicate IsCurrentShape(r: RawItem)
  {
    r.realAmount.Some? && r.whatIfAmount.Some? && IsFrequencyCode(r.frequency)
  }

  /** The migration of one stored record, as a single expression. */
  function Migrate(item: RawItem): (m: RawItem)
    ensures IsCurrentShape(m)
  {
    var amounts :=
      if item.realAmount.Some? || item.whatIfAmount.Some? then
        item.(realAmount := Some(OrNull(item.realAmount)), whatIfAmount := Some(OrNull(item.whatIfAmount)))
      else if item.amount.Some? && item.amount.value.JNumber? then
        item.(amount := None, realAmount := Some(Some(item.amount.value.n)), whatIfAmount := Some(None))
      else
        item.(realAmount := Some(None), whatIfAmount := Some(None));
    if IsFrequencyCode(amounts.frequency) then amounts
    else amounts.(frequency := Some(JString("M")))
  }

  /** The migration as the source performs it: field assignments on a copy of the record. */
  method MigrateItem(item: RawItem) returns (migrated: RawItem)
    ensures migrated == Migrate(item)
    ensures IsCurrentShape(migrated)
  {
    migrated := item;
    if item.realAmount.Some? || item.whatIfAmount.Some? {
      migrated := migrated.(realAmount := Some(OrNull(item.realAmount)));
      migrated := migrated.(whatIfAmount := Some(OrNull(item.whatIfAmount)));
    } else if item.amount.Some? && item.amount.value.JNumber? {
      var amount := item.amount.value.n;
      migrated := item.(amount := None);
      migrated := migrated.(realAmount := Some(Some(amount)), whatIfAmount := Some(None));
    } else {
      migrated := migrated.(realAmount := Some(OrNull(migrated.realAmount)));
      migrated := migrated.(whatIfAmount := Some(OrNull(migrated.whatIfAmount)));
    }
    if !IsFrequencyCode(migrated.frequency) {
      migrated := migrated.(frequency := Some(JString("M")));
    }
  }

  /** A valid frequency is kept; a missing, empty, non-string or unknown one becomes "M". */
  lemma MigrateFrequency(item: RawItem)
    ensures IsFrequencyCode(item.frequency) ==> Migrate(item).frequency == item.frequency
    ensures !IsFrequencyCode(item.frequency) ==> Migrate(item).frequency == Some(JString("M"))
  {
  }

  /**
    Amount handling: a record with either new amount key keeps both amounts
    (a missing one becomes null); otherwise a numeric legacy amount becomes
    the real amount and its key is dropped; otherwise both amounts are null.
  */
  lemma MigrateAmounts(item: RawItem)
    ensures item.realAmount.Some? || item.whatIfAmount.Some? ==>
      Migrate(item).realAmount == Some(OrNull(item.realAmount)) &&
      Migrate(item).whatIfAmount == Some(OrNull(item.whatIfAmount)) &&
      Migrate(item).amount == item.amount
    ensures item.realAmount.None? && item.whatIfAmount.None? && item.amount.Some? && item.amount.value.JNumber? ==>
      Migrate(item).realAmount == Some(Some(item.amount.value.n)) &&
      Migrate(item).whatIfAmount == Some(None) &&
      Migrate(item).amount.None?
    ensures item.realAmount.None? && item.whatIfAmount.None? && !(item.amount.Some? && item.amount.value.JNumber?) ==>
      Migrate(item).realAmount == Some(None) && Migrate(item).whatIfAmount == Some(None)
  {
  }

  /** Migration touches only the amount, legacy amount and frequency slots. */
  lemma MigrateKeepsIdentity(item: RawItem)
    ensures Migrate(item).(realAmount := item.realAmount, whatIfAmount := item.whatIfAmount,
                           amount := item.amount, frequency := item.frequency) == item
  {
  }

  /** A record already in the current shape comes out of migration unchanged. */
  lemma MigrateCurrentShapeUnchanged(item: RawItem)
    requires IsCurrentShape(item)
    ensures Migrate(item) == item
  {
  }

  /** Migration is idempotent. */
  lemma MigrateIdempotent(item: RawItem)
    ensures Migrate(Migrate(item)) == Migrate(item)
  {
    MigrateCurrentShapeUnchanged(Migrate(item));
  }

  /** Reads a current-shape record as an item, its frequency code as a period. */
  function AsItem(r: RawItem): (it: Item)
    requires IsCurrentShape(r)
    ensures PeriodCode(it.frequency) == r.frequency.value.s
    ensures it.realAmount == r.realAmount.value && it.whatIfAmount == r.whatIfAmount.value
    ensures it.id == r.id && it.title == r.title && it.bucket == r.bucket && it.color == r.color
    ensures it.createdAt == r.createdAt && it.updatedAt == r.updatedAt && it.createdByUserId == r.createdByUserId
  {
    Item(r.id, r.title, r.realAmount.value, r.whatIfAmount.value, ParsePeriod(r.frequency.value.s).value,
         r.bucket, r.color, r.createdAt, r.updatedAt, r.createdByUserId)
  }

  /**
    The item list at start-up: absent, empty, unparsable or non-array storage
    (all None here) gives the empty list; otherwise each record is migrated.
  */
  function LoadItems(parsed: Option<seq<RawItem>>): (items: seq<Item>)
    ensures parsed.None? ==> items == []
    ensures parsed.Some? ==> |items| == |parsed.value|
    ensures parsed.Some? ==> forall i :: 0 <= i < |items| ==>
      items[i].id == parsed.value[i].id && items[i].bucket == parsed.value[i].bucket &&
      items[i].title == parsed.value[i].title && items[i].color == parsed.value[i].color
    ensures parsed.Some? ==> forall i :: 0 <= i < |items| ==>
      Some(items[i].realAmount) == Migrate(parsed.value[i]).realAmount &&
      Some(items[i].whatIfAmount) == Migrate(parsed.value[i]).whatIfAmount &&
      Some(JString(PeriodCode(items[i].frequency))) == Migrate(parsed.value[i]).frequency
    ensures parsed.Some? ==> forall i :: 0 <= i < |items| ==>
      items[i].createdAt == parsed.value[i].createdAt && items[i].updatedAt == parsed.value[i].updatedAt &&
      items[i].createdByUserId == parsed.value[i].createdByUserId
  {
    if parsed.None? then []
    else seq(|parsed.value|, i requires 0 <= i < |parsed.value| => AsItem(Migrate(parsed.value[i])))
  }

  /** The record an item is written back to storage as: both amount keys and its frequency code. */
  function Stored(it: Item): (r: RawItem)
    ensures IsCurrentShape(r)
  {
    ParsePeriodCode(it.frequency);
    RawItem(it.id, it.title, it.bucket, it.color, it.createdAt, it.updatedAt, it.createdByUserId,
            Some(it.realAmount), Some(it.whatIfAmount), None, Some(JString(PeriodCode(it.frequency))))
  }

  /** Saving the item list and loading it again gives back the same items. */
  lemma LoadStoredItems(items: seq<Item>)
    ensures LoadItems(Some(seq(|items|, i requires 0 <= i < |items| => Stored(items[i])))) == items
  {
    var saved := seq(|items|, i requires 0 <= i < |items| => Stored(items[i]));
    var loaded := LoadItems(Some(saved));
    forall i | 0 <= i < |items| ensures loaded[i] == items[i] {
      MigrateCurrentShapeUnchanged(saved[i]);
      ParsePeriodCode(items[i].frequency);
    }
  }

  /** A legacy record with a numeric amount loads as a real-only item of the same amount. */
  lemma LoadLegacyAmount(r: RawItem, a: real)
    requires r.realAmount.None? && r.whatIfAmount.None? && r.amount == Some(JNumber(a))
    ensures LoadItems(Some([r]))[0].realAmount == Some(a)
    ensures LoadItems(Some([r]))[0].whatIfAmount == None
  {
  }

  function ModeName(m: Mode): string
  {
    if m == Real then "REAL" else "WHAT IF"
  }

  /** The mode read back from storage: a stored "REAL" or "WHAT IF" is kept, anything else gives REAL. */
  function StoredMode(saved: Option<string>): (m: Mode)
    ensures saved == Some("REAL") || saved == Some("WHAT IF") ==> saved == Some(ModeName(m))
    ensures !(saved == Some("REAL") || saved == Some("WHAT IF")) ==> m == Real
  {
    if saved == Some("REAL") || saved == Some("WHAT IF") then
      (if saved.value == "REAL" then Real else WhatIf)
    else Real
  }

  /** The display period read back from storage: a stored period code is kept, anything else gives M. */
  function StoredPeriod(saved: Option<string>): (p: Period)
    ensures saved.Some? && ParsePeriod(saved.value).Some? ==> saved == Some(PeriodCode(p))
    ensures !(saved.Some? && ParsePeriod(saved.value).Some?) ==> p == M
  {
    if saved.Some? && ParsePeriod(saved.value).Some? then ParsePeriod(saved.value).value else M
  }

  /** Storing the mode and the display period and reading them back gives the same values. */
  lemma StoredRoundTrip(m: Mode, p: Period)
    ensures StoredMode(Some(ModeName(m))) == m
    ensures StoredPeriod(Some(PeriodCode(p))) == p
  {
    ParsePeriodCode(p);
  }
}
