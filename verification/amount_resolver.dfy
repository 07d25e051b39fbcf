/**
  The amount resolver: which of an item's two amounts is active in a mode,
  whether the item counts toward totals, and how an amount is rescaled from
  the item's frequency to a display period.
*/
module AmountResolver {
  import opened CashflowTypes

  /** How many times each period occurs in one year. */
  function PeriodsPerYear(p: Period): (n: real)
    ensures n >= 1.0
  {
    match p
    case D => 365.0
    case W => 52.0
    case M => 12.0
    case Q => 4.0
    case Y => 1.0
  }

  /** Rescales an amount from one period to another through its yearly value. */
  function NormalizeAmount(baseAmount: real, fromPeriod: Period, toPeriod: Period): (r: real)
    ensures r == baseAmount * PeriodsPerYear(fromPeriod) / PeriodsPerYear(toPeriod)
  {
    if fromPeriod == toPeriod then baseAmount
    else
      var yearlyValue := baseAmount * PeriodsPerYear(fromPeriod);
      yearlyValue / PeriodsPerYear(toPeriod)
  }

  lemma NormalizeIdentity(a: real, f: Period)
    ensures NormalizeAmount(a, f, f) == a
  {
  }

  /** Converting f to g and back to f returns the amount exactly. */
  lemma NormalizeRoundTrip(a: real, f: Period, g: Period)
    ensures NormalizeAmount(NormalizeAmount(a, f, g), g, f) == a
  {
    var F, G := PeriodsPerYear(f), PeriodsPerYear(g);
    assert (a * F / G) * G == a * F;
  }

  /** Converting through an intermediate period is the same as converting directly. */
  lemma NormalizeCompose(a: real, f: Period, g: Period, h: Period)
    ensures NormalizeAmount(NormalizeAmount(a, f, g), g, h) == NormalizeAmount(a, f, h)
  {
    var F, G, H := PeriodsPerYear(f), PeriodsPerYear(g), PeriodsPerYear(h);
    assert (a * F / G) * G == a * F;
  }

  /** The amount that the mode itself designates: the real one in REAL mode. */
  function ModeAmount(item: Item, mode: Mode): Option<real>
  {
    if mode == Real then item.realAmount else item.whatIfAmount
  }

  function OtherMode(mode: Mode): Mode
  {
    if mode == Real then WhatIf else Real
  }

  /** The amount shown for an item: it may be either of its two amounts, and is none only when both are. */
  function DisplayAmount(item: Item, mode: Mode): (r: Option<real>)
    ensures r == item.realAmount || r == item.whatIfAmount
    ensures r.None? <==> item.realAmount.None? && item.whatIfAmount.None?
  {
    if item.realAmount.Some? && item.whatIfAmount.None? then item.realAmount
    else if item.realAmount.None? && item.whatIfAmount.Some? then item.whatIfAmount
    else if item.realAmount.Some? && item.whatIfAmount.Some? then
      (if mode == Real then item.realAmount else item.whatIfAmount)
    else None
  }

  /**
    An independent reading of the branch chain: the amount designated by the
    mode when it is set, otherwise the other one.
  */
  lemma DisplayAmountPrefersMode(item: Item, mode: Mode)
    ensures DisplayAmount(item, mode) ==
      (if ModeAmount(item, mode).Some? then ModeAmount(item, mode) else ModeAmount(item, OtherMode(mode)))
  {
  }

  /** With exactly one amount set, that amount is displayed whatever the mode. */
  lemma DisplayAmountSingle(item: Item, mode: Mode)
    requires item.realAmount.None? != item.whatIfAmount.None?
    ensures DisplayAmount(item, mode) == (if item.realAmount.Some? then item.realAmount else item.whatIfAmount)
    ensures DisplayAmount(item, mode) == DisplayAmount(item, OtherMode(mode))
  {
  }

  /** With both amounts set, REAL mode shows the real one and WHAT IF mode the what-if one. */
  lemma DisplayAmountBoth(item: Item)
    requires item.realAmount.Some? && item.whatIfAmount.Some?
    ensures DisplayAmount(item, Real) == item.realAmount
    ensures DisplayAmount(item, WhatIf) == item.whatIfAmount
  {
  }

  /** A what-if-only item viewed in REAL mode: shown muted and left out of totals. */
  predicate IsDisabled(item: Item, mode: Mode): (r: bool)
    ensures r ==> mode == Real && DisplayAmount(item, mode) == item.whatIfAmount && item.whatIfAmount.Some?
    ensures mode == WhatIf ==> !r
  {
    item.realAmount.None? && item.whatIfAmount.Some? && mode == Real
  }

  /** Whether an item counts toward totals: it does exactly when it has a real amount, or a what-if amount in WHAT IF mode. */
  predicate ShouldIncludeInMath(item: Item, mode: Mode): (r: bool)
    ensures r <==> item.realAmount.Some? || (item.whatIfAmount.Some? && mode == WhatIf)
  {
    var displayAmount := DisplayAmount(item, mode);
    if displayAmount.None? then false
    else if item.realAmount.None? && item.whatIfAmount.Some? && mode == Real then false
    else
      assert mode == Real || mode == WhatIf;
      true
  }

  /** Counting toward totals is having a display amount and not being disabled. */
  lemma IncludedIffShownAndEnabled(item: Item, mode: Mode)
    ensures ShouldIncludeInMath(item, mode) <==> DisplayAmount(item, mode).Some? && !IsDisabled(item, mode)
  {
  }

  /** An item with a real amount counts in both modes; disabling happens only in REAL mode. */
  lemma RealAmountAlwaysIncluded(item: Item, mode: Mode)
    ensures item.realAmount.Some? ==> ShouldIncludeInMath(item, mode)
    ensures IsDisabled(item, mode) ==> mode == Real && DisplayAmount(item, mode).Some?
  {
  }

  /** The display amount rescaled to the display period; none when there is no amount. */
  function NormalizedDisplayAmount(item: Item, mode: Mode, displayPeriod: Period): (r: Option<real>)
    ensures r.None? <==> item.realAmount.None? && item.whatIfAmount.None?
    ensures r.Some? ==> NormalizeAmount(r.value, displayPeriod, item.frequency) == DisplayAmount(item, mode).value
  {
    var baseAmount := DisplayAmount(item, mode);
    if baseAmount.None? then None
    else
      NormalizeRoundTrip(baseAmount.value, item.frequency, displayPeriod);
      Some(NormalizeAmount(baseAmount.value, item.frequency, displayPeriod))
  }

  /** What an item adds to a total: zero when excluded, else its normalized display amount. */
  function ActiveAmountForMath(item: Item, mode: Mode, displayPeriod: Period): (r: real)
    ensures !ShouldIncludeInMath(item, mode) ==> r == 0.0
    ensures ShouldIncludeInMath(item, mode) ==> NormalizedDisplayAmount(item, mode, displayPeriod) == Some(r)
  {
    if !ShouldIncludeInMath(item, mode) then 0.0
    else
      var baseAmount := DisplayAmount(item, mode);
      if baseAmount.None? then 0.0
      else NormalizeAmount(baseAmount.value, item.frequency, displayPeriod)
  }

  /** A what-if-only item contributes nothing in REAL mode and its rescaled amount in WHAT IF mode. */
  lemma WhatIfOnlyContribution(item: Item, displayPeriod: Period)
    requires item.realAmount.None? && item.whatIfAmount.Some?
    ensures ActiveAmountForMath(item, Real, displayPeriod) == 0.0
    ensures ActiveAmountForMath(item, WhatIf, displayPeriod) ==
      NormalizeAmount(item.whatIfAmount.value, item.frequency, displayPeriod)
  {
  }

  /** Changing the display period rescales an item's contribution by the ratio of the periods. */
  lemma ActiveAmountRescales(item: Item, mode: Mode, p: Period, q: Period)
    ensures ActiveAmountForMath(item, mode, q) ==
      ActiveAmountForMath(item, mode, p) * PeriodsPerYear(p) / PeriodsPerYear(q)
  {
    if ShouldIncludeInMath(item, mode) {
      var a := DisplayAmount(item, mode).value;
      NormalizeCompose(a, item.frequency, p, q);
    }
  }

  /** The what-if badge shows exactly when the mode is WHAT IF and a what-if amount exists. */
  predicate IsWhatIfDisplayed(item: Item, mode: Mode): (r: bool)
    ensures r <==> mode == WhatIf && item.whatIfAmount.Some?
  {
    mode == WhatIf && item.whatIfAmount.Some? && DisplayAmount(item, mode) == item.whatIfAmount
  }
}
