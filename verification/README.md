# cashflow-board: amount resolver and item list, modelled in Dafny

cashflow-board is a personal cashflow planner. Items sit in three buckets: money IN, money OUT and HOLDING. Each item has a real amount and a what-if amount, either of which may be null. The item's recurrence frequency is one of D, W, M, Q or Y. A net total is shown in a chosen mode ("REAL" or "WHAT IF") and in a chosen display period.

The model covers two parts:

- The amount resolver of `src/lib/utils.ts`. It works out which amount is active in a mode and whether an item counts toward totals. It also rescales an amount between periods through the periods-per-year table. Amounts are exact `real`s, so the rescaling formula is exact.
- The list logic of `src/App.tsx`. It is taken out of the React state setters and written over one ordered `seq<Item>` that holds all three buckets. It covers:
  - migration of stored records and validation of the stored mode and period;
  - bucket-tail insertion on create;
  - update and removal by id;
  - the bucket projection and the net total;
  - the remove-then-splice drop rule.

Modules, one per concern:

- `cashflow_types.dfy` (`CashflowTypes`): `Option`, buckets, periods, modes, colours and the `Item` record.
- `amount_resolver.dfy` (`AmountResolver`): the functions of `utils.ts` and their lemmas.
- `loading.dfy` (`Loading`): `migrateItem`, the start-up item list, the record an item is saved as, and the stored mode/period validators. A stored record is a `RawItem`. Its optional slots tell a missing key apart from a stored `null`. The legacy `amount` and the `frequency` are JSON scalars because the code inspects their type.
- `item_list.dfy` (`ItemList`): the bucket projection, removal, update, and insertion at the tail of a bucket.
- `reorder.dfy` (`Reorder`): the drop rule, as a function of the previous sequence, the dragged snapshot, the target bucket and the optional target id.
- `totals.dfy` (`Totals`): the net total. A one-pass signed sum is used as a reference definition.
- `board.dfy` (`BoardState`): the class `Board` holding the item sequence, the mode and the display period. It has:
  - a constructor for the start-up state;
  - `Total`, the net total in the current mode and display period;
  - `SetMode` and `SetDisplayPeriod`, the two controls of the total display;
  - `CreateItem` and `HandleDrop`, which update `items` in place;
  - the backward scan `BucketTailIndex` that both methods use. It is a loop proved against `ItemList.BucketTail`.

Some of the code's behaviour is easy to misread. The model follows the code as written:

- **Self-drop is not a no-op.** A drop onto the dragged item itself does not find the target, because the dragged item was already removed. The item then goes to the tail of its bucket. Dropping `a` onto itself in `[a, b]`, with both in IN, gives `[b, a]` (`Reorder.SelfDropReorders`); in general a self-drop makes the item the last of its column (`Reorder.SelfDropToColumnTail`).
- **`updateItem` does not refresh `updatedAt`.** It only merges the patch.
- **Stale drags re-insert the item.** A dragged snapshot whose id is no longer in the list is inserted anyway.
- **No group handling.** `App.tsx` has no groups, no group drop targets and no insert-before anchors.

## Model

| member | source | states |
|---|---|---|
| AmountResolver.PeriodsPerYear | src/lib/utils.ts:10-16 | every period occurs at least once a year, so every rescaling divides by a positive number |
| AmountResolver.NormalizeAmount | src/lib/utils.ts:18-28 | the result is amount × perYear(from) / perYear(to) in every case, including the from == to shortcut |
| AmountResolver.NormalizeIdentity | src/lib/utils.ts:23 | rescaling a period to itself returns the amount |
| AmountResolver.NormalizeRoundTrip | src/lib/utils.ts:26-27 | converting f to g and back to f returns the amount exactly |
| AmountResolver.NormalizeCompose | src/lib/utils.ts:26-27 | converting f to g then g to h equals converting f to h |
| AmountResolver.DisplayAmount | src/lib/utils.ts:31-42 | the displayed amount is one of the item's two amounts, and is null exactly when both are null |
| AmountResolver.DisplayAmountPrefersMode | src/lib/utils.ts:31-42 | the displayed amount is the mode's own amount when set, otherwise the other amount |
| AmountResolver.DisplayAmountSingle | src/lib/utils.ts:32-37 | with exactly one amount set, that amount is displayed, the same in both modes |
| AmountResolver.DisplayAmountBoth | src/lib/utils.ts:38-40 | with both amounts set, REAL shows the real amount and WHAT IF shows the what-if amount |
| AmountResolver.IsDisabled | src/lib/utils.ts:81-83 | a disabled item is in REAL mode and is shown with its what-if amount, which is set; nothing is disabled in WHAT IF mode |
| AmountResolver.ShouldIncludeInMath | src/lib/utils.ts:44-54 | an item counts toward totals iff it has a real amount, or a what-if amount while the mode is WHAT IF |
| AmountResolver.IncludedIffShownAndEnabled | src/lib/utils.ts:44-54 | an item counts toward totals iff it has a display amount and is not disabled |
| AmountResolver.RealAmountAlwaysIncluded | src/lib/utils.ts:44-54 | an item with a real amount counts in both modes; a disabled item is in REAL mode and still has a display amount |
| AmountResolver.NormalizedDisplayAmount | src/lib/utils.ts:67-75 | null exactly when both amounts are null; otherwise rescaling it back to the item's frequency gives the display amount |
| AmountResolver.ActiveAmountForMath | src/lib/utils.ts:56-65 | 0 when the item is excluded; otherwise equal to the (non-null) normalized display amount |
| AmountResolver.WhatIfOnlyContribution | src/lib/utils.ts:44-65 | a what-if-only item contributes 0 in REAL mode and its rescaled what-if amount in WHAT IF mode |
| AmountResolver.ActiveAmountRescales | src/lib/utils.ts:56-65 | changing the display period from p to q scales a contribution by perYear(p) / perYear(q) |
| AmountResolver.IsWhatIfDisplayed | src/lib/utils.ts:77-79 | the what-if marker shows iff the mode is WHAT IF and the what-if amount is set |
| Loading.ParsePeriod | src/App.tsx:65-67 | a recognised code is the code of the period it parses to |
| Loading.ParsePeriodCode | src/App.tsx:65-67 | every period's code parses back to that period |
| Loading.IsFrequencyCode | src/App.tsx:31 | a frequency slot is valid iff it holds one of the strings D, W, M, Q, Y |
| Loading.OrNull | src/App.tsx:16-17 | a missing key and a stored null both read as null; a stored number reads as itself |
| Loading.Migrate | src/App.tsx:10-36 | every migrated record has both amount keys and a frequency in D, W, M, Q, Y |
| Loading.MigrateItem | src/App.tsx:10-36 | the field-by-field migration on a copy yields the migrated record, in the current shape |
| Loading.MigrateFrequency | src/App.tsx:31-33 | a valid frequency code is kept; a missing, empty, non-string or unknown one becomes "M" |
| Loading.MigrateAmounts | src/App.tsx:14-28 | with either amount key present, a missing amount becomes null (the legacy key is left alone); else a numeric legacy amount becomes the real amount, the what-if amount null, and the legacy key is dropped; else both are null |
| Loading.MigrateKeepsIdentity | src/App.tsx:11-28 | migration changes only the amount, legacy-amount and frequency slots |
| Loading.MigrateCurrentShapeUnchanged | src/App.tsx:10-36 | a record already in the current shape is returned unchanged |
| Loading.MigrateIdempotent | src/App.tsx:10-36 | migrating twice equals migrating once |
| Loading.AsItem | src/App.tsx:35 | the cast to an item keeps id, title, bucket, color, both timestamps, the creator and both amounts, and reads the frequency code as its period |
| Loading.LoadItems | src/App.tsx:39-51 | missing or unusable storage gives the empty list; otherwise one item per stored record, in order, keeping its id, bucket, title, color, both timestamps and its creator, with the amounts and frequency that migrating the record gives |
| Loading.Stored | src/App.tsx:73-75 | an item is written back as a record in the current shape |
| Loading.LoadStoredItems | src/App.tsx:39-51 | saving the item list and loading it again gives back the same items |
| Loading.LoadLegacyAmount | src/App.tsx:18-24 | a legacy record with a numeric amount loads as a real-only item with that amount |
| Loading.StoredMode | src/App.tsx:56 | a stored "REAL" or "WHAT IF" is kept; anything else, including nothing, gives REAL |
| Loading.StoredPeriod | src/App.tsx:65-67 | a stored period code is kept; anything else, including nothing, gives M |
| Loading.StoredRoundTrip | src/App.tsx:53-83 | writing the mode and display period and reading them back gives the same values |
| ItemList.InBucket | src/App.tsx:151-154 | a column is never longer than the item list it is filtered from |
| ItemList.InBucketMembers | src/App.tsx:151-154 | the bucket's column holds exactly the sequence's items of that bucket |
| ItemList.InBucketConcat | src/App.tsx:151-154 | projecting a concatenation projects each part, in order |
| ItemList.RemoveItem | src/App.tsx:120-122 | removal never lengthens the item list |
| ItemList.RemoveItemMembers | src/App.tsx:120-122 | the result holds exactly the items whose id differs from the removed one |
| ItemList.RemoveItemConcat | src/App.tsx:120-122 | removal keeps the survivors in order: it distributes over concatenation |
| ItemList.RemoveItemFootprint | src/App.tsx:120-122 | no item with the id remains; an unknown id leaves the sequence unchanged |
| ItemList.RemoveItemKeepsUniqueIds | src/App.tsx:120-122 | removal preserves unique ids |
| ItemList.ApplyPatch | src/App.tsx:116 | every field the patch sets takes the patch's value and every other field, updatedAt included, keeps the item's value |
| ItemList.ApplyPatchIdempotent | src/App.tsx:116 | applying a patch twice equals applying it once; the empty patch is the identity |
| ItemList.UpdateItem | src/App.tsx:114-118 | length is kept, items with other ids are untouched, and items with the id receive the patch |
| ItemList.UpdateItemUnknownId | src/App.tsx:114-118 | updating an unknown id returns the sequence unchanged |
| ItemList.UpdateItemIdempotent | src/App.tsx:114-118 | repeating an update changes nothing more |
| ItemList.UpdateItemInBucket | src/App.tsx:114-118 | a patch that leaves the bucket alone updates each column in place |
| ItemList.UpdateItemKeepsUniqueIds | src/App.tsx:114-118 | a patch that does not change the id preserves unique ids |
| ItemList.Insert | src/App.tsx:106-110 | the spliced item sits at the index, the items before it are unchanged and the items after it are shifted by one |
| ItemList.LastIndexIn | src/App.tsx:98-103 | the index of the last item of the bucket, or -1 when there is none |
| ItemList.BucketTail | src/App.tsx:97-103 | no item of the bucket at or after the position, which is just after a bucket item or, for an empty bucket, the end |
| ItemList.BucketTailUnique | src/App.tsx:97-103 | those conditions determine the bucket-tail position |
| ItemList.InsertOtherBucket | src/App.tsx:106-110 | inserting an item leaves the columns of the other buckets unchanged |
| ItemList.AppendToBucket | src/App.tsx:95-111 | the list grows by one, the new item sits at the bucket-tail position, and no item of its bucket follows it |
| ItemList.AppendToBucketOwnColumn | src/App.tsx:95-111 | after bucket-tail insertion the item's column is the old column followed by the item |
| ItemList.AppendToBucketOtherColumns | src/App.tsx:95-111 | bucket-tail insertion leaves the other columns unchanged |
| ItemList.RemoveItemBetween | src/App.tsx:106-110 | removing x's id from front + [x] + back, where neither part holds it, leaves front + back |
| ItemList.RemoveItemKeepsInserted | src/App.tsx:106-110 | removing the fresh id of an inserted item gives back the sequence, so old items keep their relative order |
| ItemList.AppendAllKeepsOrder | src/App.tsx:95-111 | items created one after another in a bucket are listed in creation order |
| ItemList.InsertKeepsUniqueIds | src/App.tsx:106-110 | splicing in an item with a fresh id preserves unique ids |
| ItemList.FromDraft | src/App.tsx:87-94 | the new record carries the draft's fields unchanged, the fresh id, both timestamps equal to now, and no creator |
| ItemList.AppendToBucketKeepsUniqueIds | src/App.tsx:86-111 | creating with a fresh id preserves unique ids |
| Reorder.FindIndex | src/App.tsx:271 | the first index holding the id in the bucket, or -1 when there is none |
| Reorder.DropIndex | src/App.tsx:267-293 | a found target's index holds the target item in the target bucket; otherwise no item of the target bucket lies at or after the index |
| Reorder.Drop | src/App.tsx:249-299 | with nothing dragged the sequence is unchanged; otherwise it is one longer than the sequence without the dragged item and holds the dragged item, in the target bucket, at the drop index |
| Reorder.DropMovesOnlyDragged | src/App.tsx:258-299 | the result without the dragged id is the previous sequence without it, in order; the dragged item occurs exactly once, with the target bucket |
| Reorder.DropBeforeTarget | src/App.tsx:269-274 | a target found in the target bucket ends up immediately after the dragged item |
| Reorder.DropAtBucketTail | src/App.tsx:275-293 | otherwise the dragged item becomes the last item of the target column |
| Reorder.SelfDropGoesToTail | src/App.tsx:265-283 | a drop onto the dragged item itself falls through to bucket-tail placement |
| Reorder.SelfDropToColumnTail | src/App.tsx:265-299 | a self-drop within the item's own bucket makes it the last item of that column, after the column's other items in their order |
| Reorder.SelfDropReorders | src/App.tsx:265-299 | dropping a onto itself in [a, b], both IN with distinct ids, gives [b, a]: a self-drop is not a no-op |
| Reorder.DropOtherColumns | src/App.tsx:265-299 | every other column loses only the dragged item |
| Reorder.StaleDragReinserted | src/App.tsx:249-299 | a dragged item missing from the sequence is inserted anyway: the sequence grows by one |
| Reorder.DropKeepsUniqueIds | src/App.tsx:265-299 | a drop preserves unique ids |
| Totals.SumActive | src/App.tsx:158-163 | a sum over items none of which counts toward totals is 0 |
| Totals.ColumnSumsAreSignedTotal | src/App.tsx:156-165 | IN column sum minus OUT column sum equals the one-pass sum of +, - or 0 times each item's contribution |
| Totals.NetTotal | src/App.tsx:156-165 | the net total equals the independent one-pass signed total |
| Totals.NetTotalInsert | src/App.tsx:156-165 | inserting an item anywhere changes the net total by its signed contribution |
| Totals.HoldingNeverCounts | src/App.tsx:156-165 | a HOLDING item never changes the net total |
| Totals.NetTotalAfterCreate | src/App.tsx:156-165 | creating an item adds its signed contribution to the net total |
| Totals.NetTotalAfterDrop | src/App.tsx:156-165 | after a drop the net total is that without the dragged item plus its contribution in the target bucket |
| Totals.SignedTotalConcat | src/App.tsx:156-165 | the one-pass signed sum of a concatenation is the sum of the parts' signed sums |
| Totals.SignedRescales | src/App.tsx:156-165 | one item's signed contribution at period q is its contribution at p scaled by perYear(p) / perYear(q) |
| Totals.SignedTotalRescales | src/App.tsx:156-165 | the signed sum at period q is the signed sum at p scaled by perYear(p) / perYear(q) |
| Totals.NetTotalRescales | src/App.tsx:156-165 | switching the display period from p to q scales the net total by perYear(p) / perYear(q) |
| Totals.NetTotalConverts | src/App.tsx:156-165 | the net total at period q is the net total at p converted from p to q like an amount |
| Totals.MonthlyRealContribution | src/lib/utils.ts:56-65 | a monthly real-only amount counts in full in REAL mode with a monthly display period |
| Totals.SalaryAndRent | src/App.tsx:156-165 | monthly salary 3000 (IN) and rent 1200 (OUT) give 1800 per month and 1800 × 12 / 52 per week |
| BoardState.BucketTailIndex | src/App.tsx:96-103 | the backward scan returns the bucket-tail position |
| BoardState.Board.constructor | src/App.tsx:39-71 | the start-up list is the migrated stored list; mode and period are the validated stored values |
| BoardState.Board.Total | src/App.tsx:156-165 | the board's net total is the signed total of its items in its current mode and display period |
| BoardState.Board.SetMode | src/App.tsx:316 | the mode becomes the chosen one; items and display period are unchanged |
| BoardState.Board.SetDisplayPeriod | src/App.tsx:318 | the display period becomes the chosen one and the net total is converted from the old period to the new one |
| BoardState.Board.CreateItem | src/App.tsx:86-112 | the new item goes to its bucket's tail. The column gains it last and other columns are unchanged. Old items keep their order and ids stay unique |
| BoardState.Board.HandleDrop | src/App.tsx:246-307 | the new sequence is the drop of the old one; nothing dragged means no change; unique ids are preserved |

## Left out

- Groups: group nodes, group drop targets and insert-before anchors. `src/App.tsx` has none of them; `BucketPanel`'s four-argument drop callback is not wired to any group logic there.
- Rendering, modal and drag-session state, and the event handlers. The drag-start snapshot is a parameter of `HandleDrop`, and the target id is its optional argument.
- `localStorage`, `JSON.parse` and their `try`/`catch` fallbacks. The parsed array is a parameter: None stands for a missing, empty, unparsable or non-array value. The stored mode and period are parameters too. Writing them back appears only as `Loading.Stored` and as the names that `StoredRoundTrip` reads back.
- A parsed array holding a non-object element (null, a number or a string) is not modelled: `seq<RawItem>` cannot express it. In the source, the `'realAmount' in item` test throws on it and the `catch` replaces the whole list with the empty list.
- `Loading.LoadStoredItems` treats timestamps as plain values; the source writes `Date` objects, which `JSON.stringify` turns into strings that are read back as strings.
- `crypto.randomUUID()` and `new Date()`: the fresh id and the timestamp are parameters of `CreateItem`, whose precondition is that the id is not in use.
- IEEE doubles: amounts are exact reals, with no NaN, infinities or rounding.
- Stored amounts that are neither numbers nor null are not modelled. The other stored fields are taken to be well-typed. `Loading.AsItem` drops keys the model does not name, such as a legacy `amount` left beside `realAmount`. The source keeps such keys on the object; nothing in `src/App.tsx` or `src/lib/utils.ts` reads them, though the item card and the item form components do.
- The `reduce` in the net total is a left fold; `Totals.SumActive` recurses from the front, which gives the same sum over reals.
- `cn`, currency formatting, the UI components (including `GroupCard`'s per-group total) and the icon catalogue.
