# BaseRecyclerViewAdapter core, modelled in Dafny

This project models the non-view logic of the abstract `BaseAdapter<T>` of BaseRecyclerViewAdapter, an Android `RecyclerView` adapter base class, in both of its versions: the current one (`baseadapter/`) and the older one (`library/`). The model covers:

- slot classification: whether a list position shows the header, the loading placeholder, the empty placeholder or a data item, and at which content index;
- the row count the adapter reports;
- the lazy view-type registry: a counter starting at 0x0107 and two maps, layout id to code and code to layout id;
- the animate-once gate, with its watermark `mLastItemPosition`;
- the data-set mutations, the constructor defaults, the scroll-multiplier range check, and the content-index arithmetic of bind and item click.

Modules:

- `Wrappers` (wrappers.dfy): `Option` stands for Java's `null`, and `Outcome` for "returns normally or throws".
- `ViewTypes` (view_types.dfy): the registry as a value. `Resolve` is one lookup. `ResolveAll` is a pass of lookups in order. The registry invariant `Valid` says the two maps are mutual inverses and the codes in use are exactly 0x0108 up to the counter. Both versions share this module.
- `AnimationGate` (animation_gate.dfy): `Gate` is the decision for one bind. `Replay` runs the gate over the positions bound one after another. Both versions share this module.
- `Slots` (slots.dfy): the current version's classification (`Classify`) and row count (`ItemCount`), as pure functions of the fields they read. It also holds what both versions share: the header-row count (`HeaderCount`) and `Binding`, an item with its index as handed to the bind and click callbacks.
- `Adapter` (adapter.dfy): class `BaseAdapter<T>` of the current version. Its fields are the source's fields, and its methods update them in place. Each method's `ensures` ties the new state to the pure functions above.
- `LibraryAdapter` (library_adapter.dfy): the older version. It has its own header-or-item classification and row count, and a class `BaseAdapter<T>` over its smaller set of fields.

Model choices:

- The subclass hook `getItemViewLayoutId(position, item)` becomes `itemViewLayoutId`, a function given to the constructor.
- The header, loading and empty views, the animation type and the custom animator become presence flags.
- `holder.getAdapterPosition()` becomes a parameter.
- The float scroll multiplier becomes a `real`.
- `IllegalArgumentException` becomes `Outcome.Fail`.
- An item-click lookup that would throw `IndexOutOfBoundsException` returns `None`.

In the current version `getItemCount` never counts a loading row (baseadapter/src/main/java/com/yat3s/library/adapter/BaseAdapter.java:277-283). So with no header, no empty view and no items, the count is 0 and the loading row is never shown. `Slots.CountIgnoresLoading` states this.

Two quirks of the current version are modelled as they are:

- With no header and `showLoadingViewIgnoreHeader` true, no position is ever classified as loading (`Slots.NoHeaderNoLoadingInHeader`).
- In every-time animation mode the watermark is still overwritten, and it can go down (`AnimationGate.EveryTimeOverwritesWatermark`, `AnimationGate.ReplayEveryTime`).

## Model

| member | source | states |
|---|---|---|
| ViewTypes.ItemCodesAreNotReserved | baseadapter/src/main/java/com/yat3s/library/adapter/BaseAdapter.java:30-34 | no code in a valid registry equals the header (0x10), empty (0x11) or loading (0x12) code, and every bound code is above 0x0107 |
| ViewTypes.ValidCode | baseadapter/src/main/java/com/yat3s/library/adapter/BaseAdapter.java:134-137 | a bound layout id's code is recorded back to that id in the reverse map, is an item code, and is at most the counter |
| ViewTypes.Resolve | baseadapter/src/main/java/com/yat3s/library/adapter/BaseAdapter.java:134-139 | after a lookup the layout id is bound to the returned code; a known id leaves counter and both maps unchanged; an unknown id receives counter + 1, which becomes the new counter |
| ViewTypes.ResolveKeepsValid | baseadapter/src/main/java/com/yat3s/library/adapter/BaseAdapter.java:134-137 | a lookup keeps the two maps mutual inverses with codes exactly 0x0108..counter, records the code in both directions, never returns a reserved code, and changes no earlier binding |
| ViewTypes.FirstCode | baseadapter/src/main/java/com/yat3s/library/adapter/BaseAdapter.java:54-54 | the first layout id a new adapter sees gets code 0x0108 |
| ViewTypes.ResolveIdempotent | baseadapter/src/main/java/com/yat3s/library/adapter/BaseAdapter.java:134-139 | looking the same layout id up twice returns the same code, and the second lookup changes nothing |
| ViewTypes.ResolveAll | baseadapter/src/main/java/com/yat3s/library/adapter/BaseAdapter.java:132-139 | a pass of lookups returns one code per lookup |
| ViewTypes.ResolveAllKeepsValid | baseadapter/src/main/java/com/yat3s/library/adapter/BaseAdapter.java:134-137 | a pass keeps the registry invariant and every earlier binding |
| ViewTypes.ResolveAllBinds | baseadapter/src/main/java/com/yat3s/library/adapter/BaseAdapter.java:134-139 | after a pass every layout id looked up is bound to the code the pass returned for it |
| ViewTypes.ResolveAllUnbound | baseadapter/src/main/java/com/yat3s/library/adapter/BaseAdapter.java:134-137 | a pass binds no layout id that it did not look up and that was not bound before |
| ViewTypes.ResolveAllPrefix | baseadapter/src/main/java/com/yat3s/library/adapter/BaseAdapter.java:134-139 | the codes of a pass over a prefix are the prefix of the pass's codes |
| ViewTypes.ResolveAllAt | baseadapter/src/main/java/com/yat3s/library/adapter/BaseAdapter.java:134-139 | the code returned at step j is the one resolved against the registry reached after the first j steps |
| ViewTypes.ResolveAllBelowCounter | baseadapter/src/main/java/com/yat3s/library/adapter/BaseAdapter.java:135-136 | every code a pass returns is at most its final counter |
| ViewTypes.ResolveAllConsistent | baseadapter/src/main/java/com/yat3s/library/adapter/BaseAdapter.java:134-139 | within a pass two lookups return the same code if and only if they were for the same layout id |
| ViewTypes.ResolveAllFreshIncreasing | baseadapter/src/main/java/com/yat3s/library/adapter/BaseAdapter.java:135-137 | a layout id met for the first time gets a code above the starting counter and above every code returned before it in the pass |
| AnimationGate.Gate | baseadapter/src/main/java/com/yat3s/library/adapter/BaseAdapter.java:163-178 | a custom animator always fires and leaves the watermark; otherwise the typed animation fires iff a type is set and (every-time mode or position > watermark); the watermark becomes the position exactly when the typed animation fires |
| AnimationGate.WatermarkMonotonic | baseadapter/src/main/java/com/yat3s/library/adapter/BaseAdapter.java:168-175 | outside every-time mode the watermark never decreases |
| AnimationGate.AnimateOnce | baseadapter/src/main/java/com/yat3s/library/adapter/BaseAdapter.java:168-175 | with no custom animator and every-time mode off, a position just animated does not animate again |
| AnimationGate.EveryTimeOverwritesWatermark | baseadapter/src/main/java/com/yat3s/library/adapter/BaseAdapter.java:168-175 | with no custom animator, an animation type set and every-time mode on, the typed animation fires and the watermark is overwritten with the position, even a lower one |
| AnimationGate.Replay | baseadapter/src/main/java/com/yat3s/library/adapter/BaseAdapter.java:163-178 | the gate over a sequence of binds yields one animation decision per bind |
| AnimationGate.HighestOfBounds | baseadapter/src/main/java/com/yat3s/library/adapter/BaseAdapter.java:168-175 | the highest of a watermark and a sequence of positions bounds each of them and equals the watermark or one of the positions |
| AnimationGate.ReplayWatermarkIsHighest | baseadapter/src/main/java/com/yat3s/library/adapter/BaseAdapter.java:168-175 | with no custom animator, a type set and every-time mode off, the final watermark is the highest of the start and all positions bound |
| AnimationGate.ReplayFiresOnNewHigh | baseadapter/src/main/java/com/yat3s/library/adapter/BaseAdapter.java:168-175 | with no custom animator, a type set and every-time mode off, the i-th bind animates iff its position exceeds the start watermark and every earlier position |
| AnimationGate.ReplayAnimatesOnce | baseadapter/src/main/java/com/yat3s/library/adapter/BaseAdapter.java:168-175 | with no custom animator, a type set and every-time mode off, a position bound again is not animated again |
| AnimationGate.ReplayCustomBypasses | baseadapter/src/main/java/com/yat3s/library/adapter/BaseAdapter.java:165-166 | with a custom animator every bind animates and the watermark never moves |
| AnimationGate.ReplayEveryTime | baseadapter/src/main/java/com/yat3s/library/adapter/BaseAdapter.java:168-175 | with no custom animator, an animation type set and every-time mode on, over at least one bind, every bind animates and the watermark ends at the last position bound |
| Slots.HeaderCount | baseadapter/src/main/java/com/yat3s/library/adapter/BaseAdapter.java:381-383 | the header count is 1 iff a header view is set, else 0 (the older version's getHeaderViewCount is the same and uses this function too) |
| Slots.ItemCount | baseadapter/src/main/java/com/yat3s/library/adapter/BaseAdapter.java:277-283 | the count is headerCount + 1 when there are no items and an empty view is set, else headerCount + the number of items |
| Slots.Classify | baseadapter/src/main/java/com/yat3s/library/adapter/BaseAdapter.java:121-133 | a position below headerCount is header or loading; loading needs no data added and a loading view; empty needs no items and an empty view; an item row has index position - headerCount, at least 0, and below the item count iff the position is below the row count |
| Slots.RowsInRange | baseadapter/src/main/java/com/yat3s/library/adapter/BaseAdapter.java:132-133 | every position below the row count classifies without an item-index fault |
| Slots.HeaderPositionSlot | baseadapter/src/main/java/com/yat3s/library/adapter/BaseAdapter.java:122-126 | a header position is loading iff no data added, loading ignores the header and a loading view is set; otherwise header |
| Slots.LoadingPreemptsRows | baseadapter/src/main/java/com/yat3s/library/adapter/BaseAdapter.java:127-128 | while loading below the header, every position from headerCount on is loading, pre-empting empty and items |
| Slots.NoHeaderNoLoadingInHeader | baseadapter/src/main/java/com/yat3s/library/adapter/BaseAdapter.java:122-128 | with no header and loading ignoring the header, no non-negative position is loading |
| Slots.LoadedShowsNoLoading | baseadapter/src/main/java/com/yat3s/library/adapter/BaseAdapter.java:122-128 | once data is added, or with no loading view, no position is loading |
| Slots.CountIgnoresLoading | baseadapter/src/main/java/com/yat3s/library/adapter/BaseAdapter.java:277-283 | the count does not depend on the loading view, the loading-ignores-header flag or the loaded flag; with no header, no empty view and no items it is 0 |
| Slots.EmptyRowShown | baseadapter/src/main/java/com/yat3s/library/adapter/BaseAdapter.java:129-130 | with no items, an empty view and no loading below the header, the count is headerCount + 1 and position headerCount is the empty row |
| Slots.ItemsFollowHeader | baseadapter/src/main/java/com/yat3s/library/adapter/BaseAdapter.java:131-133 | with no loading below the header and no empty row, item i is at position headerCount + i and every row past the header is an item |
| Slots.AppendKeepsItems | baseadapter/src/main/java/com/yat3s/library/adapter/BaseAdapter.java:259-262 | appending items leaves every existing item row showing the same index |
| Slots.FirstDataSetEndsLoading | baseadapter/src/main/java/com/yat3s/library/adapter/BaseAdapter.java:253-257 | after a first data set, a position at or past the header is the empty row (no items, empty view) or the item at position - headerCount |
| Adapter.BaseAdapter.constructor | baseadapter/src/main/java/com/yat3s/library/adapter/BaseAdapter.java:53-87 | null data becomes the empty sequence; no header, empty or loading view; loading ignores the header; not loaded; empty registry with counter 0x0107; no animation; watermark -1; multiplier 0.5 |
| Adapter.BaseAdapter.GetItemViewType | baseadapter/src/main/java/com/yat3s/library/adapter/BaseAdapter.java:121-141 | returns the reserved code of a header, loading or empty row with the registry unchanged, or for an item row the code and registry of resolving the item's layout id, a non-reserved code that maps back to that layout id |
| Adapter.BaseAdapter.OnBindViewHolder | baseadapter/src/main/java/com/yat3s/library/adapter/BaseAdapter.java:144-161 | binds exactly the item rows, with item data[i] at index position - headerCount, and runs the gate only for them |
| Adapter.BaseAdapter.BindItemAnimation | baseadapter/src/main/java/com/yat3s/library/adapter/BaseAdapter.java:163-178 | the animation started and the new watermark are those of the gate on the old watermark and the adapter position |
| Adapter.BaseAdapter.ItemClick | baseadapter/src/main/java/com/yat3s/library/adapter/BaseAdapter.java:180-187 | a click reports index adapterPosition - headerCount and the item there, and faults (None) iff that index is outside the items |
| Adapter.ClickFindsBoundItem | baseadapter/src/main/java/com/yat3s/library/adapter/BaseAdapter.java:155-186 | a click at an item row reports the same item and index that bind used there |
| Adapter.BaseAdapter.AddFirstDataSet | baseadapter/src/main/java/com/yat3s/library/adapter/BaseAdapter.java:253-257 | the items become the new sequence and the loaded flag is set |
| Adapter.BaseAdapter.AddMoreDataSet | baseadapter/src/main/java/com/yat3s/library/adapter/BaseAdapter.java:259-262 | the new items are appended, the old items stay as a prefix, and the loaded flag is untouched |
| Adapter.BaseAdapter.SetScrollMultiplier | baseadapter/src/main/java/com/yat3s/library/adapter/BaseAdapter.java:374-379 | a value outside [0, 1] fails and leaves the multiplier; a value inside is stored |
| Adapter.BaseAdapter.AddHeaderView | baseadapter/src/main/java/com/yat3s/library/adapter/BaseAdapter.java:330-336 | a header view is now set |
| Adapter.BaseAdapter.SetEmptyView | baseadapter/src/main/java/com/yat3s/library/adapter/BaseAdapter.java:389-391 | the empty view is set or cleared |
| Adapter.BaseAdapter.SetLoadingView | baseadapter/src/main/java/com/yat3s/library/adapter/BaseAdapter.java:401-403 | the loading view is set or cleared |
| Adapter.BaseAdapter.SetShowLoadingViewIgnoreHeader | baseadapter/src/main/java/com/yat3s/library/adapter/BaseAdapter.java:405-407 | stores the loading-ignores-header flag |
| Adapter.BaseAdapter.SetItemAnimation | baseadapter/src/main/java/com/yat3s/library/adapter/BaseAdapter.java:306-308 | the animation type is set or cleared |
| Adapter.BaseAdapter.SetShowItemAnimationEveryTime | baseadapter/src/main/java/com/yat3s/library/adapter/BaseAdapter.java:318-320 | stores the every-time flag |
| Adapter.BaseAdapter.SetCustomItemAnimator | baseadapter/src/main/java/com/yat3s/library/adapter/BaseAdapter.java:322-324 | the custom animator is set or cleared |
| LibraryAdapter.ItemCount | library/src/main/java/com/yat3s/library/adapter/BaseAdapter.java:259-262 | the count is always the number of items plus the header count |
| LibraryAdapter.Classify | library/src/main/java/com/yat3s/library/adapter/BaseAdapter.java:97-101 | a position is the header iff it is below headerCount; otherwise it is the item at position - headerCount; there are no loading or empty rows |
| LibraryAdapter.RowsInRange | library/src/main/java/com/yat3s/library/adapter/BaseAdapter.java:101-102 | every position below the row count classifies without an item-index fault |
| LibraryAdapter.AgreesWithCurrent | library/src/main/java/com/yat3s/library/adapter/BaseAdapter.java:96-110 | the older count and classification equal the current ones when neither a loading nor an empty view is set |
| LibraryAdapter.BaseAdapter.constructor | library/src/main/java/com/yat3s/library/adapter/BaseAdapter.java:48-80 | null data becomes the empty sequence; no header; empty registry with counter 0x0107; no animation; watermark -1 |
| LibraryAdapter.BaseAdapter.GetItemViewType | library/src/main/java/com/yat3s/library/adapter/BaseAdapter.java:96-110 | returns the header code for the header with the registry unchanged, or for an item row the code and registry of resolving the item's layout id, a non-reserved code that maps back to that layout id |
| LibraryAdapter.BaseAdapter.OnBindViewHolder | library/src/main/java/com/yat3s/library/adapter/BaseAdapter.java:112-124 | binds exactly the item rows, with item data[i] at index position - headerCount, and runs the gate only for them |
| LibraryAdapter.BaseAdapter.BindItemAnimation | library/src/main/java/com/yat3s/library/adapter/BaseAdapter.java:126-141 | the animation started and the new watermark are those of the gate on the old watermark and the adapter position |
| LibraryAdapter.BaseAdapter.ItemClick | library/src/main/java/com/yat3s/library/adapter/BaseAdapter.java:143-150 | a click reports index adapterPosition - headerCount and the item there, and faults (None) iff that index is outside the items |
| LibraryAdapter.ClickFindsBoundItem | library/src/main/java/com/yat3s/library/adapter/BaseAdapter.java:119-149 | a click at an item row reports the same item and index that bind used there |
| LibraryAdapter.BaseAdapter.AddFirstDataSet | library/src/main/java/com/yat3s/library/adapter/BaseAdapter.java:237-240 | the items become the new sequence |
| LibraryAdapter.BaseAdapter.AddMoreDataSet | library/src/main/java/com/yat3s/library/adapter/BaseAdapter.java:242-245 | the new items are appended and the old items stay as a prefix |
| LibraryAdapter.BaseAdapter.AddHeaderView | library/src/main/java/com/yat3s/library/adapter/BaseAdapter.java:268-273 | a header view is now set |
| LibraryAdapter.BaseAdapter.SetItemAnimation | library/src/main/java/com/yat3s/library/adapter/BaseAdapter.java:304-306 | the animation type is set or cleared |
| LibraryAdapter.BaseAdapter.SetShowItemAnimationEveryTime | library/src/main/java/com/yat3s/library/adapter/BaseAdapter.java:316-318 | stores the every-time flag |
| LibraryAdapter.BaseAdapter.SetCustomItemAnimator | library/src/main/java/com/yat3s/library/adapter/BaseAdapter.java:320-322 | the custom animator is set or cleared |

## Left out

- Parallax (`translateHeader`, `addParallaxHeaderView`, `setParallaxHeader`, the scroll listener and `setParallaxScrollListener`): float translation, `Math.round` clipping and the percentage, mixed with view queries and an SDK-version branch. `addParallaxHeaderView` and `setParallaxHeader` also make the header present, as `AddHeaderView` does in the model. Only the range check of `setScrollMultiplier` is modelled. The older version has no setter, so its multiplier is not modelled.
- `CustomRelativeWrapper`: canvas clipping and drawing.
- `onCreateViewHolder`, layout inflation, `onAttachedToRecyclerView` and every `notify*` call: Android framework plumbing. The lookup `layoutIdMap.get(viewType)` that creation depends on is covered by `GetItemViewType`'s guarantee that a returned item code maps back to its layout id.
- The listener objects and their setters (`setOnItemClickListener`, `setOnItemLongClickListener`, `setOnHeaderClickListener`): foreign calls. The long click uses the same position arithmetic as `ItemClick`. Clicks are modelled as if a listener were set.
- `AnimationUtil` and `Animator` execution, with `setItemAnimationDuration` and `setItemAnimationInterpolator`: foreign calls. Only the decision whether an animation fires, and the watermark, are modelled.
- `getDataSource`, `getContext`, `getItem`, `isShouldClipView`: plain accessors. `getItem` is the `data[i]` read inside `OnBindViewHolder`.
- Aliasing of the item list: `addFirstDataSet` and the constructor keep the caller's `List`, and `addMoreDataSet` then mutates it in place. The model holds the items as a value.
- Null arguments: `addFirstDataSet(null)`, `addMoreDataSet(null)` and the views themselves. Views are presence flags, and `addHeaderView` can only set the header.
- Adapter.BaseAdapter.GetItemViewType and Adapter.BaseAdapter.OnBindViewHolder: the model requires that an item row's index is inside the items. The source throws `IndexOutOfBoundsException` otherwise (in `onBindViewHolder` through its `getItemViewType` call), which is not modelled. `Slots.RowsInRange` shows that every position below the row count meets the requirement.
- LibraryAdapter.BaseAdapter.GetItemViewType and LibraryAdapter.BaseAdapter.OnBindViewHolder: same requirement as above, with `LibraryAdapter.RowsInRange`.
- Adapter.BaseAdapter.SetScrollMultiplier: floats are modelled as reals. A NaN multiplier passes the source's check and is stored; the model has no NaN.
- Java `int` width: the view-type counter and positions are unbounded integers. Wrap-around after about 2^31 distinct layout ids is not modelled.
- The sample application (`MainActivity`, `MusicAdapter`, `CarAdapter`): UI setup and thin subclasses. `MusicAdapter`'s layout choice is one instance of `itemViewLayoutId`.
