/**
 * The current adapter: an item sequence with optional header, loading and empty rows, the
 * lazy view-type registry, the entrance-animation watermark and the header's scroll
 * multiplier, all fields of one object that the operations below update in place.
 */
module Adapter {
  import opened Wrappers
  import ViewTypes
  import Slots
  import opened AnimationGate

  /** The exception `setScrollMultiplier` throws for a value outside [0, 1]. */
  datatype ConfigError = IllegalScrollMultiplier

  /** The header's parallax scroll multiplier before any is set. */
  const DEFAULT_SCROLL_MULTIPLIER: real := 0.5

  class BaseAdapter<T> {
    /** The items, in display order. */
    var data: seq<T>
    /** Whether a first data set has been added; until then a loading view may show. */
    var hasAddData: bool
    var hasHeaderView: bool
    var hasEmptyView: bool
    var hasLoadingView: bool
    /** Whether the loading row takes the header's place rather than the row below it. */
    var showLoadingViewIgnoreHeader: bool

    /** Layout id -> view-type code. */
    var viewTypeMap: map<int, int>
    /** View-type code -> layout id. */
    var layoutIdMap: map<int, int>
    /** The last view-type code handed out. */
    var currentViewTypeValue: int

    var hasAnimationType: bool
    var hasCustomAnimator: bool
    var showItemAnimationEveryTime: bool
    /** The highest adapter position animated so far (the watermark). */
    var lastItemPosition: int

    var scrollMultiplier: real

    /** The layout id a subclass chooses for the item at a content index. */
    const itemViewLayoutId: (int, T) -> int

    /** The object invariant: a consistent registry and a multiplier in range. */
    ghost predicate Valid()
      reads this
    {
      ViewTypes.Valid(Registry()) && 0.0 <= scrollMultiplier <= 1.0
    }

    /** The registry fields as one value. */
    function Registry(): ViewTypes.Registry
      reads this
    {
      ViewTypes.Registry(viewTypeMap, layoutIdMap, currentViewTypeValue)
    }

    /** The fields slot classification reads, as one value. */
    function Layout(): Slots.Layout
      reads this
    {
      Slots.Layout(hasHeaderView, hasLoadingView, hasEmptyView, showLoadingViewIgnoreHeader,
                   hasAddData, |data|)
    }

    function HeaderViewCount(): nat
      reads this
    {
      Slots.HeaderCount(hasHeaderView)
    }

    function ItemCount(): nat
      reads this
    {
      Slots.ItemCount(Layout())
    }

    /**
     * A new adapter: a missing (null) item list becomes the empty sequence; no header, empty
     * or loading view; loading ignores the header; no data added yet; an empty registry; no
     * animation; the watermark at -1 and the multiplier at 0.5.
     */
    constructor (initialData: Option<seq<T>>, itemViewLayoutId: (int, T) -> int)
      ensures Valid()
      ensures data == (if initialData.Some? then initialData.value else [])
      ensures this.itemViewLayoutId == itemViewLayoutId
      ensures !hasAddData && !hasHeaderView && !hasEmptyView && !hasLoadingView
      ensures showLoadingViewIgnoreHeader
      ensures Registry() == ViewTypes.Initial
      ensures !hasAnimationType && !hasCustomAnimator && !showItemAnimationEveryTime
      ensures lastItemPosition == INITIAL_WATERMARK
      ensures scrollMultiplier == DEFAULT_SCROLL_MULTIPLIER
    {
      data := if initialData.Some? then initialData.value else [];
      this.itemViewLayoutId := itemViewLayoutId;
      hasAddData, hasHeaderView, hasEmptyView, hasLoadingView := false, false, false, false;
      showLoadingViewIgnoreHeader := true;
      viewTypeMap, layoutIdMap, currentViewTypeValue := map[], map[], ViewTypes.INITIAL_COUNTER;
      hasAnimationType, hasCustomAnimator, showItemAnimationEveryTime := false, false, false;
      lastItemPosition := INITIAL_WATERMARK;
      scrollMultiplier := DEFAULT_SCROLL_MULTIPLIER;
      ViewTypes.InitialValid();
    }

    /**
     * The view-type code of the row at `position`: the reserved code of a header, loading or
     * empty row, or, for an item row, the code the registry resolves for the item's layout id
     * (allocating one on first sight). Only an item row can change the registry, and its code
     * is never a reserved one.
     */
    method GetItemViewType(position: int) returns (viewType: int)
      requires Valid()
      requires Slots.ContentInRange(Layout(), position)
      modifies this`viewTypeMap, this`layoutIdMap, this`currentViewTypeValue
      ensures Valid() && Layout() == old(Layout())
      ensures Slots.Classify(Layout(), position).Content? ==> ViewTypes.IsItemCode(viewType)
      ensures match Slots.Classify(Layout(), position)
        case Header => viewType == ViewTypes.HEADER && Registry() == old(Registry())
        case Loading => viewType == ViewTypes.LOADING_VIEW && Registry() == old(Registry())
        case Empty => viewType == ViewTypes.EMPTY_VIEW && Registry() == old(Registry())
        case Content(i) =>
          && (viewType, Registry()) == ViewTypes.Resolve(old(Registry()), itemViewLayoutId(i, data[i]))
          && viewType in layoutIdMap && layoutIdMap[viewType] == itemViewLayoutId(i, data[i])
    {
      var headerCount := HeaderViewCount();
      if position < headerCount {
        if !hasAddData && showLoadingViewIgnoreHeader && hasLoadingView {
          return ViewTypes.LOADING_VIEW;
        }
        return ViewTypes.HEADER;
      } else if !hasAddData && hasLoadingView && !showLoadingViewIgnoreHeader {
        return ViewTypes.LOADING_VIEW;
      } else if |data| == 0 && hasEmptyView {
        return ViewTypes.EMPTY_VIEW;
      } else {
        var currentPosition := position - headerCount;
        var currentLayoutId := itemViewLayoutId(currentPosition, data[currentPosition]);
        ViewTypes.ResolveKeepsValid(Registry(), currentLayoutId);
        if currentLayoutId !in viewTypeMap {
          currentViewTypeValue := currentViewTypeValue + 1;
          viewTypeMap := viewTypeMap[currentLayoutId := currentViewTypeValue];
          layoutIdMap := layoutIdMap[viewTypeMap[currentLayoutId] := currentLayoutId];
        }
        viewType := viewTypeMap[currentLayoutId];
      }
    }

    /**
     * Binds the row at `position`: nothing for a header, loading or empty row; for an item row
     * the item and its index go to the bind callback and the animation gate runs for the
     * holder's adapter position.
     */
    method OnBindViewHolder(position: int, adapterPosition: int)
      returns (bound: Option<Slots.Binding<T>>, animation: Animation)
      requires Valid()
      requires Slots.ContentInRange(Layout(), position)
      modifies this`viewTypeMap, this`layoutIdMap, this`currentViewTypeValue, this`lastItemPosition
      ensures Valid() && Layout() == old(Layout())
      ensures bound.Some? <==> Slots.Classify(Layout(), position).Content?
      ensures match Slots.Classify(Layout(), position)
        case Content(i) =>
          && bound == Some(Slots.Binding(data[i], i))
          && Registry() == ViewTypes.Resolve(old(Registry()), itemViewLayoutId(i, data[i])).1
          && Decision(animation, lastItemPosition)
             == Gate(hasCustomAnimator, hasAnimationType, showItemAnimationEveryTime,
                     old(lastItemPosition), adapterPosition)
        case _ =>
          animation == NoAnimation && Registry() == old(Registry())
          && lastItemPosition == old(lastItemPosition)
    {
      var viewType := GetItemViewType(position);
      if viewType == ViewTypes.HEADER || viewType == ViewTypes.EMPTY_VIEW
         || viewType == ViewTypes.LOADING_VIEW
      {
        bound, animation := None, NoAnimation;
      } else {
        var index := position - HeaderViewCount();
        bound := Some(Slots.Binding(data[index], index));
        animation := BindItemAnimation(adapterPosition);
      }
    }

    /**
     * The entrance-animation gate for a freshly bound item at `adapterPosition`: which
     * animation starts, and the watermark afterwards.
     */
    method BindItemAnimation(adapterPosition: int) returns (animation: Animation)
      requires Valid()
      modifies this`lastItemPosition
      ensures Valid()
      ensures Decision(animation, lastItemPosition)
              == Gate(hasCustomAnimator, hasAnimationType, showItemAnimationEveryTime,
                      old(lastItemPosition), adapterPosition)
    {
      animation := NoAnimation;
      if hasCustomAnimator {
        animation := CustomAnimation;
      } else if hasAnimationType {
        if showItemAnimationEveryTime || adapterPosition > lastItemPosition {
          animation := TypedAnimation;
          lastItemPosition := adapterPosition;
        }
      }
    }

    /** The item and content index an item click at `adapterPosition` reports; None where the lookup faults. */
    function ItemClick(adapterPosition: int): (click: Option<Slots.Binding<T>>)
      reads this
      ensures click.Some? <==> 0 <= adapterPosition - HeaderViewCount() < |data|
      ensures click.Some? ==>
        click.value.position + HeaderViewCount() == adapterPosition
        && click.value.item == data[click.value.position]
    {
      var position := adapterPosition - HeaderViewCount();
      if 0 <= position < |data| then Some(Slots.Binding(data[position], position)) else None
    }

    /** Replaces the items and marks the first data set as added. */
    method AddFirstDataSet(newData: seq<T>)
      modifies this`data, this`hasAddData
      ensures data == newData && hasAddData
    {
      data := newData;
      hasAddData := true;
    }

    /** Appends items after the current ones; the loaded flag is left as it is. */
    method AddMoreDataSet(moreData: seq<T>)
      modifies this`data
      ensures data == old(data) + moreData
      ensures data[..|old(data)|] == old(data)
    {
      data := data + moreData;
    }

    /** Sets the header's parallax multiplier, rejecting a value outside [0, 1]. */
    method SetScrollMultiplier(mul: real) returns (outcome: Outcome<ConfigError>)
      requires Valid()
      modifies this`scrollMultiplier
      ensures Valid()
      ensures outcome.Pass? <==> 0.0 <= mul <= 1.0
      ensures scrollMultiplier == if outcome.Pass? then mul else old(scrollMultiplier)
    {
      if mul < 0.0 || mul > 1.0 {
        return Fail(IllegalScrollMultiplier);
      }
      scrollMultiplier := mul;
      outcome := Pass;
    }

    method AddHeaderView()
      modifies this`hasHeaderView
      ensures hasHeaderView
    {
      hasHeaderView := true;
    }

    method SetEmptyView(present: bool)
      modifies this`hasEmptyView
      ensures hasEmptyView == present
    {
      hasEmptyView := present;
    }

    method SetLoadingView(present: bool)
      modifies this`hasLoadingView
      ensures hasLoadingView == present
    {
      hasLoadingView := present;
    }

    method SetShowLoadingViewIgnoreHeader(ignoreHeader: bool)
      modifies this`showLoadingViewIgnoreHeader
      ensures showLoadingViewIgnoreHeader == ignoreHeader
    {
      showLoadingViewIgnoreHeader := ignoreHeader;
    }

    method SetItemAnimation(present: bool)
      modifies this`hasAnimationType
      ensures hasAnimationType == present
    {
      hasAnimationType := present;
    }

    method SetShowItemAnimationEveryTime(everyTime: bool)
      modifies this`showItemAnimationEveryTime
      ensures showItemAnimationEveryTime == everyTime
    {
      showItemAnimationEveryTime := everyTime;
    }

    method SetCustomItemAnimator(present: bool)
      modifies this`hasCustomAnimator
      ensures hasCustomAnimator == present
    {
      hasCustomAnimator := present;
    }
  }

  /**
   * An item click at the position of an item row reports the same item and index that were
   * bound there: both subtract the header rows from the adapter position.
   */
  lemma ClickFindsBoundItem<T>(a: BaseAdapter<T>, position: int)
    requires Slots.Classify(a.Layout(), position).Content?
    requires Slots.ContentInRange(a.Layout(), position)
    ensures var i := Slots.Classify(a.Layout(), position).index;
      a.ItemClick(position) == Some(Slots.Binding(a.data[i], i))
  {
  }
}
