/**
 * The older adapter: an item sequence with an optional header row, the same lazy view-type
 * registry and the same entrance-animation watermark, but no loading or empty rows and no
 * "first data set" flag.
 */
module LibraryAdapter {
  import opened Wrappers
  import ViewTypes
  import Slots
  import opened AnimationGate

  /** The row count: one row per item plus the header rows. */
  function ItemCount(hasHeaderView: bool, size: nat): (n: nat)
    ensures n - Slots.HeaderCount(hasHeaderView) == size
  {
    size + Slots.HeaderCount(hasHeaderView)
  }

  /**
   * The row kind at `position`: a header position is the header, every other position is
   * the item at `position` minus the header rows. There are no loading or empty rows.
   */
  function Classify(hasHeaderView: bool, position: int): (s: Slots.Slot)
    ensures s.Header? || s.Content?
    ensures s.Header? <==> position < Slots.HeaderCount(hasHeaderView)
    ensures s.Content? ==> s.index == position - Slots.HeaderCount(hasHeaderView) >= 0
  {
    if position < Slots.HeaderCount(hasHeaderView) then Slots.Header
    else Slots.Content(position - Slots.HeaderCount(hasHeaderView))
  }

  /** Looking an item up for `position` cannot fail. */
  predicate ContentInRange(hasHeaderView: bool, size: nat, position: int)
  {
    Classify(hasHeaderView, position).Content? ==> Classify(hasHeaderView, position).index < size
  }

  /** Every position below the row count is the header or an existing item. */
  lemma RowsInRange(hasHeaderView: bool, size: nat, position: int)
    requires position < ItemCount(hasHeaderView, size)
    ensures ContentInRange(hasHeaderView, size, position)
  {
  }

  /**
   * The older adapter behaves like the current one with neither a loading view nor an
   * empty view set: same row count, same row kinds, whatever the remaining flags.
   */
  lemma AgreesWithCurrent(l: Slots.Layout, position: int)
    requires !l.hasLoadingView && !l.hasEmptyView
    ensures ItemCount(l.hasHeaderView, l.size) == Slots.ItemCount(l)
    ensures Classify(l.hasHeaderView, position) == Slots.Classify(l, position)
  {
  }

  class BaseAdapter<T> {
    /** The items, in display order. */
    var data: seq<T>
    var hasHeaderView: bool

    /** Layout id -> view-type code. */
    var viewTypeMap: map<int, int>
    /** View-type code -> layout id. */
    var layoutIdMap: map<int, int>
    /** The last view-type code handed out. */
    var currentViewTypeValue: int

    var hasAnimationType: bool
    var hasCustomAnimator: bool
    var showItemAnimationEveryTime: bool
    /** The highest adapter position animated so far (the watermark). */
    var lastItemPosition: int

    /** The layout id a subclass chooses for the item at a content index. */
    const itemViewLayoutId: (int, T) -> int

    /** The object invariant: a consistent registry. */
    ghost predicate Valid()
      reads this
    {
      ViewTypes.Valid(Registry())
    }

    /** The registry fields as one value. */
    function Registry(): ViewTypes.Registry
      reads this
    {
      ViewTypes.Registry(viewTypeMap, layoutIdMap, currentViewTypeValue)
    }

    function HeaderViewCount(): nat
      reads this
    {
      Slots.HeaderCount(hasHeaderView)
    }

    /**
     * A new adapter: a missing (null) item list becomes the empty sequence; no header; an
     * empty registry; no animation and the watermark at -1.
     */
    constructor (initialData: Option<seq<T>>, itemViewLayoutId: (int, T) -> int)
      ensures Valid()
      ensures data == (if initialData.Some? then initialData.value else [])
      ensures this.itemViewLayoutId == itemViewLayoutId
      ensures !hasHeaderView
      ensures Registry() == ViewTypes.Initial
      ensures !hasAnimationType && !hasCustomAnimator && !showItemAnimationEveryTime
      ensures lastItemPosition == INITIAL_WATERMARK
    {
      data := if initialData.Some? then initialData.value else [];
      this.itemViewLayoutId := itemViewLayoutId;
      hasHeaderView := false;
      viewTypeMap, layoutIdMap, currentViewTypeValue := map[], map[], ViewTypes.INITIAL_COUNTER;
      hasAnimationType, hasCustomAnimator, showItemAnimationEveryTime := false, false, false;
      lastItemPosition := INITIAL_WATERMARK;
      ViewTypes.InitialValid();
    }

    /**
     * The view-type code of the row at `position`: the reserved header code for a header
     * position, otherwise the code the registry resolves for the item's layout id
     * (allocating one on first sight), which is never the header code.
     */
    method GetItemViewType(position: int) returns (viewType: int)
      requires Valid()
      requires ContentInRange(hasHeaderView, |data|, position)
      modifies this`viewTypeMap, this`layoutIdMap, this`currentViewTypeValue
      ensures Valid()
      ensures Classify(hasHeaderView, position).Content? ==> ViewTypes.IsItemCode(viewType)
      ensures match Classify(hasHeaderView, position)
        case Content(i) =>
          && (viewType, Registry()) == ViewTypes.Resolve(old(Registry()), itemViewLayoutId(i, data[i]))
          && viewType in layoutIdMap && layoutIdMap[viewType] == itemViewLayoutId(i, data[i])
        case _ => viewType == ViewTypes.HEADER && Registry() == old(Registry())
    {
      if position < HeaderViewCount() {
        return ViewTypes.HEADER;
      } else {
        var currentPosition := position - HeaderViewCount();
        var currentLayoutId := itemViewLayoutId(currentPosition, data[currentPosition]);
        ViewTypes.ResolveKeepsValid(Registry(), currentLayoutId);
        if currentLayoutId !in viewTypeMap {
          currentViewTypeValue := currentViewTypeValue + 1;
          viewTypeMap := viewTypeMap[currentLayoutId := currentViewTypeValue];
          layoutIdMap := layoutIdMap[viewTypeMap[currentLayoutId] := currentLayoutId];
        }
        viewType := viewTypeMap[currentLayoutId];
      }
    }

    /**
     * Binds the row at `position`: nothing for the header; for an item row the item and its
     * index go to the bind callback and the animation gate runs for the holder's adapter
     * position.
     */
    method OnBindViewHolder(position: int, adapterPosition: int)
      returns (bound: Option<Slots.Binding<T>>, animation: Animation)
      requires Valid()
      requires ContentInRange(hasHeaderView, |data|, position)
      modifies this`viewTypeMap, this`layoutIdMap, this`currentViewTypeValue, this`lastItemPosition
      ensures Valid()
      ensures bound.Some? <==> Classify(hasHeaderView, position).Content?
      ensures match Classify(hasHeaderView, position)
        case Content(i) =>
          && bound == Some(Slots.Binding(data[i], i))
          && Registry() == ViewTypes.Resolve(old(Registry()), itemViewLayoutId(i, data[i])).1
          && Decision(animation, lastItemPosition)
             == Gate(hasCustomAnimator, hasAnimationType, showItemAnimationEveryTime,
                     old(lastItemPosition), adapterPosition)
        case _ =>
          animation == NoAnimation && Registry() == old(Registry())
          && lastItemPosition == old(lastItemPosition)
    {
      var viewType := GetItemViewType(position);
      if viewType == ViewTypes.HEADER {
        bound, animation := None, NoAnimation;
      } else {
        var index := position - HeaderViewCount();
        bound := Some(Slots.Binding(data[index], index));
        animation := BindItemAnimation(adapterPosition);
      }
    }

    /**
     * The entrance-animation gate for a freshly bound item at `adapterPosition`: which
     * animation starts, and the watermark afterwards.
     */
    method BindItemAnimation(adapterPosition: int) returns (animation: Animation)
      requires Valid()
      modifies this`lastItemPosition
      ensures Valid()
      ensures Decision(animation, lastItemPosition)
              == Gate(hasCustomAnimator, hasAnimationType, showItemAnimationEveryTime,
                      old(lastItemPosition), adapterPosition)
    {
      animation := NoAnimation;
      if hasCustomAnimator {
        animation := CustomAnimation;
      } else if hasAnimationType {
        if showItemAnimationEveryTime || adapterPosition > lastItemPosition {
          animation := TypedAnimation;
          lastItemPosition := adapterPosition;
        }
      }
    }

    /** The item and content index an item click at `adapterPosition` reports; None where the lookup faults. */
    function ItemClick(adapterPosition: int): (click: Option<Slots.Binding<T>>)
      reads this
      ensures click.Some? <==> 0 <= adapterPosition - HeaderViewCount() < |data|
      ensures click.Some? ==>
        click.value.position + HeaderViewCount() == adapterPosition
        && click.value.item == data[click.value.position]
    {
      var position := adapterPosition - HeaderViewCount();
      if 0 <= position < |data| then Some(Slots.Binding(data[position], position)) else None
    }

    /** Replaces the items. */
    method AddFirstDataSet(newData: seq<T>)
      modifies this`data
      ensures data == newData
    {
      data := newData;
    }

    /** Appends items after the current ones. */
    method AddMoreDataSet(moreData: seq<T>)
      modifies this`data
      ensures data == old(data) + moreData
      ensures data[..|old(data)|] == old(data)
    {
      data := data + moreData;
    }

    method AddHeaderView()
      modifies this`hasHeaderView
      ensures hasHeaderView
    {
      hasHeaderView := true;
    }

    method SetItemAnimation(present: bool)
      modifies this`hasAnimationType
      ensures hasAnimationType == present
    {
      hasAnimationType := present;
    }

    method SetShowItemAnimationEveryTime(everyTime: bool)
      modifies this`showItemAnimationEveryTime
      ensures showItemAnimationEveryTime == everyTime
    {
      showItemAnimationEveryTime := everyTime;
    }

    method SetCustomItemAnimator(present: bool)
      modifies this`hasCustomAnimator
      ensures hasCustomAnimator == present
    {
      hasCustomAnimator := present;
    }
  }

  /**
   * An item click at the position of an item row reports the same item and index that were
   * bound there.
   */
  lemma ClickFindsBoundItem<T>(a: BaseAdapter<T>, position: int)
    requires Classify(a.hasHeaderView, position).Content?
    requires ContentInRange(a.hasHeaderView, |a.data|, position)
    ensures var i := Classify(a.hasHeaderView, position).index;
      a.ItemClick(position) == Some(Slots.Binding(a.data[i], i))
  {
  }
}
