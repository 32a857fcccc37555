/**
 * Slot classification of the current adapter: which kind of row a list position shows
 * (header, loading placeholder, empty placeholder or a data item) and how many rows the
 * adapter reports. Both are pure functions of the adapter's fields, gathered in `Layout`.
 */
module Slots {

  /** The kind of row at a position; a data item carries its index into the item sequence. */
  datatype Slot = Header | Loading | Empty | Content(index: int)

  /**
   * The fields the classification reads: which auxiliary views are set, the
   * loading-ignores-header flag, whether a first data set has been added, and the number
   * of items.
   */
  datatype Layout = Layout(
    hasHeaderView: bool,
    hasLoadingView: bool,
    hasEmptyView: bool,
    loadingIgnoresHeader: bool,
    hasAddData: bool,
    size: nat)

  /** An item handed to the bind or click callback, with its index in the item sequence. */
  datatype Binding<T> = Binding(item: T, position: int)

  /**
   * The number of header rows: one when a header view is set, none otherwise. Both adapter
   * versions count header rows this way.
   */
  function HeaderCount(hasHeaderView: bool): (n: nat)
    ensures n <= 1
    ensures n == 1 <==> hasHeaderView
  {
    if hasHeaderView then 1 else 0
  }

  /** The empty placeholder replaces the (missing) items. */
  predicate ShowsEmpty(l: Layout)
  {
    l.size == 0 && l.hasEmptyView
  }

  /** The loading placeholder stands in the header's place (loading ignores the header). */
  predicate LoadingInHeader(l: Layout)
  {
    !l.hasAddData && l.loadingIgnoresHeader && l.hasLoadingView
  }

  /** The loading placeholder stands below the header. */
  predicate LoadingBelowHeader(l: Layout)
  {
    !l.hasAddData && l.hasLoadingView && !l.loadingIgnoresHeader
  }

  /**
   * The row count: the header rows, then either the single empty placeholder or one row
   * per item. A loading placeholder is never counted.
   */
  function ItemCount(l: Layout): (n: nat)
    ensures n >= HeaderCount(l.hasHeaderView)
    ensures ShowsEmpty(l) ==> n == HeaderCount(l.hasHeaderView) + 1
    ensures !ShowsEmpty(l) ==> n - HeaderCount(l.hasHeaderView) == l.size
  {
    HeaderCount(l.hasHeaderView) + (if ShowsEmpty(l) then 1 else l.size)
  }

  /**
   * The row kind at `position`, first matching rule winning: a header position shows the
   * loading placeholder or the header; below it the loading placeholder, then the empty
   * placeholder, then the item at `position` minus the header rows. An item row inside the
   * row count always names an existing item.
   */
  function Classify(l: Layout, position: int): (s: Slot)
    ensures position < HeaderCount(l.hasHeaderView) ==> s == Header || s == Loading
    ensures s == Loading ==> !l.hasAddData && l.hasLoadingView
    ensures s == Empty ==> ShowsEmpty(l)
    ensures s.Content? ==> s.index == position - HeaderCount(l.hasHeaderView) >= 0
    ensures s.Content? ==> (s.index < l.size <==> position < ItemCount(l))
  {
    if position < HeaderCount(l.hasHeaderView) then
      if LoadingInHeader(l) then Loading else Header
    else if LoadingBelowHeader(l) then
      Loading
    else if ShowsEmpty(l) then
      Empty
    else
      Content(position - HeaderCount(l.hasHeaderView))
  }

  /** Looking an item up for `position` cannot fail: an item row names an existing item. */
  predicate ContentInRange(l: Layout, position: int)
  {
    Classify(l, position).Content? ==> Classify(l, position).index < l.size
  }

  /** Every position the adapter reports can be classified without an index fault. */
  lemma RowsInRange(l: Layout, position: int)
    requires position < ItemCount(l)
    ensures ContentInRange(l, position)
  {
  }

  /**
   * A header position shows the loading placeholder exactly when no data set has been added,
   * loading ignores the header and a loading view is set; otherwise it shows the header.
   */
  lemma HeaderPositionSlot(l: Layout, position: int)
    requires position < HeaderCount(l.hasHeaderView)
    ensures Classify(l, position) == Loading <==> LoadingInHeader(l)
    ensures Classify(l, position) == Header <==> !LoadingInHeader(l)
  {
  }

  /**
   * While loading below the header, every position from the header count on is the loading
   * placeholder: loading pre-empts both the empty placeholder and the items.
   */
  lemma LoadingPreemptsRows(l: Layout, position: int)
    requires LoadingBelowHeader(l) && position >= HeaderCount(l.hasHeaderView)
    ensures Classify(l, position) == Loading
  {
  }

  /** With no header and loading ignoring the header, no position is ever the loading placeholder. */
  lemma NoHeaderNoLoadingInHeader(l: Layout, position: int)
    requires !l.hasHeaderView && l.loadingIgnoresHeader && position >= 0
    ensures Classify(l, position) != Loading
  {
  }

  /** Once a first data set has been added (or with no loading view) nothing shows as loading. */
  lemma LoadedShowsNoLoading(l: Layout, position: int)
    requires l.hasAddData || !l.hasLoadingView
    ensures Classify(l, position) != Loading
  {
  }

  /**
   * The row count does not depend on the loading view, the loading flags or whether data has
   * been added: the loading placeholder is never counted. In particular with no header, no
   * empty view and no items it is 0, so a loading placeholder below the header is never shown.
   */
  lemma CountIgnoresLoading(l: Layout)
    ensures ItemCount(l) == ItemCount(l.(hasLoadingView := false, loadingIgnoresHeader := false, hasAddData := true))
    ensures !l.hasHeaderView && !l.hasEmptyView && l.size == 0 ==> ItemCount(l) == 0
  {
  }

  /**
   * When the empty placeholder applies and loading does not pre-empt it, the adapter shows
   * the header rows and one empty row right below them.
   */
  lemma EmptyRowShown(l: Layout)
    requires ShowsEmpty(l) && !LoadingBelowHeader(l)
    ensures ItemCount(l) == HeaderCount(l.hasHeaderView) + 1
    ensures Classify(l, HeaderCount(l.hasHeaderView)) == Empty
  {
  }

  /**
   * When neither loading below the header nor the empty placeholder applies, the rows are
   * the header rows followed by the items in order: item i is at position header count + i,
   * and every row past the header is an item.
   */
  lemma ItemsFollowHeader(l: Layout)
    requires !LoadingBelowHeader(l) && !ShowsEmpty(l)
    ensures ItemCount(l) == HeaderCount(l.hasHeaderView) + l.size
    ensures forall i :: 0 <= i < l.size ==> Classify(l, HeaderCount(l.hasHeaderView) + i) == Content(i)
    ensures forall p :: HeaderCount(l.hasHeaderView) <= p < ItemCount(l) ==> Classify(l, p).Content?
  {
  }

  /**
   * Appending items keeps every item row where it was: a position that showed item i still
   * shows item i.
   */
  lemma AppendKeepsItems(l: Layout, position: int, added: nat)
    requires Classify(l, position).Content?
    ensures Classify(l.(size := l.size + added), position) == Classify(l, position)
  {
  }

  /** Adding the first data set turns a loading row below the header into an item or empty row. */
  lemma FirstDataSetEndsLoading(l: Layout, size: nat, position: int)
    requires position >= HeaderCount(l.hasHeaderView)
    ensures Classify(l.(hasAddData := true, size := size), position) ==
      if size == 0 && l.hasEmptyView then Empty else Content(position - HeaderCount(l.hasHeaderView))
  {
  }
}
