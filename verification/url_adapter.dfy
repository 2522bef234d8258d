/** UrlAdapter: binds a shared list of strings to numbered rows, keeps one
    selected position, and forwards delete-button clicks to its owner. */
module UrlAdapters {
  import opened Platform

  /** What onBindViewHolder puts on one row. */
  datatype UrlRow = UrlRow(text: string, number: string, highlighted: bool, deleteVisible: bool)

  class UrlAdapter {
    /** The list shown, shared by reference with the adapter's owner. */
    const urlList: StringList
    const showDeleteButton: bool
    var selectedPosition: int
    /** Redraw requests sent to the list view, oldest first. */
    var notices: seq<Notice>

    constructor (urlList: StringList, showDeleteButton: bool)
      ensures this.urlList == urlList && this.showDeleteButton == showDeleteButton
      ensures selectedPosition == NoPosition && notices == []
      ensures HighlightedRows() == {}
    {
      this.urlList := urlList;
      this.showDeleteButton := showDeleteButton;
      selectedPosition := NoPosition;
      notices := [];
    }

    /** getItemCount: one row per list element. */
    function ItemCount(): (count: nat)
      reads this, urlList
      ensures count == |urlList.items|
    {
      |urlList.items|
    }

    /** The selected position as callers read it back: the row drawn
        highlighted, when it is a row of the list. */
    function GetSelectedPosition(): (position: int)
      reads this, urlList
      ensures 0 <= position < ItemCount() ==> HighlightedRows() == {position}
      ensures !(0 <= position < ItemCount()) ==> HighlightedRows() == {}
    {
      selectedPosition
    }

    /** onBindViewHolder for the row at `position`: the element's text, the
        1-based row number, the highlight of the selected row and the delete
        button's visibility. */
    function BindRow(position: int): (row: UrlRow)
      reads this, urlList
      requires 0 <= position < |urlList.items|
      ensures row.text == urlList.items[position]
      ensures row.number == Decimal(position + 1)
      ensures row.highlighted <==> position == selectedPosition
      ensures row.deleteVisible <==> showDeleteButton
    {
      UrlRow(urlList.items[position], Decimal(position + 1), selectedPosition == position, showDeleteButton)
    }

    /** The rows drawn highlighted: at most one, and none while the selection
        is NO_POSITION or outside the list. */
    function HighlightedRows(): (rows: set<int>)
      reads this, urlList
      ensures forall p :: p in rows <==> 0 <= p < |urlList.items| && BindRow(p).highlighted
      ensures |rows| <= 1
      ensures !(0 <= selectedPosition < |urlList.items|) ==> rows == {}
    {
      if 0 <= selectedPosition < |urlList.items| then {selectedPosition} else {}
    }

    /** The texts of the rows the list view binds, top to bottom, for
        positions 0 up to getItemCount: exactly the shared list, in order. */
    function ShownTexts(): (texts: seq<string>)
      reads this, urlList
      ensures texts == urlList.items
    {
      seq(ItemCount(), (p: int) requires 0 <= p < ItemCount() reads this, urlList => BindRow(p).text)
    }

    /** setSelectedPosition: no bounds check; the old and the new row are
        marked for redraw. */
    method SetSelectedPosition(position: int)
      modifies this`selectedPosition, this`notices
      ensures selectedPosition == position
      ensures notices == old(notices) + [ItemChanged(old(selectedPosition)), ItemChanged(position)]
    {
      notices := notices + [ItemChanged(selectedPosition)];
      selectedPosition := position;
      notices := notices + [ItemChanged(selectedPosition)];
    }

    /** A click on a row: the selection moves to the row's adapter position,
        unchecked (it may be NO_POSITION), and no delete is requested. */
    method ClickRow(adapterPosition: int)
      modifies this`selectedPosition, this`notices
      ensures selectedPosition == adapterPosition
      ensures notices == old(notices) + [ItemChanged(old(selectedPosition)), ItemChanged(adapterPosition)]
    {
      notices := notices + [ItemChanged(selectedPosition)];
      selectedPosition := adapterPosition;
      notices := notices + [ItemChanged(selectedPosition)];
    }

    /** A click on a row's delete button, which can only be clicked while it is
        shown: onDeleteClick receives the position held by the button's
        listener, and the selection is left as it was. */
    method ClickDelete(listenerPosition: int) returns (deleteArgument: int)
      requires showDeleteButton
      ensures deleteArgument == listenerPosition
      ensures unchanged(this)
    {
      deleteArgument := listenerPosition;
    }

    method NotifyItemInserted(position: int)
      modifies this`notices
      ensures notices == old(notices) + [ItemInserted(position)]
    {
      notices := notices + [ItemInserted(position)];
    }

    method NotifyItemRemoved(position: int)
      modifies this`notices
      ensures notices == old(notices) + [ItemRemoved(position)]
    {
      notices := notices + [ItemRemoved(position)];
    }
  }

  /** Distinct rows carry distinct numbers. */
  lemma RowNumbersDistinct(p: nat, q: nat)
    requires Decimal(p + 1) == Decimal(q + 1)
    ensures p == q
  {
    DecimalInjective(p + 1, q + 1);
  }

  // The delete listener as written captures the `position` argument of
  // onBindViewHolder. After notifyItemRemoved the list view moves the rows
  // below the removed one up without binding them again, so their listeners
  // keep the position they were bound with. The functions below follow those
  // captured positions, row by row in display order.

  /** Captured positions right after every row has been bound. */
  function FreshBindings(n: nat): (bindings: seq<int>)
    ensures |bindings| == n
    ensures forall k :: 0 <= k < n ==> bindings[k] == k
  {
    seq(n, k => k)
  }

  /** Captured positions after the row on display at `row` is removed: the
      others keep theirs. */
  function BindingsAfterRemoval(bindings: seq<int>, row: nat): (after: seq<int>)
    requires row < |bindings|
    ensures |after| == |bindings| - 1
    ensures forall k :: 0 <= k < row ==> after[k] == bindings[k]
    ensures forall k :: row <= k < |after| ==> after[k] == bindings[k + 1]
  {
    RemovedAt(bindings, row)
  }

  /** After one removal from freshly bound rows, every row below the removed
      one holds a position one too large: its delete button names the element
      after the one it shows, and the last row's names an index past the end of
      the shortened list. */
  lemma StaleBindingsAfterRemoval(n: nat, row: nat)
    requires row < n
    ensures var after := BindingsAfterRemoval(FreshBindings(n), row);
      && |after| == n - 1
      && (forall k :: 0 <= k < row ==> after[k] == k)
      && (forall k :: row <= k < n - 1 ==> after[k] == k + 1)
      && (row < n - 1 ==> after[n - 2] == n - 1)
  {
  }

  /** Three urls, the first deleted: the row showing "c" asks for index 2 of a
      two-element list, and the row showing "b" deletes "c". */
  lemma StaleDeleteCounterexample()
    ensures var urls := RemovedAt(["a", "b", "c"], 0);
      var after := BindingsAfterRemoval(FreshBindings(3), 0);
      && urls == ["b", "c"]
      && after[1] == |urls|
      && urls[0] == "b" && RemovedAt(urls, after[0]) == ["b"]
  {
    var urls := RemovedAt(["a", "b", "c"], 0);
    assert urls == ["b", "c"];
    var after := BindingsAfterRemoval(FreshBindings(3), 0);
    assert after == [1, 2];
    assert RemovedAt(urls, 1) == ["b"];
  }
}
