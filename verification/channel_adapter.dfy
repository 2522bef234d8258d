/** ChannelAdapter: binds a read-only list of channel names to rows, keeps one
    selected position and reports a clicked channel by its name. */
module ChannelAdapters {
  import opened Platform

  /** What onBindViewHolder puts on one row. */
  datatype ChannelRow = ChannelRow(text: string, highlighted: bool)

  class ChannelAdapter {
    /** The list shown; the adapter never changes it. */
    const channelList: seq<string>
    var selectedPosition: int
    /** Redraw requests sent to the list view, oldest first. */
    var notices: seq<Notice>
    /** The arguments of every onChannelClick call, oldest first. */
    var channelClicks: seq<string>

    constructor (channelList: seq<string>)
      ensures this.channelList == channelList
      ensures selectedPosition == NoPosition && notices == [] && channelClicks == []
      ensures HighlightedRows() == {}
    {
      this.channelList := channelList;
      selectedPosition := NoPosition;
      notices := [];
      channelClicks := [];
    }

    /** getItemCount: one row per channel. */
    function ItemCount(): (count: nat)
      ensures count == |channelList|
    {
      |channelList|
    }

    /** onBindViewHolder for the row at `position`. */
    function BindRow(position: int): (row: ChannelRow)
      reads this
      requires 0 <= position < |channelList|
      ensures row.text == channelList[position]
      ensures row.highlighted <==> position == selectedPosition
    {
      ChannelRow(channelList[position], selectedPosition == position)
    }

    /** The rows drawn highlighted: at most one, none while nothing is selected. */
    function HighlightedRows(): (rows: set<int>)
      reads this
      ensures forall p :: p in rows <==> 0 <= p < |channelList| && BindRow(p).highlighted
      ensures |rows| <= 1
      ensures selectedPosition == NoPosition ==> rows == {}
    {
      if 0 <= selectedPosition < |channelList| then {selectedPosition} else {}
    }

    /** The texts of the rows the list view binds, top to bottom, for
        positions 0 up to getItemCount: exactly the channel list, in order. */
    function ShownTexts(): (texts: seq<string>)
      reads this
      ensures texts == channelList
    {
      seq(ItemCount(), (p: int) requires 0 <= p < ItemCount() reads this => BindRow(p).text)
    }

    /** A click on a row. The list view reports either NO_POSITION or a row of
        the list; NO_POSITION is ignored, any other position becomes the
        selection, the old and new rows are redrawn and the callback receives
        the channel's name once. */
    method Click(adapterPosition: int)
      requires adapterPosition == NoPosition || 0 <= adapterPosition < |channelList|
      modifies this
      ensures adapterPosition == NoPosition ==> unchanged(this)
      ensures adapterPosition != NoPosition ==>
        && selectedPosition == adapterPosition
        && notices == old(notices) + [ItemChanged(old(selectedPosition)), ItemChanged(adapterPosition)]
        && channelClicks == old(channelClicks) + [channelList[adapterPosition]]
        && HighlightedRows() == {adapterPosition}
    {
      if adapterPosition != NoPosition {
        notices := notices + [ItemChanged(selectedPosition)];
        selectedPosition := adapterPosition;
        notices := notices + [ItemChanged(selectedPosition)];
        channelClicks := channelClicks + [channelList[adapterPosition]];
      }
    }

    /** setSelectedPosition: moves the selection without a bounds check and
        without calling the click callback. */
    method SetSelectedPosition(position: int)
      modifies this`selectedPosition, this`notices
      ensures selectedPosition == position
      ensures notices == old(notices) + [ItemChanged(old(selectedPosition)), ItemChanged(position)]
    {
      notices := notices + [ItemChanged(selectedPosition)];
      selectedPosition := position;
      notices := notices + [ItemChanged(selectedPosition)];
    }
  }
}
