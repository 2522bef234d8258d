/** The directional focus map of the URL entry screen, as its activity-level
    key dispatch implements it. */
module FocusMap {
  import opened Platform

  /** The controls that can hold focus; UrlList stands for the list and any
      row or button inside it. */
  datatype Focus = UrlInput | AddButton | ClearButton | PlayButton | UrlList

  /** Whether the activity consumes a key, and where focus is afterwards. */
  datatype Routing = Consumed(next: Focus) | PassedOn

  predicate IsDirection(k: KeyCode) {
    k == DpadUp || k == DpadDown || k == DpadLeft || k == DpadRight
  }

  /** The activity's answer to a directional key pressed with `focus`.
      UP and DOWN are always consumed, focus staying put where the table has
      no entry; LEFT and RIGHT are consumed only from the clear button and the
      input respectively, and otherwise go to the platform. */
  function Route(focus: Focus, key: KeyCode, inDeleteMode: bool): (r: Routing)
    requires IsDirection(key)
    ensures key == DpadUp || key == DpadDown ==> r.Consumed?
    ensures key == DpadLeft ==> (r.Consumed? <==> focus == ClearButton)
    ensures key == DpadRight ==> (r.Consumed? <==> focus == UrlInput)
    ensures r.Consumed? && focus == ClearButton && key != DpadLeft ==> r.next == ClearButton
  {
    match key
    case DpadDown =>
      Consumed(
        if focus == UrlInput then AddButton
        else if focus == AddButton then UrlList
        else if focus == UrlList && !inDeleteMode then PlayButton
        else focus)
    case DpadUp =>
      Consumed(
        if focus == PlayButton then UrlList
        else if focus == UrlList && !inDeleteMode then AddButton
        else if focus == AddButton then UrlInput
        else focus)
    case DpadLeft =>
      if focus == ClearButton then Consumed(UrlInput) else PassedOn
    case DpadRight =>
      if focus == UrlInput then Consumed(ClearButton) else PassedOn
  }

  function Down(f: Focus): (next: Focus) {
    Route(f, DpadDown, false).next
  }

  function Up(f: Focus): (next: Focus) {
    Route(f, DpadUp, false).next
  }

  /** Outside delete mode DOWN is undone by UP everywhere except at the play
      button, where DOWN has nowhere to go. */
  lemma DownThenUp(f: Focus)
    ensures f != PlayButton ==> Up(Down(f)) == f
    ensures Up(Down(PlayButton)) == UrlList
  {
  }

  /** Outside delete mode UP is undone by DOWN everywhere except at the input,
      where UP has nowhere to go. */
  lemma UpThenDown(f: Focus)
    ensures f != UrlInput ==> Down(Up(f)) == f
    ensures Down(Up(UrlInput)) == AddButton
  {
  }

  /** The vertical chain input, add, list, play: three DOWN presses reach the
      play button from the input and three UP presses come back. */
  lemma VerticalChain()
    ensures Down(UrlInput) == AddButton && Down(AddButton) == UrlList && Down(UrlList) == PlayButton
    ensures Up(Up(Up(PlayButton))) == UrlInput
  {
  }

  /** RIGHT from the input and LEFT back from the clear button undo each other. */
  lemma RightThenLeft()
    ensures Route(Route(UrlInput, DpadRight, false).next, DpadLeft, false) == Consumed(UrlInput)
  {
  }

  /** In delete mode UP and DOWN leave the list focused; the rest of the map is
      as outside it. */
  lemma DeleteModeHoldsList(f: Focus, key: KeyCode)
    requires IsDirection(key)
    ensures f == UrlList && (key == DpadUp || key == DpadDown) ==> Route(f, key, true) == Consumed(UrlList)
    ensures f != UrlList ==> Route(f, key, true) == Route(f, key, false)
  {
  }
}
