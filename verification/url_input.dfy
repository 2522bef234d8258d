/** The URL entry screen: an editable list of stream URLs shown through a
    UrlAdapter with delete buttons, a text input, add/clear/play buttons and
    an activity-level D-pad focus map. */
module UrlInput {
  import opened Platform
  import opened UrlAdapters
  import opened FocusMap

  /** Kotlin's String?.isNullOrEmpty(). */
  predicate IsNullOrEmpty(s: Option<string>) {
    s.None? || |s.value| == 0
  }

  /** The notice shown at creation for the inbound ERROR_MESSAGE extra: a
      missing or empty extra shows nothing, any other message is shown as it
      is, and no empty notice is ever shown. */
  function ErrorNotice(errorMessage: Option<string>): (notice: Option<string>)
    ensures errorMessage == None || errorMessage == Some("") ==> notice == None
    ensures forall m :: errorMessage == Some(m) && m != "" ==> notice == Some(m)
    ensures notice.Some? ==> notice.value != ""
  {
    if !IsNullOrEmpty(errorMessage) then errorMessage else None
  }

  class UrlInputActivity {
    /** The URL list, shared with the adapter. */
    const urls: StringList
    const adapter: UrlAdapter
    const errorNotice: Option<string>
    /** The text of the input field. */
    var inputText: string
    var focus: Focus
    /** Only the list's own ENTER listener sets it, and the activity's dispatch
        consumes ENTER before that listener runs, so it stays false. */
    var inDeleteMode: bool
    /** The lists carried by every launch of the player screen, oldest first. */
    var launches: seq<seq<string>>

    ghost predicate Valid()
      reads this, adapter
    {
      adapter.urlList == urls && adapter.showDeleteButton && !inDeleteMode
    }

    /** onCreate, with the inbound error message (null as None) and the control
        the platform gives focus to first. */
    constructor (errorMessage: Option<string>, initialFocus: Focus)
      ensures Valid() && fresh(urls) && fresh(adapter)
      ensures urls.items == [] && adapter.selectedPosition == NoPosition && adapter.notices == []
      ensures inputText == "" && focus == initialFocus && launches == []
      ensures errorNotice == ErrorNotice(errorMessage)
    {
      var list := new StringList([]);
      urls := list;
      adapter := new UrlAdapter(list, true);
      errorNotice := ErrorNotice(errorMessage);
      inputText := "";
      focus := initialFocus;
      inDeleteMode := false;
      launches := [];
    }

    /** The adapter shows the activity's own list, every row with its delete
        button, so an add or a delete on the list is what the rows show. */
    lemma AdapterShowsTheList()
      requires Valid()
      ensures adapter.ShownTexts() == urls.items
      ensures forall p :: 0 <= p < adapter.ItemCount() ==> adapter.BindRow(p).deleteVisible
    {
    }

    /** The user edits the input field. */
    method TypeText(text: string)
      modifies this`inputText
      ensures inputText == text
    {
      inputText := text;
    }

    /** addUrl: appends and tells the adapter a row was inserted at the end. */
    method AddUrl(url: string)
      requires Valid()
      modifies urls, adapter`notices
      ensures Valid()
      ensures urls.items == old(urls.items) + [url]
      ensures adapter.notices == old(adapter.notices) + [ItemInserted(adapter.ItemCount() - 1)]
      ensures adapter.BindRow(adapter.ItemCount() - 1).text == url
    {
      urls.Add(url);
      adapter.NotifyItemInserted(|urls.items| - 1);
    }

    /** deleteUrl: removes one element; removeAt does not check the index, so
        the caller must pass one in range. */
    method DeleteUrl(position: int)
      requires Valid() && 0 <= position < |urls.items|
      modifies urls, adapter`notices
      ensures Valid()
      ensures urls.items == RemovedAt(old(urls.items), position)
      ensures adapter.notices == old(adapter.notices) + [ItemRemoved(position)]
    {
      urls.RemoveAt(position);
      adapter.NotifyItemRemoved(position);
    }

    /** The add button: a non-empty input is appended at the end, the input is
        cleared and takes focus; an empty input changes nothing. */
    method AddClicked()
      requires Valid()
      modifies this`inputText, this`focus, urls, adapter`notices
      ensures Valid()
      ensures old(inputText) != "" ==>
        && urls.items == old(urls.items) + [old(inputText)]
        && adapter.notices == old(adapter.notices) + [ItemInserted(|old(urls.items)|)]
        && inputText == "" && focus == UrlInput
      ensures old(inputText) == "" ==> unchanged(this, urls, adapter)
    {
      if inputText != "" {
        AddUrl(inputText);
        inputText := "";
        focus := UrlInput;
      }
    }

    /** The clear button: empties the input and gives it focus; the list is
        untouched. */
    method ClearClicked()
      modifies this`inputText, this`focus
      ensures inputText == "" && focus == UrlInput
    {
      inputText := "";
      focus := UrlInput;
    }

    /** The play button: launches the player with a copy of the list when it is
        not empty, and does nothing otherwise. */
    method PlayClicked()
      modifies this`launches
      ensures |urls.items| > 0 ==> launches == old(launches) + [urls.items]
      ensures |urls.items| == 0 ==> launches == old(launches)
    {
      if |urls.items| > 0 {
        launches := launches + [urls.items];
      }
    }

    /** A click on a row: the adapter's selection moves to it. */
    method RowClicked(adapterPosition: int)
      requires Valid()
      modifies adapter`selectedPosition, adapter`notices
      ensures Valid()
      ensures adapter.selectedPosition == adapterPosition
      ensures adapter.notices == old(adapter.notices) + [ItemChanged(old(adapter.selectedPosition)), ItemChanged(adapterPosition)]
    {
      adapter.ClickRow(adapterPosition);
    }

    /** A click on the delete button of the row on display at `row`. The
        listener passes the row's current position (see the finding on the
        bind-time position in the adapter module), so exactly the element that
        row shows is removed and the others keep their order. */
    method DeleteClicked(row: int)
      requires Valid() && 0 <= row < |urls.items|
      modifies urls, adapter`notices
      ensures Valid()
      ensures urls.items == RemovedAt(old(urls.items), row)
      ensures multiset(urls.items) + multiset{old(urls.items)[row]} == multiset(old(urls.items))
      ensures adapter.notices == old(adapter.notices) + [ItemRemoved(row)]
    {
      var position := adapter.ClickDelete(row);
      DeleteUrl(position);
    }

    /** dispatchKeyEvent. ENTER and DPAD_CENTER are always consumed and act on
        the focused control: in the input a non-empty text is appended and
        cleared (focus stays), on a button that button is clicked, on the list
        nothing happens. Directional keys follow the focus map; every other
        key, and every event that is not a key press, goes to the platform. */
    method DispatchKeyEvent(e: KeyEvent) returns (consumed: bool)
      requires Valid()
      modifies this`inputText, this`focus, this`launches, urls, adapter`notices
      ensures Valid()
      ensures e.action != ActionDown || !(IsConfirm(e.keyCode) || IsDirection(e.keyCode)) ==>
        !consumed && unchanged(this, urls, adapter)
      ensures e.action == ActionDown && IsDirection(e.keyCode) ==>
        match Route(old(focus), e.keyCode, inDeleteMode)
        case Consumed(next) => consumed && focus == next && unchanged(urls, adapter)
          && inputText == old(inputText) && launches == old(launches)
        case PassedOn => !consumed && unchanged(this, urls, adapter)
      ensures e.action == ActionDown && IsConfirm(e.keyCode) ==> consumed
      ensures e.action == ActionDown && IsConfirm(e.keyCode) && old(focus) == UrlInput ==>
        && focus == UrlInput && launches == old(launches)
        && (old(inputText) != "" ==>
              urls.items == old(urls.items) + [old(inputText)] && inputText == "" &&
              adapter.notices == old(adapter.notices) + [ItemInserted(|old(urls.items)|)])
        && (old(inputText) == "" ==> unchanged(this, urls, adapter))
      ensures e.action == ActionDown && IsConfirm(e.keyCode) && old(focus) == AddButton ==>
        && launches == old(launches)
        && (old(inputText) != "" ==>
              urls.items == old(urls.items) + [old(inputText)] && inputText == "" && focus == UrlInput &&
              adapter.notices == old(adapter.notices) + [ItemInserted(|old(urls.items)|)])
        && (old(inputText) == "" ==> unchanged(this, urls, adapter))
      ensures e.action == ActionDown && IsConfirm(e.keyCode) && old(focus) == ClearButton ==>
        inputText == "" && focus == UrlInput && launches == old(launches) && unchanged(urls, adapter)
      ensures e.action == ActionDown && IsConfirm(e.keyCode) && old(focus) == PlayButton ==>
        && inputText == old(inputText) && focus == old(focus) && unchanged(urls, adapter)
        && launches == old(launches) + (if |urls.items| > 0 then [urls.items] else [])
      ensures e.action == ActionDown && IsConfirm(e.keyCode) && old(focus) == UrlList ==>
        unchanged(this, urls, adapter)
    {
      consumed := false;
      if e.action == ActionDown {
        if IsConfirm(e.keyCode) {
          consumed := true;
          match focus
          case UrlInput =>
            if inputText != "" {
              AddUrl(inputText);
              inputText := "";
            }
          case AddButton => AddClicked();
          case ClearButton => ClearClicked();
          case PlayButton => PlayClicked();
          case UrlList =>
        } else if IsDirection(e.keyCode) {
          match Route(focus, e.keyCode, inDeleteMode)
          case Consumed(next) =>
            focus := next;
            consumed := true;
          case PassedOn =>
        }
      }
    }
  }

  /** The delete-then-play scenario: ["a", "b"], delete the first row, play;
      the player is launched with exactly ["b"]. */
  method DeleteThenPlayScenario()
  {
    var screen := new UrlInputActivity(None, UrlInput);
    screen.TypeText("a");
    assert screen.inputText == "a" && screen.launches == [];
    screen.AddClicked();
    assert screen.urls.items == ["a"] && screen.launches == [];
    screen.TypeText("b");
    assert screen.inputText == "b" && screen.launches == [];
    screen.AddClicked();
    assert screen.urls.items == ["a", "b"] && screen.launches == [];
    screen.DeleteClicked(0);
    assert screen.urls.items == ["b"] && screen.launches == [];
    screen.PlayClicked();
    assert screen.launches == [["b"]];
  }
}
