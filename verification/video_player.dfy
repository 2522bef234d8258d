/** The player screen: a fixed channel list, the current channel, an on-screen
    guide (a UrlAdapter of channel labels) with a single auto-hide callback,
    remote-control key routing, the skip-on-error policy and the password
    dialog that guards leaving the screen. The media player itself is reduced
    to the effects the screen asks of it. */
module VideoPlayer {
  import opened Platform
  import opened ChannelIndex
  import opened UrlAdapters

  /** The three stream URLs the screen plays; it reads no inbound list. */
  const DefaultChannels: seq<string> := [
    "http://live-hls-web-aje.getaj.net/AJE/01.m3u8",
    "http://content.uplynk.com/channel/65812a0604044ab4b4e13d5911f13953.m3u8",
    "http://content.uplynk.com/channel/5f9f805ff3c44a02929bd58dc044e94c.m3u8"
  ]

  /** The literal the exit dialog compares the typed text with. */
  const UnlockPassword: string := "SDT123.com"

  /** LEFT and RIGHT seek by this many milliseconds. */
  const SeekStepMs: int := 10000

  /** The playback phases the screen reacts to. */
  datatype PlaybackState = StateIdle | StateBuffering | StateReady | StateEnded

  /** The guide's label for the channel at index k. */
  function GuideLabel(k: nat): (text: string) {
    "Canal " + Decimal(k + 1)
  }

  /** The guide's rows: one label per channel, numbered from 1. */
  function GuideLabels(n: nat): (labels: seq<string>)
    ensures |labels| == n
    ensures forall k :: 0 <= k < n ==> labels[k] == GuideLabel(k)
  {
    seq(n, (k: int) requires 0 <= k < n => GuideLabel(k))
  }

  /** No two guide rows carry the same label. */
  lemma GuideLabelsDistinct(n: nat, p: nat, q: nat)
    requires p < n && q < n && GuideLabels(n)[p] == GuideLabels(n)[q]
    ensures p == q
  {
    var a, b := GuideLabel(p), GuideLabel(q);
    assert a[6..] == Decimal(p + 1);
    assert b[6..] == Decimal(q + 1);
    DecimalInjective(p + 1, q + 1);
  }

  /** The keys the screen consumes on a key press. */
  predicate HandledKey(k: KeyCode) {
    !k.OtherKey?
  }

  /** Everything the screen's handlers change, as one value: the current
      channel, the guide's selected row and visibility, whether a hide callback
      is queued, the password dialog, and the effects asked of the media player
      (the URLs loaded, oldest first; play or pause; the spinner; the seeks
      requested, relative to the current position, oldest first), and whether
      the screen has been finished. */
  datatype Screen = Screen(
    index: int,
    selected: int,
    guideVisible: bool,
    hidePending: bool,
    dialogVisible: bool,
    loads: seq<string>,
    playing: bool,
    spinner: bool,
    seeks: seq<int>,
    finished: bool)

  /** playChannel: show the spinner, load and play the URL, and re-arm the hide
      callback (any queued one is removed first, so exactly one is queued). */
  function Played(s: Screen, url: string): (t: Screen) {
    s.(loads := s.loads + [url], playing := true, spinner := true, hidePending := true)
  }

  /** changeChannel: the index moves one place with wrap-around and the channel
      at the new index is played. */
  function Changed(s: Screen, d: int, channels: seq<string>): (t: Screen)
    requires 0 <= s.index < |channels| && IsStep(d)
    ensures t.index == Wrap(s.index, d, |channels|)
    ensures t.loads == s.loads + [channels[t.index]] && t.playing && t.spinner && t.hidePending
    ensures t.selected == s.selected && t.guideVisible == s.guideVisible
    ensures t.dialogVisible == s.dialogVisible && t.seeks == s.seeks && t.finished == s.finished
  {
    var i := Wrap(s.index, d, |channels|);
    Played(s, channels[i]).(index := i)
  }

  /** moveToNextChannel: the index advances with wrap-around; landing on 0 the
      player is paused and the spinner hidden without loading anything,
      otherwise the new channel is played. */
  function AdvancedOnError(s: Screen, channels: seq<string>): (t: Screen)
    requires 0 <= s.index < |channels|
    ensures t.index == NextIndex(s.index, |channels|)
    ensures t.index == 0 ==> t == s.(index := 0, playing := false, spinner := false)
    ensures t.index != 0 ==> t == Changed(s, 1, channels)
  {
    var i := NextIndex(s.index, |channels|);
    if i == 0 then s.(index := 0, playing := false, spinner := false)
    else Played(s, channels[i]).(index := i)
  }

  /** A channel up undone by a channel down (or the reverse) is back on the
      same index and has loaded that index's channel again. */
  lemma ChangeThenBack(s: Screen, d: int, channels: seq<string>)
    requires 0 <= s.index < |channels| && IsStep(d)
    ensures var t := Changed(Changed(s, d, channels), -d, channels);
      t.index == s.index && t.loads[|t.loads| - 1] == channels[s.index]
  {
    StepThenBack(s.index, d, |channels|);
  }

  /** The screen after j consecutive player errors. */
  function ErrorsFrom(s: Screen, j: nat, channels: seq<string>): (t: Screen)
    requires 0 <= s.index < |channels|
    ensures 0 <= t.index < |channels|
    decreases j
  {
    if j == 0 then s else ErrorsFrom(AdvancedOnError(s, channels), j - 1, channels)
  }

  lemma {:induction false} ErrorsFromFollowSteps(s: Screen, j: nat, channels: seq<string>)
    requires 0 <= s.index < |channels|
    ensures ErrorsFrom(s, j, channels).index == Steps(s.index, Ones(j), |channels|)
    decreases j
  {
    if j > 0 {
      var n := |channels|;
      var t := AdvancedOnError(s, channels);
      assert t.index == Wrap(s.index, 1, n);
      ErrorsFromFollowSteps(t, j - 1, channels);
      assert Ones(j)[1..] == Ones(j - 1);
    }
  }

  /** Consecutive player errors starting from index i on a list of n
      channels: each of the first n - i - 1 plays the next channel, and the
      (n - i)-th pauses on index 0 without loading anything. A run that starts
      on channel 0 thus tries every channel once before it stops; one that
      starts further on stops at the end of the list. */
  lemma ErrorRunStopsAtZero(s: Screen, j: nat, channels: seq<string>)
    requires 0 <= s.index < |channels| && 1 <= j <= |channels| - s.index
    ensures var before, t := ErrorsFrom(s, j - 1, channels), ErrorsFrom(s, j, channels);
      && (j < |channels| - s.index ==>
            t.index == s.index + j && t.playing && t.loads == before.loads + [channels[s.index + j]])
      && (j == |channels| - s.index ==>
            t.index == 0 && !t.playing && !t.spinner && t.loads == before.loads)
  {
    var n := |channels|;
    ErrorsFromFollowSteps(s, j - 1, channels);
    ErrorRun(s.index, j - 1, n);
    ErrorsFromLast(s, j, channels);
  }

  lemma {:induction false} ErrorsFromLast(s: Screen, j: nat, channels: seq<string>)
    requires 0 <= s.index < |channels| && j >= 1
    ensures ErrorsFrom(s, j, channels) == AdvancedOnError(ErrorsFrom(s, j - 1, channels), channels)
    decreases j
  {
    if j > 1 {
      ErrorsFromLast(AdvancedOnError(s, channels), j - 1, channels);
    }
  }

  /** What a consumed key press does. ENTER/CENTER plays the highlighted
      channel and hides the guide when it is shown, without moving the current
      index, and shows the guide otherwise; LEFT/RIGHT ask for a ten-second
      seek; UP/DOWN move the highlight cyclically while the guide is shown and
      change channel while it is hidden; CHANNEL_UP/DOWN always change channel;
      BACK and HOME open the password dialog. */
  function OnKeyPress(s: Screen, k: KeyCode, channels: seq<string>): (t: Screen)
    requires InRange(s, |channels|)
    ensures InRange(t, |channels|)
    ensures t.finished == s.finished
  {
    var n := |channels|;
    match k
    case DpadCenter | Enter =>
      if s.guideVisible then Played(s, channels[s.selected]).(guideVisible := false)
      else s.(guideVisible := true, hidePending := true)
    case DpadLeft => s.(seeks := s.seeks + [-SeekStepMs])
    case DpadRight => s.(seeks := s.seeks + [SeekStepMs])
    case DpadUp =>
      if s.guideVisible then s.(selected := Wrap(s.selected, -1, n)) else Changed(s, -1, channels)
    case DpadDown =>
      if s.guideVisible then s.(selected := NextIndex(s.selected, n)) else Changed(s, 1, channels)
    case ChannelUp => Changed(s, 1, channels)
    case ChannelDown => Changed(s, -1, channels)
    case Back | Home => s.(dialogVisible := true)
    case OtherKey(_) => s
  }

  predicate InRange(s: Screen, n: int) {
    0 <= s.index < n && 0 <= s.selected < n
  }

  /** ENTER with the guide shown plays the highlighted channel and hides the
      guide, but the current index stays where it was; with the guide hidden it
      only shows the guide. */
  lemma ConfirmKey(s: Screen, channels: seq<string>)
    requires InRange(s, |channels|)
    ensures var t := OnKeyPress(s, Enter, channels);
      && t == OnKeyPress(s, DpadCenter, channels)
      && t.index == s.index && t.selected == s.selected
      && (s.guideVisible ==>
            t.loads == s.loads + [channels[s.selected]] && t.playing && !t.guideVisible && t.hidePending)
      && (!s.guideVisible ==> t.loads == s.loads && t.guideVisible && t.hidePending)
  {
  }

  /** While the guide is shown UP and DOWN move only the highlight, one row
      with wrap-around, and leave the current channel and the player alone;
      while it is hidden they are channel down and channel up. */
  lemma ArrowKeys(s: Screen, channels: seq<string>)
    requires InRange(s, |channels|)
    ensures var up, down := OnKeyPress(s, DpadUp, channels), OnKeyPress(s, DpadDown, channels);
      && (s.guideVisible ==>
            && up == s.(selected := Wrap(s.selected, -1, |channels|))
            && down == s.(selected := Wrap(s.selected, 1, |channels|)))
      && (!s.guideVisible ==> up == Changed(s, -1, channels) && down == Changed(s, 1, channels))
  {
  }

  /** CHANNEL_UP and CHANNEL_DOWN change channel whether or not the guide is
      shown, and keep the guide's highlight. */
  lemma ChannelKeys(s: Screen, channels: seq<string>)
    requires InRange(s, |channels|)
    ensures OnKeyPress(s, ChannelUp, channels) == Changed(s, 1, channels)
    ensures OnKeyPress(s, ChannelDown, channels) == Changed(s, -1, channels)
    ensures OnKeyPress(s.(guideVisible := !s.guideVisible), ChannelUp, channels)
         == Changed(s, 1, channels).(guideVisible := !s.guideVisible)
  {
  }

  /** BACK and HOME open the password dialog and change nothing else; LEFT and
      RIGHT only record a seek of ten seconds back or forward. */
  lemma DialogAndSeekKeys(s: Screen, channels: seq<string>)
    requires InRange(s, |channels|)
    ensures OnKeyPress(s, Back, channels) == OnKeyPress(s, Home, channels) == s.(dialogVisible := true)
    ensures OnKeyPress(s, DpadLeft, channels) == s.(seeks := s.seeks + [-10000])
    ensures OnKeyPress(s, DpadRight, channels) == s.(seeks := s.seeks + [10000])
  {
  }

  /** The screen after m presses of the same key. */
  function Presses(s: Screen, k: KeyCode, m: nat, channels: seq<string>): (t: Screen)
    requires InRange(s, |channels|)
    ensures InRange(t, |channels|)
    decreases m
  {
    if m == 0 then s else Presses(OnKeyPress(s, k, channels), k, m - 1, channels)
  }

  /** With the guide shown, m presses of DOWN move the highlight as m +1 steps
      and touch nothing else, so n presses bring it back to where it started. */
  lemma {:induction false} BrowseDown(s: Screen, m: nat, channels: seq<string>)
    requires InRange(s, |channels|) && s.guideVisible
    ensures Presses(s, DpadDown, m, channels) == s.(selected := Steps(s.selected, Ones(m), |channels|))
    decreases m
  {
    if m > 0 {
      var t := OnKeyPress(s, DpadDown, channels);
      BrowseDown(t, m - 1, channels);
      assert Ones(m)[1..] == Ones(m - 1);
    }
  }

  /** m presses of CHANNEL_UP move the current index as m +1 steps, load one
      channel each, the last one being the channel now current, and leave the
      guide, the dialog, the seeks and the finished flag alone. */
  lemma {:induction false} ChannelUps(s: Screen, m: nat, channels: seq<string>)
    requires InRange(s, |channels|)
    ensures var t := Presses(s, ChannelUp, m, channels);
      && t.index == Steps(s.index, Ones(m), |channels|)
      && |t.loads| == |s.loads| + m
      && (m > 0 ==> t.loads[|t.loads| - 1] == channels[t.index] && t.playing)
      && t.selected == s.selected && t.guideVisible == s.guideVisible
      && t.dialogVisible == s.dialogVisible && t.seeks == s.seeks && t.finished == s.finished
    decreases m
  {
    if m > 0 {
      var u := OnKeyPress(s, ChannelUp, channels);
      ChannelUps(u, m - 1, channels);
      assert Ones(m)[1..] == Ones(m - 1);
      if m == 1 {
        assert Presses(s, ChannelUp, 1, channels) == u;
      }
    }
  }

  /** n presses of CHANNEL_UP on n channels come back to the channel they
      started on and leave it playing. */
  lemma ChannelUpFullCycle(s: Screen, channels: seq<string>)
    requires InRange(s, |channels|)
    ensures var t := Presses(s, ChannelUp, |channels|, channels);
      && t.index == s.index && t.playing
      && |t.loads| == |s.loads| + |channels| && t.loads[|t.loads| - 1] == channels[s.index]
  {
    var n := |channels|;
    ChannelUps(s, n, channels);
    FullCycleReturns(s.index, n);
  }

  lemma BrowseDownFullCycle(s: Screen, channels: seq<string>)
    requires InRange(s, |channels|) && s.guideVisible
    ensures Presses(s, DpadDown, |channels|, channels) == s
  {
    BrowseDown(s, |channels|, channels);
    FullCycleReturns(s.selected, |channels|);
  }

  class VideoPlayerActivity {
    const channels: seq<string>
    /** The guide's adapter, over the channel labels, without delete buttons. */
    const guide: UrlAdapter
    var currentChannelIndex: int
    var isChannelListVisible: bool
    /** Whether the hide-guide callback is queued on the main handler. */
    var hidePending: bool
    var isPasswordDialogVisible: bool
    // Effects asked of the media player.
    var mediaLoads: seq<string>
    var playing: bool
    var spinnerVisible: bool
    var seekRequests: seq<int>
    /** Whether finish() has been called. */
    var finished: bool

    ghost predicate Valid()
      reads this, guide, guide.urlList
    {
      && channels == DefaultChannels
      && 0 <= currentChannelIndex < |channels|
      && guide.urlList.items == GuideLabels(|channels|)
      && !guide.showDeleteButton
      && 0 <= guide.selectedPosition < |channels|
    }

    function State(): (s: Screen)
      reads this, guide
    {
      Screen(currentChannelIndex, guide.selectedPosition, isChannelListVisible, hidePending,
             isPasswordDialogVisible, mediaLoads, playing, spinnerVisible, seekRequests, finished)
    }

    /** The guide is a UrlAdapter without delete buttons over one label per
        channel, so its delete callback can never be invoked. */
    lemma GuideHasNoDeleteButtons()
      requires Valid()
      ensures guide.ItemCount() == |channels| == 3
      ensures guide.ShownTexts() == GuideLabels(3)
      ensures forall p :: 0 <= p < guide.ItemCount() ==> !guide.BindRow(p).deleteVisible
    {
    }

    /** onCreate: the guide is shown, channel 0 is played and highlighted. */
    constructor ()
      ensures Valid() && fresh(guide) && fresh(guide.urlList)
      ensures State() == Screen(0, 0, true, true, false, [DefaultChannels[0]], true, true, [], false)
      ensures guide.notices == [ItemChanged(NoPosition), ItemChanged(0)]
    {
      channels := DefaultChannels;
      var labels := new StringList(GuideLabels(|DefaultChannels|));
      guide := new UrlAdapter(labels, false);
      currentChannelIndex := 0;
      isChannelListVisible := false;
      hidePending := false;
      isPasswordDialogVisible := false;
      mediaLoads := [];
      playing := false;
      spinnerVisible := false;
      seekRequests := [];
      finished := false;
      new;
      ShowChannelList();
      HideChannelListAfterDelay();
      PlayChannel(channels[0]);
      guide.SetSelectedPosition(0);
      currentChannelIndex := 0;
    }

    /** hideChannelListAfterDelay: removes the queued hide callback, if any,
        and queues it again. */
    method HideChannelListAfterDelay()
      modifies this`hidePending
      ensures hidePending
    {
      // removeCallbacks, then postDelayed
      hidePending := false;
      hidePending := true;
    }

    /** showChannelList: sets the flag if it was clear, and re-arms the hide
        callback in either case. */
    method ShowChannelList()
      modifies this`isChannelListVisible, this`hidePending
      ensures isChannelListVisible && hidePending
    {
      if !isChannelListVisible {
        isChannelListVisible := true;
      }
      HideChannelListAfterDelay();
    }

    /** hideChannelList: clears the flag if it was set; the queued callback is
        left alone. */
    method HideChannelList()
      modifies this`isChannelListVisible
      ensures !isChannelListVisible
    {
      if isChannelListVisible {
        isChannelListVisible := false;
      }
    }

    method PlayChannel(url: string)
      modifies this`spinnerVisible, this`mediaLoads, this`playing, this`hidePending
      ensures State() == Played(old(State()), url)
    {
      spinnerVisible := true;
      mediaLoads := mediaLoads + [url];
      playing := true;
      HideChannelListAfterDelay();
    }

    method ChangeChannel(increment: int)
      requires Valid() && IsStep(increment)
      modifies this
      ensures Valid()
      ensures State() == Changed(old(State()), increment, channels)
    {
      currentChannelIndex := (currentChannelIndex + increment + |channels|) % |channels|;
      PlayChannel(channels[currentChannelIndex]);
    }

    method MoveToNextChannel()
      requires Valid()
      modifies this
      ensures Valid()
      ensures State() == AdvancedOnError(old(State()), channels)
    {
      currentChannelIndex := NextIndex(currentChannelIndex, |channels|);
      if currentChannelIndex == 0 {
        playing := false;
        spinnerVisible := false;
      } else {
        PlayChannel(channels[currentChannelIndex]);
      }
    }

    /** selectChannel: highlights the current channel and shows the guide. No
        handler of the screen calls it. */
    method SelectChannel()
      requires Valid()
      modifies this, guide
      ensures Valid()
      ensures State() == old(State()).(selected := currentChannelIndex, guideVisible := true, hidePending := true)
      ensures guide.notices == old(guide.notices) + [ItemChanged(old(guide.selectedPosition)), ItemChanged(currentChannelIndex)]
    {
      guide.SetSelectedPosition(currentChannelIndex);
      ShowChannelList();
    }

    /** The player's onPlayerError callback. */
    method OnPlayerError()
      requires Valid()
      modifies this
      ensures Valid()
      ensures State() == AdvancedOnError(old(State()), channels)
    {
      MoveToNextChannel();
    }

    /** The player's onPlaybackStateChanged callback: ready or ended hides the
        spinner and re-arms the hide callback, buffering shows the spinner,
        idle changes nothing. */
    method OnPlaybackStateChanged(state: PlaybackState)
      requires Valid()
      modifies this
      ensures Valid()
      ensures state == StateReady || state == StateEnded ==>
        State() == old(State()).(spinner := false, hidePending := true)
      ensures state == StateBuffering ==> State() == old(State()).(spinner := true)
      ensures state == StateIdle ==> State() == old(State())
    {
      if state == StateReady || state == StateEnded {
        spinnerVisible := false;
        HideChannelListAfterDelay();
      } else if state == StateBuffering {
        spinnerVisible := true;
      }
    }

    /** The queued hide callback runs: it is no longer queued and the guide is
        hidden. */
    method OnHideTimerFired()
      requires Valid()
      modifies this
      ensures Valid()
      ensures old(hidePending) ==> State() == old(State()).(hidePending := false, guideVisible := false)
      ensures !old(hidePending) ==> State() == old(State())
    {
      if hidePending {
        hidePending := false;
        HideChannelList();
      }
    }

    /** A touch on a guide row: the guide's selection moves to it. */
    method TapGuideRow(position: int)
      requires Valid() && 0 <= position < |channels|
      modifies guide
      ensures Valid()
      ensures State() == old(State()).(selected := position)
      ensures guide.notices == old(guide.notices) + [ItemChanged(old(guide.selectedPosition)), ItemChanged(position)]
    {
      guide.ClickRow(position);
    }

    /** showPasswordDialog: opens the dialog unless it is already open. */
    method ShowPasswordDialog()
      modifies this`isPasswordDialogVisible
      ensures State() == old(State()).(dialogVisible := true)
    {
      if isPasswordDialogVisible {
        return;
      }
      isPasswordDialogVisible := true;
    }

    /** onUserLeaveHint (the home button): opens the password dialog. */
    method OnUserLeaveHint()
      requires Valid()
      modifies this
      ensures Valid()
      ensures State() == old(State()).(dialogVisible := true)
    {
      ShowPasswordDialog();
    }

    /** The dialog's OK button: the exact literal finishes the screen, any other
        text changes nothing else; the dialog closes either way. */
    method PasswordOk(text: string)
      requires Valid()
      modifies this
      ensures Valid()
      ensures State() == old(State()).(dialogVisible := false, finished := old(finished) || text == UnlockPassword)
    {
      if text == UnlockPassword {
        finished := true;
      }
      isPasswordDialogVisible := false;
      PasswordDialogDismissed();
    }

    /** The dialog's Cancel button. */
    method PasswordCancel()
      requires Valid()
      modifies this
      ensures Valid()
      ensures State() == old(State()).(dialogVisible := false)
    {
      isPasswordDialogVisible := false;
      PasswordDialogDismissed();
    }

    /** The dialog's dismiss listener. */
    method PasswordDialogDismissed()
      requires Valid()
      modifies this`isPasswordDialogVisible
      ensures Valid()
      ensures State() == old(State()).(dialogVisible := false)
    {
      isPasswordDialogVisible := false;
    }

    /** dispatchKeyEvent: a press of a key the screen knows is consumed and
        acts as OnKeyPress says; other keys, and events that are not presses,
        go to the platform untouched. */
    method DispatchKeyEvent(e: KeyEvent) returns (consumed: bool)
      requires Valid()
      modifies this, guide
      ensures Valid()
      ensures consumed <==> e.action == ActionDown && HandledKey(e.keyCode)
      ensures !consumed ==> unchanged(this, guide)
      ensures consumed ==> State() == OnKeyPress(old(State()), e.keyCode, channels)
      ensures consumed && old(isChannelListVisible) && (e.keyCode == DpadUp || e.keyCode == DpadDown) ==>
        guide.notices == old(guide.notices) + [ItemChanged(old(guide.selectedPosition)), ItemChanged(guide.selectedPosition)]
      ensures !(old(isChannelListVisible) && (e.keyCode == DpadUp || e.keyCode == DpadDown)) ==>
        guide.notices == old(guide.notices)
    {
      consumed := false;
      if e.action != ActionDown {
        return;
      }
      var n := |channels|;
      match e.keyCode
      case DpadCenter =>
        consumed := true;
        Confirm();
      case Enter =>
        consumed := true;
        Confirm();
      case DpadLeft =>
        consumed := true;
        seekRequests := seekRequests + [-SeekStepMs];
      case DpadRight =>
        consumed := true;
        seekRequests := seekRequests + [SeekStepMs];
      case DpadUp =>
        consumed := true;
        if isChannelListVisible {
          guide.SetSelectedPosition(Wrap(guide.GetSelectedPosition(), -1, n));
        } else {
          ChangeChannel(-1);
        }
      case DpadDown =>
        consumed := true;
        if isChannelListVisible {
          guide.SetSelectedPosition(NextIndex(guide.GetSelectedPosition(), n));
        } else {
          ChangeChannel(1);
        }
      case ChannelUp =>
        consumed := true;
        ChangeChannel(1);
      case ChannelDown =>
        consumed := true;
        ChangeChannel(-1);
      case Back =>
        consumed := true;
        ShowPasswordDialog();
      case Home =>
        consumed := true;
        ShowPasswordDialog();
      case OtherKey(_) =>
    }

    /** The ENTER/CENTER branch of dispatchKeyEvent. */
    method Confirm()
      requires Valid()
      modifies this
      ensures Valid()
      ensures State() == OnKeyPress(old(State()), Enter, channels)
    {
      if isChannelListVisible {
        PlayChannel(channels[guide.GetSelectedPosition()]);
        HideChannelList();
      } else {
        ShowChannelList();
      }
    }
  }

  /** ENTER on a highlighted row that is not the current channel plays that row
      but leaves the current index behind, so a following player error moves
      on from the old index rather than from the channel on screen. */
  method EnterKeepsIndexScenario()
  {
    var screen := new VideoPlayerActivity();
    var consumed := screen.DispatchKeyEvent(KeyEvent(ActionDown, DpadDown));
    assert screen.guide.selectedPosition == 1;
    consumed := screen.DispatchKeyEvent(KeyEvent(ActionDown, Enter));
    assert screen.currentChannelIndex == 0;
    assert screen.mediaLoads == [DefaultChannels[0], DefaultChannels[1]];
    assert !screen.isChannelListVisible;
    screen.OnPlayerError();
    assert screen.mediaLoads == [DefaultChannels[0], DefaultChannels[1], DefaultChannels[1]];
  }
}
