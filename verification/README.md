# SDT-Player screens, modelled in Dafny

SDT-Player is an Android TV app that plays live HLS streams. This project
models its two screens and the two list adapters they use:

- **The URL entry screen** (`UrlInputActivity`). It holds a text input,
  add/clear/play buttons, and a list of URLs. The list is shared by reference
  with a `UrlAdapter` that shows delete buttons. Remote-control keys are
  routed through the activity's own `dispatchKeyEvent`.
- **The player screen** (`VideoPlayerActivity`). It holds a fixed list of
  three stream URLs, the current channel index, and an on-screen guide. The
  guide is a `UrlAdapter` over the labels "Canal 1".."Canal 3" and hides
  itself after a delay. The screen also implements the skip-to-next-channel
  policy on player errors, channel keys, seek keys, and a password dialog
  that guards leaving the screen.
- **`UrlAdapter`** and **`ChannelAdapter`**: row binding, a single selected
  position, and the redraw notices sent to the list view.

The files are:

- `platform.dfy`: the types shared by the screens. These are key events, redraw
  notices, a mutable string list shared by reference, and `Int.toString`.
- `channel_index.dfy`: the index arithmetic. It has Kotlin's truncated `%`,
  the wrap-around used by channel changes and guide browsing, and a closed
  form for any run of ±1 changes.
- `url_adapter.dfy`, `channel_adapter.dfy`: the two adapters as classes.
- `focus_map.dfy`: the D-pad focus table of the URL entry screen, as a pure
  function.
- `url_input.dfy`: the URL entry screen as a class.
- `video_player.dfy`: the player screen. The class's handlers are tied to pure
  functions over a `Screen` value (`Changed`, `AdvancedOnError`,
  `OnKeyPress`), and the properties are proved about those functions.

Effects the screens ask of outside code are recorded as state. These are the
media player's loads, play/pause, seeks and spinner, the list-view redraw
notices, activity launches, and `finish()`. The hide-guide callback queued on
the main handler is a flag (`hidePending`). Its firing is an explicit event
(`OnHideTimerFired`).

The model follows the code where it behaves differently from the app's
documented intent:

- The player ignores any URL list passed to it and plays its three built-in
  URLs.
- On a player error the index advances with wrap-around. The player pauses
  whenever the index lands on 0. This is a full cycle through the channels
  only when the run of errors started on channel 0 (`ErrorRunStopsAtZero`).
- UP/DOWN while the guide is shown move the highlight but do not re-arm the
  hide callback.
- ENTER on the guide plays the highlighted channel without updating the
  current channel index. A later channel change or error therefore moves on
  from the old index (`EnterKeepsIndexScenario`).
- The player calls `adapter.getSelectedPosition()`, but `UrlAdapter.kt` does
  not declare that method. The model gives the adapter a
  `GetSelectedPosition` accessor returning the selected position, the row
  drawn highlighted.
- `selectChannel` has no caller. It is modelled (`SelectChannel`) but no
  handler uses it.
- The password dialog sets its Cancel button twice with the same effect. It is
  modelled once.

## Model

| member | source | states |
|---|---|---|
| Platform.RemovedAt | app/src/main/java/com/sdt/sdtplayer/UrlInputActivity.kt:81 | removeAt(p) removes exactly element p. Earlier elements keep their index, later ones move down by one, and the multiset loses exactly that element |
| Platform.StringList.Add | app/src/main/java/com/sdt/sdtplayer/UrlInputActivity.kt:76 | add appends the item at the end of the shared list |
| Platform.StringList.RemoveAt | app/src/main/java/com/sdt/sdtplayer/UrlInputActivity.kt:81 | removeAt leaves the list RemovedAt(old list, p) |
| Platform.Decimal | app/src/main/java/com/sdt/sdtplayer/UrlAdapter.kt:32 | a row number's text is a non-empty string of decimal digits, one digit exactly below 10, with no leading zero except for 0 itself |
| Platform.DecimalRoundTrip | app/src/main/java/com/sdt/sdtplayer/UrlAdapter.kt:32 | reading the digits of `(position + 1).toString()` back gives the number: the text is the number in base ten, most significant digit first |
| Platform.DecimalInjective | app/src/main/java/com/sdt/sdtplayer/UrlAdapter.kt:32 | distinct numbers are rendered as distinct texts (from the round trip) |
| ChannelIndex.Rem | app/src/main/java/com/sdt/sdtplayer/VideoPlayerActivity.kt:120 | Kotlin's `%` on a non-negative dividend is the residue modulo n. On a negative one it is minus the residue of the negated dividend, which no caller in the screens reaches |
| ChannelIndex.Wrap | app/src/main/java/com/sdt/sdtplayer/VideoPlayerActivity.kt:164-167 | `(i + d + n) % n` for a ±1 step stays in range. It moves one place, from the last index to 0 and from 0 to the last |
| ChannelIndex.NextIndex | app/src/main/java/com/sdt/sdtplayer/VideoPlayerActivity.kt:120 | `(i + 1) % n` is the +1 wrap, and it is 0 exactly when i is the last index |
| ChannelIndex.Steps | app/src/main/java/com/sdt/sdtplayer/VideoPlayerActivity.kt:164-167 | any sequence of channel changes keeps the index in range |
| ChannelIndex.StepsClosedForm | app/src/main/java/com/sdt/sdtplayer/VideoPlayerActivity.kt:164-167 | a run of ±1 changes lands on the residue of the start plus the sum of the steps, whatever their order |
| ChannelIndex.ResidueShift | app/src/main/java/com/sdt/sdtplayer/VideoPlayerActivity.kt:165 | adding any multiple of the list length does not change where the index lands |
| ChannelIndex.ReturnsWhenSumIsMultiple | app/src/main/java/com/sdt/sdtplayer/VideoPlayerActivity.kt:164-167 | changes whose steps add up to a multiple of the list length return to the start |
| ChannelIndex.FullCycleReturns | app/src/main/java/com/sdt/sdtplayer/VideoPlayerActivity.kt:164-167 | n channel-ups on n channels return to the start |
| ChannelIndex.StepThenBack | app/src/main/java/com/sdt/sdtplayer/VideoPlayerActivity.kt:226-235 | channel up then channel down (or the reverse) returns to the same index |
| ChannelIndex.ErrorRun | app/src/main/java/com/sdt/sdtplayer/VideoPlayerActivity.kt:119-128 | j successive advances from i reach i + j, and the (n - i)-th lands on 0 |
| UrlAdapters.UrlAdapter.constructor | app/src/main/java/com/sdt/sdtplayer/UrlAdapter.kt:10-16 | the adapter starts with no selection, sends no notices and highlights no row |
| UrlAdapters.UrlAdapter.ShownTexts | app/src/main/java/com/sdt/sdtplayer/UrlAdapter.kt:29-31 | the rows bound for positions 0 up to getItemCount (line 60) show exactly the shared list, in order |
| UrlAdapters.UrlAdapter.GetSelectedPosition | app/src/main/java/com/sdt/sdtplayer/VideoPlayerActivity.kt:186 | the position read back is the row drawn highlighted when it is a row of the list; otherwise no row is highlighted |
| UrlAdapters.UrlAdapter.HighlightedRows | app/src/main/java/com/sdt/sdtplayer/UrlAdapter.kt:35-38 | at most one row is highlighted, and none when the selection is outside the list |
| UrlAdapters.UrlAdapter.SetSelectedPosition | app/src/main/java/com/sdt/sdtplayer/UrlAdapter.kt:62-66 | the selection becomes the argument without a bounds check. The old and new rows are marked for redraw, in that order |
| UrlAdapters.UrlAdapter.ClickRow | app/src/main/java/com/sdt/sdtplayer/UrlAdapter.kt:47-51 | a row click selects the row's adapter position, unchecked, and redraws the old and new rows |
| UrlAdapters.UrlAdapter.ClickDelete | app/src/main/java/com/sdt/sdtplayer/UrlAdapter.kt:43-45 | a delete click passes the listener's position to onDeleteClick and changes nothing in the adapter |
| UrlAdapters.UrlAdapter.NotifyItemInserted | app/src/main/java/com/sdt/sdtplayer/UrlInputActivity.kt:77 | an insert notice is appended for the position |
| UrlAdapters.UrlAdapter.NotifyItemRemoved | app/src/main/java/com/sdt/sdtplayer/UrlInputActivity.kt:82 | a remove notice is appended for the position |
| UrlAdapters.RowNumbersDistinct | app/src/main/java/com/sdt/sdtplayer/UrlAdapter.kt:32 | two rows with the same number text are the same row |
| UrlAdapters.BindingsAfterRemoval | app/src/main/java/com/sdt/sdtplayer/UrlAdapter.kt:43-45 | after a removal without rebinding, rows above keep their captured position and every row below takes over the captured position of the row that was below it |
| UrlAdapters.StaleBindingsAfterRemoval | app/src/main/java/com/sdt/sdtplayer/UrlAdapter.kt:43-45 | after one removal, the rows below it hold a position one too large, and the last one holds an index past the end |
| UrlAdapters.StaleDeleteCounterexample | app/src/main/java/com/sdt/sdtplayer/UrlAdapter.kt:43-45 | for [a, b, c] with a deleted, the row showing b would delete c, and the row showing c passes an out-of-range index |
| ChannelAdapters.ChannelAdapter.constructor | app/src/main/java/com/sdt/sdtplayer/ChannelAdapter.kt:9-14 | the adapter starts with no selection, no notices, no clicks and no highlighted row |
| ChannelAdapters.ChannelAdapter.ShownTexts | app/src/main/java/com/sdt/sdtplayer/ChannelAdapter.kt:36-37 | the rows bound for positions 0 up to getItemCount (line 45) show exactly the channel list, in order |
| ChannelAdapters.ChannelAdapter.HighlightedRows | app/src/main/java/com/sdt/sdtplayer/ChannelAdapter.kt:38-42 | at most one row is highlighted, and none while nothing is selected |
| ChannelAdapters.ChannelAdapter.Click | app/src/main/java/com/sdt/sdtplayer/ChannelAdapter.kt:20-27 | a click at NO_POSITION does nothing. Any other click selects the row, which becomes the only highlighted row, redraws the old and new rows, and reports the channel's name once |
| ChannelAdapters.ChannelAdapter.SetSelectedPosition | app/src/main/java/com/sdt/sdtplayer/ChannelAdapter.kt:47-51 | the selection moves without a bounds check and without a click callback. The old and new rows are redrawn |
| FocusMap.Route | app/src/main/java/com/sdt/sdtplayer/UrlInputActivity.kt:155-182 | UP/DOWN are always consumed. LEFT is consumed iff the clear button has focus, RIGHT iff the input has focus, and the clear button only leaves by LEFT |
| FocusMap.DownThenUp | app/src/main/java/com/sdt/sdtplayer/UrlInputActivity.kt:155-170 | DOWN then UP returns focus to where it was, except from the play button |
| FocusMap.UpThenDown | app/src/main/java/com/sdt/sdtplayer/UrlInputActivity.kt:155-170 | UP then DOWN returns focus to where it was, except from the input |
| FocusMap.VerticalChain | app/src/main/java/com/sdt/sdtplayer/UrlInputActivity.kt:155-170 | DOWN goes input → add → list → play, and three UPs go back |
| FocusMap.RightThenLeft | app/src/main/java/com/sdt/sdtplayer/UrlInputActivity.kt:171-182 | RIGHT from the input then LEFT returns to the input |
| FocusMap.DeleteModeHoldsList | app/src/main/java/com/sdt/sdtplayer/UrlInputActivity.kt:159-166 | in delete mode UP/DOWN keep the list focused, and nothing else changes |
| UrlInput.ErrorNotice | app/src/main/java/com/sdt/sdtplayer/UrlInputActivity.kt:60-63 | a missing or empty ERROR_MESSAGE shows nothing, any other message is shown verbatim, and an empty notice is never shown |
| UrlInput.UrlInputActivity.constructor | app/src/main/java/com/sdt/sdtplayer/UrlInputActivity.kt:20-34 | the screen starts with an empty list shared with a delete-button adapter, no selection and an empty input |
| UrlInput.UrlInputActivity.AdapterShowsTheList | app/src/main/java/com/sdt/sdtplayer/UrlInputActivity.kt:69-73 | the adapter is built over the activity's own list, so its rows show exactly that list, each with its delete button visible |
| UrlInput.UrlInputActivity.TypeText | app/src/main/java/com/sdt/sdtplayer/UrlInputActivity.kt:15 | editing the input sets its text |
| UrlInput.UrlInputActivity.AddUrl | app/src/main/java/com/sdt/sdtplayer/UrlInputActivity.kt:75-78 | the URL is appended, the adapter is told a row was inserted at its new last position, and that row shows the URL |
| UrlInput.UrlInputActivity.DeleteUrl | app/src/main/java/com/sdt/sdtplayer/UrlInputActivity.kt:80-83 | the element at the position is removed, and the adapter is told that row was removed |
| UrlInput.UrlInputActivity.AddClicked | app/src/main/java/com/sdt/sdtplayer/UrlInputActivity.kt:36-43 | a non-empty input is appended, cleared and focused. An empty one changes nothing |
| UrlInput.UrlInputActivity.ClearClicked | app/src/main/java/com/sdt/sdtplayer/UrlInputActivity.kt:45-48 | the input is emptied and focused, and the list is untouched |
| UrlInput.UrlInputActivity.PlayClicked | app/src/main/java/com/sdt/sdtplayer/UrlInputActivity.kt:50-57 | the player is launched with the current list iff the list is non-empty |
| UrlInput.UrlInputActivity.RowClicked | app/src/main/java/com/sdt/sdtplayer/UrlAdapter.kt:47-51 | a row click moves the adapter's selection and redraws the old and new rows |
| UrlInput.UrlInputActivity.DeleteClicked | app/src/main/java/com/sdt/sdtplayer/UrlInputActivity.kt:71 | a row's delete button removes exactly the element that row shows, and the rest keep their order |
| UrlInput.UrlInputActivity.DispatchKeyEvent | app/src/main/java/com/sdt/sdtplayer/UrlInputActivity.kt:137-186 | ENTER/CENTER is always consumed and acts on the focused control. Directional keys follow Route. Everything else goes to the platform untouched |
| VideoPlayer.GuideLabelsDistinct | app/src/main/java/com/sdt/sdtplayer/VideoPlayerActivity.kt:99 | no two guide rows carry the same label |
| VideoPlayer.Changed | app/src/main/java/com/sdt/sdtplayer/VideoPlayerActivity.kt:164-167 | a channel change moves the index by the ±1 wrap and loads the channel at the new index. It plays, shows the spinner and re-arms the hide callback. The guide, the dialog, the seeks and the finished flag are kept |
| VideoPlayer.AdvancedOnError | app/src/main/java/com/sdt/sdtplayer/VideoPlayerActivity.kt:119-128 | the index takes the +1 wrap. Landing on 0 pauses and hides the spinner with nothing loaded; otherwise it is a channel up |
| VideoPlayer.ChangeThenBack | app/src/main/java/com/sdt/sdtplayer/VideoPlayerActivity.kt:226-235 | channel up then down (or the reverse) is back on the same index and has reloaded its channel |
| VideoPlayer.ErrorsFrom | app/src/main/java/com/sdt/sdtplayer/VideoPlayerActivity.kt:81-83 | any number of consecutive errors keeps the index in range |
| VideoPlayer.ErrorsFromFollowSteps | app/src/main/java/com/sdt/sdtplayer/VideoPlayerActivity.kt:119-128 | the index after j errors is that of j +1 wraps, paused or not |
| VideoPlayer.ErrorRunStopsAtZero | app/src/main/java/com/sdt/sdtplayer/VideoPlayerActivity.kt:119-128 | from index i, each of the first n - i - 1 errors plays the next channel. The (n - i)-th pauses on index 0 without loading |
| VideoPlayer.OnKeyPress | app/src/main/java/com/sdt/sdtplayer/VideoPlayerActivity.kt:180-243 | every handled key keeps the current index and the guide highlight in range, and no key finishes the screen |
| VideoPlayer.ConfirmKey | app/src/main/java/com/sdt/sdtplayer/VideoPlayerActivity.kt:183-193 | ENTER equals CENTER. With the guide shown it plays the highlighted channel and hides the guide, keeping the index. With the guide hidden it only shows the guide and re-arms its callback |
| VideoPlayer.ArrowKeys | app/src/main/java/com/sdt/sdtplayer/VideoPlayerActivity.kt:204-225 | with the guide shown UP/DOWN only move the highlight by one with wrap-around. With it hidden they are channel down/up |
| VideoPlayer.ChannelKeys | app/src/main/java/com/sdt/sdtplayer/VideoPlayerActivity.kt:226-235 | CHANNEL_UP/DOWN change channel by ±1 whether or not the guide is shown |
| VideoPlayer.DialogAndSeekKeys | app/src/main/java/com/sdt/sdtplayer/VideoPlayerActivity.kt:194-243 | BACK and HOME only open the password dialog. LEFT/RIGHT only request a seek of -10000/+10000 ms |
| VideoPlayer.BrowseDown | app/src/main/java/com/sdt/sdtplayer/VideoPlayerActivity.kt:215-224 | with the guide shown, m DOWN presses move only the highlight, by m +1 wraps |
| VideoPlayer.BrowseDownFullCycle | app/src/main/java/com/sdt/sdtplayer/VideoPlayerActivity.kt:215-224 | with the guide shown, n DOWN presses on n channels leave the screen as it was |
| VideoPlayer.ChannelUps | app/src/main/java/com/sdt/sdtplayer/VideoPlayerActivity.kt:226-230 | m CHANNEL_UP presses move the index by m +1 wraps and load one channel each, the last being the current one. The guide, dialog, seeks and finished flag are kept |
| VideoPlayer.ChannelUpFullCycle | app/src/main/java/com/sdt/sdtplayer/VideoPlayerActivity.kt:226-230 | n CHANNEL_UP presses on n channels come back to the starting channel, playing it |
| VideoPlayer.VideoPlayerActivity.constructor | app/src/main/java/com/sdt/sdtplayer/VideoPlayerActivity.kt:48-74 | on creation the guide is shown with a hide callback queued. Channel 0 is loaded, playing and highlighted, with its redraw notices |
| VideoPlayer.VideoPlayerActivity.GuideHasNoDeleteButtons | app/src/main/java/com/sdt/sdtplayer/VideoPlayerActivity.kt:96-106 | the guide has one row per channel showing "Canal 1".."Canal 3", and no row shows a delete button, so the delete callback cannot be invoked |
| VideoPlayer.VideoPlayerActivity.HideChannelListAfterDelay | app/src/main/java/com/sdt/sdtplayer/VideoPlayerActivity.kt:130-133 | exactly one hide callback is queued afterwards |
| VideoPlayer.VideoPlayerActivity.ShowChannelList | app/src/main/java/com/sdt/sdtplayer/VideoPlayerActivity.kt:135-149 | the guide is shown and its hide callback re-armed |
| VideoPlayer.VideoPlayerActivity.HideChannelList | app/src/main/java/com/sdt/sdtplayer/VideoPlayerActivity.kt:151-162 | the guide is hidden |
| VideoPlayer.VideoPlayerActivity.PlayChannel | app/src/main/java/com/sdt/sdtplayer/VideoPlayerActivity.kt:110-117 | the URL is loaded and played, the spinner shown and the hide callback re-armed, and nothing else changes |
| VideoPlayer.VideoPlayerActivity.ChangeChannel | app/src/main/java/com/sdt/sdtplayer/VideoPlayerActivity.kt:164-167 | the screen moves as Changed says |
| VideoPlayer.VideoPlayerActivity.MoveToNextChannel | app/src/main/java/com/sdt/sdtplayer/VideoPlayerActivity.kt:119-128 | the screen moves as AdvancedOnError says |
| VideoPlayer.VideoPlayerActivity.SelectChannel | app/src/main/java/com/sdt/sdtplayer/VideoPlayerActivity.kt:169-173 | the current channel is highlighted and the guide shown with its callback re-armed. The guide redraws exactly the old and new highlighted rows |
| VideoPlayer.VideoPlayerActivity.OnPlayerError | app/src/main/java/com/sdt/sdtplayer/VideoPlayerActivity.kt:81-83 | a player error moves the screen as AdvancedOnError says |
| VideoPlayer.VideoPlayerActivity.OnPlaybackStateChanged | app/src/main/java/com/sdt/sdtplayer/VideoPlayerActivity.kt:85-92 | ready or ended hides the spinner and re-arms the hide callback. Buffering shows the spinner. Idle changes nothing |
| VideoPlayer.VideoPlayerActivity.OnHideTimerFired | app/src/main/java/com/sdt/sdtplayer/VideoPlayerActivity.kt:40-43 | a queued hide callback hides the guide and is consumed. Without one, nothing changes |
| VideoPlayer.VideoPlayerActivity.TapGuideRow | app/src/main/java/com/sdt/sdtplayer/UrlAdapter.kt:47-51 | a touch on a guide row only moves the highlight to it, and the guide redraws exactly the old and new highlighted rows |
| VideoPlayer.VideoPlayerActivity.ShowPasswordDialog | app/src/main/java/com/sdt/sdtplayer/VideoPlayerActivity.kt:249-252 | the dialog is open afterwards (at most one) and nothing else changes |
| VideoPlayer.VideoPlayerActivity.OnUserLeaveHint | app/src/main/java/com/sdt/sdtplayer/VideoPlayerActivity.kt:284-287 | leaving by HOME opens the password dialog |
| VideoPlayer.VideoPlayerActivity.PasswordOk | app/src/main/java/com/sdt/sdtplayer/VideoPlayerActivity.kt:259-268 | OK finishes the screen iff the text is exactly "SDT123.com", and closes the dialog either way |
| VideoPlayer.VideoPlayerActivity.PasswordCancel | app/src/main/java/com/sdt/sdtplayer/VideoPlayerActivity.kt:269-277 | Cancel only closes the dialog |
| VideoPlayer.VideoPlayerActivity.PasswordDialogDismissed | app/src/main/java/com/sdt/sdtplayer/VideoPlayerActivity.kt:278-280 | dismissal only clears the dialog flag |
| VideoPlayer.VideoPlayerActivity.DispatchKeyEvent | app/src/main/java/com/sdt/sdtplayer/VideoPlayerActivity.kt:180-247 | a press of a handled key is consumed and moves the screen as OnKeyPress says. UP/DOWN with the guide shown redraw exactly the old and new highlighted rows, and no other key touches the guide's notices. Any other event is passed to the platform: the model answers false for it and changes no modelled state (see Left out) |
| VideoPlayer.VideoPlayerActivity.Confirm | app/src/main/java/com/sdt/sdtplayer/VideoPlayerActivity.kt:183-193 | the ENTER branch moves the screen as OnKeyPress says for ENTER |

## Left out

- Media decoding, HLS streaming and the player's own state machine are not
  modelled. The player is reduced to the requests the screen makes of it:
  loads, play/pause, seeks and the spinner.
- Real time is not modelled. The 5-second hide delay is the flag
  `hidePending` plus the explicit `OnHideTimerFired` event. The top bar's
  5-second hide is left out because it only affects layout.
- Animations, layout parameters, `scrollToPosition` and Toast rendering are
  left out because they change no modelled state. The error message is kept
  as the notice's text.
- Intents are recorded only as the list a launch carries (`launches`). The
  player reads no inbound list, so nothing is passed across.
- `onDestroy` (player release) is left out because it has no effect on
  modelled state.
- The per-view key listeners of the URL entry screen (`setupKeyListeners`)
  are not modelled. The activity's `dispatchKeyEvent` consumes every D-pad
  key they handle before they run, so `inDeleteMode` stays false. Only the
  focus table's delete-mode branch keeps it as a parameter.
- UrlInput.UrlInputActivity.DispatchKeyEvent: the platform's own focus
  search is not modelled. For keys the URL entry screen passes on, the model
  returns false and keeps the focus where it was. The program returns
  whatever `super.dispatchKeyEvent` answers, and the platform may move focus
  there and report the key as consumed.
- VideoPlayer.VideoPlayerActivity.DispatchKeyEvent: for events the player
  screen does not handle (key releases and keys other than the ten it
  lists), the model answers false and changes nothing. The program returns
  whatever `super.dispatchKeyEvent` answers, and the platform may act on the
  key there (a focused player view handles media keys, for instance) and
  report it as consumed.
- Key events that reach the player screen while the password dialog is
  showing are not modelled. The dialog takes input focus, which is outside
  this model.
- The player's `onDeleteClick` lambda (the guide's delete callback) is
  unreachable because the guide hides its delete buttons. It is not
  modelled.
- VideoPlayer.VideoPlayerActivity.TapGuideRow: requires a position inside the
  guide. The source assigns the row's adapter position unchecked, and at
  NO_POSITION the next ENTER would index outside the channel list.
- ChannelAdapters.ChannelAdapter.Click: requires NO_POSITION or a row of the
  list, which is what the list view reports for a clicked row.
- Platform.StringList.RemoveAt: requires an index in range. Out of range,
  Kotlin's `removeAt` throws, and exceptions are not modelled.
- UrlInput.UrlInputActivity.DeleteClicked: models the corrected listener (see
  Findings). The listener as written is modelled by the stale-binding
  functions in the adapter module.
- `SplashScreenActivity`, `BootReceiver`, the layouts and the build files are
  not part of this model.

## Findings

| source | as written | input that shows it | evidently intended | confidence | as-written member | corrected member |
|---|---|---|---|---|---|---|
| app/src/main/java/com/sdt/sdtplayer/UrlAdapter.kt:43-45 | The delete listener captures onBindViewHolder's `position`. After `notifyItemRemoved` the rows below the removed one are not rebound, so their listeners keep a position one too large | URLs [a, b, c]; delete a. The row showing b then deletes c, and the row showing c calls `removeAt(2)` on a two-element list, which throws | delete the element the clicked row currently shows, i.e. its current adapter position | not executed | UrlAdapters.StaleDeleteCounterexample | UrlInput.UrlInputActivity.DeleteClicked |
