# Timeline engine of the video editor, in Dafny

This project models the timeline of the browser video editor (the `Editor`
component and its `TimelineBar` children). The editor keeps an ordered list
of clip URLs (`videoSrc`), the index of the active clip (`count`), one
duration per clip (`durMap`), and the `playing` and `loop` flags. Its
handlers append an uploaded clip, split or trim the active clip (the halves
or the shortened copy come from an FFmpeg transcoder), delete the active
clip, and reorder clips by drag and drop. The player's end event moves the
cursor to the next clip or back to the start. The timeline shows one bar per
clip, with one tick per second, and a red pointer whose pixel offset is
computed from the durations, the cursor and the player time.

Modules:

- `Common` (common.dfy): `Option` and `Ref`. A clip reference is its
  object URL, a string.
- `ArraySplice` (array_splice.dfy): `Array.prototype.splice` with the
  clamping JavaScript applies to a start or delete count past the end, and
  `moveCard`'s pair of splices. Lemmas give the element-wise meaning of both:
  a move is a permutation, it lands the dragged clip at the hovered index,
  it shifts only what lies between the two indices, and moving back undoes it.
- `EditorModel` (editor.dfy): class `Editor`, with fields `sources`,
  `durations`, `count`, `playing` and `loop`, one method per handler.
  Every method states its whole new state. `CursorInRange` (the active index
  names a clip, or is 0 when the list is empty) is stated as kept,
  established or broken by each handler.
- `TimeFormat` (time_format.dfy): `formatTime` on whole seconds, with
  decimal rendering and reading back.
- `TimelineBar` (timeline_bar.dfy): the ticks of a bar, the drag-hover
  decision, the `hover` handler that calls `moveCard` and updates the drag
  item, and the tick click that calls `seek`.
- `Geometry` (geometry.dfy): `getTotalDur` as a loop checked against a
  specification function. The pointer is related to an independent model of
  the bar layout. It is built from the spacing classes in the markup, where
  one unit is 4 px: `px-1` on the ruler, `px-2 mr-1` on a bar, and a 1 px
  tick followed by `pr-[5px]`. That model explains the margin of 12 px
  (4 + 8), the 20 px per clip (8 + 8 + 4) and the 6 px per second. With the
  player at `i + 1` seconds in clip `b`, the pointer stands on tick `i` of
  bar `b`, which is the position a click on that tick requests.

Modelling choices and the behaviour the code actually has:

- The player's floating-point values enter as whole numbers. Durations are
  `floor(d)` as `nat`, which is what the geometry loop and the tick count
  use. The player time is `Math.round(getCurrentTime())`. The exact float
  comparison in `onEnded` becomes a boolean `atEnd`. For a non-negative
  time, `formatTime`'s floors give exactly the fields of its whole seconds.
- The transcoder's output is a parameter (`None` when FFmpeg fails). The
  transcoder reads `videoSrc[count]`, so an output can exist only when
  `count` names a clip. That is the only precondition of `Split` and `Trim`.
- Duration loading is `LoadDurations(probe)`. It replaces `durations` with
  the probes of the current list, in list order, which is the order
  `Promise.all` keeps. Edits leave `durations` unchanged, and possibly stale,
  until the caller runs the load that the component starts after each change.
- The model follows the code, including where its behaviour may surprise:
  - Reordering keeps `count` at its numeric value; it does not follow the
    clip.
  - Deleting uses three rules. Deleting clip 0 when two or more clips remain
    selects index 1, which is the old clip 2. `DeleteVidCursor` states
    this.
  - `onEnded` always advances `count`. It wraps to `(0, paused)` only on
    the last clip, with durations known and `atEnd`. In every other case on
    the last clip the cursor ends one past the end. The `loop` flag is only
    handed to the player.
  - `totalDur` is declared in the component body, so it starts at 0 on
    every render, and `getTotalDur` runs once per render. The model is
    therefore a loop from 0. If `count` exceeds the known durations, the
    loop reads `undefined` and the offset is NaN (`Pixels.NotANumber`).
  - Nothing in the code maps a timeline position back to a clip, checks
    the split point, or reports an error to the user.

## Model

| member | source | states |
|---|---|---|
| `EditorModel.Editor.constructor` | frontend/src/components/Editor.tsx:11-20 | initial state: no clips, durations unknown, cursor 0, paused, not looping |
| `EditorModel.Editor.HandleFileUpload` | frontend/src/components/Editor.tsx:44-56 | a chosen file gives `old ++ [url]`, also from an empty list; no file changes nothing; cursor and durations unchanged; cursor range kept |
| `EditorModel.Editor.HandlePlayPause` | frontend/src/components/Editor.tsx:58-60 | `playing` flips, nothing else changes |
| `EditorModel.Editor.HandleLoop` | frontend/src/components/Editor.tsx:62-64 | `loop` flips, nothing else changes |
| `EditorModel.Editor.LoadDurations` | frontend/src/components/Editor.tsx:67-90 | one duration per clip, entry `i` being the probe of clip `i`; list, cursor and flags unchanged |
| `EditorModel.Editor.Seek` | frontend/src/components/Editor.tsx:138-142 | `count == vidIndex`, paused, the player is asked for `time + 1`; clips and durations unchanged |
| `EditorModel.Editor.Split` | frontend/src/components/Editor.tsx:145-167 | with durations known and both halves produced: one clip longer, the halves at `count` and `count + 1`, prefix kept, suffix shifted right by one; otherwise nothing changes; `count` unchanged |
| `EditorModel.Editor.Trim` | frontend/src/components/Editor.tsx:170-187 | with an output: only `sources[count]` is replaced, length and cursor unchanged; without one nothing changes |
| `EditorModel.Editor.DeleteVid` | frontend/src/components/Editor.tsx:189-203 | the list is the one-element splice at `count`, and the cursor is `CountAfterDelete` of the old cursor and the new length; from an in-range cursor exactly that clip goes and the cursor stays in range |
| `EditorModel.CountAfterDelete` | frontend/src/components/Editor.tsx:194-202 | from a cursor at most the number of clips left, the new cursor is 0 when none remain and names a clip otherwise |
| `EditorModel.DeleteVidCursor` | frontend/src/components/Editor.tsx:190-202 | from an in-range cursor: exactly the clip at `count` is removed; cursor 0 on an empty list and in range otherwise; `count - 1` when it was positive; 1 after deleting clip 0 with two or more left, which selects the old third clip |
| `EditorModel.Editor.MoveCard` | frontend/src/components/Editor.tsx:205-214 | clips reordered by the two splices: same multiset, the dragged clip at the hovered index, identity when the indices agree; `count` unchanged |
| `EditorModel.Editor.OnEnded` | frontend/src/components/Editor.tsx:230-238 | on the last clip with durations known and `atEnd`: cursor 0, paused, a player seek to 1 s requested; otherwise cursor advanced by one, so it stays in range unless the last clip ended |
| `ArraySplice.Splice` | frontend/src/components/Editor.tsx:159-161 | splice's length law with a clamped start and delete count |
| `ArraySplice.SpliceElements` | frontend/src/components/Editor.tsx:159-161 | splice keeps the prefix, puts the items at the start and closes up the suffix behind them |
| `ArraySplice.SpliceRemoves` | frontend/src/components/Editor.tsx:190-191 | a one-element splice at an index in range removes exactly that element |
| `ArraySplice.SplicePastEnd` | frontend/src/components/Editor.tsx:190-191 | a removing splice at or past the end changes nothing |
| `ArraySplice.MoveCard` | frontend/src/components/Editor.tsx:206-212 | moving keeps the length |
| `ArraySplice.MoveCardAt` | frontend/src/components/Editor.tsx:206-212 | element `k` after a move is the dragged element at the hovered index, otherwise the matching element of the list without it |
| `ArraySplice.MoveCardPermutes` | frontend/src/components/Editor.tsx:206-212 | moving is a permutation of the list |
| `ArraySplice.MoveCardPlaces` | frontend/src/components/Editor.tsx:206-212 | `r[h] == s[d]`; elements outside `[min(d,h), max(d,h)]` unchanged; elements in between shift by one towards `d` |
| `ArraySplice.MoveCardOntoItself` | frontend/src/components/Editor.tsx:206-212 | `moveCard(i, i)` is the identity |
| `ArraySplice.MoveCardUndo` | frontend/src/components/Editor.tsx:206-212 | `moveCard(h, d)` after `moveCard(d, h)` restores the list |
| `TimeFormat.NatToStringRoundTrip` | frontend/src/components/Editor.tsx:106-108 | the decimal rendering is all digits, reads back as the number, one character below 10 and two below 100 |
| `TimeFormat.Pad2RoundTrip` | frontend/src/components/Editor.tsx:106-108 | a zero-padded field has at least two digits, exactly two below 100, and reads back as the number |
| `TimeFormat.ClockFields` | frontend/src/components/Editor.tsx:101-103 | `h*3600 + m*60 + s == seconds` with `m < 60` and `s < 60` |
| `TimeFormat.FormatTime` | frontend/src/components/Editor.tsx:100-111 | `formatTime` as written: at least 7 characters, with the colon before the two-digit seconds field |
| `TimeFormat.FormatTimeIntended` | frontend/src/components/Editor.tsx:100-111 | `formatTime` with the hours colon restored: at least 8 characters, with colons before the minutes and seconds fields |
| `TimeFormat.FormatTimeSecondsField` | frontend/src/components/Editor.tsx:107-110 | the string always ends in `:SS`, two digits that read back as the seconds field |
| `TimeFormat.FormatTimeUnderTenHours` | frontend/src/components/Editor.tsx:100-111 | below 36000 s the result has 8 characters `HH:MM:SS` whose fields read back as the time |
| `TimeFormat.FormatTimeTenHoursDropsColon` | frontend/src/components/Editor.tsx:106 | 36000 s formats as `1000:00`, with a single colon; the corrected version gives `10:00:00` |
| `TimeFormat.FormatTimeIntendedRoundTrip` | frontend/src/components/Editor.tsx:106 | with the colon restored, the last two colons split any result into fields that read back as the time |
| `TimeFormat.FormatTimeIntendedAgrees` | frontend/src/components/Editor.tsx:106 | below ten hours the corrected version equals the version as written |
| `Geometry.ElapsedOffset` | frontend/src/components/Editor.tsx:123-125 | the elapsed-time offset is a multiple of 6 within 6 px below `6·round(t)`, and 0 during the first second |
| `Geometry.PrecedingWidth` | frontend/src/components/Editor.tsx:114-119 | the per-second width of the preceding clips is a multiple of 6 and at least `6·d_i` for each of them |
| `Geometry.PointerSpec` | frontend/src/components/Editor.tsx:113-130 | the pointer offset is NaN exactly when durations are known and `count` exceeds their number, and otherwise at least `12 + 20·count` |
| `Geometry.PointerLeft` | frontend/src/components/Editor.tsx:113-130 | the render-time loop computes `12 + Σ_{i<count} 6·d_i + 20·count + 6·max(round(t)-1, 0)`, or NaN when `count` passes the known durations |
| `Geometry.PointerStep` | frontend/src/components/Editor.tsx:114-119 | one clip further on adds exactly `6·d_count + 20` |
| `Geometry.BarsWidthIsPreceding` | frontend/src/components/TimelineBar.tsx:84-90 | the rendered width of the first `n` bars equals the pointer's per-clip terms, `Σ 6·d_i + 20·n` |
| `Geometry.PointerOverTick` | frontend/src/components/Editor.tsx:124-129 | with the player at `i + 1` s in clip `b`, the pointer sits on tick `i` of bar `b` |
| `Geometry.ClickedTickIsPointed` | frontend/src/components/TimelineBar.tsx:89 | at the position the click on tick `i` of bar `b` requests, the pointer formula gives that tick's position |
| `Geometry.TicksOrdered` | frontend/src/components/TimelineBar.tsx:84-90 | every tick of a bar lies left of the next bar's first tick |
| `TimelineBar.TickAt` | frontend/src/components/TimelineBar.tsx:86-89 | a tick is 36 or 24 px tall, 36 exactly when its index is a multiple of 5, and requests `seek(i, vidIndex)` |
| `TimelineBar.Ticks` | frontend/src/components/TimelineBar.tsx:85 | a bar has `duration` ticks |
| `TimelineBar.TicksLayout` | frontend/src/components/TimelineBar.tsx:85-90 | tick `i` is 36 px tall when `i % 5 == 0`, else 24 px, and requests `seek(i, vidIndex)` |
| `TimelineBar.FirstTickTall` | frontend/src/components/TimelineBar.tsx:86 | the first tick of a non-empty bar is tall |
| `TimelineBar.TallTicksPerFiveSeconds` | frontend/src/components/TimelineBar.tsx:86 | a bar of `d` seconds has `⌈d/5⌉` tall ticks |
| `TimelineBar.HoverMoves` | frontend/src/components/TimelineBar.tsx:31-60 | the hover moves exactly when the indices differ and the cursor has reached the bar's midpoint from the drag's side |
| `TimelineBar.DragItem.constructor` | frontend/src/components/TimelineBar.tsx:72-74 | a drag starts with the bar's id and index |
| `TimelineBar.Hover` | frontend/src/components/TimelineBar.tsx:23-67 | unmounted, same index, or short of the middle: nothing changes; otherwise `moveCard(dragIndex, hoverIndex)` once, the dragged clip now at the hovered index and `item.index == hoverIndex`; cursor and durations unchanged |
| `TimelineBar.ClickTick` | frontend/src/components/TimelineBar.tsx:89 | a click on tick `i` of bar `vidIndex` selects clip `vidIndex`, pauses and sends the player to `i + 1` s |

## Left out

- FFmpeg loading and the transcode steps (`load`, `writeFile`, `exec`, `readFile`, `deleteFile`): a foreign library. Its output clips are parameters of `Split` and `Trim`.
- The FFmpeg time arguments built with `formatTime` for split and trim: they only feed the transcoder.
- Object URLs (`createObjectURL`, `revokeObjectURL`) and blobs: browser resources.
- Duration probing through a `video` element: asynchronous browser I/O. Only the index-aligned result is kept. A probe that never answers, and two loads racing (the handlers load explicitly and the effect on `videoSrc` loads again), are not modelled.
- `EditorModel.Editor.Split`, `EditorModel.Editor.Trim`: each is one atomic step. The handlers build the new list from the `videoSrc` and `count` they captured when the button was pressed. They keep that list across several `await`s (`load`, `writeFile`, `exec`, `readFile`), so an upload, delete, move or `onEnded` advance made during the transcode is overwritten by `setVideoSrc(videos)`. Two overlapping splits also share the files `splitIn.mp4` and `splitOut*.mp4`. The model does not capture either.
- `EditorModel.Editor.Seek`: the request is returned, not delivered. In the source, `seekTo(time + 1)` runs before the queued `setCount(vidIndex)` takes effect, so it goes to the player of the previously active clip. The newly selected clip is then loaded from its start. The same holds for the `seek(0, 0)` inside `onEnded`. The geometry lemmas are about the requested position, not where the player ends up.
- Durations that are NaN or infinite: durations are floored whole seconds.
- Volume (`parseFloat`), playback rate, fullscreen, the drag opacity and all rendering: presentation only.
- The `null` initial value of `videoSrc` is treated as the empty list. Deleting from a `null` list throws in the source, where the model resets `count` to 0.
- `EditorModel.Editor.Split`: requires that the halves exist only when `count` names a clip, because the transcoder's input is `videoSrc[count]`.
- `EditorModel.Editor.Trim`: requires that the output exists only when `count` names a clip, for the same reason.
- `TimelineBar.Hover`: requires the dragged index to name a clip when a move happens. The model has no `undefined` clip to insert otherwise.
- `EditorModel.Editor.MoveCard`: requires `dragIndex` to name a clip, for the same reason.
- The drag-and-drop hook plumbing (`useDrag`, `useDrop`, `DndProvider`), the React player and page routing.
- frontend/src/components/VideoToAudio.tsx, backend/src/index.ts, frontend/src/main.tsx and frontend/src/App.tsx: an upload form, a network relay and the page shell. None of them holds timeline logic.

## Findings

| source | as written | input that shows it | evidently intended | confidence | as-written member | corrected member |
|---|---|---|---|---|---|---|
| frontend/src/components/Editor.tsx:106 | hours of 10 or more are printed without the colon that separates them from the minutes | 36000 s gives `1000:00`, which reads as 1000 minutes | `10:00:00`, a colon after the hours in both branches | high (not executed) | `TimeFormat.FormatTimeTenHoursDropsColon` | `TimeFormat.FormatTimeIntendedRoundTrip` |
