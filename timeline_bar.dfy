/** One bar of the timeline: its drag-and-drop hover rule and its ticks. */
module TimelineBar {
  import opened Common
  import ArraySplice
  import EditorModel

  /** What a tick of a bar renders: its height in pixels and the `seek` its
      click requests. */
  datatype Tick = Tick(height: nat, seekTime: nat, seekClip: nat)

  /** Tick `i` of bar `vidIndex`: 9 units tall on every fifth position,
      6 otherwise, one unit being 4 pixels. */
  function TickAt(i: nat, vidIndex: nat): (tick: Tick)
    ensures tick.height == 36 || tick.height == 24
    ensures tick.height == 36 <==> i % 5 == 0
    ensures tick.seekTime == i && tick.seekClip == vidIndex
  {
    Tick((if i % 5 == 0 then 9 else 6) * 4, i, vidIndex)
  }

  /** The ticks of a bar whose clip lasts `duration` whole seconds, in the
      order `Array.from({ length: duration }).map` produces them. */
  function Ticks(duration: nat, vidIndex: nat): (ticks: seq<Tick>)
    ensures |ticks| == duration
  {
    if duration == 0 then [] else Ticks(duration - 1, vidIndex) + [TickAt(duration - 1, vidIndex)]
  }

  /** Number of tall ticks in a row of ticks. */
  function TallCount(ticks: seq<Tick>): nat
  {
    if ticks == [] then 0
    else TallCount(ticks[..|ticks| - 1]) + (if ticks[|ticks| - 1].height == 36 then 1 else 0)
  }

  /** One tick per whole second; tick `i` is 36 px tall when `i` is a
      multiple of 5 and 24 px otherwise, and clicking it seeks to second `i`
      of this bar's clip. */
  lemma {:induction false} TicksLayout(duration: nat, vidIndex: nat)
    ensures var ticks := Ticks(duration, vidIndex);
      && |ticks| == duration
      && (forall i :: 0 <= i < duration ==> ticks[i].height == (if i % 5 == 0 then 36 else 24))
      && (forall i :: 0 <= i < duration ==> ticks[i].seekTime == i && ticks[i].seekClip == vidIndex)
  {
    if duration > 0 {
      TicksLayout(duration - 1, vidIndex);
    }
  }

  /** The first tick of a non-empty bar is a tall one. */
  lemma FirstTickTall(duration: nat, vidIndex: nat)
    requires duration > 0
    ensures Ticks(duration, vidIndex)[0].height == 36
  {
    TicksLayout(duration, vidIndex);
  }

  /** A bar shows one tall tick for every started block of five seconds. */
  lemma {:induction false} TallTicksPerFiveSeconds(duration: nat, vidIndex: nat)
    ensures TallCount(Ticks(duration, vidIndex)) == (duration + 4) / 5
  {
    if duration > 0 {
      TallTicksPerFiveSeconds(duration - 1, vidIndex);
      var ticks := Ticks(duration, vidIndex);
      assert ticks[..|ticks| - 1] == Ticks(duration - 1, vidIndex);
    }
  }

  /** The bounding box of the hovered bar, horizontally. */
  datatype Rect = Rect(left: real, right: real)

  /** The hover rule: a bar hovered by a different bar's drag takes the
      dragged clip once the cursor is past the bar's middle in the direction
      of the drag. In page coordinates: a move happens exactly when the
      indices differ and the cursor has reached the bar's midpoint from the
      side the drag comes from. */
  function HoverMoves(dragIndex: nat, hoverIndex: nat, rect: Rect, clientX: real): (moves: bool)
    ensures moves <==>
      && dragIndex != hoverIndex
      && (dragIndex < hoverIndex ==> 2.0 * clientX >= rect.left + rect.right)
      && (dragIndex > hoverIndex ==> 2.0 * clientX <= rect.left + rect.right)
  {
    var hoverMiddleX := (rect.right - rect.left) / 2.0;
    var hoverClientX := clientX - rect.left;
    if dragIndex == hoverIndex then false
    else if dragIndex < hoverIndex && hoverClientX < hoverMiddleX then false
    else if dragIndex > hoverIndex && hoverClientX > hoverMiddleX then false
    else true
  }

  /** What `useDrag` hands to `hover`: the dragged bar's id and its current
      index, which `hover` keeps up to date. */
  class DragItem {
    const id: nat
    var index: nat

    constructor (id: nat, index: nat)
      ensures this.id == id && this.index == index
    {
      this.id := id;
      this.index := index;
    }
  }

  /** `hover` on the bar at `index` whose element box is `rect` (`None` while
      the element is not mounted), the cursor being at `clientX`. */
  method Hover(item: DragItem, index: nat, rect: Option<Rect>, clientX: real, editor: EditorModel.Editor)
    requires rect.Some? && HoverMoves(item.index, index, rect.value, clientX) ==> item.index < |editor.sources|
    modifies item, editor
    ensures rect.Some? && HoverMoves(old(item.index), index, rect.value, clientX) ==>
      && editor.sources == ArraySplice.MoveCard(old(editor.sources), old(item.index), index)
      && (index < |editor.sources| ==> editor.sources[index] == old(editor.sources)[old(item.index)])
      && item.index == index
    ensures !(rect.Some? && HoverMoves(old(item.index), index, rect.value, clientX)) ==>
      editor.sources == old(editor.sources) && item.index == old(item.index)
    ensures editor.count == old(editor.count) && editor.durations == old(editor.durations)
    ensures editor.playing == old(editor.playing) && editor.loop == old(editor.loop)
  {
    if rect.None? {
      return;
    }
    var dragIndex := item.index;
    var hoverIndex := index;
    if dragIndex == hoverIndex {
      return;
    }
    var hoverBoundingRect := rect.value;
    var hoverMiddleX := (hoverBoundingRect.right - hoverBoundingRect.left) / 2.0;
    var hoverClientX := clientX - hoverBoundingRect.left;
    if dragIndex < hoverIndex && hoverClientX < hoverMiddleX {
      return;
    }
    if dragIndex > hoverIndex && hoverClientX > hoverMiddleX {
      return;
    }
    editor.MoveCard(dragIndex, hoverIndex);
    item.index := hoverIndex;
  }

  /** A click on tick `i` of the bar at `vidIndex` calls `seek(i, vidIndex)`. */
  method ClickTick(duration: nat, vidIndex: nat, i: nat, editor: EditorModel.Editor) returns (playerSeek: nat)
    requires i < duration
    modifies editor
    ensures editor.count == vidIndex && !editor.playing && playerSeek == i + 1
    ensures editor.sources == old(editor.sources) && editor.durations == old(editor.durations)
    ensures editor.loop == old(editor.loop)
  {
    TicksLayout(duration, vidIndex);
    var tick := Ticks(duration, vidIndex)[i];
    playerSeek := editor.Seek(tick.seekTime, tick.seekClip);
  }
}
