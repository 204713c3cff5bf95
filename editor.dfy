/** The editor component's state and its event handlers. React state
    updates are applied in the order the handler issues them. */
module EditorModel {
  import opened Common
  import opened ArraySplice

  /** The cursor after `deleteVid`, from the cursor `was` the handler saw and
      the number of clips left: step back when it was past the first clip,
      step to 1 when the first clip went and two or more remain, 0 when
      nothing remains. */
  function CountAfterDelete(was: nat, remaining: nat): (c: nat)
    ensures was <= remaining && remaining == 0 ==> c == 0
    ensures was <= remaining && remaining > 0 ==> c < remaining
  {
    if remaining == 0 then 0
    else if was > 0 then was - 1
    else if remaining > 1 then 1
    else 0
  }

  /** Deleting the clip at an in-range cursor removes exactly that clip and
      leaves the cursor on a clip (or at 0 on an empty list). Deleting the
      first clip of three or more selects what was the third clip. */
  lemma DeleteVidCursor(s: seq<Ref>, was: nat)
    requires was < |s|
    ensures var r, c := Splice(s, was, 1, []), CountAfterDelete(was, |s| - 1);
      && r == s[..was] + s[was + 1..]
      && (r == [] ==> c == 0)
      && (r != [] ==> c < |r|)
      && (was > 0 ==> c == was - 1)
      && (was == 0 && |r| >= 2 ==> c == 1 && r[c] == s[2])
  {
    SpliceRemoves(s, was);
  }

  class Editor {
    /** `videoSrc`: the clips on the timeline, in playback order. */
    var sources: seq<Ref>
    /** `durMap`: whole seconds of each clip, in the order they were last
        resolved; `None` until the first resolution finishes. */
    var durations: Option<seq<nat>>
    /** `count`: index of the active clip. */
    var count: nat
    var playing: bool
    var loop: bool

    /** The active index names a clip, or is 0 on an empty timeline. */
    predicate CursorInRange()
      reads this
    {
      if sources == [] then count == 0 else count < |sources|
    }

    constructor ()
      ensures sources == [] && durations == None && count == 0
      ensures !playing && !loop
    {
      sources, durations, count := [], None, 0;
      playing, loop := false, false;
    }

    /** `handleFileUpload`: a chosen file is appended, whether the list was
        empty or not; with no file chosen nothing happens. */
    method HandleFileUpload(file: Option<Ref>)
      modifies this
      ensures file.Some? ==> sources == old(sources) + [file.value]
      ensures file.None? ==> sources == old(sources)
      ensures count == old(count) && durations == old(durations)
      ensures playing == old(playing) && loop == old(loop)
      ensures old(CursorInRange()) ==> CursorInRange()
    {
      if file.Some? {
        var fileURL := file.value;
        if |sources| > 0 {
          sources := sources + [fileURL];
          return;
        }
        sources := [fileURL];
      }
    }

    method HandlePlayPause()
      modifies this
      ensures playing == !old(playing)
      ensures sources == old(sources) && durations == old(durations)
      ensures count == old(count) && loop == old(loop)
    {
      playing := !playing;
    }

    method HandleLoop()
      modifies this
      ensures loop == !old(loop)
      ensures sources == old(sources) && durations == old(durations)
      ensures count == old(count) && playing == old(playing)
    {
      loop := !loop;
    }

    /** `loadDuration` once every probe has answered: `Promise.all` keeps
        the order of the list it was given, so entry `i` is the duration of
        clip `i`. `probe` gives a clip's duration in whole seconds. */
    method LoadDurations(probe: Ref -> nat)
      modifies this
      ensures durations.Some? && |durations.value| == |sources|
      ensures forall i :: 0 <= i < |sources| ==> durations.value[i] == probe(sources[i])
      ensures sources == old(sources) && count == old(count)
      ensures playing == old(playing) && loop == old(loop)
    {
      var video := sources;
      durations := Some(seq(|video|, i requires 0 <= i < |video| => probe(video[i])));
    }

    /** `seek(time, vidIndex)`: select the clip, pause, and ask the player to
        jump to `time + 1` seconds (the returned request). */
    method Seek(time: nat, vidIndex: nat) returns (playerSeek: nat)
      modifies this
      ensures count == vidIndex && !playing
      ensures playerSeek == time + 1
      ensures sources == old(sources) && durations == old(durations) && loop == old(loop)
      ensures vidIndex < |sources| ==> CursorInRange()
    {
      count := vidIndex;
      playerSeek := time + 1;
      playing := false;
    }

    /** `split`: with durations known and both halves produced by the
        transcoder, the active clip is replaced by its two halves. Any other
        outcome leaves everything as it was. */
    method Split(halves: Option<(Ref, Ref)>)
      requires halves.Some? ==> count < |sources|
      modifies this
      ensures count == old(count) && durations == old(durations)
      ensures durations.Some? && halves.Some? ==>
        && sources == Splice(old(sources), count, 1, [halves.value.0, halves.value.1])
        && |sources| == |old(sources)| + 1
        && sources[count] == halves.value.0 && sources[count + 1] == halves.value.1
        && sources[..count] == old(sources)[..count]
        && sources[count + 2..] == old(sources)[count + 1..]
      ensures !(durations.Some? && halves.Some?) ==> sources == old(sources)
      ensures playing == old(playing) && loop == old(loop)
      ensures old(CursorInRange()) ==> CursorInRange()
    {
      if durations.Some? && halves.Some? {
        var videos := sources;
        videos := Splice(videos, count, 1, [halves.value.0, halves.value.1]);
        assert videos[count + 2..] == old(sources)[count + 1..];
        sources := videos;
      }
    }

    /** `trim`: the active clip is replaced by the transcoder's shortened
        copy; without an output nothing changes. */
    method Trim(output: Option<Ref>)
      requires output.Some? ==> count < |sources|
      modifies this
      ensures count == old(count) && durations == old(durations)
      ensures output.Some? ==> sources == old(sources)[count := output.value]
      ensures output.None? ==> sources == old(sources)
      ensures |sources| == |old(sources)|
      ensures playing == old(playing) && loop == old(loop)
      ensures old(CursorInRange()) ==> CursorInRange()
    {
      if output.Some? {
        var videos := sources;
        videos := videos[count := output.value];
        sources := videos;
      }
    }

    /** `deleteVid`: the active clip is removed and the cursor moved by
        `CountAfterDelete`. */
    method DeleteVid()
      modifies this
      ensures sources == Splice(old(sources), old(count), 1, [])
      ensures count == CountAfterDelete(old(count), |sources|)
      ensures old(count) < |old(sources)| ==>
        sources == old(sources)[..old(count)] + old(sources)[old(count) + 1..] && CursorInRange()
      ensures durations == old(durations) && playing == old(playing) && loop == old(loop)
    {
      var videos := sources;
      var was := count;
      videos := Splice(videos, was, 1, []);
      var c := was;
      if |videos| >= 1 && was > 0 {
        c := c - 1;
      }
      if |videos| > 1 && was == 0 {
        c := c + 1;
      }
      if |videos| == 0 {
        c := 0;
      }
      sources, count := videos, c;
    }

    /** `moveCard`: reorder the clips; the cursor keeps its numeric value. */
    method MoveCard(dragIndex: nat, hoverIndex: nat)
      requires dragIndex < |sources|
      modifies this
      ensures sources == ArraySplice.MoveCard(old(sources), dragIndex, hoverIndex)
      ensures multiset(sources) == multiset(old(sources))
      ensures hoverIndex < |sources| ==> sources[hoverIndex] == old(sources)[dragIndex]
      ensures dragIndex == hoverIndex ==> sources == old(sources)
      ensures count == old(count) && durations == old(durations)
      ensures playing == old(playing) && loop == old(loop)
      ensures old(CursorInRange()) ==> CursorInRange()
    {
      MoveCardPermutes(sources, dragIndex, hoverIndex);
      if hoverIndex < |sources| {
        MoveCardPlaces(sources, dragIndex, hoverIndex);
      }
      if dragIndex == hoverIndex {
        MoveCardOntoItself(sources, dragIndex);
      }
      sources := ArraySplice.MoveCard(sources, dragIndex, hoverIndex);
    }

    /** The player's `onEnded`: the cursor always steps forward; when the
        clip that ended was the last one, durations are known and the player
        stands exactly at that clip's duration (`atEnd`), a `seek(0, 0)`
        follows, which wins. On the last clip without `atEnd` the cursor is
        left one past the end. */
    method OnEnded(atEnd: bool) returns (playerSeek: Option<nat>)
      modifies this
      ensures var wraps := old(count) + 1 == |sources| && durations.Some?
                           && old(count) < |durations.value| && atEnd;
        && (wraps ==> count == 0 && !playing && playerSeek == Some(1))
        && (!wraps ==> count == old(count) + 1 && playing == old(playing) && playerSeek == None)
      ensures old(count) + 1 < |sources| ==> count == old(count) + 1 && CursorInRange()
      ensures sources == old(sources) && durations == old(durations) && loop == old(loop)
    {
      var was := count;
      count := count + 1;
      playerSeek := None;
      if was == |sources| - 1 && durations.Some? && was < |durations.value| && atEnd {
        var target := Seek(0, 0);
        playerSeek := Some(target);
      }
    }
  }
}
