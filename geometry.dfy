/** `getTotalDur`: the left offset, in pixels, of the red pointer on the
    timeline, and the bar layout it is measured against. */
module Geometry {
  import opened Common
  import TimelineBar

  /** A CSS pixel offset, or the NaN that arises when a duration is read
      past the end of the duration list. */
  datatype Pixels = Left(px: nat) | NotANumber

  /** `6 * (round(t) - 1)` for a positive rounded player time, else 0. */
  function ElapsedOffset(roundedTime: nat): (offset: nat)
    ensures offset % 6 == 0
    ensures offset <= 6 * roundedTime && 6 * roundedTime <= offset + 6
    ensures roundedTime <= 1 ==> offset == 0
  {
    (if roundedTime > 0 then roundedTime - 1 else 0) * 6
  }

  /** Six pixels per whole second of each of the first `count` clips. */
  function PrecedingWidth(durations: seq<nat>, count: nat): (width: nat)
    requires count <= |durations|
    ensures width % 6 == 0
    ensures forall i :: 0 <= i < count ==> 6 * durations[i] <= width
  {
    if count == 0 then 0 else PrecedingWidth(durations, count - 1) + 6 * durations[count - 1]
  }

  /** The pointer offset: a 12 px margin, the preceding clips' seconds,
      20 px per preceding clip and the elapsed offset. With durations
      unknown the loop adds nothing; with fewer durations than `count` it
      adds NaN. */
  function PointerSpec(durMap: Option<seq<nat>>, count: nat, roundedTime: nat): (left: Pixels)
    ensures left.NotANumber? <==> durMap.Some? && count > |durMap.value|
    ensures left.Left? ==> left.px >= 12 + 20 * count
  {
    match durMap
    case None => Left(12 + 20 * count + ElapsedOffset(roundedTime))
    case Some(d) =>
      if count > |d| then NotANumber
      else Left(12 + PrecedingWidth(d, count) + 20 * count + ElapsedOffset(roundedTime))
  }

  /** `getTotalDur` on one render: the accumulator starts at 0, the loop
      adds `floor(d) * 5 + floor(d)` for each clip before the active one. */
  method PointerLeft(durMap: Option<seq<nat>>, count: nat, roundedTime: nat) returns (left: Pixels)
    ensures left == PointerSpec(durMap, count, roundedTime)
  {
    var totalDur := 0;
    var nan := false;
    var index := 0;
    while index < count
      invariant index <= count
      invariant nan <==> (durMap.Some? && index > |durMap.value|)
      invariant durMap.None? ==> totalDur == 0
      invariant durMap.Some? && !nan ==> totalDur == PrecedingWidth(durMap.value, index)
    {
      if durMap.Some? {
        if index < |durMap.value| {
          var d := durMap.value[index];
          totalDur := totalDur + d * 5 + d;
        } else {
          nan := true;
        }
      }
      index := index + 1;
    }
    var currentTime := ElapsedOffset(roundedTime);
    var firstVid := 20 * count;
    if nan {
      left := NotANumber;
    } else {
      left := Left(12 + totalDur + firstVid + currentTime);
    }
  }

  /** Moving the cursor one clip on shifts the pointer by that clip's bar:
      6 px per second plus 20 px. */
  lemma PointerStep(durations: seq<nat>, count: nat, roundedTime: nat)
    requires count < |durations|
    ensures PointerSpec(Some(durations), count + 1, roundedTime).Left?
    ensures PointerSpec(Some(durations), count + 1, roundedTime).px
         == PointerSpec(Some(durations), count, roundedTime).px + 6 * durations[count] + 20
  {
  }

  // The bar layout of the timeline, in the unit of 4 px that the spacing
  // classes use: the container has 4 px of left padding; a bar has 8 px of
  // horizontal padding on each side and a 4 px right margin; each tick is a
  // 1 px line followed by 5 px of padding.
  const RulerPadding: nat := 4
  const BarPadding: nat := 8
  const BarMargin: nat := 4
  const TickPitch: nat := 6

  /** Width a bar takes on the timeline, margin included. */
  function BarWidth(duration: nat, vidIndex: nat): nat
  {
    BarPadding + TickPitch * |TimelineBar.Ticks(duration, vidIndex)| + BarPadding + BarMargin
  }

  /** Total width of the first `n` bars. */
  function BarsWidth(durations: seq<nat>, n: nat): nat
    requires n <= |durations|
  {
    if n == 0 then 0 else BarsWidth(durations, n - 1) + BarWidth(durations[n - 1], n - 1)
  }

  /** Horizontal position of tick `tick` of bar `bar`. */
  function TickX(durations: seq<nat>, bar: nat, tick: nat): nat
    requires bar <= |durations|
  {
    RulerPadding + BarsWidth(durations, bar) + BarPadding + TickPitch * tick
  }

  /** The pointer's per-clip terms are the rendered bars' widths. */
  lemma {:induction false} BarsWidthIsPreceding(durations: seq<nat>, n: nat)
    requires n <= |durations|
    ensures BarsWidth(durations, n) == PrecedingWidth(durations, n) + 20 * n
  {
    if n > 0 {
      BarsWidthIsPreceding(durations, n - 1);
      TimelineBar.TicksLayout(durations[n - 1], n - 1);
    }
  }

  /** With the player at `tick + 1` seconds in clip `bar`, the pointer stands
      on tick `tick` of that bar. */
  lemma PointerOverTick(durations: seq<nat>, bar: nat, tick: nat)
    requires bar <= |durations|
    ensures PointerSpec(Some(durations), bar, tick + 1) == Left(TickX(durations, bar, tick))
  {
    BarsWidthIsPreceding(durations, bar);
  }

  /** Clicking tick `i` of bar `b` seeks to clip `b` at `i + 1` seconds; the
      pointer then lands on that very tick. */
  lemma ClickedTickIsPointed(durations: seq<nat>, b: nat, i: nat)
    requires b < |durations| && i < durations[b]
    ensures var tick := TimelineBar.Ticks(durations[b], b)[i];
      PointerSpec(Some(durations), tick.seekClip, tick.seekTime + 1) == Left(TickX(durations, b, i))
  {
    TimelineBar.TicksLayout(durations[b], b);
    PointerOverTick(durations, b, i);
  }

  /** Ticks are laid out left to right: every tick of bar `b` lies left of
      the first tick of bar `b + 1`. */
  lemma TicksOrdered(durations: seq<nat>, b: nat, i: nat)
    requires b < |durations| && i < durations[b]
    ensures TickX(durations, b, i) < TickX(durations, b + 1, 0)
  {
    TimelineBar.TicksLayout(durations[b], b);
  }
}
