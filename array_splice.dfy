/** The two list edits the editor is built on: `Array.prototype.splice`
    (with a non-negative start, which is how the editor always calls it) and
    the `$splice` pair that `moveCard` hands to immutability-helper. */
module ArraySplice {

  function Min(a: int, b: int): int { if a <= b then a else b }

  /** Where splice starts on a list of length `n`: a start past the end is
      clamped to the end. */
  function SpliceAt(n: nat, start: nat): (at: nat)
    ensures at <= n
    ensures start <= n ==> at == start
  {
    if start <= n then start else n
  }

  /** How many elements splice really removes: never more than are left
      after the start. */
  function SpliceGone(n: nat, start: nat, deleteCount: nat): (gone: nat)
    ensures SpliceAt(n, start) + gone <= n
    ensures SpliceAt(n, start) + deleteCount <= n ==> gone == deleteCount
  {
    Min(deleteCount, n - SpliceAt(n, start))
  }

  /** The list `s.splice(start, deleteCount, ...items)` leaves behind. */
  function Splice<T>(s: seq<T>, start: nat, deleteCount: nat, items: seq<T>): (r: seq<T>)
    ensures |r| == |s| - SpliceGone(|s|, start, deleteCount) + |items|
  {
    var at := SpliceAt(|s|, start);
    s[..at] + items + s[at + SpliceGone(|s|, start, deleteCount)..]
  }

  /** Element by element: the prefix before the start is kept, `items`
      follow, and the rest of the list closes up behind them. */
  lemma SpliceElements<T>(s: seq<T>, start: nat, deleteCount: nat, items: seq<T>)
    ensures var r, at, gone := Splice(s, start, deleteCount, items), SpliceAt(|s|, start), SpliceGone(|s|, start, deleteCount);
      && (forall k :: 0 <= k < at ==> r[k] == s[k])
      && (forall k :: 0 <= k < |items| ==> r[at + k] == items[k])
      && (forall k :: at + |items| <= k < |r| ==> r[k] == s[k - |items| + gone])
  {
  }

  /** `moveCard(dragIndex, hoverIndex)`: take the dragged element out, then
      put it back in at the hovered index of the shortened list. */
  function MoveCard<T>(s: seq<T>, dragIndex: nat, hoverIndex: nat): (r: seq<T>)
    requires dragIndex < |s|
    ensures |r| == |s|
  {
    Splice(Splice(s, dragIndex, 1, []), hoverIndex, 0, [s[dragIndex]])
  }

  /** Removing the element at `i` (what `deleteVid` does at an index in range). */
  lemma SpliceRemoves<T>(s: seq<T>, i: nat)
    requires i < |s|
    ensures Splice(s, i, 1, []) == s[..i] + s[i + 1..]
  {
  }

  /** A splice starting past the end with nothing to insert changes nothing. */
  lemma SplicePastEnd<T>(s: seq<T>, i: nat, deleteCount: nat)
    requires i >= |s|
    ensures Splice(s, i, deleteCount, []) == s
  {
  }

  /** Moving is reordering: nothing is lost, duplicated or invented. */
  lemma MoveCardPermutes<T>(s: seq<T>, dragIndex: nat, hoverIndex: nat)
    requires dragIndex < |s|
    ensures multiset(MoveCard(s, dragIndex, hoverIndex)) == multiset(s)
  {
    var rest := Splice(s, dragIndex, 1, []);
    assert s == s[..dragIndex] + [s[dragIndex]] + s[dragIndex + 1..];
    assert rest == s[..dragIndex] + s[dragIndex + 1..];
    assert multiset(s) == multiset(rest) + multiset{s[dragIndex]};
    var at := SpliceAt(|rest|, hoverIndex);
    assert rest == rest[..at] + rest[at..];
    assert MoveCard(s, dragIndex, hoverIndex) == rest[..at] + [s[dragIndex]] + rest[at..];
  }

  /** The list `moveCard` produces, written out with slices. */
  lemma MoveCardShape<T>(s: seq<T>, dragIndex: nat, hoverIndex: nat)
    requires dragIndex < |s| && hoverIndex < |s|
    ensures var rest := s[..dragIndex] + s[dragIndex + 1..];
      MoveCard(s, dragIndex, hoverIndex) == rest[..hoverIndex] + [s[dragIndex]] + rest[hoverIndex..]
  {
    SpliceRemoves(s, dragIndex);
  }

  /** Element `k` after a move: the dragged element at the hovered index,
      otherwise the `j`-th element of the list without the dragged one. */
  lemma MoveCardAt<T>(s: seq<T>, dragIndex: nat, hoverIndex: nat, k: nat)
    requires dragIndex < |s| && hoverIndex < |s| && k < |s|
    ensures var j := if k < hoverIndex then k else k - 1;
      MoveCard(s, dragIndex, hoverIndex)[k] ==
        if k == hoverIndex then s[dragIndex]
        else if j < dragIndex then s[j] else s[j + 1]
  {
    MoveCardShape(s, dragIndex, hoverIndex);
  }

  /** With both indices on the list, the dragged element lands at the hovered
      index; everything strictly between the two indices shifts by one towards
      the dragged element's old slot, and everything outside them stays put. */
  lemma MoveCardPlaces<T>(s: seq<T>, dragIndex: nat, hoverIndex: nat)
    requires dragIndex < |s| && hoverIndex < |s|
    ensures var r := MoveCard(s, dragIndex, hoverIndex);
      && r[hoverIndex] == s[dragIndex]
      && (forall k :: 0 <= k < Min(dragIndex, hoverIndex) ==> r[k] == s[k])
      && (forall k :: Min(dragIndex, hoverIndex) <= k < |s| && k > dragIndex && k > hoverIndex ==> r[k] == s[k])
      && (forall k :: dragIndex <= k < hoverIndex ==> r[k] == s[k + 1])
      && (forall k :: hoverIndex < k <= dragIndex ==> r[k] == s[k - 1])
  {
    var r := MoveCard(s, dragIndex, hoverIndex);
    MoveCardAt(s, dragIndex, hoverIndex, hoverIndex);
    forall k | 0 <= k < Min(dragIndex, hoverIndex)
      ensures r[k] == s[k]
    {
      MoveCardAt(s, dragIndex, hoverIndex, k);
    }
    forall k | Min(dragIndex, hoverIndex) <= k < |s| && k > dragIndex && k > hoverIndex
      ensures r[k] == s[k]
    {
      MoveCardAt(s, dragIndex, hoverIndex, k);
    }
    forall k | dragIndex <= k < hoverIndex
      ensures r[k] == s[k + 1]
    {
      MoveCardAt(s, dragIndex, hoverIndex, k);
    }
    forall k | hoverIndex < k <= dragIndex
      ensures r[k] == s[k - 1]
    {
      MoveCardAt(s, dragIndex, hoverIndex, k);
    }
  }

  /** Dropping an element onto its own slot changes nothing. */
  lemma MoveCardOntoItself<T>(s: seq<T>, i: nat)
    requires i < |s|
    ensures MoveCard(s, i, i) == s
  {
    assert MoveCard(s, i, i) == s[..i] + [s[i]] + s[i + 1..];
    assert s == s[..i] + [s[i]] + s[i + 1..];
  }

  /** Dragging the element back from the hovered index to where it came from
      restores the original order. */
  lemma MoveCardUndo<T>(s: seq<T>, dragIndex: nat, hoverIndex: nat)
    requires dragIndex < |s| && hoverIndex < |s|
    ensures MoveCard(MoveCard(s, dragIndex, hoverIndex), hoverIndex, dragIndex) == s
  {
    var r := MoveCard(s, dragIndex, hoverIndex);
    MoveCardPlaces(s, dragIndex, hoverIndex);
    MoveCardPlaces(r, hoverIndex, dragIndex);
    var back := MoveCard(r, hoverIndex, dragIndex);
    assert |back| == |s|;
    forall k | 0 <= k < |s|
      ensures back[k] == s[k]
    {
    }
  }
}
