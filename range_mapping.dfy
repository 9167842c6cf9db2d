/**
 * `mapRangeToChanges` of the plugin (src/SpyglassPlugin.js): a range the language
 * service computed on an older text is moved through the edits recorded since,
 * one change after another, each applied to the values the previous ones left.
 */
module RangeMapping {

  /** A CodeMirror change: `[fromA, toA)` of the old text became `[fromB, toB)` of the new. */
  datatype ChangedRange = ChangedRange(fromA: int, toA: int, fromB: int, toB: int)

  /** A range as the pair `[start, end]` the method returns. */
  type Range = (int, int)

  function Min(a: int, b: int): int {
    if a <= b then a else b
  }

  /** One turn of the loop: the three cases, in the order the code tests them. */
  function MapChange(range: Range, c: ChangedRange): (r: Range)
    ensures r == range || r == (0, 0)
      || r == (range.0 + (c.toB - c.toA), range.1 + (c.toB - c.toA))
      || (r.0 == range.0 && r.1 <= range.1)
    ensures c.fromA == c.toA == c.toB ==> r == range
  {
    var (start, end) := range;
    if start >= c.toA then (start + (c.toB - c.toA), end + (c.toB - c.toA))
    else if start >= c.fromA && end < c.toA then (0, 0)
    else if end >= c.fromA && end <= c.toA then (start, Min(end, c.toB))
    else range
  }

  /** The whole loop over the recorded changes, in list order. */
  function MapRange(changes: seq<ChangedRange>, range: Range): (r: Range)
    ensures (forall i :: 0 <= i < |changes| ==> changes[i].fromA == changes[i].toA == changes[i].toB) ==> r == range
    decreases |changes|
  {
    if |changes| == 0 then range
    else MapChange(MapRange(changes[..|changes| - 1], range), changes[|changes| - 1])
  }

  /** Mapping through two lists of changes is mapping through the first, then the second. */
  lemma {:induction false} MapRangeAppend(a: seq<ChangedRange>, b: seq<ChangedRange>, range: Range)
    ensures MapRange(a + b, range) == MapRange(b, MapRange(a, range))
    decreases |b|
  {
    if |b| == 0 {
      assert a + b == a;
    } else {
      assert (a + b)[..|a + b| - 1] == a + b[..|b| - 1];
      MapRangeAppend(a, b[..|b| - 1], range);
    }
  }

  /** With no recorded changes the range comes back unchanged. */
  lemma MapRangeNone(range: Range)
    ensures MapRange([], range) == range
  {
  }

  /** A change ending at or before the start moves both ends by the change in length, so the width is kept. */
  lemma ShiftKeepsWidth(range: Range, c: ChangedRange)
    requires range.0 >= c.toA
    ensures MapChange(range, c).1 - MapChange(range, c).0 == range.1 - range.0
    ensures MapChange(range, c).0 == range.0 + (c.toB - c.toA)
  {
  }

  /** A range wholly inside the replaced text collapses to `(0, 0)`. */
  lemma InsideCollapses(range: Range, c: ChangedRange)
    requires c.fromA <= range.0 <= range.1 < c.toA
    ensures MapChange(range, c) == (0, 0)
  {
  }

  /**
   * A range starting before the end of the replaced text and not inside it, whose
   * end falls in the replaced text, keeps its start and has its end clamped to
   * the end of the replacement; it never grows.
   */
  lemma EndClamped(range: Range, c: ChangedRange)
    requires range.0 < c.toA && !(range.0 >= c.fromA && range.1 < c.toA)
    requires c.fromA <= range.1 <= c.toA
    ensures MapChange(range, c) == (range.0, Min(range.1, c.toB))
    ensures MapChange(range, c).1 <= range.1
  {
  }

  /** A well-formed range ending before a change is not touched by it. */
  lemma BeforeUntouched(range: Range, c: ChangedRange)
    requires range.0 <= range.1 < c.fromA <= c.toA
    ensures MapChange(range, c) == range
  {
  }

  /** A change starting after a well-formed range leaves it where it is, however many there are. */
  lemma {:induction false} BeforeAllUntouched(changes: seq<ChangedRange>, range: Range)
    requires range.0 <= range.1
    requires forall i :: 0 <= i < |changes| ==> range.1 < changes[i].fromA <= changes[i].toA
    ensures MapRange(changes, range) == range
    decreases |changes|
  {
    if |changes| > 0 {
      BeforeAllUntouched(changes[..|changes| - 1], range);
      BeforeUntouched(range, changes[|changes| - 1]);
    }
  }

  /**
   * The changes apply to already adjusted values: an insertion of `n` characters at
   * `p` followed by one of `m` at `p` moves a range at `p` by `n + m`.
   */
  lemma InsertionsAccumulate(p: int, n: nat, m: nat, width: nat)
    ensures MapRange([ChangedRange(p, p, p, p + n), ChangedRange(p, p, p, p + m)], (p, p + width)) ==
      (p + n + m, p + n + m + width)
  {
    var first := [ChangedRange(p, p, p, p + n)];
    assert [ChangedRange(p, p, p, p + n), ChangedRange(p, p, p, p + m)][..1] == first;
    assert first[..0] == [];
    assert MapRange(first, (p, p + width)) == (p + n, p + n + width);
  }
}
