/** The piece inspection that decides whether a rechecked torrent may be resumed: the address space
    its files occupy, and the sweep of piece states against the files that were linked. */
module Pieces {
  import opened Wrappers
  import opened Numbers
  import opened Sums
  import opened Files
  import opened Decision

  const MAX_PIECES := 20000000

  /** The piece state of a downloaded piece. */
  const PRESENT := 2

  datatype InspectError = MissingPieceLength | SizeOverflow | Unreadable | PieceCount

  datatype PieceInspection = PieceInspection(integritySafe: bool, missingBytes: int, presentRatio: int)

  /** The bytes a file occupies in the address space. */
  datatype Extent = Extent(ordinal: Option<nat>, start: int, end: int)

  type Interval = (int, int)

  // ----- Arithmetic on pieces -----

  function DivCeil(a: nat, unit: nat): nat
    requires unit > 0
  {
    if a % unit == 0 then a / unit else a / unit + 1
  }

  lemma DivCeilParts(a: nat, unit: nat)
    requires unit > 0
    ensures a <= Times(DivCeil(a, unit), unit) < a + unit
    ensures a % unit == 0 ==> Times(DivCeil(a, unit), unit) == a
    ensures a % unit != 0 ==> Times(DivCeil(a, unit), unit) == a + (unit - a % unit)
  {
    assert a == a / unit * unit + a % unit;
  }

  /** Piece i begins inside the address space exactly when it is one of the expected pieces. */
  lemma PieceExpected(i: nat, total: nat, unit: nat)
    requires unit > 0
    ensures i < DivCeil(total, unit) <==> Times(i, unit) < total
  {
    hide Times, DivCeil;
    var n := DivCeil(total, unit);
    DivCeilParts(total, unit);
    if i < n {
      TimesMonotone(i, n - 1, unit, unit);
      TimesNext(n - 1, unit);
    } else {
      TimesMonotone(n, i, unit, unit);
    }
  }

  // ----- The address space -----

  /** The next piece boundary, saturating at the largest offset. */
  function Aligned(offset: nat, unit: nat): nat
    requires unit > 0
  {
    Minimum(Times(DivCeil(offset, unit), unit), U64_MAX)
  }

  /** Where file k begins when files follow each other, at piece boundaries for v2 torrents. */
  function Start(sizes: seq<U64>, unit: nat, aligned: bool, k: nat): nat
    requires unit > 0 && k <= |sizes|
    decreases k, 1
  {
    var offset := End(sizes, unit, aligned, k);
    if aligned then Aligned(offset, unit) else offset
  }

  /** Where the first k files end. */
  function End(sizes: seq<U64>, unit: nat, aligned: bool, k: nat): nat
    requires unit > 0 && k <= |sizes|
    decreases k, 0
  {
    if k == 0 then 0 else Start(sizes, unit, aligned, k - 1) + sizes[k - 1]
  }

  function Sizes(m: Manifest): seq<U64> {
    seq(|m.files|, k requires 0 <= k < |m.files| => m.files[k].size)
  }

  predicate V2Only(m: Manifest) {
    m.hashes.v1 == None && m.hashes.v2 != None
  }

  function LegacyExtent(m: Manifest, unit: nat, k: nat): Extent
    requires unit > 0 && k < |m.files|
  {
    Extent(Some(m.files[k].ordinal), Start(Sizes(m), unit, V2Only(m), k), End(Sizes(m), unit, V2Only(m), k + 1))
  }

  function StoredExtent(f: PieceFile): Extent {
    Extent(f.ordinal, f.offset, f.offset + f.size)
  }

  /** The extents of a manifest: stored with it, or derived from its file sizes when they were not. */
  function Extents(m: Manifest, unit: nat): seq<Extent>
    requires unit > 0
  {
    if m.pieceFiles == [] then seq(|m.files|, k requires 0 <= k < |m.files| => LegacyExtent(m, unit, k))
    else seq(|m.pieceFiles|, k requires 0 <= k < |m.pieceFiles| => StoredExtent(m.pieceFiles[k]))
  }

  predicate Addressable(extents: seq<Extent>) {
    forall k :: 0 <= k < |extents| ==> 0 <= extents[k].start <= extents[k].end <= U64_MAX
  }

  /** The size of the address space: the furthest end of its first k extents. */
  function FurthestEnd(extents: seq<Extent>, k: nat): int
    requires k <= |extents|
  {
    if k == 0 then 0 else Maximum(FurthestEnd(extents, k - 1), extents[k - 1].end)
  }

  lemma {:induction false} WithinFurthestEnd(extents: seq<Extent>, k: nat)
    requires k <= |extents| && Addressable(extents)
    ensures 0 <= FurthestEnd(extents, k) <= U64_MAX
    ensures forall j :: 0 <= j < k ==> extents[j].end <= FurthestEnd(extents, k)
  {
    if k > 0 {
      WithinFurthestEnd(extents, k - 1);
    }
  }

  predicate Linked(e: Extent, mapped: set<nat>) {
    e.ordinal.Some? && e.ordinal.value in mapped && e.start < e.end
  }

  /** The linked files among the first k extents, in order. */
  function Intervals(extents: seq<Extent>, mapped: set<nat>, k: nat): seq<Interval>
    requires k <= |extents|
  {
    if k == 0 then []
    else
      var before := Intervals(extents, mapped, k - 1);
      if Linked(extents[k - 1], mapped) then before + [(extents[k - 1].start, extents[k - 1].end)] else before
  }

  /** Linked files follow each other without overlap. */
  ghost predicate Disjoint(extents: seq<Extent>, mapped: set<nat>) {
    forall a, b :: 0 <= a < b < |extents| && Linked(extents[a], mapped) && Linked(extents[b], mapped) ==>
                     extents[a].end <= extents[b].start
  }

  ghost predicate InOrder(intervals: seq<Interval>) {
    forall a, b :: 0 <= a < b < |intervals| ==> intervals[a].1 <= intervals[b].0
  }

  /** Each interval is a linked file among the first k, and each such file an interval. */
  lemma {:induction false} IntervalsAreLinked(extents: seq<Extent>, mapped: set<nat>, k: nat)
    requires k <= |extents|
    ensures forall x :: x in Intervals(extents, mapped, k) <==>
                          exists j :: 0 <= j < k && Linked(extents[j], mapped) && x == (extents[j].start, extents[j].end)
  {
    if k > 0 {
      IntervalsAreLinked(extents, mapped, k - 1);
      var before := Intervals(extents, mapped, k - 1);
      forall x | x in Intervals(extents, mapped, k)
        ensures exists j :: 0 <= j < k && Linked(extents[j], mapped) && x == (extents[j].start, extents[j].end)
      {
        if x in before {
          var j :| 0 <= j < k - 1 && Linked(extents[j], mapped) && x == (extents[j].start, extents[j].end);
        } else {
          assert Linked(extents[k - 1], mapped) && x == (extents[k - 1].start, extents[k - 1].end);
        }
      }
    }
  }

  lemma {:induction false} IntervalsInOrder(extents: seq<Extent>, mapped: set<nat>, k: nat)
    requires k <= |extents| && Disjoint(extents, mapped)
    ensures InOrder(Intervals(extents, mapped, k))
  {
    if k > 0 {
      IntervalsInOrder(extents, mapped, k - 1);
      IntervalsAreLinked(extents, mapped, k - 1);
      var before := Intervals(extents, mapped, k - 1);
      if Linked(extents[k - 1], mapped) {
        forall a | 0 <= a < |before| ensures before[a].1 <= extents[k - 1].start {
          assert before[a] in before;
          var j :| 0 <= j < k - 1 && Linked(extents[j], mapped) && before[a] == (extents[j].start, extents[j].end);
        }
      }
    }
  }

  lemma AlignedParts(offset: nat, unit: nat)
    requires unit > 0 && offset <= U64_MAX
    ensures offset <= Aligned(offset, unit) <= U64_MAX
    ensures Times(DivCeil(offset, unit), unit) <= U64_MAX ==>
              Aligned(offset, unit) == Times(DivCeil(offset, unit), unit) < offset + unit
  {
    DivCeilParts(offset, unit);
  }

  lemma LegacyStep(m: Manifest, unit: nat, k: nat)
    requires unit > 0 && k < |m.files| && End(Sizes(m), unit, V2Only(m), k) <= U64_MAX
    ensures End(Sizes(m), unit, V2Only(m), k) <= Start(Sizes(m), unit, V2Only(m), k) <= U64_MAX
    ensures End(Sizes(m), unit, V2Only(m), k + 1) == Start(Sizes(m), unit, V2Only(m), k) + m.files[k].size
  {
    AlignedParts(End(Sizes(m), unit, V2Only(m), k), unit);
  }

  /** Derives the layout of a manifest that was stored without one. */
  method LayOutLegacy(m: Manifest, unit: nat, mapped: set<nat>) returns (r: Result<(seq<Interval>, int), InspectError>)
    requires unit > 0 && m.pieceFiles == []
    ensures r == LaidOut(m, unit, mapped)
  {
    hide Times, DivCeil, Aligned, Start, End, LegacyExtent;
    ghost var extents := Extents(m, unit);
    ghost var sizes, aligned := Sizes(m), V2Only(m);
    var v2Only := m.hashes.v1 == None && m.hashes.v2 != None;
    var offset: nat, intervals := 0, [];
    EndOfNone(sizes, unit, aligned);
    for k := 0 to |m.files|
      invariant offset == End(sizes, unit, aligned, k) <= U64_MAX
      invariant forall j :: 0 <= j < k ==> 0 <= extents[j].start <= extents[j].end <= U64_MAX
      invariant offset == FurthestEnd(extents, k) && intervals == Intervals(extents, mapped, k)
    {
      LegacyStep(m, unit, k);
      LegacyExtentIs(m, unit, k);
      StartIs(sizes, unit, aligned, k);
      if v2Only {
        offset := Aligned(offset, unit);
      }
      var end := offset + m.files[k].size;
      assert extents[k] == Extent(Some(m.files[k].ordinal), offset, end);
      if end > U64_MAX {
        return Failure(SizeOverflow);
      }
      if m.files[k].ordinal in mapped && m.files[k].size > 0 {
        intervals := intervals + [(offset, end)];
      }
      offset := end;
    }
    return Success((intervals, offset));
  }

  lemma EndOfNone(sizes: seq<U64>, unit: nat, aligned: bool)
    requires unit > 0
    ensures End(sizes, unit, aligned, 0) == 0
  {
  }

  lemma StartIs(sizes: seq<U64>, unit: nat, aligned: bool, k: nat)
    requires unit > 0 && k <= |sizes|
    ensures Start(sizes, unit, aligned, k) ==
            if aligned then Aligned(End(sizes, unit, aligned, k), unit) else End(sizes, unit, aligned, k)
  {
  }

  lemma LegacyExtentIs(m: Manifest, unit: nat, k: nat)
    requires unit > 0 && k < |m.files|
    ensures LegacyExtent(m, unit, k) ==
            Extent(Some(m.files[k].ordinal), Start(Sizes(m), unit, V2Only(m), k), End(Sizes(m), unit, V2Only(m), k + 1))
  {
  }

  /** What laying out a manifest yields: the linked intervals and the size of the address space,
      unless some file ends beyond the largest offset. */
  ghost function LaidOut(m: Manifest, unit: nat, mapped: set<nat>): Result<(seq<Interval>, int), InspectError>
    requires unit > 0
  {
    var extents := Extents(m, unit);
    if Addressable(extents) then Success((Intervals(extents, mapped, |extents|), FurthestEnd(extents, |extents|)))
    else Failure(SizeOverflow)
  }

  /** Takes the layout that was stored with a manifest. */
  method LayOutStored(m: Manifest, unit: nat, mapped: set<nat>) returns (r: Result<(seq<Interval>, int), InspectError>)
    requires unit > 0 && m.pieceFiles != []
    ensures r == LaidOut(m, unit, mapped)
  {
    ghost var extents := Extents(m, unit);
    var total, intervals := 0, [];
    for k := 0 to |m.pieceFiles|
      invariant forall j :: 0 <= j < k ==> 0 <= extents[j].start <= extents[j].end <= U64_MAX
      invariant total == FurthestEnd(extents, k) && intervals == Intervals(extents, mapped, k)
    {
      var file := m.pieceFiles[k];
      var end := file.offset + file.size;
      assert extents[k] == Extent(file.ordinal, file.offset, end);
      if end > U64_MAX {
        return Failure(SizeOverflow);
      }
      if file.ordinal.Some? && file.ordinal.value in mapped && file.size > 0 {
        intervals := intervals + [(file.offset, end)];
      }
      total := Maximum(total, end);
    }
    return Success((intervals, total));
  }

  // ----- The sweep -----

  function PieceStart(i: nat, unit: nat): int {
    Times(i, unit)
  }

  function PieceEnd(i: nat, unit: nat, total: int): int {
    Minimum(Times(i, unit) + unit, total)
  }

  predicate Touches(x: Interval, i: nat, unit: nat, total: int) {
    x.0 < PieceEnd(i, unit, total) && x.1 > PieceStart(i, unit)
  }

  /** No piece among the first k that is not present touches an interval. */
  ghost predicate Undamaged(intervals: seq<Interval>, states: seq<nat>, k: nat, unit: nat, total: int)
    requires k <= |states|
  {
    forall i, j :: 0 <= i < k && states[i] != PRESENT && 0 <= j < |intervals| ==> !Touches(intervals[j], i, unit, total)
  }

  /** The bytes of those among the first k pieces that are present, or of those that are not. */
  ghost function BytesOf(states: seq<nat>, present: bool, k: nat, unit: nat, total: int): int
    requires k <= |states|
  {
    if k == 0 then 0
    else
      BytesOf(states, present, k - 1, unit, total) +
      if (states[k - 1] == PRESENT) == present then PieceEnd(k - 1, unit, total) - PieceStart(k - 1, unit) else 0
  }

  /** The pieces divide the address space. */
  lemma {:induction false} PiecesPartition(states: seq<nat>, k: nat, unit: nat, total: nat)
    requires unit > 0 && k <= |states| && k <= DivCeil(total, unit)
    ensures BytesOf(states, true, k, unit, total) + BytesOf(states, false, k, unit, total) == Minimum(Times(k, unit), total)
    ensures 0 <= BytesOf(states, true, k, unit, total) && 0 <= BytesOf(states, false, k, unit, total)
  {
    hide Times, DivCeil;
    if k == 0 {
      TimesNext(0, unit);
    } else {
      PiecesPartition(states, k - 1, unit, total);
      PieceExpected(k - 1, total, unit);
      TimesNext(k - 1, unit);
    }
  }

  lemma AllPieces(states: seq<nat>, unit: nat, total: nat)
    requires unit > 0 && |states| == DivCeil(total, unit)
    ensures BytesOf(states, true, |states|, unit, total) + BytesOf(states, false, |states|, unit, total) == total
    ensures 0 <= BytesOf(states, true, |states|, unit, total) && 0 <= BytesOf(states, false, |states|, unit, total)
  {
    hide Times, DivCeil;
    PiecesPartition(states, |states|, unit, total);
    DivCeilParts(total, unit);
  }

  predicate Readable(states: seq<nat>) {
    |states| <= MAX_PIECES && forall i :: 0 <= i < |states| ==> states[i] <= PRESENT
  }

  function SaturatingAdd(a: int, b: int): int {
    Minimum(a + b, U64_MAX)
  }

  function SaturatingSub(a: int, b: int): int {
    Maximum(a - b, 0)
  }

  function PresentRatio(present: nat, total: nat): int {
    if total == 0 then 0
    else if present * PPM / total > 0xffff_ffff then PPM
    else present * PPM / total
  }

  /** Every interval before the cursor ends before piece k. */
  ghost predicate Passed(intervals: seq<Interval>, cursor: nat, start: int) {
    cursor <= |intervals| && forall j :: 0 <= j < cursor ==> intervals[j].1 <= start
  }

  /** With the intervals in order, only the first one that ends beyond the start of the piece needs
      to be looked at. */
  lemma CursorDecides(intervals: seq<Interval>, cursor: nat, i: nat, unit: nat, total: int)
    requires InOrder(intervals) && (forall j :: 0 <= j < |intervals| ==> intervals[j].0 < intervals[j].1)
    requires Passed(intervals, cursor, PieceStart(i, unit))
    requires cursor < |intervals| ==> intervals[cursor].1 > PieceStart(i, unit)
    ensures (exists j :: 0 <= j < |intervals| && Touches(intervals[j], i, unit, total)) <==>
            cursor < |intervals| && Touches(intervals[cursor], i, unit, total)
  {
    hide PieceStart, PieceEnd;
  }

  /** The first interval that ends beyond a place, from a cursor on. */
  function FirstBeyond(intervals: seq<Interval>, cursor: nat, start: int): (k: nat)
    requires cursor <= |intervals|
    ensures cursor <= k <= |intervals|
    ensures k < |intervals| ==> intervals[k].1 > start
    ensures forall j :: cursor <= j < k ==> intervals[j].1 <= start
    decreases |intervals| - cursor
  {
    if cursor < |intervals| && intervals[cursor].1 <= start then FirstBeyond(intervals, cursor + 1, start) else cursor
  }

  /** The first interval that ends beyond the start of piece i touches it: the only one looked at. */
  predicate Flags(intervals: seq<Interval>, i: nat, unit: nat, total: int) {
    var k := FirstBeyond(intervals, 0, PieceStart(i, unit));
    k < |intervals| && Touches(intervals[k], i, unit, total)
  }

  /** No piece among the first k that is not present is flagged: what the sweep reports. */
  ghost predicate Unflagged(intervals: seq<Interval>, states: seq<nat>, k: nat, unit: nat, total: int)
    requires k <= |states|
  {
    forall i: nat :: i < k && states[i] != PRESENT ==> !Flags(intervals, i, unit, total)
  }

  /** Whenever an interval touches a piece, the first one ending beyond the piece's start does. */
  ghost predicate FirstDecides(intervals: seq<Interval>, unit: nat, total: nat)
    requires unit > 0
  {
    forall i: nat, j :: i < DivCeil(total, unit) && 0 <= j < |intervals| && Touches(intervals[j], i, unit, total) ==>
                          Flags(intervals, i, unit, total)
  }

  lemma CursorIsFirst(intervals: seq<Interval>, cursor: nat, start: int)
    requires Passed(intervals, cursor, start) && (cursor < |intervals| ==> intervals[cursor].1 > start)
    ensures cursor == FirstBeyond(intervals, 0, start)
  {
  }

  lemma InOrderDecides(intervals: seq<Interval>, unit: nat, total: nat)
    requires unit > 0 && InOrder(intervals) && forall j :: 0 <= j < |intervals| ==> intervals[j].0 < intervals[j].1
    ensures FirstDecides(intervals, unit, total)
  {
    hide Touches, PieceStart, DivCeil;
    forall i: nat, j | i < DivCeil(total, unit) && 0 <= j < |intervals| && Touches(intervals[j], i, unit, total)
      ensures Flags(intervals, i, unit, total)
    {
      CursorDecides(intervals, FirstBeyond(intervals, 0, PieceStart(i, unit)), i, unit, total);
    }
  }

  lemma FlagsTouch(intervals: seq<Interval>, states: seq<nat>, unit: nat, total: nat)
    requires unit > 0 && |states| == DivCeil(total, unit)
    ensures Undamaged(intervals, states, |states|, unit, total) ==> Unflagged(intervals, states, |states|, unit, total)
    ensures FirstDecides(intervals, unit, total) && Unflagged(intervals, states, |states|, unit, total) ==>
              Undamaged(intervals, states, |states|, unit, total)
  {
    hide Touches, PieceStart, DivCeil;
  }

  /** The sweep is right about every list of piece states exactly when the first interval decides. */
  lemma SweepIsExact(intervals: seq<Interval>, unit: nat, total: nat)
    requires unit > 0
    ensures FirstDecides(intervals, unit, total) <==>
            forall states: seq<nat> :: |states| == DivCeil(total, unit) && (forall k :: 0 <= k < |states| ==> states[k] <= PRESENT) ==>
              (Unflagged(intervals, states, |states|, unit, total) <==> Undamaged(intervals, states, |states|, unit, total))
  {
    hide Touches, DivCeil, Flags;
    forall states: seq<nat> | |states| == DivCeil(total, unit) && FirstDecides(intervals, unit, total)
      ensures Unflagged(intervals, states, |states|, unit, total) <==> Undamaged(intervals, states, |states|, unit, total)
    {
      FlagsTouch(intervals, states, unit, total);
    }
    if !FirstDecides(intervals, unit, total) {
      var i: nat, j :| i < DivCeil(total, unit) && 0 <= j < |intervals| && Touches(intervals[j], i, unit, total) && !Flags(intervals, i, unit, total);
      var states := OneMissing(DivCeil(total, unit), i);
      assert Unflagged(intervals, states, |states|, unit, total);
      assert states[i] != PRESENT && Touches(intervals[j], i, unit, total);
    }
  }

  /** All pieces present but one. */
  function OneMissing(count: nat, i: nat): (states: seq<nat>)
    ensures |states| == count && forall k :: 0 <= k < count ==> states[k] <= PRESENT && (states[k] == PRESENT <==> k != i)
  {
    seq(count, k requires 0 <= k < count => if k == i then 0 else PRESENT)
  }

  lemma UnflaggedStep(intervals: seq<Interval>, states: seq<nat>, k: nat, unit: nat, total: int)
    requires k < |states|
    ensures Unflagged(intervals, states, k + 1, unit, total) <==>
            Unflagged(intervals, states, k, unit, total) && (states[k] == PRESENT || !Flags(intervals, k, unit, total))
  {
    hide Flags;
  }

  lemma PieceBounds(i: nat, unit: nat, total: U64)
    requires 0 < unit <= U64_MAX
    ensures i < DivCeil(total, unit) ==>
      && Minimum(Times(i, unit), U64_MAX) == PieceStart(i, unit)
      && Minimum(SaturatingAdd(PieceStart(i, unit), unit), total) == PieceEnd(i, unit, total) > PieceStart(i, unit)
    ensures PieceStart(i, unit) + unit == PieceStart(i + 1, unit) && Minimum(Times(i, unit), U64_MAX) <= PieceStart(i, unit)
  {
    hide Times, DivCeil;
    PieceExpected(i, total, unit);
    TimesNext(i, unit);
  }

  /** What one piece adds to the sweep. */
  lemma SweepStep(states: seq<nat>, k: nat, unit: nat, total: U64, present: int)
    requires 0 < unit <= U64_MAX && k < |states| && k < DivCeil(total, unit)
    requires present == BytesOf(states, true, k, unit, total)
    ensures SaturatingAdd(present, SaturatingSub(PieceEnd(k, unit, total), PieceStart(k, unit))) ==
            present + PieceEnd(k, unit, total) - PieceStart(k, unit)
    ensures BytesOf(states, true, k + 1, unit, total) ==
            if states[k] == PRESENT then present + PieceEnd(k, unit, total) - PieceStart(k, unit) else present
  {
    hide Times, DivCeil;
    PiecesPartition(states, k, unit, total);
    PieceExpected(k, total, unit);
  }

  lemma NothingSwept(intervals: seq<Interval>, states: seq<nat>, unit: nat, total: int)
    ensures BytesOf(states, true, 0, unit, total) == 0 && Unflagged(intervals, states, 0, unit, total)
  {
  }

  lemma SweepDone(states: seq<nat>, unit: nat, total: U64, present: int)
    requires unit > 0 && |states| == DivCeil(total, unit) && present == BytesOf(states, true, |states|, unit, total)
    ensures SaturatingSub(total, present) == total - present == BytesOf(states, false, |states|, unit, total)
    ensures 0 <= present <= total
  {
    hide Times, DivCeil;
    AllPieces(states, unit, total);
  }

  lemma TouchesIs(x: Interval, i: nat, unit: nat, total: int)
    ensures Touches(x, i, unit, total) <==> x.0 < PieceEnd(i, unit, total) && x.1 > PieceStart(i, unit)
  {
  }

  /** One pass over the piece states, with a cursor that only moves forward over the intervals. */
  method Sweep(intervals: seq<Interval>, unit: U64, total: U64, states: seq<nat>) returns (r: Result<PieceInspection, InspectError>)
    requires unit > 0 && forall j :: 0 <= j < |intervals| ==> 0 <= intervals[j].0 < intervals[j].1 <= total
    ensures r.Success? <==> Readable(states) && |states| == DivCeil(total, unit)
    ensures r == Failure(Unreadable) <==> !Readable(states)
    ensures r.Failure? ==> r.error == Unreadable || r.error == PieceCount
    ensures r.Success? ==>
      && 0 <= r.value.missingBytes == BytesOf(states, false, |states|, unit, total) <= total
      && r.value.presentRatio == PresentRatio(total - r.value.missingBytes, total)
      && (r.value.integritySafe <==> Unflagged(intervals, states, |states|, unit, total))
  {
    hide Times, DivCeil, BytesOf, Unflagged, Touches, PieceStart, PieceEnd, PresentRatio;
    var expected := DivCeil(total, unit);
    var index: nat, cursor: nat, integritySafe, present := 0, 0, true, 0;
    NothingSwept(intervals, states, unit, total);
    while index < |states|
      invariant index <= |states| && index <= MAX_PIECES
      invariant forall i :: 0 <= i < index ==> states[i] <= PRESENT
      invariant Passed(intervals, cursor, PieceStart(index, unit))
      invariant index <= expected ==> present == BytesOf(states, true, index, unit, total)
      invariant index <= expected ==> (integritySafe <==> Unflagged(intervals, states, index, unit, total))
    {
      if index == MAX_PIECES || states[index] > PRESENT {
        return Failure(Unreadable);
      }
      var start := Minimum(Times(index, unit), U64_MAX);
      var end := Minimum(SaturatingAdd(start, unit), total);
      PieceBounds(index, unit, total);
      while cursor < |intervals| && intervals[cursor].1 <= start
        invariant Passed(intervals, cursor, PieceStart(index, unit))
      {
        cursor := cursor + 1;
      }
      ghost var before := present;
      if states[index] == PRESENT {
        present := SaturatingAdd(present, SaturatingSub(end, start));
      } else if cursor < |intervals| && intervals[cursor].0 < end && intervals[cursor].1 > start {
        integritySafe := false;
      }
      if index < expected {
        SweepStep(states, index, unit, total, before);
        CursorIsFirst(intervals, cursor, PieceStart(index, unit));
        UnflaggedStep(intervals, states, index, unit, total);
        if cursor < |intervals| {
          TouchesIs(intervals[cursor], index, unit, total);
        }
      }
      index := index + 1;
    }
    if index != expected {
      return Failure(PieceCount);
    }
    SweepDone(states, unit, total, present);
    return Success(PieceInspection(integritySafe, SaturatingSub(total, present), PresentRatio(present, total)));
  }

  // ----- What an inspection means -----

  function PieceOf(b: nat, unit: nat): nat
    requires unit > 0
  {
    b / unit
  }

  lemma PieceOfByte(b: nat, unit: nat, i: nat)
    requires unit > 0
    ensures PieceStart(PieceOf(b, unit), unit) <= b < PieceStart(PieceOf(b, unit), unit) + unit
    ensures PieceStart(i, unit) <= b < PieceStart(i, unit) + unit ==> i == PieceOf(b, unit)
  {
    var q := PieceOf(b, unit);
    assert b == q * unit + b % unit;
    hide PieceOf;
    if i < q {
      TimesMonotone(i + 1, q, unit, unit);
      TimesNext(i, unit);
    } else if i > q {
      TimesMonotone(q + 1, i, unit, unit);
      TimesNext(q, unit);
    }
  }

  /** Every byte of every linked file lies in a present piece. */
  ghost predicate LinkedBytesPresent(extents: seq<Extent>, mapped: set<nat>, states: seq<nat>, unit: nat)
    requires unit > 0
  {
    forall k, b: nat :: 0 <= k < |extents| && Linked(extents[k], mapped) && extents[k].start <= b < extents[k].end ==>
                          PieceOf(b, unit) < |states| && states[PieceOf(b, unit)] == PRESENT
  }

  lemma ByteInPresentPiece(extents: seq<Extent>, mapped: set<nat>, states: seq<nat>, unit: nat, k: nat, b: nat)
    requires 0 < unit && Addressable(extents) && k < |extents| && Linked(extents[k], mapped)
    requires extents[k].start <= b < extents[k].end && |states| == DivCeil(FurthestEnd(extents, |extents|), unit)
    requires Undamaged(Intervals(extents, mapped, |extents|), states, |states|, unit, FurthestEnd(extents, |extents|))
    ensures PieceOf(b, unit) < |states| && states[PieceOf(b, unit)] == PRESENT
  {
    hide Times, DivCeil, PieceOf, Intervals, FurthestEnd;
    var total, intervals, i := FurthestEnd(extents, |extents|), Intervals(extents, mapped, |extents|), PieceOf(b, unit);
    WithinFurthestEnd(extents, |extents|);
    PieceOfByte(b, unit, i);
    PieceExpected(i, total, unit);
    IntervalsAreLinked(extents, mapped, |extents|);
    var x: Interval := (extents[k].start, extents[k].end);
    assert x in intervals;
    assert Touches(x, i, unit, total);
  }

  lemma PresentPieceUndamaged(extents: seq<Extent>, mapped: set<nat>, states: seq<nat>, unit: nat, total: nat, i: nat, x: Interval)
    requires 0 < unit && Addressable(extents) && LinkedBytesPresent(extents, mapped, states, unit)
    requires i < |states| == DivCeil(total, unit) && x in Intervals(extents, mapped, |extents|) && Touches(x, i, unit, total)
    ensures states[i] == PRESENT
  {
    hide Times, DivCeil, PieceOf, Intervals;
    IntervalsAreLinked(extents, mapped, |extents|);
    var k :| 0 <= k < |extents| && Linked(extents[k], mapped) && x == (extents[k].start, extents[k].end);
    var b: nat := Maximum(x.0, PieceStart(i, unit));
    PieceExpected(i, total, unit);
    PieceOfByte(b, unit, i);
  }

  /** The sweep's criterion on intervals is the byte-by-byte one. */
  lemma UndamagedMeansPresent(extents: seq<Extent>, mapped: set<nat>, states: seq<nat>, unit: nat)
    requires 0 < unit && Addressable(extents) && FurthestEnd(extents, |extents|) >= 0
    requires |states| == DivCeil(FurthestEnd(extents, |extents|), unit)
    ensures Undamaged(Intervals(extents, mapped, |extents|), states, |states|, unit, FurthestEnd(extents, |extents|)) <==>
            LinkedBytesPresent(extents, mapped, states, unit)
  {
    hide DivCeil, PieceOf, Intervals, FurthestEnd, Touches, Linked;
    var total, intervals := FurthestEnd(extents, |extents|), Intervals(extents, mapped, |extents|);
    if Undamaged(intervals, states, |states|, unit, total) {
      forall k, b: nat | 0 <= k < |extents| && Linked(extents[k], mapped) && extents[k].start <= b < extents[k].end
        ensures PieceOf(b, unit) < |states| && states[PieceOf(b, unit)] == PRESENT
      {
        ByteInPresentPiece(extents, mapped, states, unit, k, b);
      }
    }
    if LinkedBytesPresent(extents, mapped, states, unit) {
      forall i, j | 0 <= i < |states| && states[i] != PRESENT && 0 <= j < |intervals|
        ensures !Touches(intervals[j], i, unit, total)
      {
        if Touches(intervals[j], i, unit, total) {
          PresentPieceUndamaged(extents, mapped, states, unit, total, i, intervals[j]);
        }
      }
    }
  }

  /** What an inspection must report. */
  ghost function Inspected(m: Manifest, mapped: set<nat>, states: seq<nat>): Result<PieceInspection, InspectError> {
    if m.pieceLength == None || m.pieceLength == Some(0) then Failure(MissingPieceLength)
    else
      var unit := m.pieceLength.value;
      var extents := Extents(m, unit);
      if !Addressable(extents) then Failure(SizeOverflow)
      else
        WithinFurthestEnd(extents, |extents|);
        var total := FurthestEnd(extents, |extents|);
        if !Readable(states) then Failure(Unreadable)
        else if |states| != DivCeil(total, unit) then Failure(PieceCount)
        else
          AllPieces(states, unit, total);
          Success(PieceInspection(
            LinkedBytesPresent(extents, mapped, states, unit),
            BytesOf(states, false, |states|, unit, total),
            PresentRatio(BytesOf(states, true, |states|, unit, total), total)))
  }

  /** The linked files of the manifest come in order. */
  ghost predicate WellLaid(m: Manifest, mapped: set<nat>) {
    m.pieceLength.Some? && m.pieceLength.value > 0 ==> Disjoint(Extents(m, m.pieceLength.value), mapped)
  }

  lemma IntervalsWithin(extents: seq<Extent>, mapped: set<nat>)
    requires Addressable(extents)
    ensures forall x :: x in Intervals(extents, mapped, |extents|) ==> 0 <= x.0 < x.1 <= FurthestEnd(extents, |extents|)
    ensures 0 <= FurthestEnd(extents, |extents|) <= U64_MAX
  {
    hide Intervals, FurthestEnd;
    WithinFurthestEnd(extents, |extents|);
    IntervalsAreLinked(extents, mapped, |extents|);
  }

  /** What the code reports: byte counts and errors are exact, and safety is the sweep's. */
  ghost function Swept(m: Manifest, mapped: set<nat>, states: seq<nat>): Result<PieceInspection, InspectError> {
    match Inspected(m, mapped, states)
    case Failure(error) => Failure(error)
    case Success(report) =>
      var unit := m.pieceLength.value;
      var extents := Extents(m, unit);
      Success(report.(integritySafe :=
        Unflagged(Intervals(extents, mapped, |extents|), states, |states|, unit, FurthestEnd(extents, |extents|))))
  }

  /** Inspects the pieces of a rechecked torrent. */
  method InspectPieces(m: Manifest, mapped: set<nat>, states: seq<nat>) returns (r: Result<PieceInspection, InspectError>)
    ensures r == Swept(m, mapped, states)
    ensures WellLaid(m, mapped) ==> r == Inspected(m, mapped, states)
  {
    hide Extents, Intervals, FurthestEnd, DivCeil, Readable, Unflagged, LinkedBytesPresent, BytesOf, PresentRatio, Addressable, Disjoint;
    SweptIsInspected(m, mapped, states);
    if m.pieceLength == None || m.pieceLength == Some(0) {
      return Failure(MissingPieceLength);
    }
    var unit := m.pieceLength.value;
    var layout;
    if m.pieceFiles == [] {
      layout := LayOutLegacy(m, unit, mapped);
    } else {
      layout := LayOutStored(m, unit, mapped);
    }
    if layout.Failure? {
      return Failure(layout.error);
    }
    var (intervals, total) := layout.value;
    IntervalsWithin(Extents(m, unit), mapped);
    r := Sweep(intervals, unit, total, states);
    if r.Success? {
      AllPieces(states, unit, total);
    }
  }

  /** For linked files in order the report is the exact one. */
  lemma SweptIsInspected(m: Manifest, mapped: set<nat>, states: seq<nat>)
    ensures WellLaid(m, mapped) ==> Swept(m, mapped, states) == Inspected(m, mapped, states)
  {
    hide Extents, Intervals, FurthestEnd, DivCeil, Readable, Unflagged, LinkedBytesPresent, BytesOf, PresentRatio, Addressable, Disjoint, FirstDecides, InOrder, Undamaged;
    if WellLaid(m, mapped) && Inspected(m, mapped, states).Success? {
      var unit := m.pieceLength.value;
      var extents := Extents(m, unit);
      var intervals, total := Intervals(extents, mapped, |extents|), FurthestEnd(extents, |extents|);
      IntervalsWithin(extents, mapped);
      IntervalsInOrder(extents, mapped, |extents|);
      InOrderDecides(intervals, unit, total);
      FlagsTouch(intervals, states, unit, total);
      UndamagedMeansPresent(extents, mapped, states, unit);
    }
  }

  /** The code inspects every list of piece states correctly exactly when the first linked interval
      ending beyond a piece's start decides about that piece. */
  lemma InspectionIsExact(m: Manifest, mapped: set<nat>)
    requires m.pieceLength.Some? && m.pieceLength.value > 0 && Addressable(Extents(m, m.pieceLength.value))
    requires FurthestEnd(Extents(m, m.pieceLength.value), |Extents(m, m.pieceLength.value)|) >= 0
    requires DivCeil(FurthestEnd(Extents(m, m.pieceLength.value), |Extents(m, m.pieceLength.value)|), m.pieceLength.value) <= MAX_PIECES
    ensures (forall states :: Swept(m, mapped, states) == Inspected(m, mapped, states)) <==>
            var unit := m.pieceLength.value; var extents := Extents(m, unit);
            FirstDecides(Intervals(extents, mapped, |extents|), unit, FurthestEnd(extents, |extents|))
  {
    var unit := m.pieceLength.value;
    var extents := Extents(m, unit);
    var intervals, total := Intervals(extents, mapped, |extents|), FurthestEnd(extents, |extents|);
    SweepIsExact(intervals, unit, total);
    hide Extents, Intervals, FurthestEnd, DivCeil, Unflagged, LinkedBytesPresent, BytesOf, PresentRatio, Addressable, FirstDecides, Undamaged;
    forall states | Inspected(m, mapped, states).Success?
      ensures Inspected(m, mapped, states).value.integritySafe <==> Undamaged(intervals, states, |states|, unit, total)
    {
      UndamagedMeansPresent(extents, mapped, states, unit);
    }
    forall states: seq<nat> | |states| == DivCeil(total, unit) && (forall k :: 0 <= k < |states| ==> states[k] <= PRESENT)
      ensures Inspected(m, mapped, states).Success?
    {
      assert Readable(states);
    }
  }

  /** Two linked files of ten bytes, stored with the second one first. */
  function Misordered(): Manifest {
    Manifest(Hashes(Some(1), None), [TorrentFile(0, "a", 10, false), TorrentFile(1, "b", 10, false)], Some(10),
             [PieceFile(Some(0), 10, 10), PieceFile(Some(1), 0, 10)])
  }

  lemma MisorderedIntervals()
    ensures var extents := Extents(Misordered(), 10);
      && extents == [Extent(Some(0), 10, 20), Extent(Some(1), 0, 10)]
      && Intervals(extents, {0, 1}, 2) == [(10, 20), (0, 10)] && FurthestEnd(extents, 2) == 20
  {
    var extents := Extents(Misordered(), 10);
    assert Linked(extents[0], {0, 1}) && Linked(extents[1], {0, 1});
    assert Intervals(extents, {0, 1}, 1) == [] + [(10, 20)];
    assert Intervals(extents, {0, 1}, 2) == Intervals(extents, {0, 1}, 1) + [(0, 10)];
    assert FurthestEnd(extents, 1) == 20;
  }

  /** The sweep passes the second file, which the missing first piece holds, while it looks for the first. */
  lemma MisorderedSwept()
    ensures var intervals: seq<Interval> := [(10, 20), (0, 10)];
      Unflagged(intervals, [0, 2], 2, 10, 20) && !Undamaged(intervals, [0, 2], 2, 10, 20)
  {
    var intervals: seq<Interval> := [(10, 20), (0, 10)];
    assert FirstBeyond(intervals, 0, PieceStart(0, 10)) == 0;
    assert !Flags(intervals, 0, 10, 20);
    assert Touches(intervals[1], 0, 10, 20);
    assert [0, 2][0] != PRESENT && [0, 2][1] == PRESENT;
  }

  /** An input for which the inspection is wrong: it calls a torrent safe whose first piece, which holds
      a whole linked file, is missing. */
  lemma MisorderedLayoutIsMisread()
    ensures var swept, exact := Swept(Misordered(), {0, 1}, [0, 2]), Inspected(Misordered(), {0, 1}, [0, 2]);
      swept.Success? && exact.Success? && swept.value.integritySafe && !exact.value.integritySafe
  {
    MisorderedIntervals();
    MisorderedSwept();
    var extents := Extents(Misordered(), 10);
    assert DivCeil(20, 10) == 2 && Readable([0, 2]) && Addressable(extents);
    UndamagedMeansPresent(extents, {0, 1}, [0, 2], 10);
    hide Unflagged, Undamaged, LinkedBytesPresent, Intervals, FurthestEnd, Extents, BytesOf, PresentRatio;
  }

  lemma {:induction false} NothingMissing(states: seq<nat>, k: nat, unit: nat, total: nat)
    requires unit > 0 && k <= |states| && k <= DivCeil(total, unit) && BytesOf(states, false, k, unit, total) == 0
    ensures forall i :: 0 <= i < k ==> states[i] == PRESENT
  {
    hide Times, DivCeil;
    if k > 0 {
      PiecesPartition(states, k - 1, unit, total);
      PieceExpected(k - 1, total, unit);
      NothingMissing(states, k - 1, unit, total);
    }
  }

  /** When no bytes are reported missing, every piece is present. */
  lemma NoneMissing(m: Manifest, mapped: set<nat>, states: seq<nat>)
    requires Swept(m, mapped, states).Success? && Swept(m, mapped, states).value.missingBytes == 0
    ensures forall k :: 0 <= k < |states| ==> states[k] == PRESENT
  {
    hide Extents, FurthestEnd, DivCeil, BytesOf, PresentRatio, Intervals, Unflagged, LinkedBytesPresent, Addressable, Readable;
    var unit := m.pieceLength.value;
    WithinFurthestEnd(Extents(m, unit), |Extents(m, unit)|);
    NothingMissing(states, |states|, unit, FurthestEnd(Extents(m, unit), |Extents(m, unit)|));
  }

  lemma QuotientOfMultiple(n: nat, unit: nat)
    requires unit > 0
    ensures Times(n, unit) / unit == n
  {
    hide Times;
    PieceOfByte(Times(n, unit), unit, n);
  }

  lemma QuotientBelow(a: nat, unit: nat, n: nat)
    requires unit > 0 && a < Times(n, unit)
    ensures a / unit < n
  {
    var q := a / unit;
    assert Times(q, unit) <= a;
    hide Times;
    if q >= n {
      TimesMonotone(n, q, unit, unit);
    }
  }

  lemma QuotientFloor(a: nat, unit: nat)
    requires unit > 0
    ensures a / unit * unit <= a < (a / unit + 1) * unit
  {
    assert a == a / unit * unit + a % unit;
  }

  /** The ratio is the part in millionths, rounded down. */
  lemma RatioBounds(present: nat, total: nat)
    requires present <= total
    ensures 0 <= PresentRatio(present, total) <= PPM
    ensures total > 0 ==> (PresentRatio(present, total) == PPM <==> present == total)
    ensures total == 0 ==> PresentRatio(present, total) == 0
    ensures total > 0 ==> PresentRatio(present, total) * total <= present * PPM < (PresentRatio(present, total) + 1) * total
  {
    if total > 0 {
      QuotientFloor(present * PPM, total);
      QuotientOfMultiple(PPM, total);
      assert total * PPM == Times(PPM, total);
      if present < total {
        QuotientBelow(present * PPM, total, PPM);
      }
    }
  }

  /** Every report conserves bytes, its ratio is full exactly when nothing is missing, and when
      nothing is missing the links are intact. */
  lemma InspectionConsistent(m: Manifest, mapped: set<nat>, states: seq<nat>)
    requires Inspected(m, mapped, states).Success?
    ensures var unit := m.pieceLength.value; var total := FurthestEnd(Extents(m, unit), |Extents(m, unit)|);
      var report := Inspected(m, mapped, states).value;
      && BytesOf(states, true, |states|, unit, total) + report.missingBytes == total
      && 0 <= report.missingBytes <= total
      && 0 <= report.presentRatio <= PPM
      && (total > 0 ==> (report.presentRatio == PPM <==> report.missingBytes == 0))
      && (total > 0 ==> report.presentRatio * total <= (total - report.missingBytes) * 1000000 < (report.presentRatio + 1) * total)
      && (report.missingBytes == 0 ==> report.integritySafe)
  {
    hide Extents, FurthestEnd, DivCeil, BytesOf, PresentRatio, PieceOf;
    var unit := m.pieceLength.value;
    var extents := Extents(m, unit);
    WithinFurthestEnd(extents, |extents|);
    var total := FurthestEnd(extents, |extents|);
    AllPieces(states, unit, total);
    RatioBounds(BytesOf(states, true, |states|, unit, total), total);
    if Inspected(m, mapped, states).value.missingBytes == 0 {
      NothingMissing(states, |states|, unit, total);
      forall k, b: nat | 0 <= k < |extents| && Linked(extents[k], mapped) && extents[k].start <= b < extents[k].end
        ensures PieceOf(b, unit) < |states|
      {
        PieceOfByte(b, unit, 0);
        PieceExpected(PieceOf(b, unit), total, unit);
      }
    }
  }

  // ----- Layouts -----

  lemma {:induction false} FilesFollow(sizes: seq<U64>, unit: nat, aligned: bool, a: nat, b: nat)
    requires unit > 0 && a <= b <= |sizes| && forall k :: 0 <= k <= b ==> End(sizes, unit, aligned, k) <= U64_MAX
    ensures End(sizes, unit, aligned, a) <= End(sizes, unit, aligned, b) <= Start(sizes, unit, aligned, b)
  {
    hide Aligned;
    AlignedParts(End(sizes, unit, aligned, b), unit);
    if a < b {
      FilesFollow(sizes, unit, aligned, a, b - 1);
    }
  }

  /** A derived layout is always in order. */
  lemma LegacyLayoutInOrder(m: Manifest, unit: nat, mapped: set<nat>)
    requires unit > 0 && m.pieceFiles == [] && Addressable(Extents(m, unit))
    ensures Disjoint(Extents(m, unit), mapped)
  {
    hide Start, End, Linked;
    var extents := Extents(m, unit);
    EndOfNone(Sizes(m), unit, V2Only(m));
    forall k | 0 <= k <= |m.files| ensures End(Sizes(m), unit, V2Only(m), k) <= U64_MAX {
      if k > 0 {
        assert extents[k - 1].end <= U64_MAX;
      }
    }
    forall a, b | 0 <= a < b < |extents| ensures extents[a].end <= extents[b].start {
      FilesFollow(Sizes(m), unit, V2Only(m), a + 1, b);
    }
  }

  /** A torrent's layout as its parser stores it: BEP 3 concatenates the files, padding included;
      BEP 52 begins each file at a piece boundary. */
  method LayOutParsed(sizes: seq<U64>, ordinals: seq<Option<nat>>, unit: U64, aligned: bool) returns (r: Option<seq<PieceFile>>)
    requires unit > 0 && |ordinals| == |sizes|
    ensures r == None || StoresLayout(r.value, sizes, ordinals, unit, aligned)
    ensures r == None <==> exists k :: 0 <= k < |sizes| && Overflows(sizes, unit, aligned, k)
  {
    hide Times, DivCeil, Aligned, Start, End;
    var end: nat, files: seq<PieceFile> := 0, [];
    EndOfNone(sizes, unit, aligned);
    for k := 0 to |sizes|
      invariant end == End(sizes, unit, aligned, k) <= U64_MAX
      invariant |files| == k
      invariant forall j :: 0 <= j < k ==>
                  files[j].ordinal == ordinals[j] && files[j].offset == Start(sizes, unit, aligned, j) && files[j].size == sizes[j]
      invariant forall j :: 0 <= j < k ==> NextBoundary(sizes, unit, aligned, j) <= U64_MAX
      invariant forall j :: 0 <= j <= k ==> End(sizes, unit, aligned, j) <= U64_MAX
    {
      var offset: nat := end;
      if aligned && end % unit != 0 {
        offset := end + (unit - end % unit);
      }
      BoundaryAfter(sizes, unit, aligned, k);
      if offset > U64_MAX || offset + sizes[k] > U64_MAX {
        assert Overflows(sizes, unit, aligned, k);
        return None;
      }
      files := files + [PieceFile(ordinals[k], offset, sizes[k])];
      end := offset + sizes[k];
    }
    return Some(files);
  }

  /** Where file k would begin if offsets were not bounded. */
  ghost function NextBoundary(sizes: seq<U64>, unit: nat, aligned: bool, k: nat): nat
    requires unit > 0 && k <= |sizes|
  {
    var offset := End(sizes, unit, aligned, k);
    if aligned then Times(DivCeil(offset, unit), unit) else offset
  }

  ghost predicate Overflows(sizes: seq<U64>, unit: nat, aligned: bool, k: nat)
    requires unit > 0 && k < |sizes|
  {
    NextBoundary(sizes, unit, aligned, k) > U64_MAX || End(sizes, unit, aligned, k + 1) > U64_MAX
  }

  lemma BoundaryAfter(sizes: seq<U64>, unit: U64, aligned: bool, k: nat)
    requires unit > 0 && k < |sizes| && End(sizes, unit, aligned, k) <= U64_MAX
    ensures var end := End(sizes, unit, aligned, k);
      NextBoundary(sizes, unit, aligned, k) == if aligned && end % unit != 0 then end + (unit - end % unit) else end
    ensures NextBoundary(sizes, unit, aligned, k) <= U64_MAX ==>
      && Start(sizes, unit, aligned, k) == NextBoundary(sizes, unit, aligned, k)
      && End(sizes, unit, aligned, k + 1) == NextBoundary(sizes, unit, aligned, k) + sizes[k]
  {
    DivCeilParts(End(sizes, unit, aligned, k), unit);
  }

  ghost predicate StoresLayout(files: seq<PieceFile>, sizes: seq<U64>, ordinals: seq<Option<nat>>, unit: nat, aligned: bool)
    requires unit > 0 && |ordinals| == |sizes|
  {
    && |files| == |sizes|
    && (forall k :: 0 <= k < |files| ==>
          files[k].ordinal == ordinals[k] && files[k].offset == Start(sizes, unit, aligned, k) && files[k].size == sizes[k])
    && (forall k :: 0 <= k <= |files| ==> End(sizes, unit, aligned, k) <= U64_MAX)
  }

  /** A layout the parser stored is in order. */
  lemma StoredLayoutInOrder(m: Manifest, sizes: seq<U64>, ordinals: seq<Option<nat>>, unit: nat, aligned: bool, mapped: set<nat>)
    requires unit > 0 && |ordinals| == |sizes| && m.pieceFiles != []
    requires StoresLayout(m.pieceFiles, sizes, ordinals, unit, aligned)
    ensures Addressable(Extents(m, unit)) && Disjoint(Extents(m, unit), mapped)
  {
    hide Start, Linked;
    var extents := Extents(m, unit);
    forall k | 0 <= k < |extents| ensures extents[k].end == End(sizes, unit, aligned, k + 1) && extents[k].start == Start(sizes, unit, aligned, k) {
    }
    forall a, b | 0 <= a < b < |extents| ensures extents[a].end <= extents[b].start {
      FilesFollow(sizes, unit, aligned, a + 1, b);
    }
  }

  /** Where derived files lie: one after the other, and for a torrent with only a v2 hash each from the next
      multiple of the piece length on, while offsets fit. */
  lemma LegacyFilesFollow(m: Manifest, unit: nat, k: nat)
    requires unit > 0 && m.pieceFiles == [] && k + 1 < |m.files|
    ensures var extents := Extents(m, unit);
      && extents[0].start == 0 && extents[k].end == extents[k].start + m.files[k].size
      && (m.hashes.v1.Some? || m.hashes.v2 == None ==> extents[k + 1].start == extents[k].end)
      && (m.hashes.v1 == None && m.hashes.v2.Some? && extents[k].end + unit <= U64_MAX ==>
            exists n: nat :: extents[k + 1].start == n * unit && extents[k].end <= n * unit < extents[k].end + unit)
  {
    var sizes, aligned := Sizes(m), V2Only(m);
    assert Times(0, unit) == 0 && DivCeil(0, unit) == 0;
    if aligned {
      var end := End(sizes, unit, aligned, k + 1);
      DivCeilParts(end, unit);
      assert Times(DivCeil(end, unit), unit) == DivCeil(end, unit) * unit;
    }
  }

  /** A manifest stored before layouts were kept is inspected as if its layout had been stored. */
  lemma LegacyAgreesWithStored(legacy: Manifest, m: Manifest, ordinals: seq<Option<nat>>, unit: nat)
    requires unit > 0 && legacy == m.(pieceFiles := []) && m.pieceFiles != []
    requires |ordinals| == |m.files| && forall k :: 0 <= k < |ordinals| ==> ordinals[k] == Some(m.files[k].ordinal)
    requires StoresLayout(m.pieceFiles, Sizes(m), ordinals, unit, V2Only(m))
    ensures Extents(legacy, unit) == Extents(m, unit)
  {
    hide Start;
    assert Sizes(legacy) == Sizes(m);
    forall k | 0 <= k < |m.files| ensures Extents(legacy, unit)[k] == Extents(m, unit)[k] {
      assert End(Sizes(m), unit, V2Only(m), k + 1) == Start(Sizes(m), unit, V2Only(m), k) + m.files[k].size;
    }
  }

  /** Padding is what a derived layout cannot know about: it moves every later file. */
  lemma PaddingMovesFiles()
    ensures var files := [TorrentFile(0, "a", 3, false), TorrentFile(1, "b", 3, false)];
      var m := Manifest(Hashes(Some(1), Some(2)), files, Some(4), [PieceFile(Some(0), 0, 3), PieceFile(None, 3, 1), PieceFile(Some(1), 4, 3)]);
      Extents(m, 4)[2] == Extent(Some(1), 4, 7) && Extents(m.(pieceFiles := []), 4)[1] == Extent(Some(1), 3, 6)
  {
    var files := [TorrentFile(0, "a", 3, false), TorrentFile(1, "b", 3, false)];
    var legacy := Manifest(Hashes(Some(1), Some(2)), files, Some(4), []);
    assert Sizes(legacy) == [3, 3];
    assert End([3, 3], 4, false, 1) == 3;
  }
}
