/**
 The integer and table structure of the angle-of-departure interferometry in
 `iq_data.c` (`iq_data_aod_interferometry`, full antenna pattern, and
 `iq_data_aod_row_interferometry`, row pattern): the antenna switching
 sequences, the measurement-pair tables with their direction codes, the
 bounds check and sign routing of each pair's phase difference, and the
 clamps on the results.

 The phase difference of a pair (an `atan2f` of compensated samples), the
 circular mean, `sqrtf`, `atan2f` and `asinf` are parameters.
 */
module IqInterferometry {
  import opened Common
  import Chw1010
  import BleChannel
  import opened IqSamples

  // ---------------------------------------------------------------------
  // Switching sequences and pair tables

  /** `antenna_switching_sequence` of the full pattern: measurement index i
      was sampled from this antenna. */
  const FullSwitching: seq<nat> := [
     1,  2,  3,  4,  5,  6,  7,  8,  9, 10,
    11, 12, 13, 14, 15,  0,  1,  2,  3,  4,
     5,  6,  7,  8,  9, 10, 11, 12, 13, 14,
    15,  0,  1,  2,  3,  4,  5
  ]

  /** `antenna_switching_sequence` of the row pattern. */
  const RowSwitching: seq<nat> := [
    3,  4,  6,  2,  3,  4,  6,  2,  3,  4,
    6,  2,  3,  4,  6,  2,  3,  4,  6,  2,
    3,  4,  6,  2,  3,  4,  6,  2,  3,  4,
    6,  2,  3,  4,  6,  2,  3
  ]

  /** Pair direction codes. */
  const LeftToRight: nat := 0
  const RightToLeft: nat := 1
  const BottomToTop: nat := 2
  const TopToBottom: nat := 3

  /** A measurement pair: two measurement indices and a direction code. */
  datatype Pair = Pair(index1: nat, index2: nat, direction: nat)

  /** `measurement_pairs` of the full (snake) pattern. */
  const FullPairs: seq<Pair> := [
    Pair( 0,  1, 3), Pair( 1,  2, 0), Pair( 2,  3, 0), Pair( 3,  4, 2),
    Pair( 5,  6, 2), Pair( 6,  7, 2), Pair( 7,  8, 2), Pair( 9, 10, 2),
    Pair(10, 11, 1), Pair(11, 12, 1), Pair(12, 13, 3), Pair(13, 14, 0),
    Pair(14, 15, 3), Pair(15, 16, 1), Pair(16, 17, 3), Pair(17, 18, 0),
    Pair(18, 19, 0), Pair(19, 20, 2), Pair(21, 22, 2), Pair(22, 23, 2),
    Pair(23, 24, 2), Pair(25, 26, 2), Pair(26, 27, 1), Pair(27, 28, 1),
    Pair(28, 29, 3), Pair(29, 30, 0), Pair(30, 31, 3), Pair(31, 32, 1),
    Pair(32, 33, 3), Pair(33, 34, 0), Pair(34, 35, 0), Pair(35, 36, 2)
  ]

  /** `measurement_pairs` of the row pattern. */
  const RowPairs: seq<Pair> := [
    Pair( 0,  1, 0), Pair( 1,  2, 0),
    Pair( 3,  4, 0), Pair( 4,  5, 0), Pair( 5,  6, 0),
    Pair( 7,  8, 0), Pair( 8,  9, 0), Pair( 9, 10, 0),
    Pair(11, 12, 0), Pair(12, 13, 0), Pair(13, 14, 0),
    Pair(15, 16, 0), Pair(16, 17, 0), Pair(17, 18, 0),
    Pair(19, 20, 0), Pair(20, 21, 0), Pair(21, 22, 0),
    Pair(23, 24, 0), Pair(24, 25, 0), Pair(25, 26, 0),
    Pair(27, 28, 0), Pair(28, 29, 0), Pair(29, 30, 0),
    Pair(31, 32, 0), Pair(32, 33, 0), Pair(33, 34, 0),
    Pair(35, 36, 0)
  ]

  predicate IsHorizontal(p: Pair) {
    p.direction == LeftToRight || p.direction == RightToLeft
  }

  predicate IsVertical(p: Pair) {
    p.direction == BottomToTop || p.direction == TopToBottom
  }

  /** The full pattern visits the antennas 1, 2, ..., 15, 0, 1, ... in turn. */
  lemma FullSwitchingCycles()
    ensures |FullSwitching| == MeasurementMax
    ensures forall i :: 0 <= i < MeasurementMax ==> FullSwitching[i] == (i + 1) % Chw1010.AntennaCount
  {
  }

  /** The row pattern repeats antennas 3, 4, 6, 2: the bottom row, with
      antenna 2 revisited after the row is done. */
  lemma RowSwitchingCycles()
    ensures |RowSwitching| == MeasurementMax
    ensures forall i :: 0 <= i < MeasurementMax ==> RowSwitching[i] == [3, 4, 6, 2][i % 4]
  {
  }

  /** Every pair joins temporally adjacent measurements within the 37
      measurement slots, and its direction code is one of the four. */
  ghost predicate ConsecutivePairs(pairs: seq<Pair>) {
    forall k :: 0 <= k < |pairs| ==>
      && pairs[k].index2 == pairs[k].index1 + 1
      && pairs[k].index2 < MeasurementMax
      && pairs[k].direction <= TopToBottom
  }

  /** Cell `b` is the orthogonal neighbour of cell `a` that the direction
      code names: right of it (0), left (1), above (2) or below (3). */
  predicate Neighbours(a: Chw1010.Cell, b: Chw1010.Cell, direction: nat) {
    match direction
    case 0 => b.row == a.row && b.col == a.col + 1
    case 1 => b.row == a.row && a.col == b.col + 1
    case 2 => b.col == a.col && a.row == b.row + 1
    case 3 => b.col == a.col && b.row == a.row + 1
    case _ => false
  }

  /** The full pattern has 32 pairs and the row pattern 27, all joining
      consecutive measurements. */
  lemma PairTablesConsecutive()
    ensures |FullPairs| == 32 && ConsecutivePairs(FullPairs)
    ensures |RowPairs| == 27 && ConsecutivePairs(RowPairs)
  {
  }

  /** Every full-pattern pair joins consecutive measurements whose antennas
      are grid neighbours in the direction its code names. */
  lemma FullPairsFollowGrid()
    ensures forall k :: 0 <= k < |FullPairs| ==>
      && FullPairs[k].index2 == FullPairs[k].index1 + 1
      && FullPairs[k].index2 < |FullSwitching|
      && FullSwitching[FullPairs[k].index1] < Chw1010.AntennaCount
      && FullSwitching[FullPairs[k].index2] < Chw1010.AntennaCount
      && Neighbours(Chw1010.Cells[FullSwitching[FullPairs[k].index1]],
                    Chw1010.Cells[FullSwitching[FullPairs[k].index2]], FullPairs[k].direction)
  {
    FullPairsFollowSteps();
    FullSwitchingCycles();
    FullSwitchingSteps();
    forall k | 0 <= k < |FullPairs|
      ensures Neighbours(Chw1010.Cells[FullSwitching[FullPairs[k].index1]],
                         Chw1010.Cells[FullSwitching[FullPairs[k].index2]], FullPairs[k].direction)
    {
      AntennaStepNeighbours(FullSwitching[FullPairs[k].index1]);
    }
  }

  /** The antenna after `a` in the cycle 0, 1, ..., 15, 0. */
  function NextAntenna(a: nat): nat {
    if a + 1 == Chw1010.AntennaCount then 0 else a + 1
  }

  /** The full pattern steps through the antennas in cycle order. */
  lemma FullSwitchingSteps()
    ensures |FullSwitching| == MeasurementMax
    ensures forall i :: 0 <= i < MeasurementMax ==> FullSwitching[i] < Chw1010.AntennaCount
    ensures forall i :: 0 <= i < MeasurementMax - 1 ==> FullSwitching[i + 1] == NextAntenna(FullSwitching[i])
  {
  }

  /** The direction from antenna `a` to antenna `a + 1` (mod 16) on the
      array, or 4 where the two are not neighbours (5 to 6 and 9 to 10). */
  function StepDirection(a: nat): nat {
    match a
    case 0 => RightToLeft
    case 1 => TopToBottom
    case 2 => LeftToRight
    case 3 => LeftToRight
    case 4 => BottomToTop
    case 6 => BottomToTop
    case 7 => BottomToTop
    case 8 => BottomToTop
    case 10 => BottomToTop
    case 11 => RightToLeft
    case 12 => RightToLeft
    case 13 => TopToBottom
    case 14 => LeftToRight
    case 15 => TopToBottom
    case _ => 4
  }

  /** Consecutive antennas of the full pattern are neighbours in the
      direction `StepDirection` names, except 5 to 6 and 9 to 10. */
  lemma AntennaStepNeighbours(a: nat)
    requires a < Chw1010.AntennaCount && a != 5 && a != 9
    ensures Neighbours(Chw1010.Cells[a], Chw1010.Cells[NextAntenna(a)], StepDirection(a))
  {
  }

  /** Each full-pattern pair joins measurement i to i + 1 and carries the
      direction of the step between their antennas. */
  lemma FullPairsFollowSteps()
    ensures forall k :: 0 <= k < |FullPairs| ==>
      && FullPairs[k].index2 == FullPairs[k].index1 + 1
      && FullPairs[k].index2 < MeasurementMax
      && (FullPairs[k].index1 + 1) % Chw1010.AntennaCount != 5
      && (FullPairs[k].index1 + 1) % Chw1010.AntennaCount != 9
      && FullPairs[k].direction == StepDirection((FullPairs[k].index1 + 1) % Chw1010.AntennaCount)
  {
  }

  /** Every row-pattern pair joins consecutive measurements on horizontally
      neighbouring antennas, left to right; the measurements 2-3, 6-7, ...
      that jump from antenna 6 back to 2 form no pair. */
  lemma RowPairsFollowGrid()
    ensures forall k :: 0 <= k < |RowPairs| ==>
      && RowPairs[k].direction == LeftToRight
      && RowPairs[k].index2 % 4 != 3
      && RowPairs[k].index2 == RowPairs[k].index1 + 1
      && RowPairs[k].index2 < |RowSwitching|
      && RowSwitching[RowPairs[k].index2] < Chw1010.AntennaCount
      && Neighbours(Chw1010.Cells[RowSwitching[RowPairs[k].index1]],
                    Chw1010.Cells[RowSwitching[RowPairs[k].index2]], RowPairs[k].direction)
  {
    RowPairsSkipGroupEnds();
    RowSwitchingCycles();
    forall k | 0 <= k < |RowPairs|
      ensures RowPairs[k].index2 < |RowSwitching|
      ensures RowSwitching[RowPairs[k].index2] < Chw1010.AntennaCount
      ensures Neighbours(Chw1010.Cells[RowSwitching[RowPairs[k].index1]],
                         Chw1010.Cells[RowSwitching[RowPairs[k].index2]], RowPairs[k].direction)
    {
      RowStepNeighbours(RowPairs[k].index1);
    }
  }

  /** Every row-pattern pair joins measurement i to i + 1, left to right,
      for each i < 36 except those where antenna 6 is followed by antenna 2
      (i = 2 mod 4). */
  lemma RowPairsSkipGroupEnds()
    ensures forall k :: 0 <= k < |RowPairs| ==>
      && RowPairs[k].direction == LeftToRight
      && RowPairs[k].index2 == RowPairs[k].index1 + 1
      && RowPairs[k].index2 < MeasurementMax
      && RowPairs[k].index1 % 4 != 2
  {
  }

  /** Consecutive row-pattern measurements that stay within a group of four
      are on horizontally neighbouring antennas, left to right. */
  lemma RowStepNeighbours(i: nat)
    requires i + 1 < |RowSwitching| && i % 4 != 2
    ensures RowSwitching[i + 1] < Chw1010.AntennaCount
    ensures Neighbours(Chw1010.Cells[RowSwitching[i]], Chw1010.Cells[RowSwitching[i + 1]], LeftToRight)
  {
    RowSwitchingCycles();
    assert (i + 1) % 4 == (i % 4 + 1) % 4;
  }

  /** On the array, neighbouring antennas lie one orthogonal spacing apart
      along the axis the direction code names and level along the other. */
  lemma NeighbourPositions(a: nat, b: nat, direction: nat)
    requires a < Chw1010.AntennaCount && b < Chw1010.AntennaCount
    requires Neighbours(Chw1010.Cells[a], Chw1010.Cells[b], direction)
    ensures var pa, pb, d := Chw1010.PositionsXyz[a], Chw1010.PositionsXyz[b], Chw1010.SpacingOrthogonal;
      match direction
      case 0 => pb.x - pa.x == d && pb.y == pa.y
      case 1 => pa.x - pb.x == d && pb.y == pa.y
      case 2 => pb.y - pa.y == d && pb.x == pa.x
      case 3 => pa.y - pb.y == d && pb.x == pa.x
      case _ => false
  {
    Chw1010.PositionsMatchGrid();
    Chw1010.CellCentreSpacing(Chw1010.Cells[a], Chw1010.Cells[b]);
  }

  // ---------------------------------------------------------------------
  // Routing of the phase differences

  /** The per-pair clamp to the largest phase difference the antenna
      spacing allows, [-dOrth, dOrth]. */
  function ClampDelta(delta: real, dOrth: real): (r: real)
    ensures dOrth >= 0.0 ==> -dOrth <= r <= dOrth
    ensures dOrth >= 0.0 && -dOrth <= delta <= dOrth ==> r == delta
  {
    if delta > dOrth then dOrth
    else if delta < -dOrth then -dOrth
    else delta
  }

  /** Codes 1 and 3 negate the phase difference, so that every horizontal
      difference is taken left minus right and every vertical one bottom
      minus top. */
  function Signed(p: Pair, delta: real): (r: real)
    ensures p.direction == RightToLeft || p.direction == TopToBottom ==> r + delta == 0.0
    ensures p.direction == LeftToRight || p.direction == BottomToTop ==> r == delta
  {
    if p.direction == RightToLeft || p.direction == TopToBottom then -delta else delta
  }

  predicate InBounds(p: Pair, measurementCount: nat) {
    p.index1 < measurementCount && p.index2 < measurementCount
  }

  /** The horizontal and vertical difference lists. */
  datatype Deltas = Deltas(horizontal: seq<real>, vertical: seq<real>)

  /** Number of pairs in the table that are in bounds and horizontal
      (respectively vertical). */
  function CountUsed(pairs: seq<Pair>, measurementCount: nat, horizontal: bool): (n: nat)
    ensures n <= |pairs|
  {
    if pairs == [] then 0
    else
      var p := pairs[|pairs| - 1];
      var used := InBounds(p, measurementCount) && (if horizontal then IsHorizontal(p) else IsVertical(p));
      CountUsed(pairs[..|pairs| - 1], measurementCount, horizontal) + (if used then 1 else 0)
  }

  /** The routing loop over the first `|pairs|` table entries: pairs with an
      index at or beyond the measurement count are skipped; each other
      pair's clamped, signed difference is appended to the horizontal list
      (codes 0, 1) or the vertical list (codes 2, 3). */
  function Route(pairs: seq<Pair>, measurementCount: nat, dOrth: real, phaseDelta: (nat, nat) -> real): (r: Deltas)
    ensures |r.horizontal| == CountUsed(pairs, measurementCount, true)
    ensures |r.vertical| == CountUsed(pairs, measurementCount, false)
    ensures dOrth >= 0.0 ==> forall k :: 0 <= k < |r.horizontal| ==> -dOrth <= r.horizontal[k] <= dOrth
    ensures dOrth >= 0.0 ==> forall k :: 0 <= k < |r.vertical| ==> -dOrth <= r.vertical[k] <= dOrth
    decreases |pairs|
  {
    if pairs == [] then Deltas([], [])
    else
      var r := Route(pairs[..|pairs| - 1], measurementCount, dOrth, phaseDelta);
      var p := pairs[|pairs| - 1];
      if !InBounds(p, measurementCount) then r
      else
        var delta := Signed(p, ClampDelta(phaseDelta(p.index1, p.index2), dOrth));
        if IsHorizontal(p) then r.(horizontal := r.horizontal + [delta])
        else if IsVertical(p) then r.(vertical := r.vertical + [delta])
        else r
  }

  /** Entry by entry: the k-th pair of the table, when in bounds, supplies
      the entry of its list that follows the entries of the pairs before it,
      and that entry is its clamped, signed phase difference. */
  lemma {:induction false} RouteEntry(
    pairs: seq<Pair>, measurementCount: nat, dOrth: real, phaseDelta: (nat, nat) -> real, k: nat)
    requires k < |pairs| && InBounds(pairs[k], measurementCount)
    ensures var r := Route(pairs, measurementCount, dOrth, phaseDelta);
      var p := pairs[k];
      var delta := Signed(p, ClampDelta(phaseDelta(p.index1, p.index2), dOrth));
      && (IsHorizontal(p) ==>
            CountUsed(pairs[..k], measurementCount, true) < |r.horizontal|
            && r.horizontal[CountUsed(pairs[..k], measurementCount, true)] == delta)
      && (IsVertical(p) ==>
            CountUsed(pairs[..k], measurementCount, false) < |r.vertical|
            && r.vertical[CountUsed(pairs[..k], measurementCount, false)] == delta)
    decreases |pairs|
  {
    var init := pairs[..|pairs| - 1];
    if k == |pairs| - 1 {
      assert init == pairs[..k];
    } else {
      RouteEntry(init, measurementCount, dOrth, phaseDelta, k);
      assert init[k] == pairs[k];
      assert init[..k] == pairs[..k];
    }
  }

  /** The routing loop as the firmware writes it. */
  method RouteDeltas(pairs: seq<Pair>, measurementCount: nat, dOrth: real, phaseDelta: (nat, nat) -> real)
    returns (horizontal: seq<real>, vertical: seq<real>)
    ensures Deltas(horizontal, vertical) == Route(pairs, measurementCount, dOrth, phaseDelta)
  {
    horizontal, vertical := [], [];
    var i := 0;
    while i < |pairs|
      invariant 0 <= i <= |pairs|
      invariant Deltas(horizontal, vertical) == Route(pairs[..i], measurementCount, dOrth, phaseDelta)
    {
      assert pairs[..i + 1][..i] == pairs[..i];
      var p := pairs[i];
      if p.index1 >= measurementCount || p.index2 >= measurementCount {
        i := i + 1;
        continue;
      }
      var delta := phaseDelta(p.index1, p.index2);
      if delta > dOrth {
        delta := dOrth;
      } else if delta < -dOrth {
        delta := -dOrth;
      }
      if p.direction == 0 {
        horizontal := horizontal + [delta];
      } else if p.direction == 1 {
        horizontal := horizontal + [-delta];
      } else if p.direction == 2 {
        vertical := vertical + [delta];
      } else if p.direction == 3 {
        vertical := vertical + [-delta];
      }
      i := i + 1;
    }
    assert pairs[..|pairs|] == pairs;
  }

  /** When every pair is in bounds, each is routed to one of the two lists. */
  lemma {:induction false} EveryPairRouted(pairs: seq<Pair>, measurementCount: nat)
    requires forall k :: 0 <= k < |pairs| ==>
      InBounds(pairs[k], measurementCount) && pairs[k].direction <= TopToBottom
    ensures CountUsed(pairs, measurementCount, true) + CountUsed(pairs, measurementCount, false) == |pairs|
    decreases |pairs|
  {
    if pairs != [] {
      EveryPairRouted(pairs[..|pairs| - 1], measurementCount);
    }
  }

  /** A table without vertical pairs yields no vertical differences. */
  lemma {:induction false} NoVerticalPairs(pairs: seq<Pair>, measurementCount: nat)
    requires forall k :: 0 <= k < |pairs| ==> !IsVertical(pairs[k])
    ensures CountUsed(pairs, measurementCount, false) == 0
    decreases |pairs|
  {
    if pairs != [] {
      NoVerticalPairs(pairs[..|pairs| - 1], measurementCount);
    }
  }

  /** With all 37 measurement samples present, the 32 full-pattern pairs
      contribute 14 horizontal and 18 vertical differences, and the row
      pattern contributes 27 horizontal differences and no vertical one. */
  lemma TableDifferenceCounts(phaseDelta: (nat, nat) -> real, dOrth: real)
    ensures var r := Route(FullPairs, MeasurementMax, dOrth, phaseDelta);
      |r.horizontal| == 14 && |r.vertical| == 18
    ensures var r := Route(RowPairs, MeasurementMax, dOrth, phaseDelta);
      |r.horizontal| == 27 && |r.vertical| == 0
  {
    PairTablesConsecutive();
    RowPairsFollowGrid();
    EveryPairRouted(RowPairs, MeasurementMax);
    NoVerticalPairs(RowPairs, MeasurementMax);
    FullPairsDirectionCounts();
  }

  /** The full pattern has 14 horizontal and 18 vertical pairs. */
  lemma FullPairsDirectionCounts()
    ensures CountUsed(FullPairs, MeasurementMax, true) == 14
    ensures CountUsed(FullPairs, MeasurementMax, false) == 18
  {
    CountUsedUpTo(FullPairs, 32, MeasurementMax);
    assert FullPairs[..32] == FullPairs;
    FullPairsCountByPosition(32);
    HorizontalPositionCount();
  }

  /** Counting the first `j` entries of the full pattern is counting the
      horizontal positions below `j`. */
  lemma {:induction false} FullPairsCountByPosition(j: nat)
    requires j <= |FullPairs|
    ensures CountUpTo(FullPairs, j, MeasurementMax, true) == HorizontalBelow(j)
    ensures CountUpTo(FullPairs, j, MeasurementMax, false) == j - HorizontalBelow(j)
  {
    if j > 0 {
      FullPairsCountByPosition(j - 1);
      FullPairsHorizontal();
    }
  }

  /** Number of horizontal positions below `j`. */
  function HorizontalBelow(j: nat): nat {
    if j == 0 then 0 else HorizontalBelow(j - 1) + (if HorizontalAt(j - 1) then 1 else 0)
  }

  lemma HorizontalPositionCount()
    ensures HorizontalBelow(32) == 14
  {
    assert HorizontalBelow(4) == 2;
    assert HorizontalBelow(8) == 2;
    assert HorizontalBelow(12) == 5;
    assert HorizontalBelow(16) == 7;
    assert HorizontalBelow(20) == 8;
    assert HorizontalBelow(24) == 10;
    assert HorizontalBelow(28) == 12;
    assert HorizontalBelow(32) == 14;
  }

  /** The positions of the horizontal pairs in the full pattern. */
  lemma FullPairsHorizontal()
    ensures |FullPairs| == 32
    ensures forall k :: 0 <= k < |FullPairs| ==>
      && InBounds(FullPairs[k], MeasurementMax)
      && (IsHorizontal(FullPairs[k]) <==> HorizontalAt(k))
      && (IsVertical(FullPairs[k]) <==> !HorizontalAt(k))
  {
  }

  predicate HorizontalAt(k: nat) {
    k in {1, 2, 8, 9, 11, 13, 15, 16, 22, 23, 25, 27, 29, 30}
  }

  /** `CountUsed` over the first `j` entries, indexing rather than slicing. */
  function CountUpTo(pairs: seq<Pair>, j: nat, measurementCount: nat, horizontal: bool): nat
    requires j <= |pairs|
  {
    if j == 0 then 0
    else
      var p := pairs[j - 1];
      var used := InBounds(p, measurementCount) && (if horizontal then IsHorizontal(p) else IsVertical(p));
      CountUpTo(pairs, j - 1, measurementCount, horizontal) + (if used then 1 else 0)
  }

  /** Counting a prefix by slicing and by indexing agree. */
  lemma {:induction false} CountUsedUpTo(pairs: seq<Pair>, j: nat, measurementCount: nat)
    requires j <= |pairs|
    ensures CountUsed(pairs[..j], measurementCount, true) == CountUpTo(pairs, j, measurementCount, true)
    ensures CountUsed(pairs[..j], measurementCount, false) == CountUpTo(pairs, j, measurementCount, false)
  {
    if j > 0 {
      CountUsedUpTo(pairs, j - 1, measurementCount);
      assert pairs[..j][..j - 1] == pairs[..j - 1];
    }
  }

  /** The encoding of a pair with its indices swapped and its direction
      reversed: {19, 20, 0} becomes {20, 19, 1}. */
  function Reversed(p: Pair): (q: Pair)
    requires p.direction <= TopToBottom
    ensures q.index1 == p.index2 && q.index2 == p.index1 && q.direction <= TopToBottom
    ensures IsHorizontal(q) == IsHorizontal(p) && IsVertical(q) == IsVertical(p)
    ensures (q.direction == RightToLeft || q.direction == TopToBottom)
        != (p.direction == RightToLeft || p.direction == TopToBottom)
  {
    Pair(p.index2, p.index1, if p.direction % 2 == 0 then p.direction + 1 else p.direction - 1)
  }

  /** Reversing twice gives the pair back. */
  lemma ReversedInvolution(p: Pair)
    requires p.direction <= TopToBottom
    ensures Reversed(Reversed(p)) == p
  {
  }

  /** Every pair of a table written the other way round. */
  function ReverseAll(pairs: seq<Pair>): (r: seq<Pair>)
    requires forall k :: 0 <= k < |pairs| ==> pairs[k].direction <= TopToBottom
    ensures |r| == |pairs| && forall k :: 0 <= k < |pairs| ==> r[k] == Reversed(pairs[k])
  {
    seq(|pairs|, k requires 0 <= k < |pairs| => Reversed(pairs[k]))
  }

  /** The clamp commutes with negation. */
  lemma ClampDeltaOdd(delta: real, dOrth: real)
    requires dOrth >= 0.0
    ensures ClampDelta(-delta, dOrth) == -ClampDelta(delta, dOrth)
  {
  }

  /** A pair and its reversal contribute the same signed, clamped difference
      when the phase difference is antisymmetric. */
  lemma ReversedContributesSame(p: Pair, dOrth: real, phaseDelta: (nat, nat) -> real)
    requires p.direction <= TopToBottom && dOrth >= 0.0
    requires phaseDelta(p.index2, p.index1) == -phaseDelta(p.index1, p.index2)
    ensures var q := Reversed(p);
      Signed(q, ClampDelta(phaseDelta(q.index1, q.index2), dOrth))
        == Signed(p, ClampDelta(phaseDelta(p.index1, p.index2), dOrth))
  {
  }

  /** The two encodings of a pair are equivalent: when the phase difference
      is antisymmetric, routing a table with every pair written the other way
      round gives the same difference lists. */
  lemma {:induction false} ReversedEncodingEquivalent(
    pairs: seq<Pair>, measurementCount: nat, dOrth: real, phaseDelta: (nat, nat) -> real)
    requires dOrth >= 0.0
    requires forall k :: 0 <= k < |pairs| ==> pairs[k].direction <= TopToBottom
    requires forall a: nat, b: nat :: phaseDelta(b, a) == -phaseDelta(a, b)
    ensures Route(ReverseAll(pairs), measurementCount, dOrth, phaseDelta)
         == Route(pairs, measurementCount, dOrth, phaseDelta)
    decreases |pairs|
  {
    if pairs != [] {
      var rev := ReverseAll(pairs);
      var n := |pairs| - 1;
      var prefix := pairs[..n];
      assert rev[..n] == ReverseAll(prefix);
      ReversedEncodingEquivalent(prefix, measurementCount, dOrth, phaseDelta);
      var p := pairs[n];
      assert rev[n] == Reversed(p);
      ReversedContributesSame(p, dOrth, phaseDelta);
    }
  }

  // ---------------------------------------------------------------------
  // Direction cosines

  /** Dividing by a positive spacing: the quotient is within [-1, 1]
      exactly when the dividend is within [-dOrth, dOrth]. */
  lemma QuotientBounds(mean: real, dOrth: real)
    requires dOrth > 0.0
    ensures (-mean / dOrth) * dOrth == -mean
    ensures mean > dOrth ==> -mean / dOrth < -1.0
    ensures mean < -dOrth ==> -mean / dOrth > 1.0
    ensures -dOrth <= mean <= dOrth ==> -1.0 <= -mean / dOrth <= 1.0
  {
  }

  /** A local direction cosine from the circular mean of one difference
      list: 0 for an empty list, otherwise -mean/dOrth clamped to [-1, 1].
      When dOrth is 0 (a channel index outside the table) the float division
      gives an infinity, clamped to -1 or 1, or for a zero mean NaN, which
      the model reports as `None`. */
  function DirectionCosine(count: nat, mean: real, dOrth: real): (r: Option<real>)
    requires dOrth >= 0.0
    ensures count == 0 ==> r == Some(0.0)
    ensures r.Some? ==> -1.0 <= r.value <= 1.0
    ensures r.None? <==> count > 0 && dOrth == 0.0 && mean == 0.0
    ensures count > 0 && dOrth > 0.0 && -dOrth <= mean <= dOrth ==> r.Some? && r.value * dOrth == -mean
    ensures count > 0 && mean > dOrth ==> r == Some(-1.0)
    ensures count > 0 && mean < -dOrth ==> r == Some(1.0)
  {
    if count == 0 then Some(0.0)
    else if dOrth == 0.0 then
      if mean > 0.0 then Some(-1.0) else if mean < 0.0 then Some(1.0) else None
    else
      QuotientBounds(mean, dOrth);
      var x := -mean / dOrth;
      if x > 1.0 then Some(1.0) else if x < -1.0 then Some(-1.0) else Some(x)
  }

  /** The z cosine from cos^2 x + cos^2 y + cos^2 z = 1, with the square
      clamped at 0. */
  function ZCosine(x: real, y: real, sqrt: real -> real): (z: real)
    ensures RootAt(sqrt, MaxReal(0.0, 1.0 - (x * x + y * y))) ==>
      && z >= 0.0
      && (x * x + y * y <= 1.0 ==> x * x + y * y + z * z == 1.0)
      && (x * x + y * y >= 1.0 ==> z == 0.0)
  {
    RootOfZero(sqrt);
    sqrt(MaxReal(0.0, 1.0 - (x * x + y * y)))
  }

  /** The outcome of an interferometry call. `NotInitialized`: the
      structure was not initialised and is left alone. `Undefined`: a
      cosine is NaN. */
  datatype Aod = NotInitialized | Undefined | Aod(cosines: Vec3, azimuth: real, elevation: real)

  /** `d_orth_rad`: the orthogonal antenna spacing in radians at the
      channel's wavenumber. */
  function SpacingRadians(channelIndex: Octet): (dOrth: real)
    ensures dOrth >= 0.0
    ensures channelIndex < BleChannel.ChannelCount ==> dOrth > 0.0
    ensures channelIndex >= BleChannel.ChannelCount ==> dOrth == 0.0
  {
    BleChannel.GetWavenumber(channelIndex) * Chw1010.SpacingOrthogonal
  }

  /** The mean handed to `DirectionCosine`: the circular mean of a
      non-empty list, 0 for an empty one. */
  function MeanOf(deltas: seq<real>, circularMean: seq<real> -> real): (m: real)
    ensures deltas == [] ==> m == 0.0
    ensures deltas != [] ==> m == circularMean(deltas)
  {
    if |deltas| > 0 then circularMean(deltas) else 0.0
  }

  /** The cosines from the two difference lists, or `None` when one is NaN:
      x from the horizontal list, y from the vertical list, z from x and y. */
  function Cosines(deltas: Deltas, dOrth: real, circularMean: seq<real> -> real, sqrt: real -> real): (r: Option<Vec3>)
    requires dOrth >= 0.0
    ensures dOrth > 0.0 ==> r.Some?
    ensures r.Some? ==>
      && -1.0 <= r.value.x <= 1.0 && -1.0 <= r.value.y <= 1.0
      && Some(r.value.x) == DirectionCosine(|deltas.horizontal|, MeanOf(deltas.horizontal, circularMean), dOrth)
      && Some(r.value.y) == DirectionCosine(|deltas.vertical|, MeanOf(deltas.vertical, circularMean), dOrth)
      && r.value.z == ZCosine(r.value.x, r.value.y, sqrt)
    ensures r.Some? && |deltas.horizontal| == 0 ==> r.value.x == 0.0
    ensures r.Some? && |deltas.vertical| == 0 ==> r.value.y == 0.0
  {
    var x := DirectionCosine(|deltas.horizontal|, MeanOf(deltas.horizontal, circularMean), dOrth);
    var y := DirectionCosine(|deltas.vertical|, MeanOf(deltas.vertical, circularMean), dOrth);
    if x.None? || y.None? then None
    else
      Some(Vec3(x.value, y.value, ZCosine(x.value, y.value, sqrt)))
  }

  /** `iq_data_aod_interferometry` (with `FullPairs`) and
      `iq_data_aod_row_interferometry` (with `RowPairs`). */
  function Interferometry(
    d: IqData, pairs: seq<Pair>, phaseDelta: (nat, nat) -> real,
    circularMean: seq<real> -> real, sqrt: real -> real,
    atan2: (real, real) -> real, asin: real -> real): (r: Aod)
    ensures !d.initialized ==> r == NotInitialized
    ensures d.initialized && d.measurementCount < 3 ==> r == Aod(Vec3(0.0, 0.0, 1.0), 0.0, 0.0)
    ensures d.initialized && d.measurementCount >= 3 ==>
      var c := Cosines(Route(pairs, d.measurementCount, SpacingRadians(d.channelIndex), phaseDelta),
        SpacingRadians(d.channelIndex), circularMean, sqrt);
      && (c.None? <==> r == Undefined)
      && (c.Some? ==> r == Aod(c.value, atan2(c.value.x, c.value.z), asin(c.value.y)))
    ensures d.initialized && d.measurementCount >= 3 && d.channelIndex < BleChannel.ChannelCount ==> r.Aod?
    ensures r.Aod? ==> -1.0 <= r.cosines.x <= 1.0 && -1.0 <= r.cosines.y <= 1.0
  {
    if !d.initialized then NotInitialized
    else if d.measurementCount < 3 then Aod(Vec3(0.0, 0.0, 1.0), 0.0, 0.0)
    else
      var dOrth := SpacingRadians(d.channelIndex);
      var c := Cosines(Route(pairs, d.measurementCount, dOrth, phaseDelta), dOrth, circularMean, sqrt);
      if c.None? then Undefined
      else Aod(c.value, atan2(c.value.x, c.value.z), asin(c.value.y))
  }
}
