/**
 Position estimation from two beacons' direction lines, `locator.c`.

 Each beacon at global position P sends its angle of departure as a unit
 direction D; the locator lies near the line P + t*D. The estimate is the
 midpoint of the shortest segment between the two (generally skew) lines, and
 each estimate is appended to a 256-entry history ring.
 */
module Locator {
  import opened Common
  import opened BtAddr
  import BeaconDatabase

  /** LOCATOR_POSITION_CAPACITY */
  const HistoryCapacity: nat := 256

  /** LOCATOR_ERROR_PARALLEL_LINES, returned negated. */
  const ErrorParallelLines: int := 92

  /** |1 - (D1.D2)^2| below this rejects the two lines as too parallel. */
  const ParallelThreshold: real := 0.001

  /** `struct locator_position`: global coordinates and an error radius. */
  datatype Position = Position(point: Vec3, errorRadius: real)

  /** `struct locator`. The beacon database is shared through a pointer; the
      model keeps whether that pointer is set, and the database contents are
      passed to `Estimate` as they are at the time of the call. */
  datatype LocatorState = LocatorState(
    hasBeaconDb: bool,
    history: seq<Position>,
    historyCount: int,
    historyNext: int)

  /** What `locator_init` establishes and every later call keeps. */
  ghost predicate Valid(l: LocatorState) {
    && |l.history| == HistoryCapacity
    && 0 <= l.historyCount <= HistoryCapacity
    && 0 <= l.historyNext < HistoryCapacity
  }

  /** `locator_init`: -EINVAL if the locator or the database pointer is NULL;
      otherwise the database is attached and the history emptied. */
  function Init(loc: Ptr<LocatorState>, db: Ptr<BeaconDatabase.Database>)
    : (r: BeaconDatabase.Returned<Ptr<LocatorState>>)
    requires loc.Ref? ==> |loc.value.history| == HistoryCapacity
    ensures loc.Null? || db.Null? ==> r.code == -EINVAL && r.value == loc
    ensures loc.Ref? && db.Ref? ==>
      && r.code == 0
      && r.value == Ref(LocatorState(true, loc.value.history, 0, 0))
      && Valid(r.value.value)
  {
    if loc.Null? || db.Null? then BeaconDatabase.Returned(-EINVAL, loc)
    else BeaconDatabase.Returned(0, Ref(LocatorState(true, loc.value.history, 0, 0)))
  }

  // ---------------------------------------------------------------------
  // The ring buffer of past positions

  /** The stored positions, oldest first: the `historyCount` entries that end
      just before `historyNext`. */
  function Recent(l: LocatorState): (r: seq<Position>)
    requires Valid(l)
    ensures |r| == l.historyCount
  {
    seq(l.historyCount, j requires 0 <= j < l.historyCount =>
      l.history[(l.historyNext - l.historyCount + j) % HistoryCapacity])
  }

  /** Storing a position: written at `historyNext`, which then advances modulo
      the capacity, while the count saturates at the capacity. */
  function Record(l: LocatorState, p: Position): (r: LocatorState)
    requires Valid(l)
    ensures Valid(r)
    ensures r.history[l.historyNext] == p
    ensures forall j :: 0 <= j < HistoryCapacity && j != l.historyNext ==> r.history[j] == l.history[j]
    ensures r.historyNext == (l.historyNext + 1) % HistoryCapacity
    ensures r.historyCount == Min(l.historyCount + 1, HistoryCapacity)
    ensures r.hasBeaconDb == l.hasBeaconDb
  {
    l.(history := l.history[l.historyNext := p],
       historyNext := (l.historyNext + 1) % HistoryCapacity,
       historyCount := if l.historyCount < HistoryCapacity then l.historyCount + 1 else l.historyCount)
  }

  /** The ring keeps the most recent positions in order: recording appends,
      and once full it also drops the oldest. */
  lemma RecordAppends(l: LocatorState, p: Position)
    requires Valid(l)
    ensures l.historyCount < HistoryCapacity ==> Recent(Record(l, p)) == Recent(l) + [p]
    ensures l.historyCount == HistoryCapacity ==> Recent(Record(l, p)) == Recent(l)[1..] + [p]
  {
    if l.historyCount < HistoryCapacity {
      RecordWithRoom(l, p);
    } else {
      RecordWhenFull(l, p);
    }
  }

  /** Recording into a ring that is not full appends the position. */
  lemma RecordWithRoom(l: LocatorState, p: Position)
    requires Valid(l) && l.historyCount < HistoryCapacity
    ensures Recent(Record(l, p)) == Recent(l) + [p]
  {
    var r := Record(l, p);
    var old_, new_ := Recent(l), Recent(r);
    var n, c := l.historyNext, l.historyCount;
    forall j | 0 <= j < c + 1
      ensures new_[j] == (old_ + [p])[j]
    {
      var idx := (r.historyNext - r.historyCount + j) % HistoryCapacity;
      RingShift(n, j - c - 1);
      assert idx == (n - c + j) % HistoryCapacity;
      if j < c {
        RingSlotBehind(n, c - j);
      } else {
        assert idx == n;
      }
    }
  }

  /** Recording into a full ring drops the oldest position and appends. */
  lemma RecordWhenFull(l: LocatorState, p: Position)
    requires Valid(l) && l.historyCount == HistoryCapacity
    ensures Recent(Record(l, p)) == Recent(l)[1..] + [p]
  {
  }

  /** Advancing the write index modulo the capacity and then stepping back
      lands where stepping from the unwrapped index would. */
  lemma RingShift(n: int, d: int)
    requires 0 <= n < HistoryCapacity && 0 <= d + HistoryCapacity + 1 && d <= HistoryCapacity
    ensures ((n + 1) % HistoryCapacity + d) % HistoryCapacity == (n + 1 + d) % HistoryCapacity
  {
  }

  /** A slot fewer than a full turn behind the write index is not the write
      index itself. */
  lemma RingSlotBehind(n: int, d: int)
    requires 0 <= n < HistoryCapacity && 0 < d < HistoryCapacity
    ensures (n - d) % HistoryCapacity != n
  {
  }

  // ---------------------------------------------------------------------
  // Closest points between two lines

  /** The quantities the firmware derives from P1, D1, P2, D2. */
  function CosAngle(d1: Vec3, d2: Vec3): real { Dot(d1, d2) }

  function Denominator(d1: Vec3, d2: Vec3): real {
    1.0 - CosAngle(d1, d2) * CosAngle(d1, d2)
  }

  function Abs(x: real): real { if x < 0.0 then -x else x }

  /** `fabsf(denominator) < 0.001f` */
  function NearlyParallel(d1: Vec3, d2: Vec3): (b: bool)
    ensures b <==> -ParallelThreshold < Denominator(d1, d2) < ParallelThreshold
    ensures !b ==> Denominator(d1, d2) != 0.0
  {
    Abs(Denominator(d1, d2)) < ParallelThreshold
  }

  /** The closest points Q1 = P1 + t1*D1 and Q2 = P2 + t2*D2. */
  datatype ClosestPoints = ClosestPoints(t1: real, t2: real, q1: Vec3, q2: Vec3)

  function LinePoint(p: Vec3, d: Vec3, t: real): Vec3 {
    Add(p, Scale(t, d))
  }

  function Closest(p1: Vec3, d1: Vec3, p2: Vec3, d2: Vec3): (r: ClosestPoints)
    requires Denominator(d1, d2) != 0.0
    ensures r.q1 == LinePoint(p1, d1, r.t1) && r.q2 == LinePoint(p2, d2, r.t2)
  {
    var v21 := Sub(p2, p1);
    var c := CosAngle(d1, d2);
    var a := Dot(d1, v21);
    var b := Dot(d2, v21);
    var den := Denominator(d1, d2);
    var t1 := (a - b * c) / den;
    var t2 := (a * c - b) / den;
    ClosestPoints(t1, t2, LinePoint(p1, d1, t1), LinePoint(p2, d2, t2))
  }

  /** Dot product of a connecting vector with a direction, expanded. */
  lemma ConnectorDot(p1: Vec3, d1: Vec3, t1: real, p2: Vec3, d2: Vec3, t2: real, u: Vec3)
    ensures Dot(Sub(LinePoint(p2, d2, t2), LinePoint(p1, d1, t1)), u)
         == Dot(u, Sub(p2, p1)) + t2 * Dot(d2, u) - t1 * Dot(d1, u)
  {
  }

  /** For unit directions that are not parallel, the segment Q1Q2 is
      perpendicular to both lines. */
  lemma ClosestPointsPerpendicular(p1: Vec3, d1: Vec3, p2: Vec3, d2: Vec3)
    requires NormSquared(d1) == 1.0 && NormSquared(d2) == 1.0
    requires Denominator(d1, d2) != 0.0
    ensures var cp := Closest(p1, d1, p2, d2);
      Dot(Sub(cp.q2, cp.q1), d1) == 0.0 && Dot(Sub(cp.q2, cp.q1), d2) == 0.0
  {
    var cp := Closest(p1, d1, p2, d2);
    var v21 := Sub(p2, p1);
    var c := Dot(d1, d2);
    var a := Dot(d1, v21);
    var b := Dot(d2, v21);
    var den := Denominator(d1, d2);
    var t1, t2 := cp.t1, cp.t2;
    assert t1 * den == a - b * c;
    assert t2 * den == a * c - b;
    ConnectorDot(p1, d1, t1, p2, d2, t2, d1);
    ConnectorDot(p1, d1, t1, p2, d2, t2, d2);
    assert Dot(d2, d1) == c;
    var e1 := a + t2 * c - t1;
    var e2 := b + t2 - t1 * c;
    assert Dot(Sub(cp.q2, cp.q1), d1) == e1;
    assert Dot(Sub(cp.q2, cp.q1), d2) == e2;
    assert e1 * den == a * den + c * (t2 * den) - t1 * den;
    assert e1 * den == 0.0;
    assert e2 * den == b * den + t2 * den - c * (t1 * den);
    assert e2 * den == 0.0;
  }

  /** Q1 and Q2 are the closest pair: no other point of line 1 and point of
      line 2 are nearer to each other. */
  lemma ClosestPointsMinimal(p1: Vec3, d1: Vec3, p2: Vec3, d2: Vec3, s1: real, s2: real)
    requires NormSquared(d1) == 1.0 && NormSquared(d2) == 1.0
    requires Denominator(d1, d2) != 0.0
    ensures var cp := Closest(p1, d1, p2, d2);
      NormSquared(Sub(cp.q2, cp.q1))
        <= NormSquared(Sub(LinePoint(p2, d2, s2), LinePoint(p1, d1, s1)))
  {
    var cp := Closest(p1, d1, p2, d2);
    ClosestPointsPerpendicular(p1, d1, p2, d2);
    var c := Sub(cp.q2, cp.q1);
    var e1, e2 := s1 - cp.t1, s2 - cp.t2;
    var u := Sub(Scale(e2, d2), Scale(e1, d1));
    var w := Sub(LinePoint(p2, d2, s2), LinePoint(p1, d1, s1));
    assert w == Add(c, u);
    DotLinear(c, e2, d2, e1, d1);
    assert Dot(c, u) == 0.0;
    assert NormSquared(w) == NormSquared(c) + 2.0 * Dot(c, u) + NormSquared(u);
    NormSquaredNonNegative(u);
  }

  /** The estimate: the midpoint of Q1 and Q2 with half their distance as the
      error radius (`sqrt` stands for `sqrtf`). */
  function EstimatePosition(cp: ClosestPoints, sqrt: real -> real): (r: Position)
    ensures Sub(r.point, cp.q1) == Sub(cp.q2, r.point)
    ensures RootAt(sqrt, NormSquared(Sub(cp.q2, cp.q1))) ==>
      && r.errorRadius >= 0.0
      && r.errorRadius * r.errorRadius == NormSquared(Sub(r.point, cp.q1))
      && r.errorRadius * r.errorRadius == NormSquared(Sub(cp.q2, r.point))
  {
    var mid := Scale(0.5, Add(cp.q1, cp.q2));
    var dist := sqrt(NormSquared(Sub(cp.q2, cp.q1)));
    var half := Sub(mid, cp.q1);
    assert Sub(cp.q2, cp.q1) == Scale(2.0, half);
    assert NormSquared(Scale(2.0, half)) == 4.0 * NormSquared(half);
    Position(mid, dist / 2.0)
  }

  // ---------------------------------------------------------------------
  // locator_estimate_position_from_skew_lines

  /** The contents of the uninitialised stack structure the firmware passes
      to `beacon_database_get`; it is only read after a successful lookup. */
  const Uninitialised: BeaconDatabase.Beacon :=
    BeaconDatabase.Beacon([0, 0, 0, 0, 0, 0], [0, 0, 0, 0, 0, 0],
      Vec3(0.0, 0.0, 0.0), Vec3(0.0, 0.0, 0.0), Vec3(0.0, 0.0, 0.0), Vec3(0.0, 0.0, 0.0))

  function Lookup(db: BeaconDatabase.Database, mac: Ptr<Mac>): (r: BeaconDatabase.Returned<Ptr<BeaconDatabase.Beacon>>)
    requires BeaconDatabase.Valid(db)
    ensures mac.Null? ==> r.code == -EINVAL
    ensures mac.Ref? ==> (r.code == 0 <==> BeaconDatabase.Stored(db, mac.value))
    ensures mac.Ref? && r.code != 0 ==> r.code == -ENOENT
    ensures r.code == 0 ==>
      && r.value.Ref?
      && r.value.value.macLittleEndian == mac.value
      && r.value.value in db.slots[..db.count]
  {
    BeaconDatabase.Get(Ref(db), Ref(Uninitialised), mac)
  }

  /** `locator_estimate_position_from_skew_lines`. `toGlobal` stands for
      `beacon_get_global_direction_cosines` (rotating a beacon's local
      direction cosines into the global frame) and `sqrt` for `sqrtf`. */
  function Estimate(
    loc: Ptr<LocatorState>, db: BeaconDatabase.Database,
    mac1: Ptr<Mac>, local1: Vec3, mac2: Ptr<Mac>, local2: Vec3,
    toGlobal: (BeaconDatabase.Beacon, Vec3) -> Vec3, sqrt: real -> real)
    : (r: BeaconDatabase.Returned<Ptr<LocatorState>>)
    requires loc.Ref? ==> Valid(loc.value)
    requires BeaconDatabase.Valid(db)
    ensures loc.Null? ==> r.code == -EINVAL && r.value.Null?
    ensures loc.Ref? ==> r.value.Ref? && Valid(r.value.value)
    // every failure leaves the locator as it was
    ensures r.code != 0 ==> r.value == loc
    ensures loc.Ref? && !loc.value.hasBeaconDb ==> r.code == -EINVAL
    ensures loc.Ref? && loc.value.hasBeaconDb && Lookup(db, mac1).code != 0 ==>
      r.code == Lookup(db, mac1).code
    ensures loc.Ref? && loc.value.hasBeaconDb && Lookup(db, mac1).code == 0
            && Lookup(db, mac2).code != 0 ==>
      r.code == Lookup(db, mac2).code
    ensures loc.Ref? && loc.value.hasBeaconDb
            && Lookup(db, mac1).code == 0 && Lookup(db, mac2).code == 0 ==>
      var b1, b2 := Lookup(db, mac1).value.value, Lookup(db, mac2).value.value;
      var d1, d2 := toGlobal(b1, local1), toGlobal(b2, local2);
      && (NearlyParallel(d1, d2) ==> r.code == -ErrorParallelLines)
      && (!NearlyParallel(d1, d2) ==>
            && r.code == 0
            && r.value.value == Record(loc.value,
                 EstimatePosition(Closest(b1.position, d1, b2.position, d2), sqrt)))
  {
    if loc.Null? then BeaconDatabase.Returned(-EINVAL, loc)
    else if !loc.value.hasBeaconDb then BeaconDatabase.Returned(-EINVAL, loc)
    else
      var g1 := Lookup(db, mac1);
      if g1.code != 0 then BeaconDatabase.Returned(g1.code, loc)
      else
        var g2 := Lookup(db, mac2);
        if g2.code != 0 then BeaconDatabase.Returned(g2.code, loc)
        else
          var b1, b2 := g1.value.value, g2.value.value;
          var d1, d2 := toGlobal(b1, local1), toGlobal(b2, local2);
          if NearlyParallel(d1, d2) then BeaconDatabase.Returned(-ErrorParallelLines, loc)
          else
            var pos := EstimatePosition(Closest(b1.position, d1, b2.position, d2), sqrt);
            BeaconDatabase.Returned(0, Ref(Record(loc.value, pos)))
  }

  /** The error codes `Estimate` can return, and when it succeeds. */
  lemma EstimateErrorLadder(
    loc: LocatorState, db: BeaconDatabase.Database,
    mac1: Mac, local1: Vec3, mac2: Mac, local2: Vec3,
    toGlobal: (BeaconDatabase.Beacon, Vec3) -> Vec3, sqrt: real -> real)
    requires Valid(loc) && loc.hasBeaconDb && BeaconDatabase.Valid(db)
    ensures var r := Estimate(Ref(loc), db, Ref(mac1), local1, Ref(mac2), local2, toGlobal, sqrt);
      && (r.code == 0 || r.code == -ENOENT || r.code == -ErrorParallelLines)
      && (r.code == -ENOENT <==>
            !BeaconDatabase.Stored(db, mac1) || !BeaconDatabase.Stored(db, mac2))
  {
  }

  /** The `printk` that ends a successful estimate: one log line per
      coordinate of the recorded position, "X = ", "Y = " or "Z = " and the
      `%.2f` text of the value (the parameter `fmt`). */
  function PrintedLines(p: Vec3, fmt: real -> string): (r: seq<string>)
    ensures |r| == 3
    ensures forall k :: 0 <= k < 3 ==> |r[k]| >= 5 && r[k][1..4] == " = " && r[k][|r[k]| - 1] == '\n'
    ensures r[0][0] == 'X' && r[1][0] == 'Y' && r[2][0] == 'Z'
  {
    ["X = " + fmt(p.x) + "\n", "Y = " + fmt(p.y) + "\n", "Z = " + fmt(p.z) + "\n"]
  }
}
