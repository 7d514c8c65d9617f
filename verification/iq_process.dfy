/**
 The processing step of `iq_data.c` (`iq_data_process`): each raw record is
 initialised, its reference samples fixed, and its direction cosines
 estimated; then consecutive records from two different beacons are paired
 and handed to the locator's skew-line estimate.

 The firmware keeps the previous record in a static variable behind a
 `first_iteration` flag; the model makes that state explicit, with `None`
 for the first iteration.
 */
module IqProcess {
  import opened Common
  import opened BtAddr
  import BeaconDatabase
  import Locator
  import IqSamples
  import IqInterferometry

  /** What the pairing keeps of a processed record: the advertiser's address
      and the local direction cosines. */
  datatype Processed = Processed(mac: Mac, cosines: Vec3)

  /** The outcome of one pairing step: the record kept as "previous" and the
      pair (previous, current) handed to the locator, if any. */
  datatype Step = Step(previous: Processed, pair: Option<(Processed, Processed)>)

  /** The pairing rule: the first record is only stored; a record from the
      same beacon as the stored one is ignored (the stored one is kept); a
      record from another beacon forms a pair with the stored one and
      replaces it. */
  function Next(previous: Option<Processed>, current: Processed): (r: Step)
    ensures previous.None? ==> r == Step(current, None)
    ensures previous.Some? && previous.value.mac == current.mac ==> r == Step(previous.value, None)
    ensures previous.Some? && previous.value.mac != current.mac ==>
      r == Step(current, Some((previous.value, current)))
  {
    if previous.None? then Step(current, None)
    else
      MacCompareEquivalence(current.mac, previous.value.mac, current.mac);
      if MacCompare(Ref(current.mac), Ref(previous.value.mac)) == 1 then Step(previous.value, None)
      else Step(current, Some((previous.value, current)))
  }

  /** The state after a sequence of records: the stored record and the pairs
      formed, in order. */
  datatype Trace = Trace(previous: Option<Processed>, pairs: seq<(Processed, Processed)>)

  /** Runs the pairing over a sequence of records from the first iteration. */
  function Run(records: seq<Processed>): (r: Trace)
    ensures r.previous.Some? <==> |records| > 0
    ensures forall k :: 0 <= k < |r.pairs| ==> r.pairs[k].0.mac != r.pairs[k].1.mac
  {
    if records == [] then Trace(None, [])
    else
      var t := Run(records[..|records| - 1]);
      var s := Next(t.previous, records[|records| - 1]);
      Trace(Some(s.previous), t.pairs + (if s.pair.Some? then [s.pair.value] else []))
  }

  /** The index of the first record of the final run of records from one
      beacon. */
  function RunStart(records: seq<Processed>): (i: nat)
    requires |records| > 0
    ensures i < |records|
    ensures forall k :: i <= k < |records| ==> records[k].mac == records[|records| - 1].mac
    ensures i > 0 ==> records[i - 1].mac != records[i].mac
  {
    var n := |records|;
    if n == 1 then 0
    else if records[n - 2].mac == records[n - 1].mac then RunStart(records[..n - 1])
    else n - 1
  }

  /** Number of places where consecutive records come from different
      beacons. */
  function BeaconChanges(records: seq<Processed>): nat {
    if |records| <= 1 then 0
    else
      var n := |records|;
      BeaconChanges(records[..n - 1]) + (if records[n - 2].mac != records[n - 1].mac then 1 else 0)
  }

  /** The stored record is the first of the final same-beacon run, not the
      latest record: later records from the same beacon are ignored. One
      pair is formed per change of beacon, and the last pair ends at the
      record that started the final run. */
  lemma {:induction false} RunKeepsRunStart(records: seq<Processed>)
    requires |records| > 0
    ensures Run(records).previous == Some(records[RunStart(records)])
    ensures |Run(records).pairs| == BeaconChanges(records)
    ensures RunStart(records) > 0 ==>
      |Run(records).pairs| > 0 && Run(records).pairs[|Run(records).pairs| - 1].1 == records[RunStart(records)]
    decreases |records|
  {
    var n := |records|;
    if n > 1 {
      var prefix := records[..n - 1];
      RunKeepsRunStart(prefix);
      assert prefix[n - 2] == records[n - 2];
      assert prefix[RunStart(prefix)] == records[RunStart(prefix)];
    }
  }

  /** The firmware's processing state: the stored record and the locator
      (`g_locator`). */
  datatype State = State(previous: Option<Processed>, locator: Locator.LocatorState)

  /** The pairing step of `iq_data_process`: on a pair, the locator
      estimates a position from the stored record's and the current record's
      beacons and cosines; whatever the estimate returns, the current record
      is then stored. */
  function Process(
    s: State, current: Processed, db: BeaconDatabase.Database,
    toGlobal: (BeaconDatabase.Beacon, Vec3) -> Vec3, sqrt: real -> real): (r: State)
    requires Locator.Valid(s.locator) && BeaconDatabase.Valid(db)
    ensures Locator.Valid(r.locator)
    ensures r.previous == Some(Next(s.previous, current).previous)
    ensures Next(s.previous, current).pair.None? ==> r.locator == s.locator
    ensures Next(s.previous, current).pair.Some? ==>
      var a := s.previous.value;
      && a.mac != current.mac
      && r.locator == Locator.Estimate(Ref(s.locator), db,
           Ref(a.mac), a.cosines, Ref(current.mac), current.cosines, toGlobal, sqrt).value.value
  {
    var step := Next(s.previous, current);
    match step.pair
    case None => State(Some(step.previous), s.locator)
    case Some(pair) =>
      var e := Locator.Estimate(Ref(s.locator), db,
        Ref(pair.0.mac), pair.0.cosines, Ref(pair.1.mac), pair.1.cosines, toGlobal, sqrt);
      State(Some(step.previous), e.value.value)
  }

  /** A record from the beacon already stored never moves the locator, and a
      pair whose beacons are both in the database and not nearly parallel
      adds exactly one position to its history. */
  lemma ProcessEffect(
    s: State, current: Processed, db: BeaconDatabase.Database,
    toGlobal: (BeaconDatabase.Beacon, Vec3) -> Vec3, sqrt: real -> real)
    requires Locator.Valid(s.locator) && BeaconDatabase.Valid(db)
    requires s.locator.hasBeaconDb
    ensures s.previous.Some? && s.previous.value.mac == current.mac ==>
      Process(s, current, db, toGlobal, sqrt) == s
    ensures s.previous.Some? && s.previous.value.mac != current.mac
            && BeaconDatabase.Stored(db, s.previous.value.mac) && BeaconDatabase.Stored(db, current.mac)
            && !Locator.NearlyParallel(
                 toGlobal(Locator.Lookup(db, Ref(s.previous.value.mac)).value.value, s.previous.value.cosines),
                 toGlobal(Locator.Lookup(db, Ref(current.mac)).value.value, current.cosines)) ==>
      Process(s, current, db, toGlobal, sqrt).locator.historyCount
        == Min(s.locator.historyCount + 1, Locator.HistoryCapacity)
  {
  }

  /** `iq_data_process` from a raw record: initialise, apply the reference
      sample fix, run the full-pattern interferometry, then pair. The phase
      differences of the pairs (drift estimation, compensation and `atan2f`
      on the compensated samples) are the parameter `phaseDeltaOf`. A record
      whose cosines come out NaN is not paired. */
  method ProcessRaw(
    s: State, raw: IqSamples.RawSamples, db: BeaconDatabase.Database,
    phaseDeltaOf: IqSamples.IqData -> ((nat, nat) -> real),
    circularMean: seq<real> -> real, sqrt: real -> real,
    atan2: (real, real) -> real, asin: real -> real,
    toGlobal: (BeaconDatabase.Beacon, Vec3) -> Vec3)
    returns (r: State, aod: IqInterferometry.Aod)
    requires |raw.i| >= Min(raw.sampleCount, IqSamples.MaxSamples)
    requires |raw.q| >= Min(raw.sampleCount, IqSamples.MaxSamples)
    requires Locator.Valid(s.locator) && BeaconDatabase.Valid(db)
    ensures Locator.Valid(r.locator)
    ensures aod != IqInterferometry.NotInitialized
    ensures aod.Undefined? ==> r == s
    ensures aod.Aod? ==> r == Process(s, Processed(raw.mac, aod.cosines), db, toGlobal, sqrt)
    ensures raw.channelIndex < 40 ==> aod.Aod?
  {
    var d := IqSamples.Init(raw);
    var fixed := IqSamples.TempFix(Ref(d));
    var f := fixed.value;
    aod := IqInterferometry.Interferometry(f, IqInterferometry.FullPairs, phaseDeltaOf(f),
      circularMean, sqrt, atan2, asin);
    if aod.Aod? {
      r := Process(s, Processed(f.mac, aod.cosines), db, toGlobal, sqrt);
    } else {
      r := s;
    }
  }
}
