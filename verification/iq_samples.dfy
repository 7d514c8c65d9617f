/**
 IQ sample bookkeeping in `iq_data.c`: copying a controller IQ samples report
 into a raw record (`iq_raw_samples_init`), splitting the raw samples into
 reference and measurement samples (`iq_data_init`), and the int8 rotation of
 every other reference sample (`iq_data_temp_fix_ref_samples`).

 The C arrays have fixed lengths (45, 8 and 37); the model keeps only their
 defined prefixes, so every sample sequence is exactly as long as its count.
 */
module IqSamples {
  import opened Common
  import opened BtAddr

  /** IQ_REFERENCE_MAX */
  const ReferenceMax: nat := 8

  /** IQ_MEASUREMENT_MAX */
  const MeasurementMax: nat := 37

  /** The MAXIMUM_SAMPLES bound of both initialisers. */
  const MaxSamples: nat := ReferenceMax + MeasurementMax

  datatype IqSample = IqSample(i: Int8, q: Int8)

  /** The fields of a controller IQ samples report that the firmware reads. */
  datatype Report = Report(channelIndex: Octet, sampleCount: Octet, samples: seq<IqSample>)

  /** `struct iq_raw_samples` */
  datatype RawSamples = RawSamples(
    timestamp: int,
    channelIndex: Octet,
    mac: Mac,
    sampleCount: Octet,
    i: seq<Int8>,
    q: seq<Int8>)

  /** `struct iq_data`, without the floating-point results. */
  datatype IqData = IqData(
    initialized: bool,
    timestamp: int,
    channelIndex: Octet,
    mac: Mac,
    referenceCount: nat,
    measurementCount: nat,
    referenceI: seq<Int8>,
    referenceQ: seq<Int8>,
    measurementI: seq<Int8>,
    measurementQ: seq<Int8>)

  /** Counts within the array bounds and sample sequences as long as their
      counts. */
  ghost predicate WellFormed(d: IqData) {
    && d.referenceCount <= ReferenceMax
    && d.measurementCount <= MeasurementMax
    && |d.referenceI| == |d.referenceQ| == d.referenceCount
    && |d.measurementI| == |d.measurementQ| == d.measurementCount
  }

  /** `iq_raw_samples_init`: the report's channel index, the advertiser's
      little-endian address and the arrival time are copied, the sample count
      is capped at 45, and exactly that many I/Q pairs are copied. */
  function RawInit(report: Report, mac: Mac, timestamp: int): (r: RawSamples)
    requires |report.samples| >= Min(report.sampleCount, MaxSamples)
    ensures r.sampleCount <= MaxSamples
    ensures r.sampleCount == report.sampleCount || (report.sampleCount > MaxSamples && r.sampleCount == MaxSamples)
    ensures |r.i| == |r.q| == r.sampleCount
    ensures forall k :: 0 <= k < r.sampleCount ==>
      r.i[k] == report.samples[k].i && r.q[k] == report.samples[k].q
    ensures r.channelIndex == report.channelIndex && r.mac == mac && r.timestamp == timestamp
  {
    var n := Min(report.sampleCount, MaxSamples);
    RawSamples(timestamp, report.channelIndex, mac, n,
      seq(n, k requires 0 <= k < n => report.samples[k].i),
      seq(n, k requires 0 <= k < n => report.samples[k].q))
  }

  /** `iq_data_init`: the count is capped at 45 again; the first (at most) 8
      samples are reference samples and the rest, at most 37, are measurement
      samples. Read back to back they are exactly the raw samples. */
  function Init(raw: RawSamples): (d: IqData)
    requires |raw.i| >= Min(raw.sampleCount, MaxSamples) && |raw.q| >= Min(raw.sampleCount, MaxSamples)
    ensures d.initialized && WellFormed(d)
    ensures d.referenceCount + d.measurementCount == Min(raw.sampleCount, MaxSamples)
    ensures d.referenceCount == Min(raw.sampleCount, ReferenceMax)
    ensures d.measurementCount > 0 ==> d.referenceCount == ReferenceMax
    ensures d.referenceI + d.measurementI == raw.i[..d.referenceCount + d.measurementCount]
    ensures d.referenceQ + d.measurementQ == raw.q[..d.referenceCount + d.measurementCount]
    ensures d.timestamp == raw.timestamp && d.channelIndex == raw.channelIndex && d.mac == raw.mac
  {
    var n := Min(raw.sampleCount, MaxSamples);
    var rc := Min(n, ReferenceMax);
    assert raw.i[..n] == raw.i[..rc] + raw.i[rc..n];
    assert raw.q[..n] == raw.q[..rc] + raw.q[rc..n];
    IqData(true, raw.timestamp, raw.channelIndex, raw.mac, rc, n - rc,
      raw.i[..rc], raw.q[..rc], raw.i[rc..n], raw.q[rc..n])
  }

  /** Report to raw record to IQ data: the reference samples followed by the
      measurement samples are the report's first min(count, 45) samples. */
  lemma ReportToIqData(report: Report, mac: Mac, timestamp: int)
    requires |report.samples| >= Min(report.sampleCount, MaxSamples)
    ensures var d := Init(RawInit(report, mac, timestamp));
      && d.referenceCount + d.measurementCount == Min(report.sampleCount, MaxSamples)
      && |d.referenceI + d.measurementI| == Min(report.sampleCount, MaxSamples)
      && (forall k :: 0 <= k < Min(report.sampleCount, MaxSamples) ==>
            (d.referenceI + d.measurementI)[k] == report.samples[k].i
            && (d.referenceQ + d.measurementQ)[k] == report.samples[k].q)
      && d.mac == mac && d.channelIndex == report.channelIndex
  {
  }

  /** Rotating an int8 sample by 180 degrees: negation, except that -128 has
      no int8 negation and becomes 127, the nearest representable value. */
  function Negate8(v: Int8): (r: Int8)
    ensures v != -128 ==> r + v == 0
    ensures forall w: Int8 :: DistanceToNegation(r, v) <= DistanceToNegation(w, v)
  {
    if v == -128 then 127 else -v
  }

  /** |w - (-v)|, how far `w` is from the exact negation of `v`. */
  function DistanceToNegation(w: int, v: int): nat {
    if w + v < 0 then -(w + v) else w + v
  }

  /** Negation undoes itself on every sample but -128. */
  lemma Negate8Involution(v: Int8)
    ensures v != -128 ==> Negate8(Negate8(v)) == v
    ensures Negate8(Negate8(-128)) == -127
  {
  }

  /** `b` is `a` with the odd-indexed samples rotated by 180 degrees. */
  ghost predicate RotatesOdd(a: seq<Int8>, b: seq<Int8>) {
    |a| == |b| && forall k :: 0 <= k < |a| ==> b[k] == (if k % 2 == 1 then Negate8(a[k]) else a[k])
  }

  /** `iq_data_temp_fix_ref_samples`: for an initialised structure, negate I
      and Q of the reference samples at odd indices; nothing else changes.
      NULL and uninitialised structures are left alone. */
  method TempFix(p: Ptr<IqData>) returns (r: Ptr<IqData>)
    requires p.Ref? ==> WellFormed(p.value)
    ensures p.Null? || !p.value.initialized ==> r == p
    ensures p.Ref? && p.value.initialized ==>
      && r.Ref? && WellFormed(r.value)
      && r.value == p.value.(referenceI := r.value.referenceI, referenceQ := r.value.referenceQ)
      && RotatesOdd(p.value.referenceI, r.value.referenceI)
      && RotatesOdd(p.value.referenceQ, r.value.referenceQ)
  {
    if p.Null? || !p.value.initialized {
      return p;
    }
    var d := p.value;
    var refI, refQ := d.referenceI, d.referenceQ;
    var i := 1;
    while i < d.referenceCount
      invariant 1 <= i <= d.referenceCount + 1 && i % 2 == 1
      invariant |refI| == |refQ| == d.referenceCount
      invariant forall k :: 0 <= k < d.referenceCount ==>
        refI[k] == (if k % 2 == 1 && k < i then Negate8(d.referenceI[k]) else d.referenceI[k])
      invariant forall k :: 0 <= k < d.referenceCount ==>
        refQ[k] == (if k % 2 == 1 && k < i then Negate8(d.referenceQ[k]) else d.referenceQ[k])
    {
      refI := refI[i := Negate8(refI[i])];
      refQ := refQ[i := Negate8(refQ[i])];
      i := i + 2;
    }
    r := Ref(d.(referenceI := refI, referenceQ := refQ));
  }

  /** Applying the fix twice restores the samples unless an odd-indexed
      sample was -128. */
  lemma RotatesOddTwice(a: seq<Int8>, b: seq<Int8>, c: seq<Int8>)
    requires RotatesOdd(a, b) && RotatesOdd(b, c)
    ensures (forall k :: 0 <= k < |a| && k % 2 == 1 ==> a[k] != -128) <==> c == a
  {
  }
}
