/** The simulated lidar (Racecar/Lidar.cs): a ring of 720 samples that each
    physics step advances by the number of samples the spinning motor sweeps
    in that step, overwriting exactly those slots. `hits[i]` is what the
    raycast at slot i's orientation sees this step (its distance already
    carrying the realism noise, when that is on). */
module HostLidar {
  import opened Wire
  import opened ImageBuffers

  const NumSamples: nat := 720
  const MotorFrequency: nat := 6
  const SamplesPerSecond: nat := NumSamples * MotorFrequency
  /** The lidar's minimum range, in decimetres. */
  const MinRange: real := 1.2
  /** The codes of a hit closer than the minimum range and of no hit. */
  const MinCode: real := 0.0
  const MaxCode: real := 0.0
  /** Samples at or beyond this are not drawn (in decimetres). */
  const VisualizationRange: real := 50.0

  /** TakeSample. */
  function TakeSample(hit: Option<real>): (v: real)
    ensures hit.Some? && hit.value > MinRange ==> v == hit.value * 10.0
    ensures hit.None? || hit.value <= MinRange ==> v == 0.0
  {
    RangeCode(hit, MinRange)
  }

  /** How far slot `i` lies ahead of slot `from` in sweep order. */
  function Ahead(from: nat, i: nat): (d: nat)
    requires from < NumSamples && i < NumSamples
    ensures d < NumSamples && (from + d) % NumSamples == i
  {
    if i >= from then i - from else i + NumSamples - from
  }

  /** The slot `k` places after `from`. */
  function Slot(from: nat, k: nat): (i: nat)
    ensures i < NumSamples
  {
    (from + k) % NumSamples
  }

  /** The ring after sweeping `count` slots from `from`: those slots hold a
      new sample, every other slot its old value. */
  function Swept(samples: seq<real>, from: nat, count: nat, hits: seq<Option<real>>): (s: seq<real>)
    requires |samples| == NumSamples && |hits| == NumSamples && from < NumSamples
    ensures |s| == NumSamples
  {
    seq(NumSamples, i requires 0 <= i < NumSamples =>
      if Ahead(from, i) < count then TakeSample(hits[i]) else samples[i])
  }

  /** The slots a sweep of `count` from `from` writes are exactly
      from, from + 1, ..., from + count - 1 taken modulo 720. */
  lemma SweptSlots(from: nat, count: nat, i: nat)
    requires from < NumSamples && count <= NumSamples && i < NumSamples
    ensures Ahead(from, i) < count <==> exists k :: 0 <= k < count && Slot(from, k) == i
  {
    if Ahead(from, i) < count {
      assert Slot(from, Ahead(from, i)) == i;
    }
    if k :| 0 <= k < count && Slot(from, k) == i {
      AheadOfOffset(from, k);
    }
  }

  lemma AheadOfOffset(from: nat, k: nat)
    requires from < NumSamples && k < NumSamples
    ensures Ahead(from, Slot(from, k)) == k
  {
  }

  /** The VisualizeLidar filter: neither code, and inside the drawn range. */
  predicate Plotted(sample: real)
  {
    sample != MinCode && sample != MaxCode && sample < VisualizationRange * 10.0
  }

  /** A sample is drawn exactly when its hit lies beyond the minimum range
      and inside the visualisation range. */
  lemma PlottedHits(hit: Option<real>)
    ensures Plotted(TakeSample(hit)) <==> hit.Some? && MinRange < hit.value < VisualizationRange
  {
  }

  class Lidar {
    const samples: array<real>
    var curSample: nat

    predicate Valid()
      reads this
    {
      samples.Length == NumSamples && curSample < NumSamples
    }

    /** The field initialiser and Start. */
    constructor ()
      ensures Valid() && curSample == 0 && fresh(samples)
      ensures forall i :: 0 <= i < NumSamples ==> samples[i] == 0.0
    {
      curSample := 0;
      samples := new real[NumSamples](_ => 0.0);
    }

    /** FixedUpdate. `steps` is the rounded number of samples the motor
        sweeps during the step's delta time. */
    method FixedUpdate(steps: nat, hits: seq<Option<real>>)
      requires Valid() && |hits| == NumSamples
      modifies samples, this`curSample
      ensures Valid() && curSample == (old(curSample) + steps) % NumSamples
      ensures samples[..] == Swept(old(samples[..]), old(curSample), steps % NumSamples, hits)
    {
      var lastSample := (curSample + steps) % NumSamples;
      ghost var from, before, count := curSample, samples[..], steps % NumSamples;
      ghost var k := 0;
      WholeTurnsWriteNothing(before, from, 0, hits);
      while curSample != lastSample
        invariant Valid() && k <= count && curSample == Slot(from, k)
        invariant samples[..] == Swept(before, from, k, hits)
        decreases count - k
      {
        ArcUnfinished(from, k, steps);
        SampleOnce(hits, from, before, k);
        k := k + 1;
      }
      ArcFinished(from, k, steps);
    }

    /** One pass of FixedUpdate's loop: the sample under the current
        orientation, then the next slot. */
    method SampleOnce(hits: seq<Option<real>>, ghost from: nat, ghost before: seq<real>, ghost k: nat)
      requires Valid() && |hits| == NumSamples && |before| == NumSamples && from < NumSamples && k < NumSamples
      requires curSample == Slot(from, k) && samples[..] == Swept(before, from, k, hits)
      modifies samples, this`curSample
      ensures Valid() && curSample == Slot(from, k + 1) && samples[..] == Swept(before, from, k + 1, hits)
    {
      SweepStep(before, from, k, hits);
      samples[curSample] := TakeSample(hits[curSample]);
      curSample := (curSample + 1) % NumSamples;
    }
  }

  /** While the ring has not reached the last slot, the sweep is short of
      its count. */
  lemma ArcUnfinished(from: nat, k: nat, steps: nat)
    requires from < NumSamples && k <= steps % NumSamples
    requires Slot(from, k) != (from + steps) % NumSamples
    ensures k < steps % NumSamples
  {
  }

  lemma ArcFinished(from: nat, k: nat, steps: nat)
    requires from < NumSamples && k <= steps % NumSamples
    requires Slot(from, k) == (from + steps) % NumSamples
    ensures k == steps % NumSamples
  {
  }

  /** One more slot of the sweep. */
  lemma SweepStep(samples: seq<real>, from: nat, k: nat, hits: seq<Option<real>>)
    requires |samples| == NumSamples && |hits| == NumSamples && from < NumSamples && k < NumSamples
    ensures Slot(from, k + 1) == (Slot(from, k) + 1) % NumSamples
    ensures Swept(samples, from, k + 1, hits) ==
            Swept(samples, from, k, hits)[Slot(from, k) := TakeSample(hits[Slot(from, k)])]
  {
    AheadOfOffset(from, k);
  }

  /** A step that sweeps a whole number of turns writes nothing. */
  lemma WholeTurnsWriteNothing(samples: seq<real>, from: nat, steps: nat, hits: seq<Option<real>>)
    requires |samples| == NumSamples && |hits| == NumSamples && from < NumSamples
    requires steps % NumSamples == 0
    ensures Swept(samples, from, steps % NumSamples, hits) == samples
  {
  }
}
