/** The feature window (cloud_ml/feature_store.py): a bounded FIFO of
    seven-field records taken from aligned snapshots. */
module Features {
  import opened Types

  /** One record: the snapshot's time and six scalars, each `Null` when the
      snapshot does not carry it. Every record has all seven fields. */
  datatype FeatureRecord = FeatureRecord(
    time: real,
    snr: Value,
    doppler: Value,
    timingDrift: Value,
    beamOffset: Value,
    beamRadius: Value,
    attenuation: Value)

  /** The record a snapshot contributes. */
  function Extract(state: AlignedState): FeatureRecord {
    FeatureRecord(
      state.time,
      Lookup(state.rf, "snr"),
      Lookup(state.rf, "doppler"),
      Lookup(state.rf, "timing_drift"),
      Lookup(state.beam, "beam_offset"),
      Lookup(state.beam, "beam_radius"),
      Lookup(state.environment, "attenuation"))
  }

  /** The capacity a store gets when none is given. */
  const DefaultWindowSize: nat := 10

  /** The number of records needed before a trend is estimated. */
  const ReadinessThreshold: nat := 3

  predicate Ready(history: seq<FeatureRecord>) {
    |history| >= ReadinessThreshold
  }

  /** The last `n` elements of `s` (all of `s` when it is shorter). */
  function LastN<T>(s: seq<T>, n: nat): (r: seq<T>)
    ensures |r| == if |s| <= n then |s| else n
    ensures r == s[|s| - |r|..]
  {
    if |s| <= n then s else s[|s| - n..]
  }

  /** Appending to a window of the last `n` and then keeping the last `n`
      gives the last `n` of the whole appended sequence: this is what lets a
      bounded deque stand for the whole stream of updates. */
  lemma LastNAppend<T>(s: seq<T>, x: T, n: nat)
    ensures LastN(LastN(s, n) + [x], n) == LastN(s + [x], n)
  {
    var w := LastN(s, n);
    var lhs := LastN(w + [x], n);
    var rhs := LastN(s + [x], n);
    assert |lhs| == |rhs|;
    forall j | 0 <= j < |lhs| ensures lhs[j] == rhs[j] {
      assert lhs[j] == (w + [x])[|w| + 1 - |lhs| + j];
      assert rhs[j] == (s + [x])[|s| + 1 - |rhs| + j];
    }
  }

  class FeatureStore {
    /** The capacity, `maxlen` of the deque. */
    const windowSize: nat
    /** The retained records, oldest first. */
    var history: seq<FeatureRecord>
    /** Every record ever appended, oldest first. */
    ghost var updates: seq<FeatureRecord>

    /** The window always holds exactly the last `windowSize` updates. */
    ghost predicate Valid()
      reads this
    {
      history == LastN(updates, windowSize)
    }

    constructor (windowSize: nat)
      ensures Valid()
      ensures this.windowSize == windowSize && history == [] && updates == []
    {
      this.windowSize := windowSize;
      history := [];
      updates := [];
    }

    /** Appends the snapshot's record, dropping the oldest one when the
        window is full. */
    method Update(state: AlignedState)
      requires Valid()
      modifies this
      ensures Valid()
      ensures updates == old(updates) + [Extract(state)]
      ensures history == LastN(old(history) + [Extract(state)], windowSize)
      ensures |history| <= windowSize
    {
      var features := Extract(state);
      LastNAppend(updates, features, windowSize);
      history := LastN(history + [features], windowSize);
      updates := updates + [features];
    }

    /** The retained records, oldest first: the last `windowSize` updates. */
    method GetSequence() returns (s: seq<FeatureRecord>)
      requires Valid()
      ensures s == history
      ensures |s| <= windowSize
      ensures s == LastN(updates, windowSize)
    {
      s := history;
    }

    /** Whether a trend can be estimated; never, when the capacity is below
        the readiness threshold. */
    function IsReady(): (r: bool)
      requires Valid()
      reads this
      ensures r <==> |history| >= 3
      ensures windowSize < ReadinessThreshold ==> !r
    {
      Ready(history)
    }
  }

  /** After any sequence of updates the window holds the last
      `min(n, windowSize)` records, oldest first. */
  lemma WindowContents(updates: seq<FeatureRecord>, windowSize: nat, k: nat)
    requires k < |LastN(updates, windowSize)|
    ensures |LastN(updates, windowSize)| == if |updates| <= windowSize then |updates| else windowSize
    ensures LastN(updates, windowSize)[k] == updates[|updates| - |LastN(updates, windowSize)| + k]
  {
  }

  /** Each field of a record comes from its snapshot: the time, the radio
      fields from `rf`, the beam fields from `beam`, attenuation from
      `environment`, and `Null` for a key the snapshot lacks. */
  lemma ExtractFields(state: AlignedState)
    ensures var f := Extract(state);
            && f.time == state.time
            && ("snr" in state.rf ==> f.snr == state.rf["snr"])
            && ("snr" !in state.rf ==> f.snr == Null)
            && ("doppler" in state.rf ==> f.doppler == state.rf["doppler"])
            && ("doppler" !in state.rf ==> f.doppler == Null)
            && ("timing_drift" in state.rf ==> f.timingDrift == state.rf["timing_drift"])
            && ("timing_drift" !in state.rf ==> f.timingDrift == Null)
            && ("beam_offset" in state.beam ==> f.beamOffset == state.beam["beam_offset"])
            && ("beam_offset" !in state.beam ==> f.beamOffset == Null)
            && ("beam_radius" in state.beam ==> f.beamRadius == state.beam["beam_radius"])
            && ("beam_radius" !in state.beam ==> f.beamRadius == Null)
            && ("attenuation" in state.environment ==> f.attenuation == state.environment["attenuation"])
            && ("attenuation" !in state.environment ==> f.attenuation == Null)
  {
  }
}
