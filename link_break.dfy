/** The link-break predictor (cloud_ml/lstm_link_break.py): a stateless,
    ordered classification of the last two feature records, ending in a
    linear extrapolation of the beam offset to the beam radius. */
module LinkBreak {
  import opened Types
  import opened Rounding
  import opened Features

  datatype Confidence = Low | Medium | High

  datatype Reason =
    | InsufficientHistory
    | MissingBeamData
    | AlreadyOutsideBeam
    | InvalidTimeDelta
    | NonIncreasingOffset
    | TemporalTrendExtrapolation

  datatype Prediction = Prediction(timeToBreak: Option<real>, confidence: Confidence, reason: Reason)

  /** `predict` applied to a feature window holding `history`. A `Failure`
      is the `TypeError` Python raises when the arithmetic meets a value
      that is not a number; in particular a previous record whose offset is
      `None`: every record carries the `beam_offset` key, so the default of
      `prev.get("beam_offset", beam_offset)` never applies. */
  function Predict(history: seq<FeatureRecord>): (r: Result<Prediction, TypeError>)
    ensures r.Success? ==> r.value.confidence == ConfidenceOf(r.value.reason)
    ensures r.Success? ==>
              (r.value.timeToBreak.Some? <==> r.value.reason in {AlreadyOutsideBeam, TemporalTrendExtrapolation})
  {
    if !Ready(history) then Success(Prediction(None, Low, InsufficientHistory))
    else
      var latest := history[|history| - 1];
      var prev := history[|history| - 2];
      var offset := latest.beamOffset;
      var radius := latest.beamRadius;
      if offset.Null? || radius.Null? then Success(Prediction(None, Low, MissingBeamData))
      else if !offset.Num? || !radius.Num? then Failure(TypeError)
      else if offset.x >= radius.x then Success(Prediction(Some(0.0), High, AlreadyOutsideBeam))
      else if !prev.beamOffset.Num? then Failure(TypeError)
      else
        var deltaOffset := offset.x - prev.beamOffset.x;
        var deltaTime := latest.time - prev.time;
        if deltaTime <= 0.0 then Success(Prediction(None, Low, InvalidTimeDelta))
        else
          var rate := deltaOffset / deltaTime;
          if rate <= 0.0 then Success(Prediction(None, Medium, NonIncreasingOffset))
          else Success(Prediction(Some(Round3((radius.x - offset.x) / rate)), Medium, TemporalTrendExtrapolation))
  }

  function Latest(history: seq<FeatureRecord>): FeatureRecord
    requires history != []
  {
    history[|history| - 1]
  }

  function Previous(history: seq<FeatureRecord>): FeatureRecord
    requires |history| >= 2
  {
    history[|history| - 2]
  }

  /** The confidence that goes with each reason. */
  function ConfidenceOf(reason: Reason): Confidence {
    match reason
    case InsufficientHistory => Low
    case MissingBeamData => Low
    case InvalidTimeDelta => Low
    case AlreadyOutsideBeam => High
    case NonIncreasingOffset => Medium
    case TemporalTrendExtrapolation => Medium
  }

  /** Every outcome pairs its reason with one confidence, and carries a time
      exactly when the beam is already left or a trend was extrapolated. */
  lemma OutcomeShape(history: seq<FeatureRecord>)
    requires Predict(history).Success?
    ensures var p := Predict(history).value;
            && p.confidence == ConfidenceOf(p.reason)
            && (p.timeToBreak.Some? <==> p.reason in {AlreadyOutsideBeam, TemporalTrendExtrapolation})
  {
  }

  /** Readiness is checked first: a window of fewer than three records gives
      `insufficient_history` whatever it holds, and only such a window does. */
  lemma InsufficientIff(history: seq<FeatureRecord>)
    ensures Predict(history) == Success(Prediction(None, Low, InsufficientHistory)) <==> |history| < 3
  {
  }

  /** Only the last two records are read. */
  lemma LastTwoOnly(h1: seq<FeatureRecord>, h2: seq<FeatureRecord>)
    requires Ready(h1) && Ready(h2)
    requires Latest(h1) == Latest(h2) && Previous(h1) == Previous(h2)
    ensures Predict(h1) == Predict(h2)
  {
  }

  /** `missing_beam_data` exactly when the ready window's latest record lacks
      the offset or the radius. */
  lemma MissingBeamIff(history: seq<FeatureRecord>)
    ensures Predict(history) == Success(Prediction(None, Low, MissingBeamData))
            <==> Ready(history) && (Latest(history).beamOffset.Null? || Latest(history).beamRadius.Null?)
  {
  }

  /** `(0.0, high, already_outside_beam)` exactly when the ready window's
      latest offset has reached the latest radius; no time delta is looked at
      before this. */
  lemma AlreadyOutsideIff(history: seq<FeatureRecord>)
    ensures Predict(history) == Success(Prediction(Some(0.0), High, AlreadyOutsideBeam))
            <==> && Ready(history)
                 && Latest(history).beamOffset.Num? && Latest(history).beamRadius.Num?
                 && Latest(history).beamOffset.x >= Latest(history).beamRadius.x
  {
  }

  /** A latest offset or radius that is present but not a number fails the
      comparison with the other, and only such a pair fails before the
      previous record is read. */
  lemma TypeErrorCases(history: seq<FeatureRecord>)
    requires Ready(history)
    requires !Latest(history).beamOffset.Null? && !Latest(history).beamRadius.Null?
    ensures (!Latest(history).beamOffset.Num? || !Latest(history).beamRadius.Num?)
            ==> Predict(history) == Failure(TypeError)
    ensures Latest(history).beamOffset.Num? && Latest(history).beamRadius.Num? &&
            Latest(history).beamOffset.x < Latest(history).beamRadius.x &&
            Predict(history).Failure?
            ==> !Previous(history).beamOffset.Num?
  {
  }

  /** A previous offset that is `None` makes the subtraction fail, whatever
      the time delta; it is not read as a delta of zero. */
  lemma PreviousOffsetNoneFails(history: seq<FeatureRecord>)
    requires Ready(history)
    requires Latest(history).beamOffset.Num? && Latest(history).beamRadius.Num?
    requires Latest(history).beamOffset.x < Latest(history).beamRadius.x
    requires Previous(history).beamOffset == Null
    ensures Predict(history) == Failure(TypeError)
  {
  }

  /** Numbers on both records, the latest still inside the beam: the case in
      which a trend is estimated. */
  predicate Trending(history: seq<FeatureRecord>) {
    && Ready(history)
    && Latest(history).beamOffset.Num? && Latest(history).beamRadius.Num?
    && Latest(history).beamOffset.x < Latest(history).beamRadius.x
    && Previous(history).beamOffset.Num?
  }

  /** `invalid_time_delta` exactly when, in that case, the latest record is
      not later than the previous one. */
  lemma InvalidTimeDeltaIff(history: seq<FeatureRecord>)
    requires Trending(history)
    ensures Predict(history) == Success(Prediction(None, Low, InvalidTimeDelta))
            <==> Latest(history).time <= Previous(history).time
  {
  }

  lemma QuotientSign(a: real, b: real)
    requires b > 0.0
    ensures a / b <= 0.0 <==> a <= 0.0
  {
    if a > 0.0 {
      assert a / b * b == a;
    }
  }

  /** `(None, medium, non_increasing_offset)` exactly when, with time moving
      forward, the offset has not grown between the two records. */
  lemma NonIncreasingIff(history: seq<FeatureRecord>)
    requires Trending(history)
    requires Latest(history).time > Previous(history).time
    ensures Predict(history) == Success(Prediction(None, Medium, NonIncreasingOffset))
            <==> Latest(history).beamOffset.x <= Previous(history).beamOffset.x
  {
    QuotientSign(Latest(history).beamOffset.x - Previous(history).beamOffset.x,
                 Latest(history).time - Previous(history).time);
  }

  /** An extrapolated time is the rounded time, from the latest record, at
      which the line through the two offsets reaches the radius: for any `t`
      at which `offset + rate * t == radius`, `t` is positive and the result
      lies within half a thousandth of it. */
  lemma TrendCrossing(history: seq<FeatureRecord>, t: real)
    requires Predict(history).Success? && Predict(history).value.reason == TemporalTrendExtrapolation
    ensures Trending(history)
    ensures Latest(history).time > Previous(history).time
    ensures Latest(history).beamOffset.x > Previous(history).beamOffset.x
    ensures var off := Latest(history).beamOffset.x;
            var rad := Latest(history).beamRadius.x;
            var rate := (off - Previous(history).beamOffset.x) / (Latest(history).time - Previous(history).time);
            && Predict(history).value.timeToBreak == Some(Round3((rad - off) / rate))
            && (off + rate * t == rad ==>
              && t > 0.0
              && Predict(history).value.timeToBreak.Some?
              && -1.0 / 2000.0 <= Predict(history).value.timeToBreak.value - t <= 1.0 / 2000.0)
  {
    var dOff := Latest(history).beamOffset.x - Previous(history).beamOffset.x;
    var dt := Latest(history).time - Previous(history).time;
    QuotientSign(dOff, dt);
    var off := Latest(history).beamOffset.x;
    var rad := Latest(history).beamRadius.x;
    var rate := dOff / dt;
    if off + rate * t == rad {
      assert t == (rad - off) / rate;
    }
  }

  /** Previous record at 10.0 s with offset 0.40, latest at 10.2 s with
      offset 0.42 and radius 1.0: a rate of 0.1 per second and 5.8 s left. */
  lemma ExampleExtrapolation(first: FeatureRecord, prev: FeatureRecord, latest: FeatureRecord)
    requires prev.time == 10.0 && prev.beamOffset == Num(0.40)
    requires latest.time == 10.2 && latest.beamOffset == Num(0.42) && latest.beamRadius == Num(1.0)
    ensures Predict([first, prev, latest]) == Success(Prediction(Some(5.8), Medium, TemporalTrendExtrapolation))
  {
    var h := [first, prev, latest];
    assert Latest(h) == latest && Previous(h) == prev;
    assert (1.0 - 0.42) / ((0.42 - 0.40) / (10.2 - 10.0)) == 5.8;
    assert (5.8 * 1000.0).Floor == 5800;
    Round3Exact(5.8);
  }
}
