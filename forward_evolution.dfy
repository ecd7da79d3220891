/** Forward beam-exit projection (digital_twin/forward_evolution.py): the
    time until the beam offset reaches the beam radius at a fixed drift
    rate, cut off at a prediction horizon. */
module Evolution {
  import opened Types
  import opened Rounding

  datatype ExitReason =
    | MissingBeamData
    | IncompleteBeamData
    | AlreadyOutside
    | NonProgressingOffset
    | OutsidePredictionHorizon
    | Predicted

  datatype BeamExit = BeamExit(exitTime: Option<real>, reason: ExitReason)

  /** The assumed drift of the beam offset, in units per second. */
  const EstimatedOffsetRate: real := 0.02

  /** The horizon a projector gets when none is given. */
  const DefaultHorizon: real := 10.0

  /** The projector; `horizon` is fixed when it is built. */
  datatype ForwardEvolution = ForwardEvolution(horizon: real) {

    /** `predict_beam_exit`. A `Failure` is the `TypeError` of comparing or
        subtracting a beam value that is not a number. */
    function PredictBeamExit(state: AlignedState): (r: Result<BeamExit, TypeError>)
      ensures r.Success? ==> (r.value.exitTime.Some? <==> r.value.reason in {AlreadyOutside, Predicted})
      ensures r.Failure? ==>
                state.beam != map[] && !NumericBeam(state) &&
                !Lookup(state.beam, "beam_offset").Null? && !Lookup(state.beam, "beam_radius").Null?
    {
      var beam := state.beam;
      if beam == map[] then Success(BeamExit(None, MissingBeamData))
      else
        var offset := Lookup(beam, "beam_offset");
        var radius := Lookup(beam, "beam_radius");
        if offset.Null? || radius.Null? then Success(BeamExit(None, IncompleteBeamData))
        else if !offset.Num? || !radius.Num? then Failure(TypeError)
        else if offset.x >= radius.x then Success(BeamExit(Some(0.0), AlreadyOutside))
        else if EstimatedOffsetRate <= 0.0 then Success(BeamExit(None, NonProgressingOffset))
        else
          var timeToExit := (radius.x - offset.x) / EstimatedOffsetRate;
          if timeToExit > horizon then Success(BeamExit(None, OutsidePredictionHorizon))
          else Success(BeamExit(Some(Round3(timeToExit)), Predicted))
    }

    /** `evolve`: the constraint predictions, of which there is one. */
    function Evolve(state: AlignedState): (r: Result<map<string, BeamExit>, TypeError>)
      ensures r.Success? <==> PredictBeamExit(state).Success?
      ensures r.Success? ==> r.value.Keys == {"beam_exit"} && r.value["beam_exit"] == PredictBeamExit(state).value
    {
      match PredictBeamExit(state)
      case Success(exit) => Success(map["beam_exit" := exit])
      case Failure(e) => Failure(e)
    }
  }

  /** The offset and radius of a beam payload, when both are numbers. */
  predicate NumericBeam(state: AlignedState) {
    Lookup(state.beam, "beam_offset").Num? && Lookup(state.beam, "beam_radius").Num?
  }

  /** `missing_beam_data` exactly when the beam payload is empty. */
  lemma MissingIff(ev: ForwardEvolution, state: AlignedState)
    ensures ev.PredictBeamExit(state) == Success(BeamExit(None, MissingBeamData)) <==> state.beam == map[]
  {
  }

  /** `incomplete_beam_data` exactly when a non-empty beam payload lacks the
      offset or the radius (or holds `None` for it). */
  lemma IncompleteIff(ev: ForwardEvolution, state: AlignedState)
    ensures ev.PredictBeamExit(state) == Success(BeamExit(None, IncompleteBeamData))
            <==> state.beam != map[] &&
                 (Lookup(state.beam, "beam_offset").Null? || Lookup(state.beam, "beam_radius").Null?)
  {
  }

  /** `(0.0, already_outside)` exactly when the offset has reached the radius. */
  lemma AlreadyOutsideIff(ev: ForwardEvolution, state: AlignedState)
    ensures ev.PredictBeamExit(state) == Success(BeamExit(Some(0.0), AlreadyOutside))
            <==> NumericBeam(state) && Lookup(state.beam, "beam_offset").x >= Lookup(state.beam, "beam_radius").x
  {
  }

  /** The rate is a positive constant, so `non_progressing_offset` never
      comes out. */
  lemma NeverNonProgressing(ev: ForwardEvolution, state: AlignedState)
    ensures ev.PredictBeamExit(state).Success? ==> ev.PredictBeamExit(state).value.reason != NonProgressingOffset
  {
  }

  /** Inside the beam, with `t` the time at which the offset drifting at the
      fixed rate reaches the radius: `t` is positive; beyond the horizon
      nothing is predicted, and up to and including the horizon the result
      is `predicted`, within half a thousandth of `t`. */
  lemma HorizonCutOff(ev: ForwardEvolution, state: AlignedState, t: real)
    requires NumericBeam(state)
    requires Lookup(state.beam, "beam_offset").x < Lookup(state.beam, "beam_radius").x
    requires Lookup(state.beam, "beam_offset").x + EstimatedOffsetRate * t == Lookup(state.beam, "beam_radius").x
    ensures t > 0.0
    ensures t > ev.horizon ==> ev.PredictBeamExit(state) == Success(BeamExit(None, OutsidePredictionHorizon))
    ensures t <= ev.horizon ==>
              && ev.PredictBeamExit(state).Success?
              && ev.PredictBeamExit(state).value.reason == Predicted
              && ev.PredictBeamExit(state).value.exitTime.Some?
              && -1.0 / 2000.0 <= ev.PredictBeamExit(state).value.exitTime.value - t <= 1.0 / 2000.0
  {
    assert state.beam != map[] by {
      assert "beam_offset" in state.beam;
    }
    var off := Lookup(state.beam, "beam_offset").x;
    var rad := Lookup(state.beam, "beam_radius").x;
    assert t == (rad - off) / EstimatedOffsetRate;
  }

  /** A `predicted` time comes from an offset inside the beam whose exit
      time lies in (0, horizon]. */
  lemma PredictedBounds(ev: ForwardEvolution, state: AlignedState)
    requires ev.PredictBeamExit(state).Success? && ev.PredictBeamExit(state).value.reason == Predicted
    ensures NumericBeam(state)
    ensures var t := (Lookup(state.beam, "beam_radius").x - Lookup(state.beam, "beam_offset").x) / EstimatedOffsetRate;
            && 0.0 < t <= ev.horizon
            && ev.PredictBeamExit(state).value.exitTime == Some(Round3(t))
  {
  }
}
