/** The state mirror (digital_twin/state_replica.py): one optional aligned
    snapshot, written by `Update` and read by `GetState`. Snapshots are
    immutable values, so the copy the source takes on every write and every
    read is implicit: no caller can change the stored state through them. */
module StateReplica {
  import opened Types

  /** Reading the mirror before the first write. */
  datatype MirrorError = Uninitialized

  class DigitalTwinState {
    var state: Option<AlignedState>

    constructor ()
      ensures state == None
    {
      state := None;
    }

    /** Replaces whatever was stored by `s`. */
    method Update(s: AlignedState)
      modifies this
      ensures state == Some(s)
    {
      state := Some(s);
    }

    /** The stored snapshot, or the uninitialised error before any update.
        It changes nothing, so repeated reads agree. */
    method GetState() returns (r: Result<AlignedState, MirrorError>)
      ensures state.None? <==> r.Failure?
      ensures r.Failure? ==> r.error == Uninitialized
      ensures r.Success? ==> state == Some(r.value)
    {
      if state == None {
        return Failure(Uninitialized);
      }
      return Success(state.value);
    }
  }

  /** How a caller sees the mirror: an error before the first write, and
      afterwards always the most recent snapshot written, on every read. */
  method MirrorLifecycle(a: AlignedState, b: AlignedState)
  {
    var twin := new DigitalTwinState();
    var r0 := twin.GetState();
    assert r0 == Failure(Uninitialized);
    twin.Update(a);
    var r1 := twin.GetState();
    var r2 := twin.GetState();
    assert r1 == r2 == Success(a);
    twin.Update(b);
    var r3 := twin.GetState();
    assert r3 == Success(b);
  }
}
