/** Shared record types of the telemetry pipeline (core_types.py). */
module Types {

  datatype Option<+T> = None | Some(value: T)

  datatype Result<+R, +E> = Success(value: R) | Failure(error: E)

  /** A value held in a payload. Python's `None` is `Null`; numbers are
      reals; strings and lists (satellite positions, link names) are carried
      through unchanged. */
  datatype Value = Null | Num(x: real) | Text(s: string) | List(items: seq<Value>)

  /** An untyped payload: a mapping from field name to value. */
  type Payload = map<string, Value>

  /** `payload.get(key)`: the stored value, or `None` when the key is absent. */
  function Lookup(p: Payload, key: string): (v: Value)
    ensures key !in p ==> v == Null
    ensures key in p ==> v == p[key]
  {
    if key in p then p[key] else Null
  }

  /** One timestamped observation from one source. */
  datatype Packet = Packet(timestamp: real, source: string, payload: Payload)

  /** A snapshot combining one payload per fixed domain at one time. */
  datatype AlignedState = AlignedState(
    time: real,
    geometry: Payload,
    rf: Payload,
    beam: Payload,
    topology: Payload,
    environment: Payload)

  /** The five source names that have a field in an aligned snapshot. */
  const Domains: set<string> := {"geometry", "rf", "beam", "topology", "environment"}

  /** The snapshot's field for domain `d`. */
  function DomainField(s: AlignedState, d: string): Payload
    requires d in Domains
  {
    if d == "geometry" then s.geometry
    else if d == "rf" then s.rf
    else if d == "beam" then s.beam
    else if d == "topology" then s.topology
    else s.environment
  }

  /** The error Python raises when arithmetic or an ordering comparison meets
      a value that is not a number (`None - x`, `"a" >= 1.0`). */
  datatype TypeError = TypeError
}
