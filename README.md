# LEO telemetry pipeline: a Dafny model

This project models the core of a LEO satellite telemetry pipeline. The
pipeline fuses packets from several physical domains (geometry, rf, beam,
topology, environment) into time-aligned snapshots. It mirrors the latest
snapshot, keeps a bounded window of feature records and extrapolates a
link break from the last two records. Two small rule sets sit beside it:
a beam-exit projection at a fixed drift rate, and a QoS ranking of
candidate links.

One Dafny module per source file:

- `Types` (`types.dfy`): packets, payloads (`map<string, Value>`), aligned snapshots and `payload.get`.
- `Rounding` (`rounding.dfy`): Python's `round(x, 3)` on exact reals.
- `TimeAlign` (`time_align.dfy`): the `TimeAligner` class.
  - The buffer is a sequence of `(source, packets)` entries in first-seen order, which is the order a Python dict iterates in.
  - `AddPacket` is a loop over the buffer. It is proved against the pure function `Scan`.
  - The lemmas about `Scan` state when alignment fails, what the cache holds afterwards and what the snapshot contains.
- `StateReplica` (`state_replica.dfy`): the `DigitalTwinState` mirror.
- `Features` (`feature_store.dfy`): the `FeatureStore` class. Its history always equals the last `windowSize` updates (a ghost log).
- `LinkBreak` (`link_break.dfy`): `predict` as a pure function, with one lemma per branch of its if-chain, the `TypeError` branches included.
- `Evolution` (`forward_evolution.dfy`): `predict_beam_exit` and `evolve`.
- `QoS` (`qos_ranker.dfy`): per-candidate scoring in a loop, then a stable descending sort. The sort is written as an insertion sort and is proved descending, a permutation, stable, and uniquely determined by those three properties.

A Python `TypeError` (arithmetic or an ordering comparison meeting `None`
or another non-number) is modelled as a `Failure(TypeError)` result. It is
not excluded by a precondition.

### Two behaviours of the aligner worth knowing

- **Only buffered sources are resolved.** The pass runs over the sources currently buffered (edge_ingestion/time_align.py:24).
  - So after a successful alignment has cleared the buffers, a domain known only from the cache appears as `{}` in the next snapshot.
  - `TimeAlign.SnapshotFields` states this.
- **A failed call can still have refreshed the cache.** The cache is refreshed at line 34, before a later source can reach `return None` at line 40.
  - `TimeAlign.CacheAfterPass` and `TimeAlign.TimeAligner.AddPacket` state this.

## Model

| member | source | states |
|---|---|---|
| Types.Lookup | cloud_ml/feature_store.py:23-28 | the definition of `payload.get(key)`, not a proved property; what each looked-up record field holds is stated by `Features.ExtractFields` |
| Rounding.Round3 | cloud_ml/lstm_link_break.py:65 | the rounded value has at most three decimal places and is within half a thousandth of its argument, strictly so unless the argument is halfway between two such values, in which case the even one is chosen |
| Rounding.Round3Exact | cloud_ml/lstm_link_break.py:65 | a value that already has three decimal places is returned unchanged |
| TimeAlign.Append | edge_ingestion/time_align.py:17 | the buffer after `buffer[source].append(packet)`; its properties are stated by `TimeAlign.AppendFacts` |
| TimeAlign.AppendFacts | edge_ingestion/time_align.py:17 | appending keeps the buffer well formed and adds the packet to the end of its source's list; a new source goes after all the others; no other list changes, and no packet is lost or reordered |
| TimeAlign.Closest | edge_ingestion/time_align.py:26-30 | the chosen packet minimises the distance to the reference time; every earlier packet is strictly farther, so on ties the first minimum wins |
| TimeAlign.Scan | edge_ingestion/time_align.py:24-40 | one pass of the loop over the buffer, as a function; what it yields is stated by `TimeAlign.ScanFailsIff`, `TimeAlign.AlignFailsIff`, `TimeAlign.ScanCache`, `TimeAlign.CacheAfterPass` and `TimeAlign.ScanAligned` |
| TimeAlign.FirstUnresolvedFacts | edge_ingestion/time_align.py:24-40 | every source before the first unresolved one resolves, and that one has neither a fresh packet nor a cached payload |
| TimeAlign.ScanFailsIff | edge_ingestion/time_align.py:24-40 | the pass fails exactly when some buffered source cannot be resolved |
| TimeAlign.AlignFailsIff | edge_ingestion/time_align.py:32-40 | the pass fails exactly when some buffered source's closest packet is outside the window and the cache has no payload for it |
| TimeAlign.ScanCache | edge_ingestion/time_align.py:32-40 | the cache after a pass is the old cache with the fresh payloads of the sources visited before the pass stopped laid over it; this holds on failure too |
| TimeAlign.CacheAfterPass | edge_ingestion/time_align.py:32-40 | no cache entry is removed; a visited source with a fresh packet is cached with it; a stale, unreached or unbuffered source keeps its old entry or its absence |
| TimeAlign.ScanAligned | edge_ingestion/time_align.py:32-38 | on success every buffered source maps to its resolved payload: fresh when the closest packet is in the window, otherwise cached |
| TimeAlign.Snapshot | edge_ingestion/time_align.py:45-52 | the snapshot built from the resolved payloads; its fields are stated by `TimeAlign.SnapshotFields` and `TimeAlign.SnapshotIgnoresOthers` |
| TimeAlign.SnapshotFields | edge_ingestion/time_align.py:45-52 | the snapshot's time is the reference time; each of the five fields holds the resolved payload of that source when it is buffered, and `{}` when it is not, even if it is cached |
| TimeAlign.SnapshotIgnoresOthers | edge_ingestion/time_align.py:45-52 | a source name outside the five domains never reaches the snapshot |
| TimeAlign.TimeAligner.constructor | edge_ingestion/time_align.py:11-14 | a new aligner has the given window, an empty buffer and an empty cache |
| TimeAlign.TimeAligner.AddPacket | edge_ingestion/time_align.py:16-52 | the buffer stays well formed; the cache becomes the pass's cache; on failure the result is none and the buffer is the old buffer plus the packet; on success the result is the snapshot and the buffer is empty |
| StateReplica.DigitalTwinState.constructor | digital_twin/state_replica.py:12-13 | a new mirror holds no state |
| StateReplica.DigitalTwinState.Update | digital_twin/state_replica.py:15-20 | the stored state is replaced by the given snapshot |
| StateReplica.DigitalTwinState.GetState | digital_twin/state_replica.py:22-28 | it fails with the uninitialised error exactly when nothing is stored, otherwise it returns the stored snapshot; it changes nothing |
| Features.LastN | cloud_ml/feature_store.py:14 | the definition of a `deque(maxlen)` window, not a proved property; that the store's history is always this window of all updates is `Features.FeatureStore.Valid`, kept by `Update` through `Features.LastNAppend`, and what it holds is `Features.WindowContents` |
| Features.LastNAppend | cloud_ml/feature_store.py:14-31 | appending to a window of the last `n` updates and trimming it gives the last `n` of all updates |
| Features.Extract | cloud_ml/feature_store.py:21-29 | the record a snapshot contributes; its fields are stated by `Features.ExtractFields` |
| Features.ExtractFields | cloud_ml/feature_store.py:21-29 | the record's time is the snapshot's; `snr`, `doppler` and `timing_drift` come from `rf`, the two beam fields from `beam` and `attenuation` from `environment`, each `None` when the key is missing |
| Features.FeatureStore.constructor | cloud_ml/feature_store.py:12-14 | the window starts empty with the given capacity |
| Features.FeatureStore.Update | cloud_ml/feature_store.py:16-31 | the extracted record is appended and the oldest dropped beyond capacity; the length never exceeds the capacity; the window stays the last `windowSize` updates |
| Features.FeatureStore.GetSequence | cloud_ml/feature_store.py:33-37 | it returns the window, oldest first, which is the last `windowSize` updates, and changes nothing |
| Features.FeatureStore.IsReady | cloud_ml/feature_store.py:39-43 | ready exactly when the window holds at least three records; never ready with a capacity below three |
| Features.WindowContents | cloud_ml/feature_store.py:31-37 | after any updates the window holds `min(n, windowSize)` records, and its k-th record is update number `n - len + k`, in FIFO order |
| LinkBreak.Predict | cloud_ml/lstm_link_break.py:11-68 | every successful outcome pairs its reason with its fixed confidence and carries a time exactly for `already_outside_beam` and a trend extrapolation; each branch is stated by the `LinkBreak` lemmas below |
| LinkBreak.OutcomeShape | cloud_ml/lstm_link_break.py:11-68 | every outcome pairs its reason with its fixed confidence and carries a time exactly for `already_outside_beam` and a trend extrapolation |
| LinkBreak.InsufficientIff | cloud_ml/lstm_link_break.py:12-17 | `insufficient_history` exactly when fewer than three records are held, whatever they contain |
| LinkBreak.LastTwoOnly | cloud_ml/lstm_link_break.py:19-23 | two ready windows with the same last two records give the same prediction |
| LinkBreak.MissingBeamIff | cloud_ml/lstm_link_break.py:25-33 | `missing_beam_data` exactly when the window is ready and the latest offset or radius is `None` |
| LinkBreak.AlreadyOutsideIff | cloud_ml/lstm_link_break.py:35-40 | `(0.0, high, already_outside_beam)` exactly when the latest offset is at least the radius, before any time delta is looked at |
| LinkBreak.TypeErrorCases | cloud_ml/lstm_link_break.py:28-43 | a latest offset or radius that is present but not a number fails the comparison; inside the beam, a failure means the previous offset is not a number |
| LinkBreak.PreviousOffsetNoneFails | cloud_ml/lstm_link_break.py:43 | a `None` previous offset makes the subtraction fail; it is not read as a delta of zero |
| LinkBreak.InvalidTimeDeltaIff | cloud_ml/lstm_link_break.py:44-51 | `invalid_time_delta` exactly when the latest record is not later than the previous one |
| LinkBreak.NonIncreasingIff | cloud_ml/lstm_link_break.py:53-60 | with time moving forward, `non_increasing_offset` exactly when the offset has not grown |
| LinkBreak.TrendCrossing | cloud_ml/lstm_link_break.py:62-68 | an extrapolated time comes from a forward step with a growing offset; the result is the distance left divided by the rate, rounded to three places; the time at which the trend line reaches the radius is positive, and the result is within half a thousandth of it |
| LinkBreak.ExampleExtrapolation | cloud_ml/lstm_link_break.py:42-68 | previous record (10.0 s, 0.40) and latest (10.2 s, 0.42, radius 1.0) give 5.8 s, medium confidence |
| Evolution.ForwardEvolution.PredictBeamExit | digital_twin/forward_evolution.py:16-54 | a successful result carries a time exactly for `already_outside` and `predicted`; a failure means a non-empty beam payload holds an offset or radius that is present but not a number; each branch is stated by the `Evolution` lemmas below |
| Evolution.ForwardEvolution.Evolve | digital_twin/forward_evolution.py:56-64 | the result has exactly the key `beam_exit`, holding the beam-exit prediction, and fails exactly when that prediction fails |
| Evolution.MissingIff | digital_twin/forward_evolution.py:21-23 | `missing_beam_data` exactly when the beam payload is empty |
| Evolution.IncompleteIff | digital_twin/forward_evolution.py:25-29 | `incomplete_beam_data` exactly when a non-empty beam payload lacks the offset or the radius |
| Evolution.AlreadyOutsideIff | digital_twin/forward_evolution.py:31-33 | `(0.0, already_outside)` exactly when the offset has reached the radius |
| Evolution.NeverNonProgressing | digital_twin/forward_evolution.py:37-40 | the fixed rate is positive, so `non_progressing_offset` never comes out |
| Evolution.HorizonCutOff | digital_twin/forward_evolution.py:42-54 | the time at which the drifting offset reaches the radius is positive; beyond the horizon nothing is predicted; up to and including the horizon the result is `predicted`, within half a thousandth of that time |
| Evolution.PredictedBounds | digital_twin/forward_evolution.py:42-54 | a `predicted` time is the rounded unrounded exit time, and that time lies in (0, horizon] |
| QoS.Scored | cloud_ml/ann_qos_model.py:12-30 | the definition of the list the loop builds, not a proved property; that the loop builds it is the loop invariant of `QoS.Rank`, and what each entry means is `QoS.ScoreMeaning` |
| QoS.ScoreLink | cloud_ml/ann_qos_model.py:13-30 | the entry the loop builds for one candidate; its meaning is stated by `QoS.ScoreMeaning` |
| QoS.ScoreMeaning | cloud_ml/ann_qos_model.py:13-30 | the entry carries the candidate's id and lifetime; missing bandwidth, SNR and lifetime count as 0; throughput is bandwidth times one plus SNR; a missing latency is infinite and scores `-inf`; otherwise the score is within half a thousandth of throughput minus latency plus lifetime |
| QoS.SortByScore | cloud_ml/ann_qos_model.py:32 | `sorted(..., key=score, reverse=True)` as an insertion sort; it is proved descending, a permutation and stable by `QoS.SortFacts`, and these determine it by `QoS.StableOrderUnique` |
| QoS.SortFacts | cloud_ml/ann_qos_model.py:32 | the sort's output is non-increasing by score, a permutation of its input, and keeps entries of equal score in input order |
| QoS.StableOrderUnique | cloud_ml/ann_qos_model.py:32 | two descending sequences with the same entries of every score, in the same order, are equal, so those properties determine the ranking |
| QoS.Rank | cloud_ml/ann_qos_model.py:9-32 | one entry per candidate; non-increasing by score; a permutation of the loop's entries; equal scores in input order |

## Left out

- `time.time()` in `add_packet` is the parameter `now` of `AddPacket`; the clock is not modelled.
- `deepcopy` in the state mirror has no counterpart, because snapshots are immutable values and no caller can reach the stored state through them.
- Floating point is modelled as exact reals. Overflow, NaN, and rounding in the subtractions and divisions are not modelled.
- Rounding.Round3: rounds the exact real ties-to-even, not the binary double that Python's `round(x, 3)` rounds. So the result can differ from Python's in the last place when the double is not exactly the decimal it prints as.
- LinkBreak.Predict and Evolution.ForwardEvolution.PredictBeamExit: a beam offset or radius that is present but not a number is always a `TypeError`. Python would compare two strings or two lists without failing. Payloads of the pipeline carry numbers there.
- QoS.ScoreLink: a candidate field is either a number or absent. A field that is present but `None`, or not a number, would make Python raise; it is not modelled. A latency given as infinite is not modelled either; only the absent-latency default is.
- The absent-key default of `prev.get("beam_offset", beam_offset)` is unreachable, because every feature record carries all seven fields. The model keeps only the present-but-`None` case, which fails.
- `FeatureStore` capacity is a `nat`, because a negative `maxlen` makes `deque` raise before any record is stored.
- The aligner's `window` is a `const`. The source never reassigns it.
- Python's default arguments (`window=0.1`, `window_size=10`, `horizon_seconds=10.0`) are the constants `TimeAlign.DefaultWindow`, `Features.DefaultWindowSize` and `Evolution.DefaultHorizon`; Dafny constructors take the value explicitly.
- Concurrency is not modelled; the code has none.
- Not part of this model: packet generation (edge_ingestion/stream.py), the dashboard, the demo driver, `rtd.py`, the logger, the narrative engine, the reasoning object and the path selector (which depends on `networkx` path enumeration).
