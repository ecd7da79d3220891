/** The time aligner (edge_ingestion/time_align.py): a per-source packet
    buffer, a last-known-payload cache and the alignment pass that runs on
    every new packet. */
module TimeAlign {
  import opened Types

  /** One source's buffered packets, in arrival order. The buffer is a
      sequence of these in the order the sources were first seen, which is
      the iteration order of the source's dictionary. */
  datatype Entry = Entry(source: string, packets: seq<Packet>)

  /** Every buffered list is non-empty (a source only appears when a packet
      is appended to it) and no source appears twice. */
  predicate WellFormed(buf: seq<Entry>) {
    && NonEmptyLists(buf)
    && (forall i, j :: 0 <= i < j < |buf| ==> buf[i].source != buf[j].source)
  }

  predicate NonEmptyLists(buf: seq<Entry>) {
    forall i :: 0 <= i < |buf| ==> buf[i].packets != []
  }

  function Sources(buf: seq<Entry>): set<string>
    decreases |buf|
  {
    if buf == [] then {} else {buf[0].source} + Sources(buf[1..])
  }

  lemma {:induction false} SourceAt(buf: seq<Entry>, i: nat)
    requires i < |buf|
    ensures buf[i].source in Sources(buf)
    decreases |buf|
  {
    if i > 0 { SourceAt(buf[1..], i - 1); }
  }

  lemma {:induction false} SourceWitness(buf: seq<Entry>, s: string) returns (i: nat)
    requires s in Sources(buf)
    ensures i < |buf| && buf[i].source == s
    decreases |buf|
  {
    if buf[0].source == s { i := 0; }
    else { var j := SourceWitness(buf[1..], s); i := j + 1; }
  }

  lemma {:induction false} NotInSources(buf: seq<Entry>, s: string)
    requires forall i :: 0 <= i < |buf| ==> buf[i].source != s
    ensures s !in Sources(buf)
    decreases |buf|
  {
    if buf != [] { NotInSources(buf[1..], s); }
  }

  /** The position of source `s` in the buffer, or its length when absent. */
  function IndexOf(buf: seq<Entry>, s: string): (k: nat)
    ensures k <= |buf|
    ensures k < |buf| ==> buf[k].source == s
    ensures forall i :: 0 <= i < k ==> buf[i].source != s
    decreases |buf|
  {
    if buf == [] then 0
    else if buf[0].source == s then 0
    else 1 + IndexOf(buf[1..], s)
  }

  /** `buffer[packet.source].append(packet)` on an insertion-ordered
      dictionary: a known source's list grows at its end, a new source is
      added after all the others. */
  function Append(buf: seq<Entry>, p: Packet): seq<Entry> {
    var k := IndexOf(buf, p.source);
    if k == |buf| then buf + [Entry(p.source, [p])]
    else buf[k := Entry(p.source, buf[k].packets + [p])]
  }

  lemma {:induction false} SourcesSnoc(buf: seq<Entry>, e: Entry)
    ensures Sources(buf + [e]) == Sources(buf) + {e.source}
    decreases |buf|
  {
    if buf == [] {
      assert [e][1..] == [];
    } else {
      assert (buf + [e])[1..] == buf[1..] + [e];
      SourcesSnoc(buf[1..], e);
    }
  }

  lemma {:induction false} SourcesSameNames(a: seq<Entry>, b: seq<Entry>)
    requires |a| == |b| && forall i :: 0 <= i < |a| ==> a[i].source == b[i].source
    ensures Sources(a) == Sources(b)
    decreases |a|
  {
    if a != [] { SourcesSameNames(a[1..], b[1..]); }
  }

  /** Appending keeps the buffer well formed, adds the packet's source to the
      buffered ones, appends the packet to the end of that source's list and
      changes nothing else: no packet is lost or reordered. */
  lemma AppendFacts(buf: seq<Entry>, p: Packet)
    requires WellFormed(buf)
    ensures var r := Append(buf, p);
            && WellFormed(r)
            && Sources(r) == Sources(buf) + {p.source}
            && (p.source !in Sources(buf) ==> r == buf + [Entry(p.source, [p])])
            && (p.source in Sources(buf) ==> |r| == |buf|)
            && (forall i :: 0 <= i < |buf| ==>
                  r[i].source == buf[i].source &&
                  r[i].packets == (if buf[i].source == p.source then buf[i].packets + [p] else buf[i].packets))
  {
    var k := IndexOf(buf, p.source);
    var r := Append(buf, p);
    if k == |buf| {
      NotInSources(buf, p.source);
      SourcesSnoc(buf, Entry(p.source, [p]));
    } else {
      SourceAt(buf, k);
      SourcesSameNames(r, buf);
    }
  }

  /** |t - now| */
  function Dist(t: real, now: real): real {
    if t >= now then t - now else now - t
  }

  /** `min(packets, key=lambda p: abs(p.timestamp - now))`: the index of a
      packet closest to `now`, the earliest such on ties. */
  function Closest(ps: seq<Packet>, now: real): (k: nat)
    requires ps != []
    ensures k < |ps|
    ensures forall j :: 0 <= j < |ps| ==> Dist(ps[k].timestamp, now) <= Dist(ps[j].timestamp, now)
    ensures forall j :: 0 <= j < k ==> Dist(ps[j].timestamp, now) > Dist(ps[k].timestamp, now)
    decreases |ps|
  {
    if |ps| == 1 then 0
    else
      var k := Closest(ps[..|ps| - 1], now);
      assert forall j :: 0 <= j < |ps| - 1 ==> ps[..|ps| - 1][j] == ps[j];
      if Dist(ps[|ps| - 1].timestamp, now) < Dist(ps[k].timestamp, now) then |ps| - 1 else k
  }

  /** The closest packet's payload when it lies within `window` of `now`. */
  function Fresh(e: Entry, now: real, window: real): Option<Payload>
    requires e.packets != []
  {
    var c := e.packets[Closest(e.packets, now)];
    if Dist(c.timestamp, now) <= window then Some(c.payload) else None
  }

  /** The payload a source resolves to: fresh, else the cached one, else none. */
  function Resolve(e: Entry, cache: map<string, Payload>, now: real, window: real): Option<Payload>
    requires e.packets != []
  {
    match Fresh(e, now, window)
    case Some(p) => Some(p)
    case None => if e.source in cache then Some(cache[e.source]) else None
  }

  /** The cache after a source is visited: a fresh payload replaces its entry. */
  function Refresh(e: Entry, cache: map<string, Payload>, now: real, window: real): map<string, Payload>
    requires e.packets != []
  {
    match Fresh(e, now, window)
    case Some(p) => cache[e.source := p]
    case None => cache
  }

  /** What one pass over the buffer produces: the resolved payloads (none
      when some source could not be resolved) and the cache it leaves. */
  datatype Outcome = Outcome(aligned: Option<map<string, Payload>>, cache: map<string, Payload>)

  /** The loop of `add_packet` over the buffer, one source at a time: a fresh
      packet refreshes the cache at once, and an unresolvable source stops the
      pass with whatever the cache holds by then. */
  function Scan(entries: seq<Entry>, now: real, window: real,
                aligned: map<string, Payload>, cache: map<string, Payload>): Outcome
    requires NonEmptyLists(entries)
    decreases |entries|
  {
    if entries == [] then Outcome(Some(aligned), cache)
    else
      var e := entries[0];
      match Resolve(e, cache, now, window)
      case None => Outcome(None, cache)
      case Some(p) => Scan(entries[1..], now, window, aligned[e.source := p], Refresh(e, cache, now, window))
  }

  /** One turn of the loop of `add_packet`, spelled out as the loop does it. */
  lemma ScanUnfold(entries: seq<Entry>, now: real, window: real,
                   aligned: map<string, Payload>, cache: map<string, Payload>)
    requires NonEmptyLists(entries)
    requires entries != []
    ensures NonEmptyLists(entries[1..])
    ensures var e := entries[0];
            var c := e.packets[Closest(e.packets, now)];
            Scan(entries, now, window, aligned, cache)
            == if Dist(c.timestamp, now) <= window then
                 Scan(entries[1..], now, window, aligned[e.source := c.payload], cache[e.source := c.payload])
               else if e.source in cache then
                 Scan(entries[1..], now, window, aligned[e.source := cache[e.source]], cache)
               else Outcome(None, cache)
  {
  }

  /** The index of the first source with neither a fresh packet nor a cached
      payload in `cache`, or the number of sources when there is none. */
  function FirstUnresolved(entries: seq<Entry>, cache: map<string, Payload>, now: real, window: real): (f: nat)
    requires NonEmptyLists(entries)
    ensures f <= |entries|
    decreases |entries|
  {
    if entries == [] then 0
    else if Resolve(entries[0], cache, now, window).None? then 0
    else 1 + FirstUnresolved(entries[1..], cache, now, window)
  }

  /** Every source before the first unresolved one resolves, and that one
      does not. */
  lemma {:induction false} FirstUnresolvedFacts(entries: seq<Entry>, cache: map<string, Payload>, now: real, window: real)
    requires NonEmptyLists(entries)
    ensures var f := FirstUnresolved(entries, cache, now, window);
            && (forall i :: 0 <= i < f ==> Resolve(entries[i], cache, now, window).Some?)
            && (f < |entries| ==> Resolve(entries[f], cache, now, window).None?)
    decreases |entries|
  {
    if entries != [] && Resolve(entries[0], cache, now, window).Some? {
      FirstUnresolvedFacts(entries[1..], cache, now, window);
    }
  }

  /** The fresh payloads of `entries`, by source. */
  function Refreshed(entries: seq<Entry>, now: real, window: real): map<string, Payload>
    requires NonEmptyLists(entries)
    decreases |entries|
  {
    if entries == [] then map[]
    else
      var rest := Refreshed(entries[1..], now, window);
      match Fresh(entries[0], now, window)
      case Some(p) => map[entries[0].source := p] + rest
      case None => rest
  }

  /** The resolved payloads of `entries`, by source. */
  function Resolved(entries: seq<Entry>, cache: map<string, Payload>, now: real, window: real): map<string, Payload>
    requires NonEmptyLists(entries)
    decreases |entries|
  {
    if entries == [] then map[]
    else
      var rest := Resolved(entries[1..], cache, now, window);
      match Resolve(entries[0], cache, now, window)
      case Some(p) => map[entries[0].source := p] + rest
      case None => rest
  }

  /** The snapshot built from the resolved payloads: the five fixed fields,
      `{}` for each one that was not resolved. */
  function Snapshot(now: real, aligned: map<string, Payload>): AlignedState {
    AlignedState(
      now,
      if "geometry" in aligned then aligned["geometry"] else map[],
      if "rf" in aligned then aligned["rf"] else map[],
      if "beam" in aligned then aligned["beam"] else map[],
      if "topology" in aligned then aligned["topology"] else map[],
      if "environment" in aligned then aligned["environment"] else map[])
  }

  lemma ResolveOtherKey(e: Entry, cache: map<string, Payload>, k: string, p: Payload, now: real, window: real)
    requires e.packets != [] && k != e.source
    ensures Resolve(e, cache[k := p], now, window) == Resolve(e, cache, now, window)
  {
  }

  lemma TailWellFormed(entries: seq<Entry>)
    requires WellFormed(entries) && entries != []
    ensures WellFormed(entries[1..])
    ensures entries[0].source !in Sources(entries[1..])
  {
    NotInSources(entries[1..], entries[0].source);
  }

  /** Refreshing the cache for a source that is not in `entries` changes
      neither where a pass over them first fails nor what they resolve to. */
  lemma {:induction false} OtherKeyIrrelevant(entries: seq<Entry>, cache: map<string, Payload>,
                                              k: string, p: Payload, now: real, window: real)
    requires NonEmptyLists(entries)
    requires k !in Sources(entries)
    ensures FirstUnresolved(entries, cache[k := p], now, window) == FirstUnresolved(entries, cache, now, window)
    ensures Resolved(entries, cache[k := p], now, window) == Resolved(entries, cache, now, window)
    decreases |entries|
  {
    if entries != [] {
      ResolveOtherKey(entries[0], cache, k, p, now, window);
      OtherKeyIrrelevant(entries[1..], cache, k, p, now, window);
    }
  }

  /** One step of a pass: a resolved first source is recorded and the pass
      goes on with the refreshed cache. */
  lemma ScanStep(entries: seq<Entry>, now: real, window: real,
                 aligned: map<string, Payload>, cache: map<string, Payload>)
    requires WellFormed(entries) && entries != []
    requires Resolve(entries[0], cache, now, window).Some?
    ensures WellFormed(entries[1..])
    ensures entries[0].source !in Sources(entries[1..])
    ensures var p := Resolve(entries[0], cache, now, window).value;
            Scan(entries, now, window, aligned, cache)
            == Scan(entries[1..], now, window, aligned[entries[0].source := p], Refresh(entries[0], cache, now, window))
  {
    TailWellFormed(entries);
  }

  /** Refreshing the first source's cache entry is invisible to the others. */
  lemma RefreshIrrelevant(entries: seq<Entry>, cache: map<string, Payload>, now: real, window: real)
    requires WellFormed(entries) && entries != []
    ensures var cache' := Refresh(entries[0], cache, now, window);
            && FirstUnresolved(entries[1..], cache', now, window) == FirstUnresolved(entries[1..], cache, now, window)
            && Resolved(entries[1..], cache', now, window) == Resolved(entries[1..], cache, now, window)
  {
    TailWellFormed(entries);
    match Fresh(entries[0], now, window)
    case None =>
    case Some(p) => OtherKeyIrrelevant(entries[1..], cache, entries[0].source, p, now, window);
  }

  lemma UnionShift(m: map<string, Payload>, k: string, p: Payload, r: map<string, Payload>)
    ensures m[k := p] + r == m + (map[k := p] + r)
  {
  }

  /** A pass over a well-formed buffer fails exactly when some source has
      neither a fresh packet nor a payload in the cache it started from. */
  lemma {:induction false} ScanFailsIff(entries: seq<Entry>, now: real, window: real,
                                        aligned: map<string, Payload>, cache: map<string, Payload>)
    requires WellFormed(entries)
    ensures Scan(entries, now, window, aligned, cache).aligned.None?
            <==> FirstUnresolved(entries, cache, now, window) < |entries|
    decreases |entries|
  {
    if entries != [] && Resolve(entries[0], cache, now, window).Some? {
      var p := Resolve(entries[0], cache, now, window).value;
      ScanStep(entries, now, window, aligned, cache);
      RefreshIrrelevant(entries, cache, now, window);
      ScanFailsIff(entries[1..], now, window, aligned[entries[0].source := p], Refresh(entries[0], cache, now, window));
    }
  }

  /** The same, with the failing source named: a pass fails exactly when
      some buffered source's closest packet is outside the window and the
      cache has no payload for it. */
  lemma AlignFailsIff(entries: seq<Entry>, now: real, window: real, cache: map<string, Payload>)
    requires WellFormed(entries)
    ensures Scan(entries, now, window, map[], cache).aligned.None?
            <==> exists i :: 0 <= i < |entries| && Fresh(entries[i], now, window).None? && entries[i].source !in cache
  {
    ScanFailsIff(entries, now, window, map[], cache);
    FirstUnresolvedFacts(entries, cache, now, window);
  }

  /** The cache a pass leaves is the old cache with the fresh payloads of
      the sources before the first unresolved one laid over it: nothing is
      removed, and on failure the earlier refreshes stay. */
  lemma {:induction false} ScanCache(entries: seq<Entry>, now: real, window: real,
                                     aligned: map<string, Payload>, cache: map<string, Payload>)
    requires WellFormed(entries)
    ensures Scan(entries, now, window, aligned, cache).cache
            == cache + Refreshed(entries[..FirstUnresolved(entries, cache, now, window)], now, window)
    decreases |entries|
  {
    if entries == [] || Resolve(entries[0], cache, now, window).None? {
      assert entries[..0] == [];
    } else {
      var e := entries[0];
      var p := Resolve(e, cache, now, window).value;
      TailWellFormed(entries);
      ScanCache(entries[1..], now, window, aligned[e.source := p], Refresh(e, cache, now, window));
      ScanCacheStep(entries, now, window, aligned, cache);
    }
  }

  /** The step of `ScanCache`: its statement for the rest of the buffer,
      after a resolved first source, gives it for the whole buffer. */
  lemma ScanCacheStep(entries: seq<Entry>, now: real, window: real,
                      aligned: map<string, Payload>, cache: map<string, Payload>)
    requires WellFormed(entries) && entries != []
    requires Resolve(entries[0], cache, now, window).Some?
    requires NonEmptyLists(entries[1..])
    requires var c' := Refresh(entries[0], cache, now, window);
             Scan(entries[1..], now, window, aligned[entries[0].source := Resolve(entries[0], cache, now, window).value], c').cache
             == c' + Refreshed(entries[1..][..FirstUnresolved(entries[1..], c', now, window)], now, window)
    ensures Scan(entries, now, window, aligned, cache).cache
            == cache + Refreshed(entries[..FirstUnresolved(entries, cache, now, window)], now, window)
  {
    var f := FirstUnresolved(entries, cache, now, window);
    var c' := Refresh(entries[0], cache, now, window);
    ScanStep(entries, now, window, aligned, cache);
    RefreshIrrelevant(entries, cache, now, window);
    assert FirstUnresolved(entries[1..], c', now, window) == f - 1;
    CacheStep(entries, f, cache, now, window);
  }

  /** Refreshing the first source and then laying the rest's refreshes over
      the cache is laying all of them over it. */
  lemma CacheStep(entries: seq<Entry>, f: nat, cache: map<string, Payload>, now: real, window: real)
    requires NonEmptyLists(entries)
    requires 0 < f <= |entries|
    ensures NonEmptyLists(entries[1..])
    ensures Refresh(entries[0], cache, now, window) + Refreshed(entries[1..][..f - 1], now, window)
            == cache + Refreshed(entries[..f], now, window)
  {
    var R := Refreshed(entries[1..][..f - 1], now, window);
    RefreshedPrefix(entries, f, now, window);
    match Fresh(entries[0], now, window)
    case None =>
    case Some(q) => UnionShift(cache, entries[0].source, q, R);
  }

  lemma RefreshedPrefix(entries: seq<Entry>, f: nat, now: real, window: real)
    requires NonEmptyLists(entries)
    requires 0 < f <= |entries|
    ensures Refreshed(entries[..f], now, window)
            == match Fresh(entries[0], now, window)
               case Some(q) => map[entries[0].source := q] + Refreshed(entries[1..][..f - 1], now, window)
               case None => Refreshed(entries[1..][..f - 1], now, window)
  {
    assert entries[..f][1..] == entries[1..][..f - 1];
    assert entries[..f][0] == entries[0];
  }

  /** A successful pass maps every buffered source to its resolved payload. */
  lemma {:induction false} ScanAligned(entries: seq<Entry>, now: real, window: real,
                                       aligned: map<string, Payload>, cache: map<string, Payload>)
    requires WellFormed(entries)
    requires Scan(entries, now, window, aligned, cache).aligned.Some?
    ensures Scan(entries, now, window, aligned, cache).aligned.value == aligned + Resolved(entries, cache, now, window)
    decreases |entries|
  {
    if entries == [] {
      assert Resolved(entries, cache, now, window) == map[];
    } else {
      var e := entries[0];
      var rest := entries[1..];
      var p := Resolve(e, cache, now, window).value;
      ScanStep(entries, now, window, aligned, cache);
      RefreshIrrelevant(entries, cache, now, window);
      ScanAligned(rest, now, window, aligned[e.source := p], Refresh(e, cache, now, window));
      var R := Resolved(rest, cache, now, window);
      assert Resolved(entries, cache, now, window) == map[e.source := p] + R;
      UnionShift(aligned, e.source, p, R);
    }
  }

  /** The resolved payload of the source at index `i`. */
  lemma {:induction false} ResolvedAt(entries: seq<Entry>, cache: map<string, Payload>, now: real, window: real, i: nat)
    requires WellFormed(entries)
    requires i < |entries|
    ensures Resolve(entries[i], cache, now, window).Some? ==>
              entries[i].source in Resolved(entries, cache, now, window) &&
              Resolved(entries, cache, now, window)[entries[i].source] == Resolve(entries[i], cache, now, window).value
    decreases |entries|
  {
    TailWellFormed(entries);
    ResolvedKeys(entries[1..], cache, now, window);
    if i > 0 {
      ResolvedAt(entries[1..], cache, now, window, i - 1);
    }
  }

  lemma {:induction false} ResolvedKeys(entries: seq<Entry>, cache: map<string, Payload>, now: real, window: real)
    requires NonEmptyLists(entries)
    ensures Resolved(entries, cache, now, window).Keys <= Sources(entries)
    decreases |entries|
  {
    if entries != [] {
      ResolvedKeys(entries[1..], cache, now, window);
    }
  }

  lemma PrefixWellFormed(entries: seq<Entry>, f: nat)
    requires WellFormed(entries) && f <= |entries|
    ensures WellFormed(entries[..f])
    ensures Sources(entries[..f]) <= Sources(entries)
  {
    assert forall i :: 0 <= i < f ==> entries[..f][i] == entries[i];
    forall s | s in Sources(entries[..f]) ensures s in Sources(entries) {
      var i := SourceWitness(entries[..f], s);
      SourceAt(entries, i);
    }
  }

  lemma {:induction false} RefreshedKeys(entries: seq<Entry>, now: real, window: real)
    requires NonEmptyLists(entries)
    ensures Refreshed(entries, now, window).Keys <= Sources(entries)
    decreases |entries|
  {
    if entries != [] {
      RefreshedKeys(entries[1..], now, window);
    }
  }

  /** The refreshed payload of the source at index `i`: its fresh payload,
      or nothing when it has none. */
  lemma {:induction false} RefreshedAt(entries: seq<Entry>, now: real, window: real, i: nat)
    requires WellFormed(entries) && i < |entries|
    ensures Fresh(entries[i], now, window).Some? ==>
              entries[i].source in Refreshed(entries, now, window) &&
              Refreshed(entries, now, window)[entries[i].source] == Fresh(entries[i], now, window).value
    ensures Fresh(entries[i], now, window).None? ==> entries[i].source !in Refreshed(entries, now, window)
    decreases |entries|
  {
    TailWellFormed(entries);
    RefreshedKeys(entries[1..], now, window);
    if i > 0 {
      RefreshedAt(entries[1..], now, window, i - 1);
      SourceAt(entries[1..], i - 1);
    }
  }

  /** What a pass leaves in the cache, source by source: no entry is
      removed; a source visited before the pass stopped that had a fresh
      packet now maps to it, even when the pass fails; every other source
      (stale, not reached, or not buffered) keeps its old entry or its
      absence. */
  lemma CacheAfterPass(entries: seq<Entry>, now: real, window: real,
                       aligned: map<string, Payload>, cache: map<string, Payload>, k: string)
    requires WellFormed(entries)
    ensures var out := Scan(entries, now, window, aligned, cache).cache;
            var f := FirstUnresolved(entries, cache, now, window);
            && cache.Keys <= out.Keys
            && (forall i :: 0 <= i < f && Fresh(entries[i], now, window).Some? ==>
                  entries[i].source in out && out[entries[i].source] == Fresh(entries[i], now, window).value)
            && ((forall i :: 0 <= i < f && entries[i].source == k ==> Fresh(entries[i], now, window).None?) ==>
                  (k in out <==> k in cache) && (k in cache ==> out[k] == cache[k]))
  {
    var f := FirstUnresolved(entries, cache, now, window);
    ScanCache(entries, now, window, aligned, cache);
    forall i | 0 <= i < f
      ensures Fresh(entries[i], now, window).Some? ==>
                entries[i].source in Refreshed(entries[..f], now, window) &&
                Refreshed(entries[..f], now, window)[entries[i].source] == Fresh(entries[i], now, window).value
    {
      RefreshedPrefixAt(entries, now, window, f, i);
    }
    if forall i :: 0 <= i < f && entries[i].source == k ==> Fresh(entries[i], now, window).None? {
      RefreshedPrefixAbsent(entries, now, window, f, k);
    }
  }

  /** `RefreshedAt` for a prefix of the buffer. */
  lemma RefreshedPrefixAt(entries: seq<Entry>, now: real, window: real, f: nat, i: nat)
    requires WellFormed(entries) && i < f <= |entries|
    ensures Fresh(entries[i], now, window).Some? ==>
              entries[i].source in Refreshed(entries[..f], now, window) &&
              Refreshed(entries[..f], now, window)[entries[i].source] == Fresh(entries[i], now, window).value
  {
    PrefixWellFormed(entries, f);
    assert entries[..f][i] == entries[i];
    RefreshedAt(entries[..f], now, window, i);
  }

  /** A source with no fresh packet in a prefix is not refreshed by it. */
  lemma RefreshedPrefixAbsent(entries: seq<Entry>, now: real, window: real, f: nat, k: string)
    requires WellFormed(entries) && f <= |entries|
    requires forall i :: 0 <= i < f && entries[i].source == k ==> Fresh(entries[i], now, window).None?
    ensures k !in Refreshed(entries[..f], now, window)
  {
    var pre := entries[..f];
    PrefixWellFormed(entries, f);
    RefreshedKeys(pre, now, window);
    if k in Sources(pre) {
      var j := SourceWitness(pre, k);
      assert pre[j] == entries[j];
      RefreshedAt(pre, now, window, j);
    }
  }

  /** Each of the five snapshot fields is the resolved payload under that
      source name, or `{}`. */
  lemma SnapshotField(now: real, aligned: map<string, Payload>, d: string)
    requires d in Domains
    ensures DomainField(Snapshot(now, aligned), d) == if d in aligned then aligned[d] else map[]
  {
  }

  /** A source name outside the five domains has no field: its payload,
      fresh or cached, never reaches the snapshot. */
  lemma SnapshotIgnoresOthers(now: real, aligned: map<string, Payload>, k: string, p: Payload)
    requires k !in Domains
    ensures Snapshot(now, aligned[k := p]) == Snapshot(now, aligned)
  {
  }

  /** The snapshot a successful pass over a well-formed buffer builds: its
      time is the reference time, and each of the five fields holds the
      resolved payload of that source when it is buffered and `{}` when it
      is not, even if the cache holds a payload for it. */
  lemma SnapshotFields(entries: seq<Entry>, cache: map<string, Payload>, now: real, window: real, d: string)
    requires WellFormed(entries) && d in Domains
    requires Scan(entries, now, window, map[], cache).aligned.Some?
    ensures var snap := Snapshot(now, Scan(entries, now, window, map[], cache).aligned.value);
            && snap.time == now
            && (d !in Sources(entries) ==> DomainField(snap, d) == map[])
            && (forall i :: 0 <= i < |entries| && entries[i].source == d ==>
                  Resolve(entries[i], cache, now, window) == Some(DomainField(snap, d)))
  {
    var al := Scan(entries, now, window, map[], cache).aligned.value;
    var res := Resolved(entries, cache, now, window);
    ScanAligned(entries, now, window, map[], cache);
    assert al == res;
    SnapshotField(now, al, d);
    if d !in Sources(entries) {
      ResolvedKeys(entries, cache, now, window);
    }
    forall i | 0 <= i < |entries| && entries[i].source == d
      ensures Resolve(entries[i], cache, now, window) == Some(DomainField(Snapshot(now, al), d))
    {
      ScanFailsIff(entries, now, window, map[], cache);
      FirstUnresolvedFacts(entries, cache, now, window);
      ResolvedAt(entries, cache, now, window, i);
    }
  }

  /** The tolerance an aligner gets when none is given. */
  const DefaultWindow: real := 0.1

  class TimeAligner {
    /** The tolerance: a packet this close to the reference time is fresh. */
    const window: real
    var buffer: seq<Entry>
    var lastState: map<string, Payload>

    ghost predicate Valid()
      reads this
    {
      WellFormed(buffer)
    }

    constructor (window: real)
      ensures Valid()
      ensures this.window == window && buffer == [] && lastState == map[]
    {
      this.window := window;
      buffer := [];
      lastState := map[];
    }

    /** Buffers `packet`, then tries to align every buffered source at the
        reference time `now` (the clock reading `add_packet` takes with `time.time()`). On
        success every buffer is cleared; on failure every buffer keeps its
        packets, the new one included, but cache refreshes made before the
        failing source remain. */
    method AddPacket(packet: Packet, now: real) returns (r: Option<AlignedState>)
      requires Valid()
      modifies this
      ensures Valid()
      ensures var buf := Append(old(buffer), packet);
              var out := Scan(buf, now, window, map[], old(lastState));
              && lastState == out.cache
              && (out.aligned.None? ==> r.None? && buffer == buf)
              && (out.aligned.Some? ==> r == Some(Snapshot(now, out.aligned.value)) && buffer == [])
    {
      var buf := Append(buffer, packet);
      ghost var start := lastState;
      AppendFacts(buffer, packet);
      buffer := buf;
      var aligned: map<string, Payload> := map[];
      var rest := buffer;
      while rest != []
        invariant buffer == buf
        invariant NonEmptyLists(rest)
        invariant Scan(rest, now, window, aligned, lastState) == Scan(buf, now, window, map[], start)
        decreases |rest|
      {
        var e := rest[0];
        ScanUnfold(rest, now, window, aligned, lastState);
        var closest := e.packets[Closest(e.packets, now)];
        if Dist(closest.timestamp, now) <= window {
          aligned := aligned[e.source := closest.payload];
          lastState := lastState[e.source := closest.payload];
        } else if e.source in lastState {
          aligned := aligned[e.source := lastState[e.source]];
        } else {
          return None;
        }
        rest := rest[1..];
      }
      buffer := [];
      r := Some(Snapshot(now, aligned));
    }
  }
}
