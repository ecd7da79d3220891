/** The QoS ranker (cloud_ml/ann_qos_model.py): every candidate link gets a
    score, and the scored entries come out stably sorted by score, highest
    first. */
module QoS {
  import opened Types
  import opened Rounding

  /** Reals extended with the infinities: a missing latency is `+inf`, and
      the score of such a link is `-inf`. */
  datatype Ext = NegInf | Fin(r: real) | PosInf

  predicate Le(a: Ext, b: Ext) {
    match (a, b)
    case (NegInf, _) => true
    case (_, PosInf) => true
    case (Fin(x), Fin(y)) => x <= y
    case _ => false
  }

  /** A candidate link; `None` is a key the candidate does not carry. */
  datatype Candidate = Candidate(
    id: Value,
    latency: Option<real>,
    bandwidth: Option<real>,
    snr: Option<real>,
    lifetime: Option<real>)

  /** One entry of the ranking. */
  datatype RankedLink = RankedLink(linkId: Value, score: Ext, latency: Ext, throughput: real, lifetime: real)

  function OrDefault(o: Option<real>, default: real): real {
    match o
    case Some(v) => v
    case None => default
  }

  /** The entry the loop builds for one candidate. */
  function ScoreLink(c: Candidate): RankedLink {
    var latency := match c.latency case Some(l) => Fin(l) case None => PosInf;
    var bandwidth := OrDefault(c.bandwidth, 0.0);
    var snr := OrDefault(c.snr, 0.0);
    var lifetime := OrDefault(c.lifetime, 0.0);
    var throughput := bandwidth * (1.0 + snr);
    var score := match latency case Fin(l) => Fin(Round3(throughput - l + lifetime)) case _ => NegInf;
    RankedLink(c.id, score, latency, throughput, lifetime)
  }

  /** The entries of all candidates, in input order. */
  function Scored(cs: seq<Candidate>): (r: seq<RankedLink>)
    ensures |r| == |cs|
    ensures forall i :: 0 <= i < |cs| ==> r[i] == ScoreLink(cs[i])
  {
    seq(|cs|, i requires 0 <= i < |cs| => ScoreLink(cs[i]))
  }

  /** What an entry says about its candidate: missing bandwidth, SNR and
      lifetime count as 0; a missing latency is infinite and scores `-inf`;
      otherwise the score is throughput minus latency plus lifetime, to
      three decimal places. */
  lemma ScoreMeaning(c: Candidate)
    ensures var e := ScoreLink(c);
            && e.linkId == c.id
            && e.throughput == OrDefault(c.bandwidth, 0.0) * (1.0 + OrDefault(c.snr, 0.0))
            && (c.bandwidth.None? ==> e.throughput == 0.0)
            && (c.bandwidth.Some? && c.snr.None? ==> e.throughput == c.bandwidth.value)
            && e.lifetime == OrDefault(c.lifetime, 0.0)
            && (c.lifetime.None? ==> e.lifetime == 0.0)
            && (c.latency.None? <==> e.score == NegInf)
            && (c.latency.None? ==> e.latency == PosInf)
            && (c.latency.Some? ==>
                  && e.latency == Fin(c.latency.value)
                  && e.score.Fin?
                  && -1.0 / 2000.0 <= e.score.r - (e.throughput - c.latency.value + e.lifetime) <= 1.0 / 2000.0)
  {
  }

  /** Non-increasing by score. */
  predicate Descending(s: seq<RankedLink>) {
    forall i, j :: 0 <= i < j < |s| ==> Le(s[j].score, s[i].score)
  }

  /** The entries whose score is `k`, in order. */
  function WithScore(s: seq<RankedLink>, k: Ext): seq<RankedLink>
    decreases |s|
  {
    if s == [] then []
    else (if s[0].score == k then [s[0]] else []) + WithScore(s[1..], k)
  }

  /** Places `x` before the first entry that does not score above it. */
  function Insert(x: RankedLink, s: seq<RankedLink>): seq<RankedLink>
    decreases |s|
  {
    if s == [] then [x]
    else if Le(s[0].score, x.score) then [x] + s
    else [s[0]] + Insert(x, s[1..])
  }

  /** `sorted(entries, key=score, reverse=True)`: a stable sort, highest
      score first, equal scores in input order. */
  function SortByScore(s: seq<RankedLink>): seq<RankedLink>
    decreases |s|
  {
    if s == [] then [] else Insert(s[0], SortByScore(s[1..]))
  }

  lemma LeTotal(a: Ext, b: Ext)
    ensures Le(a, b) || Le(b, a)
  {
  }

  lemma LeTransitive(a: Ext, b: Ext, c: Ext)
    requires Le(a, b) && Le(b, c)
    ensures Le(a, c)
  {
  }

  lemma DescendingCons(y: RankedLink, r: seq<RankedLink>)
    requires Descending(r)
    requires forall j :: 0 <= j < |r| ==> Le(r[j].score, y.score)
    ensures Descending([y] + r)
  {
    forall i, j | 0 <= i < j < |[y] + r| ensures Le(([y] + r)[j].score, ([y] + r)[i].score) {
      assert ([y] + r)[j] == r[j - 1];
      if i > 0 { assert ([y] + r)[i] == r[i - 1]; }
    }
  }

  lemma {:induction false} InsertPerm(x: RankedLink, s: seq<RankedLink>)
    ensures multiset(Insert(x, s)) == multiset(s) + multiset{x}
    decreases |s|
  {
    if s != [] && !Le(s[0].score, x.score) {
      InsertPerm(x, s[1..]);
      assert s == [s[0]] + s[1..];
    }
  }

  lemma {:induction false} InsertDescending(x: RankedLink, s: seq<RankedLink>)
    requires Descending(s)
    ensures Descending(Insert(x, s))
    ensures s == [] ==> Insert(x, s) == [x]
    ensures s != [] ==> Insert(x, s)[0] == x || Insert(x, s)[0] == s[0]
    decreases |s|
  {
    if s != [] {
      DescendingTail(s);
      if Le(s[0].score, x.score) {
        forall j | 0 <= j < |s| ensures Le(s[j].score, x.score) {
          LeTransitive(s[j].score, s[0].score, x.score);
        }
        DescendingCons(x, s);
      } else {
        LeTotal(s[0].score, x.score);
        InsertDescending(x, s[1..]);
        var r := Insert(x, s[1..]);
        assert Le(r[0].score, s[0].score);
        forall j | 0 <= j < |r| ensures Le(r[j].score, s[0].score) {
          if j > 0 { LeTransitive(r[j].score, r[0].score, s[0].score); }
        }
        DescendingCons(s[0], r);
      }
    }
  }

  lemma {:induction false} WithScoreConcat(a: seq<RankedLink>, b: seq<RankedLink>, k: Ext)
    ensures WithScore(a + b, k) == WithScore(a, k) + WithScore(b, k)
    decreases |a|
  {
    if a == [] {
      assert a + b == b;
    } else {
      assert (a + b)[1..] == a[1..] + b;
      WithScoreConcat(a[1..], b, k);
    }
  }

  /** Equal scores keep their order: inserting `x` in front of a sorted
      sequence's entries changes no score class but `x`'s, which gains `x`
      at its front. */
  lemma {:induction false} InsertStable(x: RankedLink, s: seq<RankedLink>, k: Ext)
    requires Descending(s)
    ensures WithScore(Insert(x, s), k) == WithScore([x] + s, k)
    decreases |s|
  {
    if s != [] && !Le(s[0].score, x.score) {
      DescendingTail(s);
      InsertStable(x, s[1..], k);
      assert s[0].score != x.score;
      var r := Insert(x, s[1..]);
      WithScoreConcat([s[0]], r, k);
      WithScoreConcat([x], s[1..], k);
      WithScoreConcat([x], s, k);
      WithScoreConcat([s[0]], s[1..], k);
      assert s == [s[0]] + s[1..];
      assert ([s[0]])[1..] == [] && ([x])[1..] == [];
    }
  }

  /** The sort's result is descending, a permutation of its input, and
      stable: for every score, the entries with that score appear in the
      same order as in the input. */
  lemma {:induction false} SortFacts(s: seq<RankedLink>)
    ensures Descending(SortByScore(s))
    ensures multiset(SortByScore(s)) == multiset(s)
    ensures forall k :: WithScore(SortByScore(s), k) == WithScore(s, k)
    decreases |s|
  {
    if s != [] {
      SortFacts(s[1..]);
      var t := SortByScore(s[1..]);
      InsertDescending(s[0], t);
      InsertPerm(s[0], t);
      assert s == [s[0]] + s[1..];
      forall k ensures WithScore(SortByScore(s), k) == WithScore(s, k) {
        InsertStable(s[0], t, k);
        WithScoreConcat([s[0]], t, k);
        WithScoreConcat([s[0]], s[1..], k);
      }
    }
  }

  lemma LeAntisymmetric(a: Ext, b: Ext)
    requires Le(a, b) && Le(b, a)
    ensures a == b
  {
  }

  lemma {:induction false} WithScoreMember(s: seq<RankedLink>, x: RankedLink, k: Ext)
    requires x in WithScore(s, k)
    ensures x.score == k
    ensures exists j :: 0 <= j < |s| && s[j] == x
    decreases |s|
  {
    if s[0] != x || s[0].score != k {
      WithScoreMember(s[1..], x, k);
      var j :| 0 <= j < |s[1..]| && s[1..][j] == x;
      assert s[j + 1] == x;
    }
  }

  lemma DescendingTail(s: seq<RankedLink>)
    requires Descending(s) && s != []
    ensures Descending(s[1..])
    ensures forall j :: 0 <= j < |s| ==> Le(s[j].score, s[0].score)
  {
    forall i, j | 0 <= i < j < |s[1..]| ensures Le(s[1..][j].score, s[1..][i].score) {
      assert s[1..][i] == s[i + 1] && s[1..][j] == s[j + 1];
    }
    forall j | 0 < j < |s| ensures Le(s[j].score, s[0].score) {
    }
  }

  /** A stable descending order is unique: two descending sequences whose
      entries of every score come in the same order are equal. So the
      ranking's contract determines it completely. */
  lemma {:induction false} StableOrderUnique(a: seq<RankedLink>, b: seq<RankedLink>)
    requires Descending(a) && Descending(b)
    requires forall k :: WithScore(a, k) == WithScore(b, k)
    ensures a == b
    decreases |a|
  {
    assert a != [] ==> b != [] by {
      if a != [] { assert WithScore(b, a[0].score) == WithScore(a, a[0].score) != []; }
    }
    assert b != [] ==> a != [] by {
      if b != [] { assert WithScore(a, b[0].score) == WithScore(b, b[0].score) != []; }
    }
    if a != [] {
      var ka, kb := a[0].score, b[0].score;
      DescendingTail(a);
      DescendingTail(b);
      assert a[0] in WithScore(b, ka) by { assert WithScore(a, ka)[0] == a[0]; }
      WithScoreMember(b, a[0], ka);
      assert b[0] in WithScore(a, kb) by { assert WithScore(b, kb)[0] == b[0]; }
      WithScoreMember(a, b[0], kb);
      LeAntisymmetric(ka, kb);
      assert a[0] == b[0] by {
        assert WithScore(a, ka)[0] == a[0] && WithScore(b, ka)[0] == b[0];
      }
      forall k ensures WithScore(a[1..], k) == WithScore(b[1..], k) {
        assert WithScore(a, k) == (if ka == k then [a[0]] else []) + WithScore(a[1..], k);
        assert WithScore(b, k) == (if ka == k then [b[0]] else []) + WithScore(b[1..], k);
        assert WithScore(a, k) == WithScore(b, k);
        if ka == k {
          assert WithScore(a, k) == [a[0]] + WithScore(a[1..], k);
          assert WithScore(b, k) == [a[0]] + WithScore(b[1..], k);
          assert ([a[0]] + WithScore(a[1..], k))[1..] == WithScore(a[1..], k);
          assert ([a[0]] + WithScore(b[1..], k))[1..] == WithScore(b[1..], k);
        } else {
          assert WithScore(a, k) == [] + WithScore(a[1..], k) == WithScore(a[1..], k);
          assert WithScore(b, k) == [] + WithScore(b[1..], k) == WithScore(b[1..], k);
        }
      }
      StableOrderUnique(a[1..], b[1..]);
      assert a == [a[0]] + a[1..] && b == [b[0]] + b[1..];
    }
  }

  /** The ranking: one entry per candidate, highest score first, entries of
      equal score in input order, and nothing but the candidates' entries. */
  method Rank(candidates: seq<Candidate>) returns (ranked: seq<RankedLink>)
    ensures |ranked| == |candidates|
    ensures Descending(ranked)
    ensures multiset(ranked) == multiset(Scored(candidates))
    ensures forall k :: WithScore(ranked, k) == WithScore(Scored(candidates), k)
    ensures ranked == SortByScore(Scored(candidates))
  {
    var entries: seq<RankedLink> := [];
    for i := 0 to |candidates|
      invariant |entries| == i
      invariant forall j :: 0 <= j < i ==> entries[j] == ScoreLink(candidates[j])
    {
      entries := entries + [ScoreLink(candidates[i])];
    }
    assert entries == Scored(candidates);
    SortFacts(entries);
    ranked := SortByScore(entries);
    assert |ranked| == |multiset(ranked)| == |multiset(entries)| == |candidates|;
  }
}
