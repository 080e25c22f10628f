/** Fault signatures: extracting one from a telemetry window, and scoring one against another. */
module Signatures {
  import opened Sequences
  import opened Sorting
  import opened Wrappers

  type Positive = r: real | r > 0.0 witness 1.0

  datatype Sample = Sample(tag: string, ts: real, value: Option<real>)

  datatype Deviation = Deviation(tag: string, high: bool, magnitude: real, onset: real, rank: int)

  datatype FaultMode = FaultMode(id: string, cause: string, signature: seq<Deviation>)

  datatype Match = Match(id: string, cause: string, confidence: real)

  // ---- string order -------------------------------------------------------------------------------

  predicate Less(a: string, b: string) {
    && b != ""
    && (a == "" || a[0] < b[0] || (a[0] == b[0] && Less(a[1..], b[1..])))
  }

  lemma {:induction false} LessIsTotal(a: string, b: string)
    ensures Less(a, b) ==> !Less(b, a)
    ensures a == b || Less(a, b) || Less(b, a)
    decreases |a|
  {
    if a != "" {
      if b != "" && a[0] == b[0] {
        LessIsTotal(a[1..], b[1..]);
        assert a == [a[0]] + a[1..] && b == [b[0]] + b[1..];
      }
    }
  }

  lemma {:induction false} LessChains(a: string, b: string, c: string)
    requires Less(a, b) && Less(b, c)
    ensures Less(a, c)
    decreases |a|
  {
    if a != "" && a[0] == b[0] && b[0] == c[0] {
      LessChains(a[1..], b[1..], c[1..]);
    }
  }

  // ---- extraction ---------------------------------------------------------------------------------

  const DEVIATION_SIGMA := 4.0

  predicate Earlier(a: Sample, b: Sample) {
    a.ts < b.ts
  }

  /** `by_tag[tag]`: the samples of a tag that have a value. */
  function Bucket(samples: seq<Sample>, tag: string): seq<Sample> {
    if samples == [] then []
    else
      var last := samples[|samples| - 1];
      Bucket(samples[..|samples| - 1], tag) + if last.tag == tag && last.value.Some? then [last] else []
  }

  /** The tags in the order their first value appears. */
  function TagsOf(samples: seq<Sample>): seq<string> {
    if samples == [] then []
    else
      var last, tags := samples[|samples| - 1], TagsOf(samples[..|samples| - 1]);
      if last.value.Some? && last.tag !in tags then tags + [last.tag] else tags
  }

  function Before(rows: seq<Sample>, onset: real): seq<real> {
    if rows == [] then []
    else (if rows[0].ts < onset && rows[0].value.Some? then [rows[0].value.value] else []) + Before(rows[1..], onset)
  }

  function After(rows: seq<Sample>, onset: real): seq<Sample> {
    if rows == [] then [] else (if rows[0].ts >= onset then [rows[0]] else []) + After(rows[1..], onset)
  }

  function Sum(values: seq<real>): real {
    if values == [] then 0.0 else values[0] + Sum(values[1..])
  }

  function Distance(s: Sample, mean: real): real {
    var v := if s.value.Some? then s.value.value else mean;
    if v >= mean then v - mean else mean - v
  }

  function Breaches(post: seq<Sample>, mean: real, band: real): seq<Sample> {
    if post == [] then []
    else (if Distance(post[0], mean) >= band then [post[0]] else []) + Breaches(post[1..], mean, band)
  }

  /** `max(post, key=distance)`: the first of the largest. */
  function Peak(post: seq<Sample>, mean: real): Sample
    requires post != []
  {
    if |post| == 1 then post[0]
    else
      var best := Peak(post[..|post| - 1], mean);
      if Distance(post[|post| - 1], mean) > Distance(best, mean) then post[|post| - 1] else best
  }

  function Mean(values: seq<real>): real
    requires values != []
  {
    Sum(values) / |values| as real
  }

  /** The deviation of one tag from its baseline, if enough of the samples after the onset breach it. */
  function Deviating(tag: string, post: seq<Sample>, onset: real, mean: real, std: Positive): Option<Deviation>
    requires post != []
  {
    var breaches := Breaches(post, mean, DEVIATION_SIGMA * std);
    var enough := if |post| / 5 > 1 then |post| / 5 else 1;
    if |breaches| < enough then None
    else
      var peak := Peak(post, mean);
      Some(Deviation(tag, peak.value.Some? && peak.value.value >= mean, Distance(peak, mean) / std,
                     breaches[0].ts - onset, 0))
  }

  /** The deviation of one tag, from its samples in time order; `spread` is the standard deviation of
      the baseline with its floor. */
  function Judge(tag: string, rows: seq<Sample>, onset: real, spread: seq<real> -> Positive): Option<Deviation> {
    var pre, post := Before(rows, onset), After(rows, onset);
    if |pre| < 2 || post == [] then None else Deviating(tag, post, onset, Mean(pre), spread(pre))
  }

  /** The judgement of every tag of a window. */
  function Judging(samples: seq<Sample>, onset: real, spread: seq<real> -> Positive): string -> Option<Deviation> {
    (tag: string) => Judge(tag, Sort(Bucket(samples, tag), Earlier), onset, spread)
  }

  function Judged(tags: seq<string>, judge: string -> Option<Deviation>): seq<Deviation> {
    if tags == [] then []
    else (if judge(tags[0]).Some? then [judge(tags[0]).value] else []) + Judged(tags[1..], judge)
  }

  /** First to move first; ties break on the larger magnitude, then the tag. */
  predicate MovedBefore(a: Deviation, b: Deviation) {
    || a.onset < b.onset
    || (a.onset == b.onset && (a.magnitude > b.magnitude || (a.magnitude == b.magnitude && Less(a.tag, b.tag))))
  }

  function RankFrom(ds: seq<Deviation>, rank: int): (r: seq<Deviation>)
    ensures |r| == |ds|
    ensures forall k :: 0 <= k < |ds| ==> r[k] == ds[k].(rank := rank + k)
    decreases ds
  {
    if ds == [] then [] else [ds[0].(rank := rank)] + RankFrom(ds[1..], rank + 1)
  }

  function Extracted(samples: seq<Sample>, onset: real, spread: seq<real> -> Positive): seq<Deviation> {
    RankFrom(Sort(Judged(TagsOf(samples), Judging(samples, onset, spread)), MovedBefore), 0)
  }

  function RowsOf(byTag: map<string, seq<Sample>>, tag: string): seq<Sample> {
    if tag in byTag then byTag[tag] else []
  }

  /** The buckets, and their keys in the order they came. */
  ghost predicate Bucketed(byTag: map<string, seq<Sample>>, tags: seq<string>, samples: seq<Sample>) {
    && tags == TagsOf(samples)
    && (forall t :: t in tags <==> t in byTag)
    && forall t :: RowsOf(byTag, t) == Bucket(samples, t)
  }

  /** The loop over the samples. */
  method BucketByTag(samples: seq<Sample>) returns (byTag: map<string, seq<Sample>>, tags: seq<string>)
    ensures Bucketed(byTag, tags, samples)
  {
    byTag, tags := map[], [];
    for k := 0 to |samples|
      invariant Bucketed(byTag, tags, samples[..k])
    {
      var s := samples[k];
      assert samples[..k + 1] == samples[..k] + [s];
      BucketedSnoc(byTag, tags, samples[..k], s);
      if s.value.Some? {
        if s.tag !in byTag {
          tags := tags + [s.tag];
        }
        byTag := byTag[s.tag := RowsOf(byTag, s.tag) + [s]];
      }
    }
    assert samples[..|samples|] == samples;
  }

  lemma {:induction false} BucketedSnoc(
    byTag: map<string, seq<Sample>>, tags: seq<string>, samples: seq<Sample>, s: Sample)
    requires Bucketed(byTag, tags, samples)
    ensures s.value.None? ==> Bucketed(byTag, tags, samples + [s])
    ensures s.value.Some? ==>
              Bucketed(byTag[s.tag := RowsOf(byTag, s.tag) + [s]], if s.tag in byTag then tags else tags + [s.tag], samples + [s])
  {
    BucketSnoc(samples, s);
    if s.value.Some? {
      var grown := byTag[s.tag := RowsOf(byTag, s.tag) + [s]];
      forall t
        ensures RowsOf(grown, t) == Bucket(samples + [s], t)
      {
        assert RowsOf(byTag, t) == Bucket(samples, t);
      }
    }
  }

  lemma {:induction false} BucketSnoc(samples: seq<Sample>, s: Sample)
    ensures forall t :: Bucket(samples + [s], t) ==
              if s.tag == t && s.value.Some? then Bucket(samples, t) + [s] else Bucket(samples, t)
    ensures TagsOf(samples + [s]) ==
              if s.value.Some? && s.tag !in TagsOf(samples) then TagsOf(samples) + [s.tag] else TagsOf(samples)
  {
    var all := samples + [s];
    assert all[..|all| - 1] == samples;
    forall t
      ensures Bucket(all, t) == if s.tag == t && s.value.Some? then Bucket(samples, t) + [s] else Bucket(samples, t)
    {
      assert Bucket(samples, t) + [] == Bucket(samples, t);
    }
  }

  /** The loop over the buckets. */
  method JudgeBuckets(
    tags: seq<string>, byTag: map<string, seq<Sample>>, onset: real, spread: seq<real> -> Positive,
    ghost judge: string -> Option<Deviation>)
    returns (ds: seq<Deviation>)
    requires forall t {:trigger RowsOf(byTag, t)} :: judge(t) == Judge(t, Sort(RowsOf(byTag, t), Earlier), onset, spread)
    ensures ds == Judged(tags, judge)
  {
    ds := [];
    var rest := tags;
    while rest != []
      invariant ds + Judged(rest, judge) == Judged(tags, judge)
      decreases |rest|
    {
      var d := Judge(rest[0], Sort(RowsOf(byTag, rest[0]), Earlier), onset, spread);
      if d.Some? {
        ConcatAssociates(ds, [d.value], Judged(rest[1..], judge));
        ds := ds + [d.value];
      } else {
        assert [] + Judged(rest[1..], judge) == Judged(rest[1..], judge);
      }
      rest := rest[1..];
    }
    assert ds + [] == ds;
  }

  method ExtractSignature(samples: seq<Sample>, onset: real, spread: seq<real> -> Positive) returns (ds: seq<Deviation>)
    ensures ds == Extracted(samples, onset, spread)
  {
    var byTag, tags := BucketByTag(samples);
    ds := JudgeBuckets(tags, byTag, onset, spread, Judging(samples, onset, spread));
    ds := RankFrom(Sort(ds, MovedBefore), 0);
  }

  // ---- matching -----------------------------------------------------------------------------------

  const RANK_FLOOR := 0.5

  /** `{d.tag_id: d for d in deviations}`. */
  function ByTag(ds: seq<Deviation>): map<string, Deviation> {
    if ds == [] then map[] else ByTag(ds[..|ds| - 1])[ds[|ds| - 1].tag := ds[|ds| - 1]]
  }

  function RankOf(m: map<string, Deviation>, tag: string): int {
    if tag in m then m[tag].rank else 0
  }

  /** `a` moved before `b` in both signatures. */
  function Concordant(q: map<string, Deviation>, c: map<string, Deviation>): (string, string) -> bool {
    (a: string, b: string) => RankOf(q, a) < RankOf(q, b) && RankOf(c, a) < RankOf(c, b)
  }

  /** `a` moved before `b` in the first signature and after it in the second. */
  function Discordant(q: map<string, Deviation>, c: map<string, Deviation>): (string, string) -> bool {
    (a: string, b: string) => RankOf(q, a) < RankOf(q, b) && RankOf(c, a) > RankOf(c, b)
  }

  lemma {:induction false} RelationsMean(q: map<string, Deviation>, c: map<string, Deviation>, a: string, b: string)
    ensures Concordant(q, c)(a, b) <==> RankOf(q, a) < RankOf(q, b) && RankOf(c, a) < RankOf(c, b)
    ensures Discordant(q, c)(a, b) <==> RankOf(q, a) < RankOf(q, b) && RankOf(c, a) > RankOf(c, b)
  {
  }

  /** The pairs of `tags` in a relation. */
  function Pairs(tags: set<string>, rel: (string, string) -> bool): set<(string, string)> {
    set a, b | a in tags && b in tags && rel(a, b) :: (a, b)
  }

  /** The fraction of ordered pairs that are concordant. */
  function RankAgreement(tags: set<string>, q: map<string, Deviation>, c: map<string, Deviation>): real {
    var agreeing, opposed := |Pairs(tags, Concordant(q, c))|, |Pairs(tags, Discordant(q, c))|;
    if agreeing + opposed == 0 then 1.0 else agreeing as real / (agreeing + opposed) as real
  }

  function Agreeing(q: map<string, Deviation>, c: map<string, Deviation>): set<string> {
    set t | t in q.Keys && t in c.Keys && q[t].high == c[t].high
  }

  /** Signed overlap over the union of the tags, scaled by the agreement in order. */
  function Combined(agree: nat, conflict: nat, union: nat, agreement: real): real
    requires union > 0
  {
    var overlap := (agree - conflict) as real / union as real;
    if overlap <= 0.0 then 0.0 else overlap * (RANK_FLOOR + (1.0 - RANK_FLOOR) * agreement)
  }

  /** `_score`. */
  function Score(query: seq<Deviation>, candidate: seq<Deviation>): real {
    var q, c := ByTag(query), ByTag(candidate);
    if q == map[] || c == map[] then 0.0
    else
      var agree, union := Agreeing(q, c), q.Keys + c.Keys;
      assert |union| > 0 by {
        var t :| t in q;
        assert t in union;
      }
      Combined(|agree|, |q.Keys * c.Keys - agree|, |union|, RankAgreement(agree, q, c))
  }

  /** Highest confidence first; ties break on the id. */
  predicate RanksBefore(a: Match, b: Match) {
    a.confidence > b.confidence || (a.confidence == b.confidence && Less(a.id, b.id))
  }

  function Matches(query: seq<Deviation>, library: seq<FaultMode>, least: real, rounded: real -> real): seq<Match> {
    if library == [] then []
    else
      var last := library[|library| - 1];
      var score := Score(query, last.signature);
      Matches(query, library[..|library| - 1], least, rounded)
      + if score >= least then [Match(last.id, last.cause, rounded(score))] else []
  }

  function Matched(
    query: seq<Deviation>, library: seq<FaultMode>, topK: int, least: real, rounded: real -> real): seq<Match>
  {
    var ranked := Sort(Matches(query, library, least, rounded), RanksBefore);
    ranked[..Cut(|ranked|, topK)]
  }

  /** How many elements the slice `[:stop]` keeps: a negative stop counts from the end. */
  function Cut(size: nat, stop: int): (n: nat)
    ensures n <= size
  {
    var n := if stop < 0 then size + stop else stop;
    if n < 0 then 0 else if n > size then size else n
  }

  // ---- the loops ----------------------------------------------------------------------------------

  /** How many of `tags` are in the relation with `a`, either way round. */
  function With(a: string, tags: seq<string>, rel: (string, string) -> bool): nat {
    if tags == [] then 0 else (if rel(a, tags[0]) || rel(tags[0], a) then 1 else 0) + With(a, tags[1..], rel)
  }

  function PairCount(tags: seq<string>, rel: (string, string) -> bool): nat {
    if tags == [] then 0 else With(tags[0], tags[1..], rel) + PairCount(tags[1..], rel)
  }

  ghost predicate Listing(tags: seq<string>, s: set<string>) {
    && (forall i, j :: 0 <= i < j < |tags| ==> tags[i] != tags[j])
    && forall t :: t in tags <==> t in s
  }

  ghost predicate Asymmetric(rel: (string, string) -> bool, s: set<string>) {
    forall a, b :: a in s && b in s && rel(a, b) ==> !rel(b, a)
  }

  lemma {:induction false} ListingRest(tags: seq<string>, s: set<string>)
    requires Listing(tags, s) && tags != []
    ensures tags[0] in s && Listing(tags[1..], s - {tags[0]})
  {
    var rest := tags[1..];
    assert tags == [tags[0]] + rest;
    forall t | t in rest
      ensures t != tags[0]
    {
      var k :| 0 <= k < |rest| && rest[k] == t;
      assert tags[k + 1] == t;
    }
  }

  /** Counting pairs along any listing of a set counts the set's pairs. */
  lemma {:induction false} CountIsCardinality(tags: seq<string>, s: set<string>, rel: (string, string) -> bool)
    requires Listing(tags, s) && Asymmetric(rel, s)
    ensures PairCount(tags, rel) == |Pairs(s, rel)|
    decreases tags
  {
    if tags == [] {
      assert s == {};
      assert Pairs(s, rel) == {};
    } else {
      var a, rest := tags[0], tags[1..];
      var less := s - {a};
      ListingRest(tags, s);
      CountIsCardinality(rest, less, rel);
      Around(a, rest, less, rel);
      PairsSplit(a, less, rel);
      assert s == less + {a};
    }
  }

  /** The pairs of `a` with the tags of `s`. */
  function PairsWith(a: string, s: set<string>, rel: (string, string) -> bool): set<(string, string)> {
    (set b | b in s && rel(a, b) :: (a, b)) + (set b | b in s && rel(b, a) :: (b, a))
  }

  lemma {:induction false} PairsSplit(a: string, s: set<string>, rel: (string, string) -> bool)
    requires a !in s && Asymmetric(rel, s + {a})
    ensures |Pairs(s + {a}, rel)| == |Pairs(s, rel)| + |PairsWith(a, s, rel)|
  {
    var before, added := Pairs(s, rel), PairsWith(a, s, rel);
    assert Pairs(s + {a}, rel) == before + added;
    assert before !! added;
  }

  lemma {:induction false} Around(a: string, tags: seq<string>, s: set<string>, rel: (string, string) -> bool)
    requires Listing(tags, s) && Asymmetric(rel, s + {a}) && a !in s
    ensures With(a, tags, rel) == |PairsWith(a, s, rel)|
    decreases tags
  {
    if tags == [] {
      assert s == {};
      assert PairsWith(a, s, rel) == {};
    } else {
      var b, rest := tags[0], tags[1..];
      var less := s - {b};
      ListingRest(tags, s);
      Around(a, rest, less, rel);
      NeighbourAdded(a, b, less, rel);
      assert s == less + {b};
    }
  }

  lemma {:induction false} NeighbourAdded(a: string, b: string, s: set<string>, rel: (string, string) -> bool)
    requires b !in s && a !in s && a != b && !(rel(a, b) && rel(b, a))
    ensures |PairsWith(a, s + {b}, rel)| == |PairsWith(a, s, rel)| + if rel(a, b) || rel(b, a) then 1 else 0
  {
    var whole, part := PairsWith(a, s + {b}, rel), PairsWith(a, s, rel);
    var p := if rel(a, b) then (a, b) else (b, a);
    forall x, y
      ensures (x, y) in whole <==> (x, y) in part || ((x, y) == p && (rel(a, b) || rel(b, a)))
    {
      InPairsWith(a, s + {b}, rel, x, y);
      InPairsWith(a, s, rel, x, y);
    }
    InPairsWith(a, s, rel, p.0, p.1);
    if rel(a, b) || rel(b, a) {
      assert whole == part + {p};
    } else {
      assert whole == part;
    }
  }

  lemma {:induction false} InPairsWith(a: string, s: set<string>, rel: (string, string) -> bool, x: string, y: string)
    ensures (x, y) in PairsWith(a, s, rel) <==> (x == a && y in s && rel(a, y)) || (y == a && x in s && rel(x, a))
  {
  }

  /** The inner loop: `a` against the tags after it. */
  method CountWith(a: string, tags: seq<string>, q: map<string, Deviation>, c: map<string, Deviation>)
    returns (pairs: nat, concordant: nat)
    requires a in q && a in c && forall t :: t in tags ==> t in q && t in c
    ensures concordant == With(a, tags, Concordant(q, c))
    ensures pairs == concordant + With(a, tags, Discordant(q, c))
  {
    pairs, concordant := 0, 0;
    var rest := tags;
    while rest != []
      invariant forall t :: t in rest ==> t in q && t in c
      invariant concordant <= pairs
      invariant concordant + With(a, rest, Concordant(q, c)) == With(a, tags, Concordant(q, c))
      invariant pairs - concordant + With(a, rest, Discordant(q, c)) == With(a, tags, Discordant(q, c))
      decreases |rest|
    {
      var b := rest[0];
      RelationsMean(q, c, a, b);
      RelationsMean(q, c, b, a);
      var qOrder, cOrder := q[a].rank - q[b].rank, c[a].rank - c[b].rank;
      if qOrder != 0 && cOrder != 0 {
        pairs := pairs + 1;
        if (qOrder > 0) == (cOrder > 0) {
          concordant := concordant + 1;
        }
      }
      rest := rest[1..];
    }
  }

  /** The loops over index pairs, along any listing of the tags. */
  method CountPairs(tags: seq<string>, ghost s: set<string>, q: map<string, Deviation>, c: map<string, Deviation>)
    returns (agreement: real)
    requires Listing(tags, s) && forall t :: t in tags ==> t in q && t in c
    ensures agreement == RankAgreement(s, q, c)
  {
    var pairs, concordant := 0, 0;
    var rest := tags;
    while rest != []
      invariant forall t :: t in rest ==> t in q && t in c
      invariant concordant <= pairs
      invariant concordant + PairCount(rest, Concordant(q, c)) == PairCount(tags, Concordant(q, c))
      invariant pairs - concordant + PairCount(rest, Discordant(q, c)) == PairCount(tags, Discordant(q, c))
      decreases |rest|
    {
      var morePairs, moreConcordant := CountWith(rest[0], rest[1..], q, c);
      pairs, concordant := pairs + morePairs, concordant + moreConcordant;
      rest := rest[1..];
    }
    CountIsCardinality(tags, s, Concordant(q, c));
    CountIsCardinality(tags, s, Discordant(q, c));
    if pairs == 0 {
      return 1.0;
    }
    return concordant as real / pairs as real;
  }

  method MatchSignature(
    query: seq<Deviation>, library: seq<FaultMode>, topK: int, least: real, rounded: real -> real)
    returns (matches: seq<Match>)
    ensures matches == Matched(query, library, topK, least, rounded)
  {
    matches := [];
    for k := 0 to |library|
      invariant matches == Matches(query, library[..k], least, rounded)
    {
      assert library[..k + 1][..k] == library[..k];
      var fm := library[k];
      var confidence := Score(query, fm.signature);
      if confidence >= least {
        matches := matches + [Match(fm.id, fm.cause, rounded(confidence))];
      }
    }
    assert library[..|library|] == library;
    matches := Sort(matches, RanksBefore);
    matches := matches[..Cut(|matches|, topK)];
  }
}

/** What extraction and scoring promise. */
module SignatureLaws {
  import opened Sorting
  import opened Wrappers
  import opened Signatures

  // ---- the score ------------------------------------------------------------------------------------

  lemma {:induction false} FractionWithin(a: nat, b: nat)
    requires b > 0 && a <= b
    ensures 0.0 <= a as real / b as real <= 1.0
    ensures a as real / b as real == 1.0 <==> a == b
  {
    var f := a as real / b as real;
    assert f * b as real == a as real;
    assert f < 0.0 ==> f * b as real < 0.0;
    assert f > 1.0 ==> f * b as real > b as real;
  }

  lemma {:induction false} AgreementWithin(tags: set<string>, q: map<string, Deviation>, c: map<string, Deviation>)
    ensures 0.0 <= RankAgreement(tags, q, c) <= 1.0
    ensures RankAgreement(tags, q, c) == 1.0 <==> Pairs(tags, Discordant(q, c)) == {}
  {
    var con, dis := |Pairs(tags, Concordant(q, c))|, |Pairs(tags, Discordant(q, c))|;
    if con + dis > 0 {
      FractionWithin(con, con + dis);
    }
  }

  lemma {:induction false} Sizes(q: map<string, Deviation>, c: map<string, Deviation>)
    requires q != map[]
    ensures var agree := Agreeing(q, c);
            var conflict, union := q.Keys * c.Keys - agree, q.Keys + c.Keys;
            && |agree| <= |union| && |union| > 0 && conflict !! agree
            && (|agree| - |conflict| == |union| <==> agree == union)
  {
    var agree := Agreeing(q, c);
    var conflict, union := q.Keys * c.Keys - agree, q.Keys + c.Keys;
    var t :| t in q;
    assert t in union;
    assert agree <= union;
    Subsets(agree, union);
    if agree == union {
      assert conflict == {};
    }
  }

  lemma {:induction false} Subsets<T>(a: set<T>, b: set<T>)
    requires a <= b
    ensures |a| <= |b| && (|a| == |b| <==> a == b)
  {
    assert b == a + (b - a);
    assert |b| == |a| + |b - a|;
  }

  lemma {:induction false} AtMostOne(n: int, u: nat)
    requires n <= u && u > 0
    ensures n as real / u as real <= 1.0 && (n as real / u as real == 1.0 <==> n == u)
  {
    var f := n as real / u as real;
    assert f * u as real == n as real;
    assert f > 1.0 ==> f * u as real > u as real;
  }

  lemma {:induction false} Scaled(overlap: real, rank: real)
    requires 0.0 < overlap <= 1.0 && 0.0 <= rank <= 1.0
    ensures var score := overlap * (RANK_FLOOR + (1.0 - RANK_FLOOR) * rank);
            && 0.5 * overlap <= score <= overlap
            && (score == 1.0 <==> overlap == 1.0 && rank == 1.0)
  {
    var f := RANK_FLOOR + (1.0 - RANK_FLOOR) * rank;
    assert 0.5 <= f <= 1.0;
    assert overlap * (f - 0.5) >= 0.0 && overlap * (1.0 - f) >= 0.0;
    assert overlap * f == overlap * (f - 0.5) + 0.5 * overlap;
    assert overlap * f == overlap - overlap * (1.0 - f);
  }

  lemma {:induction false} CombinedWithin(agree: nat, conflict: nat, union: nat, agreement: real)
    requires union > 0 && agree <= union && 0.0 <= agreement <= 1.0
    ensures 0.0 <= Combined(agree, conflict, union, agreement) <= 1.0
    ensures Combined(agree, conflict, union, agreement) == 1.0 <==> agree - conflict == union && agreement == 1.0
  {
    var overlap := (agree - conflict) as real / union as real;
    AtMostOne(agree - conflict, union);
    if overlap > 0.0 {
      Scaled(overlap, agreement);
    }
  }

  /** The score is in [0, 1]. */
  lemma {:induction false} ScoreWithin(query: seq<Deviation>, candidate: seq<Deviation>)
    ensures 0.0 <= Score(query, candidate) <= 1.0
  {
    var q, c := ByTag(query), ByTag(candidate);
    if q != map[] && c != map[] {
      Sizes(q, c);
      var agree := Agreeing(q, c);
      AgreementWithin(agree, q, c);
      CombinedWithin(|agree|, |q.Keys * c.Keys - agree|, |q.Keys + c.Keys|, RankAgreement(agree, q, c));
    }
  }

  /** Both signatures have the same tags, moved the same way, and no two of them in opposite order. */
  predicate Alike(q: map<string, Deviation>, c: map<string, Deviation>) {
    && q.Keys == c.Keys
    && (forall t :: t in q ==> q[t].high == c[t].high)
    && forall a, b :: a in q && b in q && q[a].rank < q[b].rank ==> c[a].rank <= c[b].rank
  }

  /** The score is 1 exactly for non-empty signatures that are alike. */
  lemma {:induction false} PerfectScore(query: seq<Deviation>, candidate: seq<Deviation>)
    ensures Score(query, candidate) == 1.0 <==> query != [] && Alike(ByTag(query), ByTag(candidate))
  {
    var q, c := ByTag(query), ByTag(candidate);
    ByTagEmpty(query);
    ByTagEmpty(candidate);
    if q != map[] && c != map[] {
      Sizes(q, c);
      AlikeParts(q, c);
      var agree := Agreeing(q, c);
      AgreementWithin(agree, q, c);
      CombinedWithin(|agree|, |q.Keys * c.Keys - agree|, |q.Keys + c.Keys|, RankAgreement(agree, q, c));
    } else {
      assert q == map[] || c.Keys != q.Keys;
    }
  }

  lemma {:induction false} ByTagEmpty(ds: seq<Deviation>)
    ensures ByTag(ds) == map[] <==> ds == []
  {
    if ds != [] {
      assert ds[|ds| - 1].tag in ByTag(ds);
    }
  }

  lemma {:induction false} AlikeParts(q: map<string, Deviation>, c: map<string, Deviation>)
    ensures Alike(q, c) <==>
              Agreeing(q, c) == q.Keys + c.Keys && Pairs(Agreeing(q, c), Discordant(q, c)) == {}
  {
    var agree := Agreeing(q, c);
    if Alike(q, c) {
      assert agree == q.Keys + c.Keys;
      forall a, b
        ensures (a, b) !in Pairs(agree, Discordant(q, c))
      {
        InPairs(agree, Discordant(q, c), a, b);
        RelationsMean(q, c, a, b);
      }
    }
    if agree == q.Keys + c.Keys && Pairs(agree, Discordant(q, c)) == {} {
      forall t | t in q.Keys + c.Keys
        ensures t in q && t in c && q[t].high == c[t].high
      {
        assert t in agree;
      }
      forall a, b | a in q && b in q && q[a].rank < q[b].rank
        ensures c[a].rank <= c[b].rank
      {
        InPairs(agree, Discordant(q, c), a, b);
        RelationsMean(q, c, a, b);
        assert a in q.Keys + c.Keys && b in q.Keys + c.Keys;
      }
    }
  }

  lemma {:induction false} InPairs(tags: set<string>, rel: (string, string) -> bool, a: string, b: string)
    ensures (a, b) in Pairs(tags, rel) <==> a in tags && b in tags && rel(a, b)
  {
  }

  /** Any non-empty signature scores 1 against itself. */
  lemma {:induction false} SelfScore(ds: seq<Deviation>)
    requires ds != []
    ensures Score(ds, ds) == 1.0
  {
    PerfectScore(ds, ds);
  }

  lemma {:induction false} ListOf(s: set<string>) returns (tags: seq<string>)
    ensures Listing(tags, s)
    decreases s
  {
    if s == {} {
      tags := [];
    } else {
      var t :| t in s;
      var rest := ListOf(s - {t});
      tags := [t] + rest;
    }
  }

  lemma {:induction false} SameNeighbours(a: string, tags: seq<string>, q: map<string, Deviation>, c: map<string, Deviation>)
    ensures With(a, tags, Discordant(q, c)) == With(a, tags, Discordant(c, q))
    ensures With(a, tags, Concordant(q, c)) == With(a, tags, Concordant(c, q))
    decreases tags
  {
    if tags != [] {
      RelationsMean(q, c, a, tags[0]);
      RelationsMean(q, c, tags[0], a);
      RelationsMean(c, q, a, tags[0]);
      RelationsMean(c, q, tags[0], a);
      SameNeighbours(a, tags[1..], q, c);
    }
  }

  lemma {:induction false} SameCounts(tags: seq<string>, q: map<string, Deviation>, c: map<string, Deviation>)
    ensures PairCount(tags, Discordant(q, c)) == PairCount(tags, Discordant(c, q))
    ensures PairCount(tags, Concordant(q, c)) == PairCount(tags, Concordant(c, q))
    decreases tags
  {
    if tags != [] {
      SameNeighbours(tags[0], tags[1..], q, c);
      SameCounts(tags[1..], q, c);
    }
  }

  lemma {:induction false} AgreementIsSymmetric(s: set<string>, q: map<string, Deviation>, c: map<string, Deviation>)
    ensures RankAgreement(s, q, c) == RankAgreement(s, c, q)
  {
    var tags := ListOf(s);
    SameCounts(tags, q, c);
    CountsOf(tags, s, q, c);
    CountsOf(tags, s, c, q);
  }

  lemma {:induction false} CountsOf(tags: seq<string>, s: set<string>, q: map<string, Deviation>, c: map<string, Deviation>)
    requires Listing(tags, s)
    ensures |Pairs(s, Concordant(q, c))| == PairCount(tags, Concordant(q, c))
    ensures |Pairs(s, Discordant(q, c))| == PairCount(tags, Discordant(q, c))
  {
    CountIsCardinality(tags, s, Concordant(q, c));
    CountIsCardinality(tags, s, Discordant(q, c));
  }

  /** The score does not depend on which signature is the query. */
  lemma {:induction false} ScoreIsSymmetric(query: seq<Deviation>, candidate: seq<Deviation>)
    ensures Score(query, candidate) == Score(candidate, query)
  {
    var q, c := ByTag(query), ByTag(candidate);
    if q != map[] && c != map[] {
      var agree := Agreeing(q, c);
      assert agree == Agreeing(c, q);
      assert q.Keys * c.Keys - agree == c.Keys * q.Keys - agree;
      assert q.Keys + c.Keys == c.Keys + q.Keys;
      AgreementIsSymmetric(agree, q, c);
    }
  }

  // ---- the ranked list --------------------------------------------------------------------------------

  lemma {:induction false} LessFacts()
    ensures forall a, b :: Less(a, b) ==> !Less(b, a)
    ensures forall a, b :: a == b || Less(a, b) || Less(b, a)
    ensures forall a, b, c :: Less(a, b) && Less(b, c) ==> Less(a, c)
  {
    forall a, b
      ensures (Less(a, b) ==> !Less(b, a)) && (a == b || Less(a, b) || Less(b, a))
    {
      LessIsTotal(a, b);
    }
    forall a, b, c | Less(a, b) && Less(b, c)
      ensures Less(a, c)
    {
      LessChains(a, b, c);
    }
  }

  lemma {:induction false} RanksBeforeOrders()
    ensures WeakOrder(RanksBefore) && Separates(RanksBefore, (m: Match) => m.id)
  {
    LessFacts();
  }

  lemma {:induction false} MatchIn(query: seq<Deviation>, library: seq<FaultMode>, least: real, rounded: real -> real, fm: FaultMode)
    requires fm in library && Score(query, fm.signature) >= least
    ensures Match(fm.id, fm.cause, rounded(Score(query, fm.signature))) in Matches(query, library, least, rounded)
    decreases library
  {
    var init, last := library[..|library| - 1], library[|library| - 1];
    assert library == init + [last];
    if fm != last {
      MatchIn(query, init, least, rounded, fm);
    }
  }

  lemma {:induction false} MatchFrom(query: seq<Deviation>, library: seq<FaultMode>, least: real, rounded: real -> real, m: Match)
    returns (fm: FaultMode)
    requires m in Matches(query, library, least, rounded)
    ensures fm in library && Score(query, fm.signature) >= least
    ensures m == Match(fm.id, fm.cause, rounded(Score(query, fm.signature)))
    decreases library
  {
    var init, last := library[..|library| - 1], library[|library| - 1];
    if m in Matches(query, init, least, rounded) {
      fm := MatchFrom(query, init, least, rounded, m);
      assert fm in init;
    } else {
      fm := last;
    }
  }

  lemma {:induction false} MatchesDistinct(query: seq<Deviation>, library: seq<FaultMode>, least: real, rounded: real -> real)
    requires Distinct(library, (fm: FaultMode) => fm.id)
    ensures Distinct(Matches(query, library, least, rounded), (m: Match) => m.id)
    decreases library
  {
    if library != [] {
      var init, last := library[..|library| - 1], library[|library| - 1];
      MatchesDistinct(query, init, least, rounded);
      var before := Matches(query, init, least, rounded);
      forall k | 0 <= k < |before|
        ensures before[k].id != last.id
      {
        var fm := MatchFrom(query, init, least, rounded, before[k]);
        var j :| 0 <= j < |init| && init[j] == fm;
        assert library[j] == fm;
      }
    }
  }

  /** With distinct fault-mode ids the ranked list does not depend on the order of the library. */
  lemma {:induction false} LibraryOrderIsIrrelevant(
    query: seq<Deviation>, a: seq<FaultMode>, b: seq<FaultMode>, topK: int, least: real, rounded: real -> real)
    requires Distinct(a, (fm: FaultMode) => fm.id) && Distinct(b, (fm: FaultMode) => fm.id)
    requires forall fm :: fm in a <==> fm in b
    ensures Matched(query, a, topK, least, rounded) == Matched(query, b, topK, least, rounded)
  {
    var ma, mb := Matches(query, a, least, rounded), Matches(query, b, least, rounded);
    forall m
      ensures m in ma <==> m in mb
    {
      if m in ma {
        var fm := MatchFrom(query, a, least, rounded, m);
        MatchIn(query, b, least, rounded, fm);
      }
      if m in mb {
        var fm := MatchFrom(query, b, least, rounded, m);
        MatchIn(query, a, least, rounded, fm);
      }
    }
    MatchesDistinct(query, a, least, rounded);
    MatchesDistinct(query, b, least, rounded);
    RanksBeforeOrders();
    SortForgetsOrder(ma, mb, RanksBefore, (m: Match) => m.id);
  }

  // ---- extraction -------------------------------------------------------------------------------------

  lemma {:induction false} MovedBeforeOrders()
    ensures WeakOrder(MovedBefore) && Separates(MovedBefore, (d: Deviation) => d.tag)
  {
    LessFacts();
  }

  lemma {:induction false} BucketMembers(samples: seq<Sample>, tag: string)
    ensures forall x :: x in Bucket(samples, tag) <==> x in samples && x.tag == tag && x.value.Some?
    decreases samples
  {
    if samples != [] {
      var init, last := samples[..|samples| - 1], samples[|samples| - 1];
      BucketMembers(init, tag);
      assert samples == init + [last];
      assert Bucket(init, tag) + [] == Bucket(init, tag);
    }
  }

  lemma {:induction false} TagsMembers(samples: seq<Sample>)
    ensures forall t :: t in TagsOf(samples) <==> Bucket(samples, t) != []
    ensures Distinct(TagsOf(samples), (t: string) => t)
    decreases samples
  {
    if samples != [] {
      var init, last := samples[..|samples| - 1], samples[|samples| - 1];
      TagsMembers(init);
      BucketSnoc(init, last);
      assert samples == init + [last];
    }
  }

  lemma {:induction false} JudgedMembers(tags: seq<string>, judge: string -> Option<Deviation>)
    requires Distinct(tags, (t: string) => t) && forall t :: judge(t).Some? ==> judge(t).value.tag == t
    ensures forall d :: d in Judged(tags, judge) <==> d.tag in tags && judge(d.tag) == Some(d)
    ensures Distinct(Judged(tags, judge), (d: Deviation) => d.tag)
    decreases tags
  {
    if tags != [] {
      var rest, later := tags[1..], Judged(tags[1..], judge);
      forall i, j | 0 <= i < j < |rest|
        ensures rest[i] != rest[j]
      {
        assert ((t: string) => t)(tags[i + 1]) != ((t: string) => t)(tags[j + 1]);
      }
      JudgedMembers(rest, judge);
      assert tags == [tags[0]] + rest;
      forall k | 0 <= k < |rest|
        ensures rest[k] != tags[0]
      {
        assert ((t: string) => t)(tags[0]) != ((t: string) => t)(tags[k + 1]);
      }
      if judge(tags[0]).Some? {
        assert forall k :: 0 <= k < |later| ==> later[k] in later;
      } else {
        assert [] + later == later;
      }
    }
  }

  lemma {:induction false} JudgingTags(samples: seq<Sample>, onset: real, spread: seq<real> -> Positive)
    ensures var judge := Judging(samples, onset, spread);
            forall t :: judge(t).Some? ==> judge(t).value.tag == t
  {
  }

  /** The signature lists each tag once, in the order they moved, ranked 0, 1, 2 and so on. */
  lemma {:induction false} ExtractedRanks(samples: seq<Sample>, onset: real, spread: seq<real> -> Positive)
    ensures var ds := Extracted(samples, onset, spread);
            && Strict(ds, MovedBefore) && Distinct(ds, (d: Deviation) => d.tag)
            && forall k :: 0 <= k < |ds| ==> ds[k].rank == k
  {
    var judged := Judged(TagsOf(samples), Judging(samples, onset, spread));
    TagsMembers(samples);
    JudgingTags(samples, onset, spread);
    JudgedMembers(TagsOf(samples), Judging(samples, onset, spread));
    MovedBeforeOrders();
    SortIsStrict(judged, MovedBefore, (d: Deviation) => d.tag);
    SortKeepsDistinct(judged, MovedBefore, (d: Deviation) => d.tag);
    var sorted, ds := Sort(judged, MovedBefore), Extracted(samples, onset, spread);
    forall i, j | 0 <= i < j < |ds|
      ensures MovedBefore(ds[i], ds[j]) && ds[i].tag != ds[j].tag
    {
      assert MovedBefore(sorted[i], sorted[j]);
      assert ((d: Deviation) => d.tag)(sorted[i]) != ((d: Deviation) => d.tag)(sorted[j]);
    }
  }

  /** No two samples of a tag carry a value at the same time. */
  predicate TimesApart(samples: seq<Sample>) {
    forall i, j :: 0 <= i < j < |samples| && samples[i].tag == samples[j].tag && samples[i].value.Some? && samples[j].value.Some?
      ==> samples[i].ts != samples[j].ts
  }

  lemma {:induction false} BucketApart(samples: seq<Sample>, tag: string)
    requires TimesApart(samples)
    ensures Distinct(Bucket(samples, tag), (s: Sample) => s.ts)
    decreases samples
  {
    if samples != [] {
      var init, last := samples[..|samples| - 1], samples[|samples| - 1];
      BucketApart(init, tag);
      BucketMembers(init, tag);
      var rows := Bucket(init, tag);
      if last.tag == tag && last.value.Some? {
        forall k | 0 <= k < |rows|
          ensures rows[k].ts != last.ts
        {
          assert rows[k] in rows;
          var j :| 0 <= j < |init| && init[j] == rows[k];
          assert samples[j] == init[j];
        }
      } else {
        assert rows + [] == rows;
      }
    }
  }

  lemma {:induction false} RowsForgetOrder(a: seq<Sample>, b: seq<Sample>, tag: string)
    requires TimesApart(a) && TimesApart(b) && forall x :: x in a <==> x in b
    ensures Sort(Bucket(a, tag), Earlier) == Sort(Bucket(b, tag), Earlier)
    ensures Bucket(a, tag) != [] <==> Bucket(b, tag) != []
  {
    BucketApart(a, tag);
    BucketApart(b, tag);
    BucketMembers(a, tag);
    BucketMembers(b, tag);
    SortForgetsOrder(Bucket(a, tag), Bucket(b, tag), Earlier, (s: Sample) => s.ts);
    if Bucket(a, tag) != [] {
      assert Bucket(a, tag)[0] in Bucket(b, tag);
    }
    if Bucket(b, tag) != [] {
      assert Bucket(b, tag)[0] in Bucket(a, tag);
    }
  }

  /** The signature does not depend on the order of the samples, as long as no tag has two values at
      the same time. */
  lemma {:induction false} SampleOrderIsIrrelevant(
    a: seq<Sample>, b: seq<Sample>, onset: real, spread: seq<real> -> Positive)
    requires TimesApart(a) && TimesApart(b) && forall x :: x in a <==> x in b
    ensures Extracted(a, onset, spread) == Extracted(b, onset, spread)
  {
    forall tag
      ensures Judging(a, onset, spread)(tag) == Judging(b, onset, spread)(tag)
      ensures Bucket(a, tag) != [] <==> Bucket(b, tag) != []
    {
      RowsForgetOrder(a, b, tag);
    }
    SameJudgements(a, b, onset, spread);
  }

  /** Windows with the same tags, judged the same, give the same signature. */
  lemma {:induction false} SameJudgements(
    a: seq<Sample>, b: seq<Sample>, onset: real, spread: seq<real> -> Positive)
    requires forall t :: Judging(a, onset, spread)(t) == Judging(b, onset, spread)(t)
    requires forall t :: Bucket(a, t) != [] <==> Bucket(b, t) != []
    ensures Extracted(a, onset, spread) == Extracted(b, onset, spread)
  {
    var judgeA, judgeB := Judging(a, onset, spread), Judging(b, onset, spread);
    var ja, jb := Judged(TagsOf(a), judgeA), Judged(TagsOf(b), judgeB);
    TagsMembers(a);
    TagsMembers(b);
    JudgingTags(a, onset, spread);
    JudgingTags(b, onset, spread);
    JudgedMembers(TagsOf(a), judgeA);
    JudgedMembers(TagsOf(b), judgeB);
    forall d
      ensures d in ja <==> d in jb
    {
      assert Bucket(a, d.tag) != [] <==> Bucket(b, d.tag) != [];
      assert judgeA(d.tag) == judgeB(d.tag);
    }
    MovedBeforeOrders();
    SortForgetsOrder(ja, jb, MovedBefore, (d: Deviation) => d.tag);
  }

  /** The judgement of a tag stands in the signature, with its rank. */
  lemma {:induction false} JudgementListed(samples: seq<Sample>, tag: string, onset: real, spread: seq<real> -> Positive)
    returns (k: nat)
    requires Judging(samples, onset, spread)(tag).Some?
    ensures k < |Extracted(samples, onset, spread)|
    ensures Extracted(samples, onset, spread)[k] == Judging(samples, onset, spread)(tag).value.(rank := k)
  {
    var judge := Judging(samples, onset, spread);
    var judged := Judged(TagsOf(samples), judge);
    TagsMembers(samples);
    JudgingTags(samples, onset, spread);
    JudgedMembers(TagsOf(samples), judge);
    var d := judge(tag).value;
    NoRows(samples, tag, onset, spread);
    assert d in judged;
    SortKeepsDistinct(judged, MovedBefore, (e: Deviation) => e.tag);
    assert d in Sort(judged, MovedBefore);
    k :| 0 <= k < |Sort(judged, MovedBefore)| && Sort(judged, MovedBefore)[k] == d;
  }

  lemma {:induction false} NoRows(samples: seq<Sample>, tag: string, onset: real, spread: seq<real> -> Positive)
    ensures Judging(samples, onset, spread)(tag).Some? ==> Bucket(samples, tag) != []
  {
  }

  /** A signature tells the judgement of each tag: different directions, different signatures. */
  lemma {:induction false} SignatureTells(
    a: seq<Sample>, b: seq<Sample>, tag: string, onset: real, spread: seq<real> -> Positive)
    requires Judging(a, onset, spread)(tag).Some? && Judging(b, onset, spread)(tag).Some?
    requires Judging(a, onset, spread)(tag).value.high != Judging(b, onset, spread)(tag).value.high
    ensures Extracted(a, onset, spread) != Extracted(b, onset, spread)
  {
    var i := JudgementListed(a, tag, onset, spread);
    var j := JudgementListed(b, tag, onset, spread);
    JudgingTags(a, onset, spread);
    JudgingTags(b, onset, spread);
    ExtractedRanks(a, onset, spread);
    if Extracted(a, onset, spread) == Extracted(b, onset, spread) {
      OnePlace(Extracted(a, onset, spread), i, j);
    }
  }

  lemma {:induction false} OnePlace(ds: seq<Deviation>, i: nat, j: nat)
    requires Distinct(ds, (d: Deviation) => d.tag) && i < |ds| && j < |ds|
    ensures ds[i].tag == ds[j].tag ==> i == j
  {
    var key := (d: Deviation) => d.tag;
    assert i < j ==> key(ds[i]) != key(ds[j]);
    assert j < i ==> key(ds[j]) != key(ds[i]);
  }

  /** Four samples of one tag: two of its baseline, then two at one time on opposite sides of it. */
  predicate Tied(p: Sample, q: Sample, x: Sample, y: Sample, onset: real, base: real, d: real) {
    && p.tag == q.tag == x.tag == y.tag && p.ts < q.ts < onset <= x.ts == y.ts
    && p.value == q.value == Some(base) && x.value == Some(base + d) && y.value == Some(base - d)
  }

  lemma {:induction false} TiedStats(p: Sample, q: Sample, x: Sample, y: Sample, onset: real, base: real, d: real)
    requires Tied(p, q, x, y, onset, base, d) || Tied(p, q, y, x, onset, base, -d)
    ensures Before([p, q, x, y], onset) == [base, base] && After([p, q, x, y], onset) == [x, y]
  {
    assert [p, q, x, y][1..] == [q, x, y] && [q, x, y][1..] == [x, y] && [x, y][1..] == [y] && [y][1..] == [];
    assert Before([y], onset) == [] + Before([], onset) == [];
    assert Before([x, y], onset) == [] + Before([y], onset) == [];
    assert Before([q, x, y], onset) == [base] + Before([x, y], onset) == [base];
    assert After([q, x, y], onset) == [] + After([x, y], onset);
    assert After([y], onset) == [y];
    assert After([x, y], onset) == [x] + [y];
  }

  /** The judged direction is that of whichever of the two comes first. */
  lemma {:induction false} TiedJudgement(
    p: Sample, q: Sample, x: Sample, y: Sample, onset: real, base: real, d: real, spread: seq<real> -> Positive)
    requires Tied(p, q, x, y, onset, base, d) || Tied(p, q, y, x, onset, base, -d)
    requires d != 0.0 && Distance(x, base) >= DEVIATION_SIGMA * spread([base, base])
    ensures var j := Judge(p.tag, [p, q, x, y], onset, spread);
            j.Some? && (j.value.high <==> x.value.value >= base)
  {
    TiedStats(p, q, x, y, onset, base, d);
    var post := [x, y];
    assert [base, base][1..] == [base] && [base][1..] == [] && Sum([base]) == base + Sum([]);
    assert Sum([base, base]) / 2.0 == base;
    assert Distance(x, base) == Distance(y, base);
    assert Breaches(post, base, DEVIATION_SIGMA * spread([base, base]))[0] == x;
    assert post[..1] == [x] && Peak([x], base) == x;
    assert Peak(post, base) == x;
  }

  lemma {:induction false} OneTag(a: Sample, b: Sample, c: Sample, d: Sample)
    requires a.tag == b.tag == c.tag == d.tag && a.ts <= b.ts <= c.ts <= d.ts
    requires a.value.Some? && b.value.Some? && c.value.Some? && d.value.Some?
    ensures TagsOf([a, b, c, d]) == [a.tag] && Sort(Bucket([a, b, c, d], a.tag), Earlier) == [a, b, c, d]
  {
    var none: seq<Sample> := [];
    assert none + [a] == [a] && [a] + [b] == [a, b] && [a, b] + [c] == [a, b, c] && [a, b, c] + [d] == [a, b, c, d];
    BucketSnoc(none, a);
    BucketSnoc([a], b);
    BucketSnoc([a, b], c);
    BucketSnoc([a, b, c], d);
    SortKeepsSorted([a, b, c, d], Earlier);
  }

  /** The documented independence of the samples' order is false with ties: when the two largest
      excursions of a tag come at one time on opposite sides, the direction follows their order. */
  lemma {:induction false} TiesFollowOrder(
    p: Sample, q: Sample, x: Sample, y: Sample, onset: real, base: real, d: real, spread: seq<real> -> Positive)
    requires Tied(p, q, x, y, onset, base, d) && d > 0.0 && d >= DEVIATION_SIGMA * spread([base, base])
    ensures Extracted([p, q, x, y], onset, spread) != Extracted([p, q, y, x], onset, spread)
  {
    OneTag(p, q, x, y);
    OneTag(p, q, y, x);
    TiedJudgement(p, q, x, y, onset, base, d, spread);
    TiedJudgement(p, q, y, x, onset, base, -d, spread);
    OneJudged([p, q, x, y], p.tag, onset, spread);
    OneJudged([p, q, y, x], p.tag, onset, spread);
  }

  lemma {:induction false} OneJudged(samples: seq<Sample>, tag: string, onset: real, spread: seq<real> -> Positive)
    requires TagsOf(samples) == [tag] && Judging(samples, onset, spread)(tag).Some?
    ensures Extracted(samples, onset, spread) == [Judging(samples, onset, spread)(tag).value.(rank := 0)]
  {
    var judge := Judging(samples, onset, spread);
    var d := judge(tag).value;
    assert [tag][1..] == [] && Judged([tag], judge) == [d] + [] == [d];
    SortKeepsSorted([d], MovedBefore);
  }
}
