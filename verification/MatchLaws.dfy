/** What a signature says of its samples, and what the score and the ranked list say of two signatures. */
module MatchLaws {
  import opened Sorting
  import opened Wrappers
  import opened Signatures
  import opened SignatureLaws

  // ---- the deviation of one tag ---------------------------------------------------------------------------

  lemma {:induction false} BeforeAre(rows: seq<Sample>, onset: real, v: real)
    ensures v in Before(rows, onset) <==> exists x :: x in rows && x.ts < onset && x.value == Some(v)
    decreases rows
  {
    if rows != [] {
      BeforeAre(rows[1..], onset, v);
      assert rows == [rows[0]] + rows[1..];
      if x :| x in rows && x.ts < onset && x.value == Some(v) {
        assert x == rows[0] || x in rows[1..];
      }
    }
  }

  lemma {:induction false} AfterAre(rows: seq<Sample>, onset: real, x: Sample)
    ensures x in After(rows, onset) <==> x in rows && x.ts >= onset
    decreases rows
  {
    if rows != [] {
      AfterAre(rows[1..], onset, x);
      assert rows == [rows[0]] + rows[1..];
    }
  }

  predicate Breach(x: Sample, mean: real, band: real) {
    Distance(x, mean) >= band
  }

  lemma {:induction false} BreachesAre(post: seq<Sample>, mean: real, band: real, x: Sample)
    ensures x in Breaches(post, mean, band) <==> x in post && Breach(x, mean, band)
    decreases post
  {
    if post != [] {
      BreachesAre(post[1..], mean, band, x);
      assert post == [post[0]] + post[1..];
    }
  }

  /** Every valued sample is in the baseline or in the reaction. */
  lemma {:induction false} RowsSplit(rows: seq<Sample>, onset: real)
    requires forall x :: x in rows ==> x.value.Some?
    ensures |Before(rows, onset)| + |After(rows, onset)| == |rows|
    decreases rows
  {
    if rows != [] {
      assert rows == [rows[0]] + rows[1..];
      RowsSplit(rows[1..], onset);
    }
  }

  /** The samples of a tag that count, in time order. */
  function RowsFor(samples: seq<Sample>, tag: string): seq<Sample> {
    Sort(Bucket(samples, tag), Earlier)
  }

  /** `x` is a sample of the tag with a value, at or after the onset. */
  predicate Reacts(samples: seq<Sample>, tag: string, onset: real, x: Sample) {
    x in samples && x.tag == tag && x.value.Some? && x.ts >= onset
  }

  lemma {:induction false} RowsAre(samples: seq<Sample>, tag: string)
    ensures Sorted(RowsFor(samples, tag), Earlier)
    ensures forall x :: x in RowsFor(samples, tag) <==> x in samples && x.tag == tag && x.value.Some?
  {
    BucketMembers(samples, tag);
    var rows := Bucket(samples, tag);
    if rows != [] {
      SortSorts(rows, Earlier, rows[0]);
    }
  }

  lemma {:induction false} ReactsAre(samples: seq<Sample>, tag: string, onset: real, x: Sample)
    ensures Reacts(samples, tag, onset, x) <==> x in After(RowsFor(samples, tag), onset)
  {
    RowsAre(samples, tag);
    AfterAre(RowsFor(samples, tag), onset, x);
  }

  /** Distances from the mean, as a difference of values. */
  lemma {:induction false} DistanceIs(x: Sample, mean: real)
    requires x.value.Some?
    ensures Distance(x, mean) >= 0.0
    ensures Distance(x, mean) == x.value.value - mean || Distance(x, mean) == mean - x.value.value
  {
  }

  /** Reaction `p` is the farthest from the mean, `far` off, and breach `b` the first. */
  ghost predicate Shows(
    samples: seq<Sample>, onset: real, mean: real, band: real, far: real, d: Deviation, p: Sample, b: Sample)
  {
    && Reacts(samples, d.tag, onset, p) && Distance(p, mean) == far
    && (d.high <==> p.value.Some? && p.value.value >= mean)
    && (forall y :: Reacts(samples, d.tag, onset, y) ==> Distance(y, mean) <= far)
    && Reacts(samples, d.tag, onset, b) && Breach(b, mean, band) && d.onset == b.ts - onset
    && forall y :: Reacts(samples, d.tag, onset, y) && Breach(y, mean, band) ==> y.ts >= b.ts
  }

  lemma {:induction false} PeakIsFarthest(post: seq<Sample>, mean: real)
    requires post != []
    ensures Peak(post, mean) in post
    ensures forall y :: y in post ==> Distance(y, mean) <= Distance(Peak(post, mean), mean)
    decreases post
  {
    if |post| > 1 {
      var init, last := post[..|post| - 1], post[|post| - 1];
      PeakIsFarthest(init, mean);
      assert post == init + [last];
    }
  }

  lemma {:induction false} Filtered(post: seq<Sample>, mean: real, band: real)
    requires Sorted(post, Earlier)
    ensures Sorted(Breaches(post, mean, band), Earlier)
    decreases post
  {
    if post != [] {
      var rest := Breaches(post[1..], mean, band);
      assert forall i, j :: 0 <= i < j < |post[1..]| ==> !Earlier(post[1..][j], post[1..][i]);
      Filtered(post[1..], mean, band);
      forall k | 0 <= k < |rest|
        ensures !Earlier(rest[k], post[0])
      {
        BreachesAre(post[1..], mean, band, rest[k]);
        assert rest[k] in rest;
        var j :| 0 <= j < |post[1..]| && post[1..][j] == rest[k];
        assert post[j + 1] == rest[k];
      }
    }
  }

  lemma {:induction false} LaterSorted(rows: seq<Sample>, onset: real)
    requires Sorted(rows, Earlier)
    ensures Sorted(After(rows, onset), Earlier)
    decreases rows
  {
    if rows != [] {
      var rest := After(rows[1..], onset);
      assert forall i, j :: 0 <= i < j < |rows[1..]| ==> !Earlier(rows[1..][j], rows[1..][i]);
      LaterSorted(rows[1..], onset);
      forall k | 0 <= k < |rest|
        ensures !Earlier(rest[k], rows[0])
      {
        AfterAre(rows[1..], onset, rest[k]);
        assert rest[k] in rest;
        var j :| 0 <= j < |rows[1..]| && rows[1..][j] == rest[k];
        assert rows[j + 1] == rest[k];
      }
    }
  }

  /** What makes a tag reported: two samples of baseline, a reaction, and a fifth of it, or one sample
      at least, four deviations off. */
  predicate Reported(rows: seq<Sample>, onset: real, spread: seq<real> -> Positive) {
    var pre, post := Before(rows, onset), After(rows, onset);
    && |pre| >= 2 && post != []
    && var off := |Breaches(post, Mean(pre), 4.0 * spread(pre))|;
    off >= 1 && off >= |post| / 5
  }

  lemma {:induction false} JudgedExactlyWhen(samples: seq<Sample>, tag: string, onset: real, spread: seq<real> -> Positive)
    ensures Judging(samples, onset, spread)(tag) == Judge(tag, RowsFor(samples, tag), onset, spread)
    ensures Judging(samples, onset, spread)(tag).Some? <==> Reported(RowsFor(samples, tag), onset, spread)
  {
    JudgeReports(tag, RowsFor(samples, tag), onset, spread);
  }

  lemma {:induction false} JudgeReports(tag: string, rows: seq<Sample>, onset: real, spread: seq<real> -> Positive)
    ensures Judge(tag, rows, onset, spread).Some? <==> Reported(rows, onset, spread)
  {
    var pre, post := Before(rows, onset), After(rows, onset);
    if |pre| >= 2 && post != [] {
      EnoughOff(tag, post, onset, Mean(pre), spread(pre));
    }
  }

  lemma {:induction false} EnoughOff(tag: string, post: seq<Sample>, onset: real, mean: real, std: Positive)
    requires post != []
    ensures Deviating(tag, post, onset, mean, std).Some? <==>
            |Breaches(post, mean, 4.0 * std)| >= 1 && |Breaches(post, mean, 4.0 * std)| >= |post| / 5
  {
  }

  lemma {:induction false} Scale(x: real, std: real)
    requires std > 0.0
    ensures x / std * std == x
  {
  }

  /** The same of the reactions in time order. */
  ghost predicate ShowsIn(post: seq<Sample>, onset: real, mean: real, band: real, far: real, d: Deviation, p: Sample, b: Sample) {
    && p in post && Distance(p, mean) == far
    && (d.high <==> p.value.Some? && p.value.value >= mean)
    && (forall y :: y in post ==> Distance(y, mean) <= far)
    && b in post && Breach(b, mean, band) && d.onset == b.ts - onset
    && forall y :: y in post && Breach(y, mean, band) ==> y.ts >= b.ts
  }

  lemma {:induction false} FirstOff(post: seq<Sample>, mean: real, band: real)
    requires Sorted(post, Earlier) && Breaches(post, mean, band) != []
    ensures var b := Breaches(post, mean, band)[0];
            b in post && Breach(b, mean, band) && forall y :: y in post && Breach(y, mean, band) ==> y.ts >= b.ts
  {
    var off := Breaches(post, mean, band);
    Filtered(post, mean, band);
    BreachesAre(post, mean, band, off[0]);
    assert off[0] in off;
    forall y | y in post && Breach(y, mean, band)
      ensures y.ts >= off[0].ts
    {
      BreachesAre(post, mean, band, y);
      var j :| 0 <= j < |off| && off[j] == y;
      assert j > 0 ==> !Earlier(off[j], off[0]);
    }
  }

  /** What the judgement reads, without its arithmetic. */
  predicate Reads(d: Deviation, post: seq<Sample>, onset: real, mean: real, band: real)
    requires post != []
  {
    && Breaches(post, mean, band) != [] && d.onset == Breaches(post, mean, band)[0].ts - onset
    && (d.high <==> Peak(post, mean).value.Some? && Peak(post, mean).value.value >= mean)
  }

  lemma {:induction false} DeviatingReads(tag: string, post: seq<Sample>, onset: real, mean: real, std: Positive)
    requires post != [] && Deviating(tag, post, onset, mean, std).Some?
    ensures var d := Deviating(tag, post, onset, mean, std).value;
            d.tag == tag && Reads(d, post, onset, mean, 4.0 * std) && d.magnitude == Distance(Peak(post, mean), mean) / std
  {
    EnoughOff(tag, post, onset, mean, std);
  }

  lemma {:induction false} DeviatingShows(
    post: seq<Sample>, onset: real, mean: real, band: real, d: Deviation) returns (p: Sample, b: Sample)
    requires Sorted(post, Earlier) && post != [] && Reads(d, post, onset, mean, band)
    ensures ShowsIn(post, onset, mean, band, Distance(Peak(post, mean), mean), d, p, b)
  {
    FirstOff(post, mean, band);
    PeakIsFarthest(post, mean);
    p, b := Peak(post, mean), Breaches(post, mean, band)[0];
  }

  lemma {:induction false} ShownOfTag(
    samples: seq<Sample>, onset: real, mean: real, band: real, far: real, d: Deviation, p: Sample, b: Sample)
    requires ShowsIn(After(RowsFor(samples, d.tag), onset), onset, mean, band, far, d, p, b)
    ensures Shows(samples, onset, mean, band, far, d, p, b)
  {
    var post := After(RowsFor(samples, d.tag), onset);
    forall y
      ensures Reacts(samples, d.tag, onset, y) <==> y in post
    {
      ReactsAre(samples, d.tag, onset, y);
    }
  }

  lemma {:induction false} ListedIsJudged(samples: seq<Sample>, onset: real, spread: seq<real> -> Positive, d: Deviation)
    requires d in Extracted(samples, onset, spread)
    ensures var j := Judging(samples, onset, spread)(d.tag); j.Some? && d == j.value.(rank := d.rank)
  {
    var judge := Judging(samples, onset, spread);
    var judged := Judged(TagsOf(samples), judge);
    var sorted := Sort(judged, MovedBefore);
    TagsMembers(samples);
    JudgingTags(samples, onset, spread);
    JudgedMembers(TagsOf(samples), judge);
    SortKeepsDistinct(judged, MovedBefore, (e: Deviation) => e.tag);
    var k :| 0 <= k < |RankFrom(sorted, 0)| && RankFrom(sorted, 0)[k] == d;
    assert sorted[k] in sorted;
  }

  lemma {:induction false} ReactionShows(
    samples: seq<Sample>, onset: real, mean: real, band: real, d: Deviation) returns (p: Sample, b: Sample)
    requires var post := After(RowsFor(samples, d.tag), onset); post != [] && Reads(d, post, onset, mean, band)
    ensures var post := After(RowsFor(samples, d.tag), onset);
            Shows(samples, onset, mean, band, Distance(Peak(post, mean), mean), d, p, b)
  {
    var post := After(RowsFor(samples, d.tag), onset);
    RowsAre(samples, d.tag);
    LaterSorted(RowsFor(samples, d.tag), onset);
    p, b := DeviatingShows(post, onset, mean, band, d);
    ShownOfTag(samples, onset, mean, band, Distance(Peak(post, mean), mean), d, p, b);
  }

  /** `mean` and `std` are those of the baseline of these rows. */
  predicate Baseline(rows: seq<Sample>, onset: real, spread: seq<real> -> Positive, mean: real, std: real) {
    Before(rows, onset) != [] && mean == Mean(Before(rows, onset)) && std == spread(Before(rows, onset))
  }

  lemma {:induction false} JudgeWith(
    tag: string, rows: seq<Sample>, onset: real, spread: seq<real> -> Positive, mean: real, std: Positive)
    requires Baseline(rows, onset, spread, mean, std) && Judge(tag, rows, onset, spread).Some?
    ensures After(rows, onset) != [] && Judge(tag, rows, onset, spread) == Deviating(tag, After(rows, onset), onset, mean, std)
  {
  }

  lemma {:induction false} JudgedReads(
    tag: string, rows: seq<Sample>, onset: real, spread: seq<real> -> Positive, mean: real, std: Positive)
    requires Baseline(rows, onset, spread, mean, std) && Judge(tag, rows, onset, spread).Some?
    ensures var d, post := Judge(tag, rows, onset, spread).value, After(rows, onset);
            && post != [] && d.tag == tag && Reads(d, post, onset, mean, 4.0 * std)
            && d.magnitude == Distance(Peak(post, mean), mean) / std
  {
    JudgeWith(tag, rows, onset, spread, mean, std);
    DeviatingReads(tag, After(rows, onset), onset, mean, std);
  }

  /** `far` is `magnitude` deviations, and `band` is four. */
  predicate Measures(std: real, magnitude: real, far: real, band: real) {
    far == magnitude * std && band == 4.0 * std
  }

  lemma {:induction false} JudgedMeasures(
    tag: string, rows: seq<Sample>, onset: real, spread: seq<real> -> Positive, mean: real, std: Positive)
    returns (far: real, band: real)
    requires Baseline(rows, onset, spread, mean, std) && Judge(tag, rows, onset, spread).Some?
    ensures var d, post := Judge(tag, rows, onset, spread).value, After(rows, onset);
            && post != [] && d.tag == tag && Reads(d, post, onset, mean, band) && far == Distance(Peak(post, mean), mean)
            && Measures(std, d.magnitude, far, band)
  {
    JudgedReads(tag, rows, onset, spread, mean, std);
    far, band := Measured(Judge(tag, rows, onset, spread).value, After(rows, onset), onset, mean, std);
  }

  lemma {:induction false} Measured(d: Deviation, post: seq<Sample>, onset: real, mean: real, std: Positive)
    returns (far: real, band: real)
    requires post != [] && Reads(d, post, onset, mean, 4.0 * std) && d.magnitude == Distance(Peak(post, mean), mean) / std
    ensures Reads(d, post, onset, mean, band) && far == Distance(Peak(post, mean), mean)
    ensures Measures(std, d.magnitude, far, band)
  {
    far, band := Distance(Peak(post, mean), mean), 4.0 * std;
    Scale(far, std);
  }

  lemma {:induction false} JudgedShows(
    samples: seq<Sample>, tag: string, onset: real, spread: seq<real> -> Positive, mean: real, std: Positive, d: Deviation)
    returns (far: real, band: real, p: Sample, b: Sample)
    requires Baseline(RowsFor(samples, tag), onset, spread, mean, std)
    requires Judge(tag, RowsFor(samples, tag), onset, spread) == Some(d)
    ensures d.tag == tag && Measures(std, d.magnitude, far, band) && Shows(samples, onset, mean, band, far, d, p, b)
  {
    far, band := JudgedMeasures(tag, RowsFor(samples, tag), onset, spread, mean, std);
    p, b := ReactionShows(samples, onset, mean, band, d);
  }

  lemma {:induction false} SameShows(
    samples: seq<Sample>, onset: real, mean: real, band: real, far: real, e: Deviation, d: Deviation, p: Sample, b: Sample)
    requires Shows(samples, onset, mean, band, far, e, p, b) && d == e.(rank := d.rank)
    ensures Shows(samples, onset, mean, band, far, d, p, b)
  {
  }

  lemma {:induction false} ReportedBaseline(tag: string, rows: seq<Sample>, onset: real, spread: seq<real> -> Positive)
    returns (mean: real, std: Positive)
    requires Judge(tag, rows, onset, spread).Some?
    ensures Reported(rows, onset, spread) && Baseline(rows, onset, spread, mean, std)
  {
    JudgeReports(tag, rows, onset, spread);
    mean, std := Mean(Before(rows, onset)), spread(Before(rows, onset));
  }

  /** What a signature says: every deviation is of a reported tag, its magnitude and direction are those
      of the reaction farthest from the baseline mean, in standard deviations, and its onset is the time
      of the first sample four deviations off. */
  lemma {:induction false} DeviationsShow(samples: seq<Sample>, onset: real, spread: seq<real> -> Positive, d: Deviation)
    returns (mean: real, std: Positive, far: real, band: real, p: Sample, b: Sample)
    requires d in Extracted(samples, onset, spread)
    ensures Reported(RowsFor(samples, d.tag), onset, spread) && Baseline(RowsFor(samples, d.tag), onset, spread, mean, std)
    ensures Measures(std, d.magnitude, far, band) && Shows(samples, onset, mean, band, far, d, p, b)
  {
    var e := JudgementOf(samples, onset, spread, d);
    mean, std := ReportedBaseline(d.tag, RowsFor(samples, d.tag), onset, spread);
    far, band, p, b := JudgedShows(samples, d.tag, onset, spread, mean, std, e);
    SameShows(samples, onset, mean, band, far, e, d, p, b);
  }

  lemma {:induction false} JudgementOf(samples: seq<Sample>, onset: real, spread: seq<real> -> Positive, d: Deviation)
    returns (e: Deviation)
    requires d in Extracted(samples, onset, spread)
    ensures Judge(d.tag, RowsFor(samples, d.tag), onset, spread) == Some(e) && d == e.(rank := d.rank)
  {
    ListedIsJudged(samples, onset, spread, d);
    e := Judging(samples, onset, spread)(d.tag).value;
  }

  /** And every reported tag is in it. */
  lemma {:induction false} ReportedAreListed(samples: seq<Sample>, tag: string, onset: real, spread: seq<real> -> Positive)
    ensures Reported(RowsFor(samples, tag), onset, spread) <==>
            exists k :: 0 <= k < |Extracted(samples, onset, spread)| && Extracted(samples, onset, spread)[k].tag == tag
  {
    JudgedExactlyWhen(samples, tag, onset, spread);
    if Judging(samples, onset, spread)(tag).Some? {
      var k := JudgementListed(samples, tag, onset, spread);
      JudgingTags(samples, onset, spread);
      assert Extracted(samples, onset, spread)[k].tag == tag;
    }
    if k :| 0 <= k < |Extracted(samples, onset, spread)| && Extracted(samples, onset, spread)[k].tag == tag {
      assert Extracted(samples, onset, spread)[k] in Extracted(samples, onset, spread);
      ListedIsJudged(samples, onset, spread, Extracted(samples, onset, spread)[k]);
    }
  }

  // ---- the score --------------------------------------------------------------------------------------------

  /** The tags of both signatures that moved the same way in both, or opposite ways. */
  function Shared(q: map<string, Deviation>, c: map<string, Deviation>, same: bool): set<string> {
    set t | t in q && t in c && (q[t].high == c[t].high) == same
  }

  lemma {:induction false} SharedAre(q: map<string, Deviation>, c: map<string, Deviation>)
    ensures Agreeing(q, c) == Shared(q, c, true)
    ensures q.Keys * c.Keys - Agreeing(q, c) == Shared(q, c, false)
  {
  }

  lemma {:induction false} CombinedSign(agree: nat, conflict: nat, union: nat, agreement: real)
    requires union > 0 && agree <= union && 0.0 <= agreement <= 1.0
    ensures Combined(agree, conflict, union, agreement) > 0.0 <==> agree > conflict
  {
    var overlap := (agree - conflict) as real / union as real;
    assert overlap * union as real == (agree - conflict) as real;
    AtMostOne(agree - conflict, union);
    if agree > conflict {
      Above(overlap, union as real);
      Scaled(overlap, agreement);
    } else {
      assert overlap <= 0.0 by {
        Above(overlap, union as real);
      }
    }
  }

  lemma {:induction false} Above(x: real, u: real)
    requires u > 0.0
    ensures x * u > 0.0 <==> x > 0.0
  {
  }

  /** Tags that moved opposite ways count against those that moved the same way: two signatures match at
      all exactly when more of their common tags agree than disagree. */
  lemma {:induction false} ScoreIsPositive(query: seq<Deviation>, candidate: seq<Deviation>)
    ensures var q, c := ByTag(query), ByTag(candidate);
            Score(query, candidate) > 0.0 <==> |Shared(q, c, true)| > |Shared(q, c, false)|
  {
    var q, c := ByTag(query), ByTag(candidate);
    SharedAre(q, c);
    if q != map[] && c != map[] {
      var agree := Agreeing(q, c);
      Sizes(q, c);
      AgreementWithin(agree, q, c);
      CombinedSign(|agree|, |q.Keys * c.Keys - agree|, |q.Keys + c.Keys|, RankAgreement(agree, q, c));
    } else {
      assert Shared(q, c, true) == {};
    }
  }

  /** Two of the tags moved in one order in the first signature and in the other order in the second. */
  ghost predicate Crossed(tags: set<string>, q: map<string, Deviation>, c: map<string, Deviation>) {
    exists a, b :: a in tags && b in tags && RankOf(q, a) < RankOf(q, b) && RankOf(c, a) > RankOf(c, b)
  }

  ghost predicate Ordered(tags: set<string>, q: map<string, Deviation>, c: map<string, Deviation>) {
    exists a, b :: a in tags && b in tags && RankOf(q, a) < RankOf(q, b) && RankOf(c, a) < RankOf(c, b)
  }

  lemma {:induction false} AgreementEnds(tags: set<string>, q: map<string, Deviation>, c: map<string, Deviation>)
    ensures RankAgreement(tags, q, c) == 1.0 <==> !Crossed(tags, q, c)
    ensures RankAgreement(tags, q, c) == 0.0 <==> Crossed(tags, q, c) && !Ordered(tags, q, c)
  {
    var con, dis := Pairs(tags, Concordant(q, c)), Pairs(tags, Discordant(q, c));
    AgreementWithin(tags, q, c);
    PairsNonEmpty(tags, q, c);
    if |con| + |dis| > 0 {
      FractionZero(|con|, |con| + |dis|);
    }
  }

  lemma {:induction false} PairsNonEmpty(tags: set<string>, q: map<string, Deviation>, c: map<string, Deviation>)
    ensures Pairs(tags, Concordant(q, c)) != {} <==> Ordered(tags, q, c)
    ensures Pairs(tags, Discordant(q, c)) != {} <==> Crossed(tags, q, c)
  {
    if a, b :| a in tags && b in tags && RankOf(q, a) < RankOf(q, b) && RankOf(c, a) < RankOf(c, b) {
      InPairs(tags, Concordant(q, c), a, b);
    }
    if a, b :| a in tags && b in tags && RankOf(q, a) < RankOf(q, b) && RankOf(c, a) > RankOf(c, b) {
      InPairs(tags, Discordant(q, c), a, b);
    }
  }

  lemma {:induction false} FractionZero(a: nat, b: nat)
    requires b > 0
    ensures a as real / b as real == 0.0 <==> a == 0
  {
    var f := a as real / b as real;
    assert f * b as real == a as real;
  }

  lemma {:induction false} ScaledEnds(overlap: real, rank: real)
    requires 0.0 < overlap <= 1.0 && 0.0 <= rank <= 1.0
    ensures var score := overlap * (RANK_FLOOR + (1.0 - RANK_FLOOR) * rank);
            && 0.5 * overlap <= score <= overlap
            && (score == overlap <==> rank == 1.0) && (score == 0.5 * overlap <==> rank == 0.0)
  {
    Scaled(overlap, rank);
    var f := RANK_FLOOR + (1.0 - RANK_FLOOR) * rank;
    assert overlap - overlap * f == overlap * (1.0 - f);
    assert overlap * f - 0.5 * overlap == overlap * (f - 0.5);
    Above(1.0 - f, overlap);
    Above(f - 0.5, overlap);
  }

  /** The signed overlap of two signatures over the union of their tags. */
  predicate IsOverlap(overlap: real, agree: nat, conflict: nat, union: nat) {
    overlap * union as real == (agree - conflict) as real
  }

  /** What the order is worth: the overlap of a match that matches at all is halved at most; it counts in
      full exactly when no two of the tags that agree moved in opposite order, and half exactly when some
      did and none in the same order. */
  lemma {:induction false} OrderHalvesAtMost(query: seq<Deviation>, candidate: seq<Deviation>, overlap: real)
    requires var q, c := ByTag(query), ByTag(candidate);
             && |Shared(q, c, true)| > |Shared(q, c, false)|
             && IsOverlap(overlap, |Shared(q, c, true)|, |Shared(q, c, false)|, |q.Keys + c.Keys|)
    ensures var q, c := ByTag(query), ByTag(candidate);
            var tags := Shared(q, c, true);
            && 0.5 * overlap <= Score(query, candidate) <= overlap
            && (Score(query, candidate) == overlap <==> !Crossed(tags, q, c))
            && (Score(query, candidate) == 0.5 * overlap <==> Crossed(tags, q, c) && !Ordered(tags, q, c))
  {
    var q, c := ByTag(query), ByTag(candidate);
    var rank := MatchParts(query, candidate);
    ScoredEnds(|Shared(q, c, true)|, |Shared(q, c, false)|, |q.Keys + c.Keys|, rank, overlap, Score(query, candidate));
  }

  lemma {:induction false} ScoredEnds(agree: nat, conflict: nat, union: nat, rank: real, overlap: real, score: real)
    requires agree > conflict && union > 0 && agree <= union && 0.0 <= rank <= 1.0
    requires IsOverlap(overlap, agree, conflict, union) && score == Combined(agree, conflict, union, rank)
    ensures 0.5 * overlap <= score <= overlap
    ensures (score == overlap <==> rank == 1.0) && (score == 0.5 * overlap <==> rank == 0.0)
  {
    CombinedEnds(agree, conflict, union, rank, overlap);
  }

  lemma {:induction false} MatchParts(query: seq<Deviation>, candidate: seq<Deviation>) returns (rank: real)
    requires var q, c := ByTag(query), ByTag(candidate); |Shared(q, c, true)| > 0
    ensures var q, c := ByTag(query), ByTag(candidate);
            var tags, union := Shared(q, c, true), |q.Keys + c.Keys|;
            && union > 0 && |tags| <= union && 0.0 <= rank <= 1.0
            && Score(query, candidate) == Combined(|tags|, |Shared(q, c, false)|, union, rank)
            && (rank == 1.0 <==> !Crossed(tags, q, c)) && (rank == 0.0 <==> Crossed(tags, q, c) && !Ordered(tags, q, c))
  {
    var q, c := ByTag(query), ByTag(candidate);
    SharedAre(q, c);
    assert Shared(q, c, true) != {};
    var t :| t in Shared(q, c, true);
    assert t in q && t in c && q != map[] && c != map[];
    rank := RankAgreement(Agreeing(q, c), q, c);
    Sizes(q, c);
    AgreementWithin(Agreeing(q, c), q, c);
    AgreementEnds(Agreeing(q, c), q, c);
    ScoreIs(query, candidate);
  }

  lemma {:induction false} ScoreIs(query: seq<Deviation>, candidate: seq<Deviation>)
    requires var q, c := ByTag(query), ByTag(candidate); q != map[] && c != map[] && |q.Keys + c.Keys| > 0
    ensures var q, c := ByTag(query), ByTag(candidate);
            Score(query, candidate) ==
              Combined(|Shared(q, c, true)|, |Shared(q, c, false)|, |q.Keys + c.Keys|, RankAgreement(Agreeing(q, c), q, c))
  {
    SharedAre(ByTag(query), ByTag(candidate));
  }

  lemma {:induction false} CombinedEnds(agree: nat, conflict: nat, union: nat, rank: real, overlap: real)
    requires agree > conflict && union > 0 && agree <= union && 0.0 <= rank <= 1.0
    requires overlap * union as real == (agree - conflict) as real
    ensures var score := Combined(agree, conflict, union, rank);
            && 0.5 * overlap <= score <= overlap
            && (score == overlap <==> rank == 1.0) && (score == 0.5 * overlap <==> rank == 0.0)
  {
    OneQuotient(overlap, (agree - conflict) as real, union as real);
    AtMostOne(agree - conflict, union);
    Above(overlap, union as real);
    ScaledEnds(overlap, rank);
  }

  lemma {:induction false} OneQuotient(x: real, n: real, d: real)
    requires d > 0.0 && x * d == n
    ensures n / d == x
  {
  }

  /** Entry `k` is the last one of its tag. */
  predicate LastOf(ds: seq<Deviation>, tag: string, k: int) {
    0 <= k < |ds| && ds[k].tag == tag && forall j :: k < j < |ds| ==> ds[j].tag != tag
  }

  /** The map holds the last deviation of each tag, and in an extracted signature each tag has one. */
  lemma {:induction false} ByTagHolds(ds: seq<Deviation>, tag: string)
    ensures forall k :: LastOf(ds, tag, k) ==> tag in ByTag(ds) && ByTag(ds)[tag] == ds[k]
    ensures (forall k :: 0 <= k < |ds| ==> ds[k].tag != tag) ==> tag !in ByTag(ds)
    decreases ds
  {
    if ds != [] {
      var init := ds[..|ds| - 1];
      ByTagHolds(init, tag);
      assert forall k :: LastOf(ds, tag, k) && k < |init| ==> LastOf(init, tag, k);
    }
  }

  // ---- the ranked list ----------------------------------------------------------------------------------------

  /** `a` ranks at least as high as `b`: more confident, or as confident and not later by id. */
  predicate NoWorse(a: Match, b: Match) {
    a.confidence > b.confidence || (a.confidence == b.confidence && !Less(b.id, a.id))
  }

  lemma {:induction false} NotBeforeIsNoWorse(a: Match, b: Match)
    requires !RanksBefore(b, a)
    ensures NoWorse(a, b)
  {
  }

  lemma {:induction false} RankedNoWorse(ranked: seq<Match>, i: nat, j: nat)
    requires Sorted(ranked, RanksBefore) && i < j < |ranked|
    ensures NoWorse(ranked[i], ranked[j])
  {
    NotBeforeIsNoWorse(ranked[i], ranked[j]);
  }

  /** The first `n` of a ranked list against the rest. */
  lemma {:induction false} FirstAreBest(ranked: seq<Match>, n: nat, m: Match, k: Match)
    requires Sorted(ranked, RanksBefore) && n <= |ranked|
    requires m in ranked && m !in ranked[..n] && k in ranked[..n]
    ensures NoWorse(k, m)
  {
    var j :| 0 <= j < |ranked| && ranked[j] == m;
    var i :| 0 <= i < n && ranked[..n][i] == k;
    assert forall l :: 0 <= l < n ==> ranked[l] == ranked[..n][l] && ranked[l] in ranked[..n];
    RankedNoWorse(ranked, i, j);
  }

  lemma {:induction false} RankedAreSorted(query: seq<Deviation>, library: seq<FaultMode>, least: real, rounded: real -> real)
    ensures var all := Matches(query, library, least, rounded);
            var ranked := Sort(all, RanksBefore);
            Sorted(ranked, RanksBefore) && |ranked| == |all| && forall m :: m in ranked <==> m in all
  {
    RanksBeforeOrders();
    SortSorts(Matches(query, library, least, rounded), RanksBefore, Match("", "", 0.0));
  }

  /** The list is the best of the library: in order of confidence, at most `topK` long, every entry a
      fault mode that scores enough, and every fault mode that scores enough is in it or ranks no better
      than any that is. */
  lemma {:induction false} MatchedAreBest(
    query: seq<Deviation>, library: seq<FaultMode>, topK: nat, least: real, rounded: real -> real)
    ensures var all, kept := Matches(query, library, least, rounded), Matched(query, library, topK, least, rounded);
            && |kept| == (if |all| < topK then |all| else topK)
            && (forall i, j :: 0 <= i < j < |kept| ==> NoWorse(kept[i], kept[j]))
            && (forall m :: m in kept ==> m in all)
            && forall m, k :: m in all && m !in kept && k in kept ==> NoWorse(k, m)
  {
    var all := Matches(query, library, least, rounded);
    var ranked, kept := Sort(all, RanksBefore), Matched(query, library, topK, least, rounded);
    var n := |kept|;
    RankedAreSorted(query, library, least, rounded);
    assert kept == ranked[..n];
    forall i, j | 0 <= i < j < |kept|
      ensures NoWorse(kept[i], kept[j])
    {
      RankedNoWorse(ranked, i, j);
    }
    forall m | m in kept
      ensures m in all
    {
      assert m in ranked;
    }
    forall m, k | m in all && m !in kept && k in kept
      ensures NoWorse(k, m)
    {
      FirstAreBest(ranked, n, m, k);
    }
  }

  /** What is ranked: one match for each fault mode of the library whose score is high enough. */
  lemma {:induction false} MatchesAre(query: seq<Deviation>, library: seq<FaultMode>, least: real, rounded: real -> real, m: Match)
    ensures m in Matches(query, library, least, rounded) <==>
            exists fm :: fm in library && Score(query, fm.signature) >= least
                         && m == Match(fm.id, fm.cause, rounded(Score(query, fm.signature)))
  {
    if m in Matches(query, library, least, rounded) {
      var fm := MatchFrom(query, library, least, rounded, m);
    }
    if fm :| fm in library && Score(query, fm.signature) >= least && m == Match(fm.id, fm.cause, rounded(Score(query, fm.signature))) {
      MatchIn(query, library, least, rounded, fm);
    }
  }

  // ---- the order of a signature ---------------------------------------------------------------------------------

  /** `a` is before `b` in the order of a dictionary: it is the beginning of `b`, or smaller at the first
      difference. */
  ghost predicate Precedes(a: string, b: string) {
    exists n :: 0 <= n <= |a| && n < |b| && a[..n] == b[..n] && (n == |a| || a[n] < b[n])
  }

  lemma {:induction false} LessIsPrecedes(a: string, b: string)
    ensures Less(a, b) <==> Precedes(a, b)
    decreases |a|
  {
    if b != "" {
      if a == "" || a[0] < b[0] {
        assert a[..0] == b[..0];
      } else {
        LessIsPrecedes(a[1..], b[1..]);
        if Less(a, b) {
          var n :| 0 <= n <= |a[1..]| && n < |b[1..]| && a[1..][..n] == b[1..][..n] && (n == |a[1..]| || a[1..][n] < b[1..][n]);
          assert a[..n + 1] == [a[0]] + a[1..][..n] && b[..n + 1] == [b[0]] + b[1..][..n];
        }
        if Precedes(a, b) {
          var n :| 0 <= n <= |a| && n < |b| && a[..n] == b[..n] && (n == |a| || a[n] < b[n]);
          assert n > 0;
          assert a[0] == a[..n][0] == b[..n][0] == b[0];
          assert a[1..][..n - 1] == a[..n][1..] && b[1..][..n - 1] == b[..n][1..];
        }
      }
    }
  }

  /** Earlier onset first, then the larger magnitude, then the tag. */
  lemma {:induction false} FirstMoverFirst(samples: seq<Sample>, onset: real, spread: seq<real> -> Positive, i: nat, j: nat)
    requires i < j < |Extracted(samples, onset, spread)|
    ensures var a, b := Extracted(samples, onset, spread)[i], Extracted(samples, onset, spread)[j];
            && a.rank == i && b.rank == j && a.onset <= b.onset
            && (a.onset == b.onset ==> a.magnitude >= b.magnitude)
            && (a.onset == b.onset && a.magnitude == b.magnitude ==> Precedes(a.tag, b.tag))
  {
    var ds := Extracted(samples, onset, spread);
    ExtractedRanks(samples, onset, spread);
    assert MovedBefore(ds[i], ds[j]);
    LessIsPrecedes(ds[i].tag, ds[j].tag);
  }
}
