/** When the signature of a window depends on the order of its samples. */
module SampleOrder {
  import opened Sorting
  import opened Signatures
  import opened SignatureLaws
  import opened Wrappers

  /** The standard deviation does not look at the order of the baseline. */
  ghost predicate OrderBlind(spread: seq<real> -> Positive) {
    forall p, q {:trigger spread(p), spread(q)} :: multiset(p) == multiset(q) ==> spread(p) == spread(q)
  }

  /** Every rearrangement of the window gives the same signature. */
  ghost predicate OrderIsIrrelevant(samples: seq<Sample>, onset: real, spread: seq<real> -> Positive) {
    forall other {:trigger multiset(other)} :: multiset(other) == multiset(samples)
      ==> Extracted(other, onset, spread) == Extracted(samples, onset, spread)
  }

  /** `x` is as far from the mean as any sample of `post`, and none as far is earlier. */
  ghost predicate Foremost(x: Sample, post: seq<Sample>, mean: real) {
    && x in post
    && forall z :: z in post ==> Distance(z, mean) < Distance(x, mean) || (Distance(z, mean) == Distance(x, mean) && z.ts >= x.ts)
  }

  predicate Up(x: Sample, mean: real) {
    x.value.Some? && x.value.value >= mean
  }

  /** At the earliest time the largest distance from the mean is reached, there are values on both
      sides of the mean. */
  ghost predicate Torn(rows: seq<Sample>, onset: real) {
    Before(rows, onset) != []
    && var mean := Mean(Before(rows, onset));
    exists x, y :: Foremost(x, After(rows, onset), mean) && Foremost(y, After(rows, onset), mean) && Up(x, mean) && !Up(y, mean)
  }

  // ---- what a rearrangement keeps ---------------------------------------------------------------------

  /** The first element of one rearrangement, taken out of the other. */
  lemma {:induction false} TakenOut<T>(a: seq<T>, b: seq<T>) returns (l: seq<T>, r: seq<T>)
    requires a != [] && multiset(a) == multiset(b)
    ensures b == l + [a[0]] + r && multiset(a[1..]) == multiset(l + r)
  {
    assert a == [a[0]] + a[1..];
    assert a[0] in multiset(b);
    var i :| 0 <= i < |b| && b[i] == a[0];
    l, r := b[..i], b[i + 1..];
    assert b == l + [a[0]] + r;
    assert multiset(a[1..]) == multiset(a) - multiset{a[0]};
    assert multiset(l + r) == multiset(b) - multiset{a[0]};
  }

  lemma {:induction false} BeforeJoin(a: seq<Sample>, b: seq<Sample>, onset: real)
    ensures Before(a + b, onset) == Before(a, onset) + Before(b, onset)
    decreases a
  {
    if a == [] {
      assert a + b == b;
    } else {
      assert (a + b)[1..] == a[1..] + b;
      BeforeJoin(a[1..], b, onset);
    }
  }

  lemma {:induction false} AfterJoin(a: seq<Sample>, b: seq<Sample>, onset: real)
    ensures After(a + b, onset) == After(a, onset) + After(b, onset)
    decreases a
  {
    if a == [] {
      assert a + b == b;
    } else {
      assert (a + b)[1..] == a[1..] + b;
      AfterJoin(a[1..], b, onset);
    }
  }

  lemma {:induction false} BreachesJoin(a: seq<Sample>, b: seq<Sample>, mean: real, band: real)
    ensures Breaches(a + b, mean, band) == Breaches(a, mean, band) + Breaches(b, mean, band)
    decreases a
  {
    if a == [] {
      assert a + b == b;
    } else {
      assert (a + b)[1..] == a[1..] + b;
      BreachesJoin(a[1..], b, mean, band);
    }
  }

  lemma {:induction false} SumJoin(a: seq<real>, b: seq<real>)
    ensures Sum(a + b) == Sum(a) + Sum(b)
    decreases a
  {
    if a == [] {
      assert a + b == b;
    } else {
      assert (a + b)[1..] == a[1..] + b;
      SumJoin(a[1..], b);
    }
  }

  lemma {:induction false} BeforeKeeps(a: seq<Sample>, b: seq<Sample>, onset: real)
    requires multiset(a) == multiset(b)
    ensures multiset(Before(a, onset)) == multiset(Before(b, onset))
    decreases a
  {
    if a != [] {
      var l, r := TakenOut(a, b);
      BeforeKeeps(a[1..], l + r, onset);
      assert a == [a[0]] + a[1..];
      BeforeJoin([a[0]], a[1..], onset);
      BeforeJoin(l + [a[0]], r, onset);
      BeforeJoin(l, [a[0]], onset);
      BeforeJoin(l, r, onset);
    }
  }

  lemma {:induction false} AfterKeeps(a: seq<Sample>, b: seq<Sample>, onset: real)
    requires multiset(a) == multiset(b)
    ensures multiset(After(a, onset)) == multiset(After(b, onset))
    decreases a
  {
    if a != [] {
      var l, r := TakenOut(a, b);
      AfterKeeps(a[1..], l + r, onset);
      assert a == [a[0]] + a[1..];
      AfterJoin([a[0]], a[1..], onset);
      AfterJoin(l + [a[0]], r, onset);
      AfterJoin(l, [a[0]], onset);
      AfterJoin(l, r, onset);
    }
  }

  lemma {:induction false} BreachesKeep(a: seq<Sample>, b: seq<Sample>, mean: real, band: real)
    requires multiset(a) == multiset(b)
    ensures multiset(Breaches(a, mean, band)) == multiset(Breaches(b, mean, band))
    decreases a
  {
    if a != [] {
      var l, r := TakenOut(a, b);
      BreachesKeep(a[1..], l + r, mean, band);
      assert a == [a[0]] + a[1..];
      BreachesJoin([a[0]], a[1..], mean, band);
      BreachesJoin(l + [a[0]], r, mean, band);
      BreachesJoin(l, [a[0]], mean, band);
      BreachesJoin(l, r, mean, band);
    }
  }

  lemma {:induction false} SumKeeps(a: seq<real>, b: seq<real>)
    requires multiset(a) == multiset(b)
    ensures Sum(a) == Sum(b) && |a| == |b|
    decreases a
  {
    SameSize(a, b);
    if a != [] {
      var l, r := TakenOut(a, b);
      SumKeeps(a[1..], l + r);
      SumJoin(l + [a[0]], r);
      SumJoin(l, [a[0]]);
      SumJoin(l, r);
      assert [a[0]][1..] == [];
    }
  }

  lemma {:induction false} SameSize<T>(a: seq<T>, b: seq<T>)
    requires multiset(a) == multiset(b)
    ensures |a| == |b| && forall x :: x in a <==> x in b
  {
    assert |multiset(a)| == |a| && |multiset(b)| == |b|;
    assert forall x :: x in a <==> x in multiset(a);
    assert forall x :: x in b <==> x in multiset(b);
  }

  lemma {:induction false} CountSnoc<T>(s: seq<T>, y: T, x: T)
    ensures multiset(s + [y])[x] == multiset(s)[x] + if x == y then 1 else 0
  {
    assert multiset([y])[x] == if x == y then 1 else 0;
  }

  lemma {:induction false} FilterSnoc<T>(kept: seq<T>, all: seq<T>, y: T, x: T, keepsY: bool, keepsX: bool)
    requires multiset(kept)[x] == (if keepsX then multiset(all)[x] else 0) && (x == y ==> keepsX == keepsY)
    ensures multiset(if keepsY then kept + [y] else kept)[x] == if keepsX then multiset(all + [y])[x] else 0
  {
    CountSnoc(kept, y, x);
    CountSnoc(all, y, x);
  }

  lemma {:induction false} BucketFilters(samples: seq<Sample>, tag: string, x: Sample)
    ensures multiset(Bucket(samples, tag))[x] == if x.tag == tag && x.value.Some? then multiset(samples)[x] else 0
    decreases samples
  {
    if samples != [] {
      var init, last := samples[..|samples| - 1], samples[|samples| - 1];
      BucketFilters(init, tag, x);
      BucketSnoc(init, last);
      assert samples == init + [last];
      FilterSnoc(Bucket(init, tag), init, last, x, last.tag == tag && last.value.Some?, x.tag == tag && x.value.Some?);
    }
  }

  lemma {:induction false} BucketKeeps(a: seq<Sample>, b: seq<Sample>, tag: string)
    requires multiset(a) == multiset(b)
    ensures multiset(Bucket(a, tag)) == multiset(Bucket(b, tag))
  {
    forall x
      ensures multiset(Bucket(a, tag))[x] == multiset(Bucket(b, tag))[x]
    {
      BucketFilters(a, tag, x);
      BucketFilters(b, tag, x);
    }
  }

  lemma {:induction false} InsertKeeps<T>(x: T, s: seq<T>, less: (T, T) -> bool)
    ensures multiset(Insert(x, s, less)) == multiset(s) + multiset{x}
    decreases s
  {
    if s != [] && !less(x, s[0]) {
      InsertKeeps(x, s[1..], less);
      assert s == [s[0]] + s[1..];
    }
  }

  lemma {:induction false} SortKeeps<T>(s: seq<T>, less: (T, T) -> bool)
    ensures multiset(Sort(s, less)) == multiset(s)
    decreases s
  {
    if s != [] {
      var init, last := s[..|s| - 1], s[|s| - 1];
      SortKeeps(init, less);
      InsertKeeps(last, Sort(init, less), less);
      assert s == init + [last];
    }
  }

  // ---- sorted rows ------------------------------------------------------------------------------------

  lemma {:induction false} SortedCons<T>(x: T, s: seq<T>, less: (T, T) -> bool)
    requires Sorted(s, less) && forall z :: z in s ==> !less(z, x)
    ensures Sorted([x] + s, less)
  {
  }

  lemma {:induction false} SortedTail<T>(s: seq<T>, less: (T, T) -> bool)
    requires Sorted(s, less) && s != []
    ensures Sorted(s[1..], less) && forall z :: z in s[1..] ==> !less(z, s[0])
  {
  }

  lemma {:induction false} AfterSorted(rows: seq<Sample>, onset: real, less: (Sample, Sample) -> bool)
    requires Sorted(rows, less)
    ensures Sorted(After(rows, onset), less) && forall z :: z in After(rows, onset) ==> z in rows
    decreases rows
  {
    if rows != [] {
      SortedTail(rows, less);
      AfterSorted(rows[1..], onset, less);
      SortedCons(rows[0], After(rows[1..], onset), less);
      assert rows == [rows[0]] + rows[1..];
      assert [] + After(rows[1..], onset) == After(rows[1..], onset);
    }
  }

  lemma {:induction false} BreachesSorted(post: seq<Sample>, mean: real, band: real, less: (Sample, Sample) -> bool)
    requires Sorted(post, less)
    ensures Sorted(Breaches(post, mean, band), less) && forall z :: z in Breaches(post, mean, band) ==> z in post
    decreases post
  {
    if post != [] {
      SortedTail(post, less);
      BreachesSorted(post[1..], mean, band, less);
      SortedCons(post[0], Breaches(post[1..], mean, band), less);
      assert post == [post[0]] + post[1..];
      assert [] + Breaches(post[1..], mean, band) == Breaches(post[1..], mean, band);
    }
  }

  lemma {:induction false} BucketSorted(samples: seq<Sample>, tag: string, less: (Sample, Sample) -> bool)
    requires Sorted(samples, less)
    ensures Sorted(Bucket(samples, tag), less)
    decreases samples
  {
    if samples != [] {
      var init, last := samples[..|samples| - 1], samples[|samples| - 1];
      var rows := Bucket(init, tag);
      BucketSorted(init, tag, less);
      BucketMembers(init, tag);
      forall k | 0 <= k < |rows|
        ensures !less(last, rows[k])
      {
        assert rows[k] in init;
      }
      assert rows + [] == rows;
    }
  }

  /** The peak is the first of the largest. */
  lemma {:induction false} PeakIsFirst(post: seq<Sample>, mean: real) returns (k: nat)
    requires post != []
    ensures k < |post| && post[k] == Peak(post, mean)
    ensures forall j :: 0 <= j < |post| ==> Distance(post[j], mean) <= Distance(post[k], mean)
    ensures forall j :: 0 <= j < k ==> Distance(post[j], mean) < Distance(post[k], mean)
    decreases post
  {
    if |post| == 1 {
      k := 0;
    } else {
      var init := post[..|post| - 1];
      k := PeakIsFirst(init, mean);
      assert forall j :: 0 <= j < |init| ==> Distance(post[j], mean) <= Distance(Peak(init, mean), mean) by {
        forall j | 0 <= j < |init|
          ensures Distance(post[j], mean) <= Distance(Peak(init, mean), mean)
        {
          assert post[j] == init[j];
        }
      }
      if Distance(post[|post| - 1], mean) > Distance(Peak(init, mean), mean) {
        k := |post| - 1;
      }
    }
  }

  /** In time order it is a foremost sample. */
  lemma {:induction false} PeakIsForemost(post: seq<Sample>, mean: real)
    requires post != [] && Sorted(post, Earlier)
    ensures Foremost(Peak(post, mean), post, mean)
  {
    var k := PeakIsFirst(post, mean);
    forall z | z in post
      ensures Distance(z, mean) < Distance(post[k], mean) || (Distance(z, mean) == Distance(post[k], mean) && z.ts >= post[k].ts)
    {
      var j :| 0 <= j < |post| && post[j] == z;
      assert j > k ==> !Earlier(post[j], post[k]);
    }
  }

  // ---- one tag ----------------------------------------------------------------------------------------

  /** A judgement but for its direction. */
  predicate SameButSide(a: Option<Deviation>, b: Option<Deviation>) {
    a.Some? == b.Some? && (a.Some? ==> a.value.(high := b.value.high) == b.value)
  }

  lemma {:induction false} FirstOfSorted(p: seq<Sample>, q: seq<Sample>)
    requires p != [] && Sorted(p, Earlier) && Sorted(q, Earlier) && multiset(p) == multiset(q)
    ensures q != [] && p[0].ts == q[0].ts
  {
    SameSize(p, q);
    assert p[0] in q && q[0] in p;
    assert forall i :: 0 < i < |p| ==> !Earlier(p[i], p[0]);
    assert forall i :: 0 < i < |q| ==> !Earlier(q[i], q[0]);
  }

  lemma {:induction false} SameStats(p: seq<Sample>, q: seq<Sample>, onset: real, spread: seq<real> -> Positive)
    requires multiset(p) == multiset(q) && OrderBlind(spread)
    ensures |Before(p, onset)| == |Before(q, onset)|
    ensures Before(p, onset) != [] ==> Before(q, onset) != [] && Mean(Before(p, onset)) == Mean(Before(q, onset))
    ensures spread(Before(p, onset)) == spread(Before(q, onset))
    ensures multiset(After(p, onset)) == multiset(After(q, onset))
  {
    BeforeKeeps(p, q, onset);
    SameSize(Before(p, onset), Before(q, onset));
    SumKeeps(Before(p, onset), Before(q, onset));
    AfterKeeps(p, q, onset);
  }

  lemma {:induction false} ForemostTie(x: Sample, y: Sample, p: seq<Sample>, q: seq<Sample>, mean: real)
    requires Foremost(x, p, mean) && Foremost(y, q, mean) && multiset(p) == multiset(q)
    ensures Distance(x, mean) == Distance(y, mean) && x.ts == y.ts && Foremost(y, p, mean)
  {
    SameSize(p, q);
  }

  /** What the judgement reads of the samples after the onset. */
  lemma {:induction false} PostAlike(p: seq<Sample>, q: seq<Sample>, mean: real, band: real)
    requires multiset(p) == multiset(q) && Sorted(p, Earlier) && Sorted(q, Earlier) && p != []
    ensures |p| == |q| && |Breaches(p, mean, band)| == |Breaches(q, mean, band)|
    ensures Breaches(p, mean, band) != [] ==> Breaches(p, mean, band)[0].ts == Breaches(q, mean, band)[0].ts
    ensures Distance(Peak(p, mean), mean) == Distance(Peak(q, mean), mean)
  {
    SameSize(p, q);
    BreachesKeep(p, q, mean, band);
    SameSize(Breaches(p, mean, band), Breaches(q, mean, band));
    BreachesSorted(p, mean, band, Earlier);
    BreachesSorted(q, mean, band, Earlier);
    if Breaches(p, mean, band) != [] {
      FirstOfSorted(Breaches(p, mean, band), Breaches(q, mean, band));
    }
    PeakIsForemost(p, mean);
    PeakIsForemost(q, mean);
    ForemostTie(Peak(p, mean), Peak(q, mean), p, q, mean);
  }

  lemma {:induction false} DeviatingAlike(tag: string, p: seq<Sample>, q: seq<Sample>, onset: real, mean: real, std: Positive)
    requires multiset(p) == multiset(q) && Sorted(p, Earlier) && Sorted(q, Earlier) && p != [] && q != []
    ensures SameButSide(Deviating(tag, p, onset, mean, std), Deviating(tag, q, onset, mean, std))
  {
    PostAlike(p, q, mean, DEVIATION_SIGMA * std);
  }

  /** Rows in time order, rearranged in time order, are judged the same but for the direction. */
  lemma {:induction false} JudgedAlike(
    tag: string, p: seq<Sample>, q: seq<Sample>, onset: real, spread: seq<real> -> Positive)
    requires multiset(p) == multiset(q) && OrderBlind(spread) && Sorted(p, Earlier) && Sorted(q, Earlier)
    ensures SameButSide(Judge(tag, p, onset, spread), Judge(tag, q, onset, spread))
  {
    SameStats(p, q, onset, spread);
    var pre, post, other := Before(p, onset), After(p, onset), After(q, onset);
    SameSize(post, other);
    if |pre| >= 2 && post != [] {
      AfterSorted(p, onset, Earlier);
      AfterSorted(q, onset, Earlier);
      DeviatingAlike(tag, post, other, onset, Mean(pre), spread(pre));
    }
  }

  lemma {:induction false} JudgedSide(tag: string, p: seq<Sample>, onset: real, spread: seq<real> -> Positive)
    ensures var j := Judge(tag, p, onset, spread);
            j.Some? ==> |Before(p, onset)| >= 2 && After(p, onset) != []
                        && (j.value.high <==> Up(Peak(After(p, onset), Mean(Before(p, onset))), Mean(Before(p, onset))))
  {
  }

  /** Without values on both sides the direction is the same too. */
  lemma {:induction false} UntornIsSame(
    tag: string, rows: seq<Sample>, p: seq<Sample>, q: seq<Sample>, onset: real, spread: seq<real> -> Positive)
    requires multiset(p) == multiset(q) == multiset(rows) && OrderBlind(spread) && Sorted(p, Earlier) && Sorted(q, Earlier)
    requires Judge(tag, p, onset, spread).Some? ==> !Torn(rows, onset)
    ensures Judge(tag, p, onset, spread) == Judge(tag, q, onset, spread)
  {
    JudgedAlike(tag, p, q, onset, spread);
    JudgedSide(tag, p, onset, spread);
    JudgedSide(tag, q, onset, spread);
    SameStats(rows, p, onset, spread);
    SameStats(rows, q, onset, spread);
    if Judge(tag, p, onset, spread).Some? {
      var mean, post := Mean(Before(rows, onset)), After(rows, onset);
      AfterSorted(p, onset, Earlier);
      AfterSorted(q, onset, Earlier);
      PeakIsForemost(After(p, onset), mean);
      PeakIsForemost(After(q, onset), mean);
      ForemostMoves(Peak(After(p, onset), mean), After(p, onset), post, mean);
      ForemostMoves(Peak(After(q, onset), mean), After(q, onset), post, mean);
    }
  }

  lemma {:induction false} ForemostMoves(x: Sample, p: seq<Sample>, q: seq<Sample>, mean: real)
    requires Foremost(x, p, mean) && multiset(p) == multiset(q)
    ensures Foremost(x, q, mean)
  {
    SameSize(p, q);
  }

  // ---- the window -------------------------------------------------------------------------------------

  lemma {:induction false} SortedRows(samples: seq<Sample>, tag: string)
    ensures var rows := Sort(Bucket(samples, tag), Earlier);
            Sorted(rows, Earlier) && multiset(rows) == multiset(Bucket(samples, tag))
  {
    var rows := Bucket(samples, tag);
    SortKeeps(rows, Earlier);
    if rows != [] {
      SortSorts(rows, Earlier, rows[0]);
    }
  }

  /** No judged tag is torn. */
  ghost predicate NoneTorn(samples: seq<Sample>, onset: real, spread: seq<real> -> Positive) {
    forall tag {:trigger Bucket(samples, tag)} :: Judging(samples, onset, spread)(tag).Some? ==> !Torn(Bucket(samples, tag), onset)
  }

  lemma {:induction false} UntornWindow(a: seq<Sample>, b: seq<Sample>, onset: real, spread: seq<real> -> Positive)
    requires multiset(a) == multiset(b) && OrderBlind(spread) && NoneTorn(a, onset, spread)
    ensures Extracted(a, onset, spread) == Extracted(b, onset, spread)
  {
    forall tag
      ensures Judging(a, onset, spread)(tag) == Judging(b, onset, spread)(tag)
      ensures Bucket(a, tag) != [] <==> Bucket(b, tag) != []
    {
      BucketKeeps(a, b, tag);
      SameSize(Bucket(a, tag), Bucket(b, tag));
      SortedRows(a, tag);
      SortedRows(b, tag);
      UntornIsSame(tag, Bucket(a, tag), Sort(Bucket(a, tag), Earlier), Sort(Bucket(b, tag), Earlier), onset, spread);
    }
    SameJudgements(a, b, onset, spread);
  }

  /** Time order, `x` first among the samples of its time. */
  function Favouring(x: Sample): (Sample, Sample) -> bool {
    (a: Sample, b: Sample) => a.ts < b.ts || (a.ts == b.ts && a == x && b != x)
  }

  lemma {:induction false} FavouringOrders(x: Sample)
    ensures WeakOrder(Favouring(x))
  {
  }

  lemma {:induction false} FavouringIsTimely(s: seq<Sample>, x: Sample)
    requires Sorted(s, Favouring(x))
    ensures Sorted(s, Earlier)
  {
    forall i, j | 0 <= i < j < |s|
      ensures !Earlier(s[j], s[i])
    {
      assert !Favouring(x)(s[j], s[i]);
    }
  }

  lemma {:induction false} FavouredPeak(post: seq<Sample>, x: Sample, mean: real)
    requires Sorted(post, Favouring(x)) && Foremost(x, post, mean)
    ensures Peak(post, mean) == x
  {
    var k := PeakIsFirst(post, mean);
    var j :| 0 <= j < |post| && post[j] == x;
    assert post[k] in post;
    assert k < j ==> !Favouring(x)(post[j], post[k]);
  }

  /** A rearrangement of the window in which a foremost sample is the peak of its tag. */
  lemma {:induction false} Favoured(
    samples: seq<Sample>, tag: string, x: Sample, onset: real, spread: seq<real> -> Positive)
    returns (other: seq<Sample>)
    requires OrderBlind(spread) && Judging(samples, onset, spread)(tag).Some?
    requires Before(Bucket(samples, tag), onset) != []
    requires Foremost(x, After(Bucket(samples, tag), onset), Mean(Before(Bucket(samples, tag), onset)))
    ensures multiset(other) == multiset(samples)
    ensures var j := Judging(other, onset, spread)(tag);
            j.Some? && (j.value.high <==> Up(x, Mean(Before(Bucket(samples, tag), onset))))
  {
    other := Sort(samples, Favouring(x));
    SortKeeps(samples, Favouring(x));
    FavouringOrders(x);
    if samples != [] {
      SortSorts(samples, Favouring(x), samples[0]);
    }
    var rows, mean := Bucket(other, tag), Mean(Before(Bucket(samples, tag), onset));
    BucketSorted(other, tag, Favouring(x));
    FavouringIsTimely(rows, x);
    SortKeepsSorted(rows, Earlier);
    BucketKeeps(samples, other, tag);
    SortedRows(samples, tag);
    JudgedAlike(tag, Sort(Bucket(samples, tag), Earlier), rows, onset, spread);
    SameStats(Bucket(samples, tag), rows, onset, spread);
    AfterSorted(rows, onset, Favouring(x));
    ForemostMoves(x, After(Bucket(samples, tag), onset), After(rows, onset), mean);
    FavouredPeak(After(rows, onset), x, mean);
    JudgedSide(tag, rows, onset, spread);
  }

  lemma {:induction false} TornWindow(samples: seq<Sample>, tag: string, onset: real, spread: seq<real> -> Positive)
    requires OrderBlind(spread) && Judging(samples, onset, spread)(tag).Some? && Torn(Bucket(samples, tag), onset)
    ensures !OrderIsIrrelevant(samples, onset, spread)
  {
    var rows := Bucket(samples, tag);
    var mean := Mean(Before(rows, onset));
    var x, y :| Foremost(x, After(rows, onset), mean) && Foremost(y, After(rows, onset), mean) && Up(x, mean) && !Up(y, mean);
    var high := Favoured(samples, tag, x, onset, spread);
    var low := Favoured(samples, tag, y, onset, spread);
    SignatureTells(high, low, tag, onset, spread);
    assert multiset(high) == multiset(samples) == multiset(low);
  }

  /** The documented promise, exactly: with a standard deviation that does not look at the order,
      every rearrangement of the samples gives the same signature if and only if no judged tag has,
      at the earliest time its largest distance from the mean is reached, values on both sides. */
  lemma {:induction false} OrderIsIrrelevantExactlyWhen(samples: seq<Sample>, onset: real, spread: seq<real> -> Positive)
    requires OrderBlind(spread)
    ensures OrderIsIrrelevant(samples, onset, spread) <==> NoneTorn(samples, onset, spread)
  {
    if NoneTorn(samples, onset, spread) {
      forall other | multiset(other) == multiset(samples)
        ensures Extracted(other, onset, spread) == Extracted(samples, onset, spread)
      {
        UntornWindow(samples, other, onset, spread);
      }
    } else {
      var tag :| Judging(samples, onset, spread)(tag).Some? && Torn(Bucket(samples, tag), onset);
      TornWindow(samples, tag, onset, spread);
    }
  }
}
