/** Flow-based pruning of retrieval paths: score, rank, drop near-duplicates, keep the best. */
module Pruner {
  import opened Sorting
  import opened Wrappers

  /** One edge of a path, with its extraction confidence if it has one. */
  datatype Step = Step(kind: string, src: string, dst: string, confidence: Option<real>)

  datatype Path = Path(steps: seq<Step>, score: real)

  /** Undirected identity: the same pipe walked either way is one edge. */
  datatype EdgeKey = EdgeKey(kind: string, ends: set<string>)

  datatype Settings = Settings(alpha: real, topK: int, overlapThreshold: real)

  const MIN_CONFIDENCE_FACTOR := 0.3

  function Key(s: Step): EdgeKey {
    EdgeKey(s.kind, {s.src, s.dst})
  }

  function EdgeKeys(p: Path): set<EdgeKey> {
    set k | 0 <= k < |p.steps| :: Key(p.steps[k])
  }

  // ---- specification ----------------------------------------------------------------------------------

  function Factor(alpha: real, degrees: map<string, int>, s: Step): real {
    var degree := if s.src in degrees then degrees[s.src] else 1;
    var branching := if degree - 1 > 1 then degree - 1 else 1;
    var stated := if s.confidence.Some? then s.confidence.value else 1.0;
    var confidence := if stated > MIN_CONFIDENCE_FACTOR then stated else MIN_CONFIDENCE_FACTOR;
    alpha * confidence / branching as real
  }

  function Factors(alpha: real, degrees: map<string, int>, steps: seq<Step>): (fs: seq<real>)
    ensures |fs| == |steps|
    ensures forall k :: 0 <= k < |steps| ==> fs[k] == Factor(alpha, degrees, steps[k])
  {
    if steps == [] then []
    else Factors(alpha, degrees, steps[..|steps| - 1]) + [Factor(alpha, degrees, steps[|steps| - 1])]
  }

  function Product(fs: seq<real>): real {
    if fs == [] then 1.0 else Product(fs[..|fs| - 1]) * fs[|fs| - 1]
  }

  /** What survives of one unit of resource. */
  function Flow(alpha: real, degrees: map<string, int>, steps: seq<Step>): real {
    Product(Factors(alpha, degrees, steps))
  }

  function Scored(alpha: real, degrees: map<string, int>, paths: seq<Path>): (r: seq<Path>)
    ensures |r| == |paths|
    ensures forall k :: 0 <= k < |paths| ==> r[k] == Path(paths[k].steps, Flow(alpha, degrees, paths[k].steps))
  {
    if paths == [] then []
    else Scored(alpha, degrees, paths[..|paths| - 1])
         + [Path(paths[|paths| - 1].steps, Flow(alpha, degrees, paths[|paths| - 1].steps))]
  }

  predicate Above(p: Path, q: Path) {
    p.score > q.score
  }

  /** `sorted(paths, key=score, reverse=True)`, which keeps equal paths in their order. */
  function Ranked(paths: seq<Path>): seq<Path> {
    Sort(paths, Above)
  }

  function Smaller(a: nat, b: nat): nat {
    if a < b then a else b
  }

  predicate Overlaps(threshold: real, a: Path, b: Path) {
    var smaller := Smaller(|EdgeKeys(a)|, |EdgeKeys(b)|);
    smaller != 0 && |EdgeKeys(a) * EdgeKeys(b)| as real / smaller as real > threshold
  }

  predicate Redundant(threshold: real, p: Path, kept: seq<Path>) {
    EdgeKeys(p) == {} || exists k :: 0 <= k < |kept| && Overlaps(threshold, p, kept[k])
  }

  /** The greedy choice from what is left of the ranking. */
  function Choose(s: Settings, ranked: seq<Path>, kept: seq<Path>): seq<Path>
    decreases ranked
  {
    if ranked == [] || |kept| >= s.topK then kept
    else Choose(s, ranked[1..], if Redundant(s.overlapThreshold, ranked[0], kept) then kept else kept + [ranked[0]])
  }

  function Pruned(s: Settings, degrees: map<string, int>, paths: seq<Path>): seq<Path> {
    Choose(s, Ranked(Scored(s.alpha, degrees, paths)), [])
  }

  // ---- the pruner -------------------------------------------------------------------------------------

  class FlowPruner {
    const settings: Settings

    constructor (settings: Settings)
      ensures this.settings == settings
    {
      this.settings := settings;
    }

    method Score(steps: seq<Step>, degrees: map<string, int>) returns (flow: real)
      ensures flow == Flow(settings.alpha, degrees, steps)
    {
      flow := 1.0;
      for k := 0 to |steps|
        invariant flow == Flow(settings.alpha, degrees, steps[..k])
      {
        assert steps[..k + 1][..k] == steps[..k];
        ghost var fs := Factors(settings.alpha, degrees, steps[..k + 1]);
        assert fs[..|fs| - 1] == Factors(settings.alpha, degrees, steps[..k]);
        flow := flow * Factor(settings.alpha, degrees, steps[k]);
      }
      assert steps[..|steps|] == steps;
    }

    method IsRedundant(p: Path, kept: seq<Path>) returns (yes: bool)
      ensures yes <==> Redundant(settings.overlapThreshold, p, kept)
    {
      var edges := EdgeKeys(p);
      if edges == {} {
        return true;
      }
      for k := 0 to |kept|
        invariant forall j :: 0 <= j < k ==> !Overlaps(settings.overlapThreshold, p, kept[j])
      {
        var other := EdgeKeys(kept[k]);
        var shared := edges * other;
        var smaller := Smaller(|edges|, |other|);
        if smaller != 0 && |shared| as real / smaller as real > settings.overlapThreshold {
          return true;
        }
      }
      return false;
    }

    /** Sets every path's score and returns the paths kept. */
    method Prune(paths: array<Path>, degrees: map<string, int>) returns (kept: seq<Path>)
      modifies paths
      ensures paths[..] == Scored(settings.alpha, degrees, old(paths[..]))
      ensures kept == Pruned(settings, degrees, old(paths[..]))
    {
      for k := 0 to paths.Length
        invariant forall j :: 0 <= j < k ==>
          paths[j] == Path(old(paths[j].steps), Flow(settings.alpha, degrees, old(paths[j].steps)))
        invariant forall j :: k <= j < paths.Length ==> paths[j] == old(paths[j])
      {
        var flow := Score(paths[k].steps, degrees);
        paths[k] := paths[k].(score := flow);
      }
      assert paths[..] == Scored(settings.alpha, degrees, old(paths[..]));
      kept := [];
      var rest := Ranked(paths[..]);
      while rest != [] && |kept| < settings.topK
        invariant paths[..] == Scored(settings.alpha, degrees, old(paths[..]))
        invariant Choose(settings, rest, kept) == Pruned(settings, degrees, old(paths[..]))
        decreases |rest|
      {
        var redundant := IsRedundant(rest[0], kept);
        if !redundant {
          kept := kept + [rest[0]];
        }
        rest := rest[1..];
      }
    }
  }
}

/** What pruning keeps. */
module PrunerLaws {
  import opened Sorting
  import opened Wrappers
  import opened Pruner

  predicate Descending(paths: seq<Path>) {
    forall i, j :: 0 <= i < j < |paths| ==> paths[i].score >= paths[j].score
  }

  lemma {:induction false} RankedRanks(paths: seq<Path>)
    ensures Descending(Ranked(paths))
    ensures forall x :: x in Ranked(paths) <==> x in paths
  {
    SortSorts(paths, Above, Path([], 0.0));
    var r := Ranked(paths);
    forall i, j | 0 <= i < j < |r|
      ensures r[i].score >= r[j].score
    {
      assert !Above(r[j], r[i]);
    }
  }

  /** No path without edges, and no two that overlap. */
  predicate Spread(threshold: real, kept: seq<Path>) {
    && (forall i :: 0 <= i < |kept| ==> EdgeKeys(kept[i]) != {})
    && forall i, j :: 0 <= i < |kept| && 0 <= j < |kept| && i != j ==> !Overlaps(threshold, kept[i], kept[j])
  }

  lemma {:induction false} OverlapIsSymmetric(threshold: real, a: Path, b: Path)
    ensures Overlaps(threshold, a, b) <==> Overlaps(threshold, b, a)
  {
    assert EdgeKeys(a) * EdgeKeys(b) == EdgeKeys(b) * EdgeKeys(a);
  }

  lemma {:induction false} SpreadGrows(threshold: real, kept: seq<Path>, p: Path)
    requires Spread(threshold, kept) && !Redundant(threshold, p, kept)
    ensures Spread(threshold, kept + [p])
  {
    forall k | 0 <= k < |kept|
      ensures !Overlaps(threshold, kept[k], p) && !Overlaps(threshold, p, kept[k])
    {
      OverlapIsSymmetric(threshold, kept[k], p);
    }
  }

  /** `p` has no edges or overlaps a kept path of at least its score. */
  predicate Beaten(threshold: real, p: Path, kept: seq<Path>) {
    EdgeKeys(p) == {} || exists k :: 0 <= k < |kept| && Overlaps(threshold, p, kept[k]) && kept[k].score >= p.score
  }

  lemma {:induction false} ChooseIsGreedy(s: Settings, ranked: seq<Path>, kept: seq<Path>)
    requires Descending(kept + ranked) && Spread(s.overlapThreshold, kept)
    requires |kept| <= s.topK || kept == []
    ensures var chosen := Choose(s, ranked, kept);
            && kept <= chosen && Descending(chosen) && Spread(s.overlapThreshold, chosen)
            && (|chosen| <= s.topK || chosen == [])
            && (forall p :: p in chosen ==> p in kept || p in ranked)
            && (|chosen| < s.topK ==> forall p :: p in ranked && p !in chosen ==> Beaten(s.overlapThreshold, p, chosen))
    decreases ranked
  {
    if ranked == [] || |kept| >= s.topK {
      assert forall i, j :: 0 <= i < j < |kept| ==> (kept + ranked)[i] == kept[i] && (kept + ranked)[j] == kept[j];
    } else {
      var p, rest := ranked[0], ranked[1..];
      var redundant := Redundant(s.overlapThreshold, p, kept);
      var next := if redundant then kept else kept + [p];
      assert next + rest == (if redundant then kept + rest else kept + ranked);
      forall i, j | 0 <= i < j < |next + rest|
        ensures (next + rest)[i].score >= (next + rest)[j].score
      {
        DescendingSkip(kept, ranked, i, j);
      }
      if !redundant {
        SpreadGrows(s.overlapThreshold, kept, p);
      }
      ChooseIsGreedy(s, rest, next);
      var chosen := Choose(s, ranked, kept);
      if redundant && EdgeKeys(p) != {} {
        var k :| 0 <= k < |kept| && Overlaps(s.overlapThreshold, p, kept[k]);
        assert chosen[k] == kept[k] && (kept + ranked)[k] == kept[k] && (kept + ranked)[|kept|] == p;
      }
      forall q | |chosen| < s.topK && q in ranked && q !in chosen
        ensures Beaten(s.overlapThreshold, q, chosen)
      {
        assert q == p || q in rest;
        assert !redundant ==> next[|kept|] == p;
      }
    }
  }

  lemma {:induction false} DescendingSkip(kept: seq<Path>, ranked: seq<Path>, i: nat, j: nat)
    requires Descending(kept + ranked) && ranked != [] && i < j
    ensures var rest := kept + ranked[1..];
            j < |rest| ==> rest[i].score >= rest[j].score
    ensures j < |kept + ranked| ==> (kept + ranked)[i].score >= (kept + ranked)[j].score
  {
    var all, rest := kept + ranked, kept + ranked[1..];
    if j < |rest| {
      var a, b := if i < |kept| then i else i + 1, if j < |kept| then j else j + 1;
      assert rest[i] == all[a] && rest[j] == all[b];
    }
  }

  /** Pruning is a greedy maximal selection: kept paths are scored input paths in non-increasing
      score, at most `top_k`, none of them without edges and no two overlapping; and unless the cap
      is reached every other scored path has no edges or overlaps a kept path of at least its score. */
  lemma {:induction false} PrunedIsGreedy(s: Settings, degrees: map<string, int>, paths: seq<Path>)
    ensures var scored, kept := Scored(s.alpha, degrees, paths), Pruned(s, degrees, paths);
            && Descending(kept) && Spread(s.overlapThreshold, kept) && (|kept| <= s.topK || kept == [])
            && (forall p :: p in kept ==> p in scored)
            && (|kept| < s.topK ==> forall p :: p in scored && p !in kept ==> Beaten(s.overlapThreshold, p, kept))
  {
    var scored := Scored(s.alpha, degrees, paths);
    RankedRanks(scored);
    assert [] + Ranked(scored) == Ranked(scored);
    ChooseIsGreedy(s, Ranked(scored), []);
  }

  lemma {:induction false} ChooseAll(s: Settings, kept: seq<Path>, rest: seq<Path>)
    requires Spread(s.overlapThreshold, kept + rest) && |kept + rest| <= s.topK
    ensures Choose(s, rest, kept) == kept + rest
    decreases rest
  {
    if rest == [] {
      assert kept + rest == kept;
    } else {
      var next := kept + [rest[0]];
      assert next + rest[1..] == kept + rest;
      assert (kept + rest)[|kept|] == rest[0];
      forall k | 0 <= k < |kept|
        ensures !Overlaps(s.overlapThreshold, rest[0], kept[k])
      {
        assert (kept + rest)[k] == kept[k];
      }
      ChooseAll(s, next, rest[1..]);
    }
  }

  /** Pruning what was kept keeps all of it. */
  lemma {:induction false} PruningIsIdempotent(s: Settings, degrees: map<string, int>, paths: seq<Path>)
    ensures var kept := Pruned(s, degrees, paths);
            Pruned(s, degrees, kept) == kept
  {
    var scored, kept := Scored(s.alpha, degrees, paths), Pruned(s, degrees, paths);
    PrunedIsGreedy(s, degrees, paths);
    forall k | 0 <= k < |kept|
      ensures kept[k].score == Flow(s.alpha, degrees, kept[k].steps)
    {
      assert kept[k] in kept && kept[k] in scored;
    }
    assert Scored(s.alpha, degrees, kept) == kept;
    SortKeepsSorted(kept, Above);
    if kept != [] {
      assert [] + kept == kept;
      ChooseAll(s, [], kept);
    }
  }

  function Power(alpha: real, n: nat): real {
    if n == 0 then 1.0 else Power(alpha, n - 1) * alpha
  }

  lemma {:induction false} ProductWithin(a: real, b: real, x: real, y: real)
    requires 0.0 < a <= x && 0.0 < b <= y
    ensures 0.0 < a * b <= x * y
  {
    assert 0.0 < a * b;
    assert a * b <= x * b;
    assert x * b <= x * y;
  }

  lemma {:induction false} FactorWithin(alpha: real, degrees: map<string, int>, s: Step)
    requires 0.0 < alpha && (s.confidence.Some? ==> s.confidence.value <= 1.0)
    ensures 0.0 < Factor(alpha, degrees, s) <= alpha
  {
    var degree := if s.src in degrees then degrees[s.src] else 1;
    var branching := (if degree - 1 > 1 then degree - 1 else 1) as real;
    var stated := if s.confidence.Some? then s.confidence.value else 1.0;
    var confidence := if stated > MIN_CONFIDENCE_FACTOR then stated else MIN_CONFIDENCE_FACTOR;
    var weighed := alpha * confidence;
    ScaledDown(alpha, confidence);
    QuotientWithin(weighed, branching);
    assert Factor(alpha, degrees, s) == weighed / branching;
  }

  lemma {:induction false} SignOfProduct(q: real, d: real)
    requires d >= 0.0
    ensures q >= 0.0 ==> q * d >= 0.0
    ensures q <= 0.0 ==> q * d <= 0.0
  {
  }

  lemma {:induction false} QuotientWithin(x: real, d: real)
    requires 0.0 < x && d >= 1.0
    ensures 0.0 < x / d <= x
  {
    var q := x / d;
    assert q * d == x;
    SignOfProduct(q, d);
    SignOfProduct(q, d - 1.0);
    assert q * d == q * (d - 1.0) + q;
  }

  lemma {:induction false} ScaledDown(x: real, c: real)
    requires 0.0 < x && 0.0 < c <= 1.0
    ensures 0.0 < x * c <= x
  {
    assert x - x * c == x * (1.0 - c);
    SignOfProduct(x, 1.0 - c);
  }

  predicate AllWithin(fs: seq<real>, alpha: real) {
    fs != [] ==> 0.0 < fs[|fs| - 1] <= alpha && AllWithin(fs[..|fs| - 1], alpha)
  }

  lemma {:induction false} ProductDecays(fs: seq<real>, alpha: real)
    requires 0.0 < alpha && AllWithin(fs, alpha)
    ensures 0.0 < Product(fs) <= Power(alpha, |fs|)
    decreases fs
  {
    if fs != [] {
      var init, last := fs[..|fs| - 1], fs[|fs| - 1];
      ProductDecays(init, alpha);
      ProductWithin(Product(init), last, Power(alpha, |init|), alpha);
    }
  }

  lemma {:induction false} ProductShrinks(fs: seq<real>, alpha: real)
    requires 0.0 < alpha <= 1.0 && AllWithin(fs, alpha) && fs != []
    ensures Product(fs) <= Product(fs[..|fs| - 1])
  {
    var init, last := fs[..|fs| - 1], fs[|fs| - 1];
    ProductDecays(init, alpha);
    ScaledDown(Product(init), last);
  }

  lemma {:induction false} FactorsWithin(alpha: real, degrees: map<string, int>, steps: seq<Step>)
    requires 0.0 < alpha
    requires forall k :: 0 <= k < |steps| ==> steps[k].confidence.Some? ==> steps[k].confidence.value <= 1.0
    ensures AllWithin(Factors(alpha, degrees, steps), alpha)
    decreases steps
  {
    if steps != [] {
      FactorsWithin(alpha, degrees, steps[..|steps| - 1]);
      FactorWithin(alpha, degrees, steps[|steps| - 1]);
      var fs := Factors(alpha, degrees, steps);
      assert fs[..|fs| - 1] == Factors(alpha, degrees, steps[..|steps| - 1]);
    }
  }

  lemma {:induction false} FactorsOfPrefix(alpha: real, degrees: map<string, int>, steps: seq<Step>)
    requires steps != []
    ensures var fs := Factors(alpha, degrees, steps);
            fs[..|fs| - 1] == Factors(alpha, degrees, steps[..|steps| - 1])
  {
  }

  /** With confidences at most 1 and 0 < alpha <= 1 a score is positive, at most alpha to the length,
      and never grows when a step is appended. */
  lemma {:induction false} FlowDecays(alpha: real, degrees: map<string, int>, steps: seq<Step>)
    requires 0.0 < alpha <= 1.0
    requires forall k :: 0 <= k < |steps| ==> steps[k].confidence.Some? ==> steps[k].confidence.value <= 1.0
    ensures 0.0 < Flow(alpha, degrees, steps) <= Power(alpha, |steps|)
    ensures steps != [] ==> Flow(alpha, degrees, steps) <= Flow(alpha, degrees, steps[..|steps| - 1])
  {
    FactorsWithin(alpha, degrees, steps);
    ProductDecays(Factors(alpha, degrees, steps), alpha);
    if steps != [] {
      FactorsOfPrefix(alpha, degrees, steps);
      ProductShrinks(Factors(alpha, degrees, steps), alpha);
    }
  }

  /** Below a threshold of 1 no two kept paths run over the same edges, whichever way they are walked. */
  lemma {:induction false} SameEdgesOverlap(threshold: real, a: Path, b: Path)
    requires threshold < 1.0 && EdgeKeys(a) == EdgeKeys(b) != {}
    ensures Overlaps(threshold, a, b)
  {
    assert EdgeKeys(a) * EdgeKeys(b) == EdgeKeys(a);
    var n := |EdgeKeys(a)|;
    assert n as real / n as real == 1.0;
  }

  // ---- what a score is made of --------------------------------------------------------------------------

  lemma {:induction false} ProductJoins(a: seq<real>, b: seq<real>, x: real, y: real, z: real)
    requires x == Product(a) && y == Product(b) && z == Product(a + b)
    ensures z == x * y
    decreases b
  {
    if b == [] {
      assert a + b == a;
    } else {
      var n := |b| - 1;
      assert (a + b)[..|a| + n] == a + b[..n];
      ProductJoins(a, b[..n], x, Product(b[..n]), Product(a + b[..n]));
      Associates(x, Product(b[..n]), b[n]);
    }
  }

  lemma {:induction false} Associates(x: real, y: real, z: real)
    ensures (x * y) * z == x * (y * z)
  {
  }

  /** The flow along a path is the flow along its first part times the flow along the rest. */
  lemma {:induction false} FlowJoins(alpha: real, degrees: map<string, int>, a: seq<Step>, b: seq<Step>)
    ensures Flow(alpha, degrees, a + b) == Flow(alpha, degrees, a) * Flow(alpha, degrees, b)
  {
    FactorsJoin(alpha, degrees, a, b);
    ProductJoins(Factors(alpha, degrees, a), Factors(alpha, degrees, b),
                 Flow(alpha, degrees, a), Flow(alpha, degrees, b), Flow(alpha, degrees, a + b));
  }

  lemma {:induction false} FactorsJoin(alpha: real, degrees: map<string, int>, a: seq<Step>, b: seq<Step>)
    ensures Factors(alpha, degrees, a + b) == Factors(alpha, degrees, a) + Factors(alpha, degrees, b)
    decreases b
  {
    if b == [] {
      assert a + b == a;
    } else {
      var n := |b| - 1;
      assert (a + b)[..|a| + n] == a + b[..n];
      FactorsJoin(alpha, degrees, a, b[..n]);
    }
  }

  function Branches(degrees: map<string, int>, node: string): int {
    if node in degrees && degrees[node] > 2 then degrees[node] - 1 else 1
  }

  function Trust(s: Step): real {
    if s.confidence.None? then 1.0 else if s.confidence.value < 0.3 then 0.3 else s.confidence.value
  }

  /** One step shares what it passes on, alpha times the trust in the edge, evenly among the other
      branches of the node it leaves. */
  lemma {:induction false} StepShares(alpha: real, degrees: map<string, int>, s: Step)
    ensures Flow(alpha, degrees, [s]) * Branches(degrees, s.src) as real == alpha * Trust(s)
  {
    OneFactor(alpha, degrees, s);
    FactorIs(alpha, degrees, s);
    Quotient(alpha * Trust(s), Branches(degrees, s.src) as real);
  }

  lemma {:induction false} OneFactor(alpha: real, degrees: map<string, int>, s: Step)
    ensures Flow(alpha, degrees, [s]) == Factor(alpha, degrees, s)
  {
    var none: seq<Step>, fs := [], [Factor(alpha, degrees, s)];
    assert [s][..0] == none && Factors(alpha, degrees, none) == [];
    assert Factors(alpha, degrees, [s]) == fs && fs[..0] == [];
    assert Product(fs) == Product([]) * fs[0];
  }

  lemma {:induction false} FactorIs(alpha: real, degrees: map<string, int>, s: Step)
    ensures Factor(alpha, degrees, s) == alpha * Trust(s) / Branches(degrees, s.src) as real
  {
  }

  lemma {:induction false} Quotient(x: real, n: real)
    requires n >= 1.0
    ensures x / n * n == x
  {
  }

  // ---- what overlaps ------------------------------------------------------------------------------------

  /** Below a threshold of 1 a path all of whose edges are in another overlaps it. */
  lemma {:induction false} ContainedOverlaps(threshold: real, a: Path, b: Path)
    requires threshold < 1.0 && EdgeKeys(a) != {} && EdgeKeys(a) <= EdgeKeys(b)
    ensures Overlaps(threshold, a, b)
  {
    assert EdgeKeys(a) * EdgeKeys(b) == EdgeKeys(a);
    Subset(EdgeKeys(a), EdgeKeys(b));
    var n := |EdgeKeys(a)|;
    assert n as real / n as real == 1.0;
  }

  lemma {:induction false} Subset<T>(a: set<T>, b: set<T>)
    requires a <= b
    ensures |a| <= |b|
  {
    assert b == a + (b - a);
  }

  /** Paths without a common edge never overlap at a threshold that is not negative. */
  lemma {:induction false} DisjointApart(threshold: real, a: Path, b: Path)
    requires threshold >= 0.0 && EdgeKeys(a) !! EdgeKeys(b)
    ensures !Overlaps(threshold, a, b)
  {
    assert EdgeKeys(a) * EdgeKeys(b) == {};
  }

  /** Two steps are the same edge exactly when they are of one kind between the same two nodes, whichever
      way they are walked. */
  lemma {:induction false} EdgesAreUndirected(s: Step, t: Step)
    ensures Key(s) == Key(t) <==>
            s.kind == t.kind && ((s.src == t.src && s.dst == t.dst) || (s.src == t.dst && s.dst == t.src))
  {
    if Key(s) == Key(t) {
      assert s.src in {t.src, t.dst} && s.dst in {t.src, t.dst} && t.src in {s.src, s.dst} && t.dst in {s.src, s.dst};
    } else if s.kind == t.kind {
      assert (s.src == t.dst && s.dst == t.src) ==> {s.src, s.dst} == {t.src, t.dst};
    }
  }
}
