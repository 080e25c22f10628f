/** What the denoise pass keeps, whatever plans the model returns and wherever the store fails. */
module DenoiseLaws {
  import opened Text
  import opened Denoise

  // ---- what one query keeps ---------------------------------------------------------------------------

  /** The equipment still carries a failure edge with this provenance. */
  predicate Carries(g: Graph, equipment: string, provHash: string) {
    exists x :: x in g.failures && x.equipment == equipment && x.provHash == provHash
  }

  /** `h` is `g` with nothing lost: the same failure modes, the same (equipment, provenance) pairs,
      every trail kept, a trail from everything newly superseded, and new causes only between two
      different nodes of `ids`. */
  ghost predicate Keeps(g: Graph, h: Graph, ids: set<string>) {
    && h.modes == g.modes
    && (forall e, p :: Carries(h, e, p) <==> Carries(g, e, p))
    && g.superseded <= h.superseded && g.mergedInto <= h.mergedInto && g.causes <= h.causes
    && (forall v :: v in h.superseded && v !in g.superseded ==> exists c :: (v, c) in h.mergedInto)
    && (forall c :: c in h.causes && c !in g.causes ==> c.0 in ids && c.1 in ids && c.0 != c.1)
  }

  /** A query that names supplied nodes only and never merges a node into itself. */
  predicate Safe(q: Query, ids: set<string>) {
    match q
    case Redirect(cid, vids) => cid !in vids
    case Supersede(cid, vids) => true
    case AddCause(cause, effect) => cause in ids && effect in ids && cause != effect
  }

  lemma {:induction false} RedirectKeepsPairs(g: Graph, cid: string, vids: seq<string>, e: string, p: string)
    requires cid !in vids
    ensures Carries(Apply(g, Redirect(cid, vids)), e, p) <==> Carries(g, e, p)
  {
    var h := Apply(g, Redirect(cid, vids));
    if cid in g.modes {
      var merged := HasFailure(e, p, cid);
      if Carries(g, e, p) {
        var x :| x in g.failures && x.equipment == e && x.provHash == p;
        assert x in h.failures || merged in h.failures;
      }
      if Carries(h, e, p) {
        var x :| x in h.failures && x.equipment == e && x.provHash == p;
        if x !in g.failures {
          var y :| y in g.failures && y.mode in vids && x == HasFailure(y.equipment, y.provHash, cid);
        }
      }
    }
  }

  lemma {:induction false} SafeQueryKeeps(g: Graph, q: Query, ids: set<string>)
    requires Safe(q, ids)
    ensures Keeps(g, Apply(g, q), ids)
  {
    match q
    case Redirect(cid, vids) =>
      forall e, p
        ensures Carries(Apply(g, q), e, p) <==> Carries(g, e, p)
      {
        RedirectKeepsPairs(g, cid, vids, e, p);
      }
    case Supersede(cid, vids) =>
      var h := Apply(g, q);
      assert h.failures == g.failures;
      forall v | v in h.superseded && v !in g.superseded
        ensures exists c :: (v, c) in h.mergedInto
      {
        assert (v, cid) in h.mergedInto;
      }
    case AddCause(cause, effect) =>
      assert Apply(g, q).failures == g.failures;
  }

  lemma {:induction false} KeepsChains(g: Graph, h: Graph, k: Graph, ids: set<string>, more: set<string>)
    requires Keeps(g, h, ids) && Keeps(h, k, more)
    ensures g.modes == k.modes && forall e, p :: Carries(k, e, p) <==> Carries(g, e, p)
    ensures g.superseded <= k.superseded && g.mergedInto <= k.mergedInto && g.causes <= k.causes
    ensures forall v :: v in k.superseded && v !in g.superseded ==> exists c :: (v, c) in k.mergedInto
  {
    forall v | v in k.superseded && v !in g.superseded
      ensures exists c :: (v, c) in k.mergedInto
    {
      if v in h.superseded {
        var c :| (v, c) in h.mergedInto;
        assert (v, c) in k.mergedInto;
      }
    }
  }

  predicate AllSafe(qs: seq<Query>, ids: set<string>) {
    forall i :: 0 <= i < |qs| ==> Safe(qs[i], ids)
  }

  lemma {:induction false} SafeQueriesKeep(g: Graph, qs: seq<Query>, left: nat, ids: set<string>)
    requires AllSafe(qs, ids)
    ensures Keeps(g, ApplyUpTo(g, qs, left), ids)
    decreases qs
  {
    if qs != [] && left > 0 {
      var h := Apply(g, qs[0]);
      SafeQueryKeeps(g, qs[0], ids);
      SafeQueriesKeep(h, qs[1..], left - 1, ids);
      KeepsChains(g, h, ApplyUpTo(g, qs, left), ids, ids);
    }
  }

  // ---- every plan gives safe queries -----------------------------------------------------------------

  function Supplied(failures: seq<Failure>): set<string> {
    set k | 0 <= k < |failures| :: failures[k].id
  }

  /** A row names each failure node once. */
  predicate Distinct(failures: seq<Failure>) {
    forall j, k :: 0 <= j < k < |failures| ==> failures[j].id != failures[k].id
  }

  /** Different labels of a row stand for different nodes, all of them supplied. */
  lemma {:induction false} LabelsAreInjective(failures: seq<Failure>)
    requires Distinct(failures)
    ensures forall u :: u in ByLabel(failures) ==> ByLabel(failures)[u] in Supplied(failures)
    ensures forall u, w :: u in ByLabel(failures) && w in ByLabel(failures) && ByLabel(failures)[u] == ByLabel(failures)[w]
              ==> u == w
    decreases failures
  {
    if failures != [] {
      var init, last := failures[..|failures| - 1], failures[|failures| - 1];
      LabelsAreInjective(init);
      assert last.id !in Supplied(init);
      assert last.id in Supplied(failures) by {
        assert failures[|failures| - 1].id == last.id;
      }
      forall id | id in Supplied(init)
        ensures id in Supplied(failures)
      {
        var k :| 0 <= k < |init| && init[k].id == id;
        assert failures[k].id == id;
      }
    }
  }

  predicate Injective(ids: map<string, string>) {
    forall u, w :: u in ids && w in ids && ids[u] == ids[w] ==> u == w
  }

  /** No variant of a validated group is its canonical. */
  predicate GroupsApart(groups: seq<Group>) {
    groups != [] ==> Apart(groups[0].variants, Upper(groups[0].canonical)) && GroupsApart(groups[1..])
  }

  predicate Apart(variants: seq<string>, u: string) {
    variants != [] ==> Upper(variants[0]) != u && Apart(variants[1..], u)
  }

  lemma {:induction false} VariantsApart(variants: seq<string>, canonical: string, allowed: set<string>)
    ensures Apart(KeptVariants(variants, canonical, allowed), Upper(canonical))
    decreases variants
  {
    if variants != [] {
      VariantsApart(variants[1..], canonical, allowed);
      var rest := KeptVariants(variants[1..], canonical, allowed);
      assert ([variants[0]] + rest)[1..] == rest && [] + rest == rest;
    }
  }

  lemma {:induction false} ValidatedApart(groups: seq<Group>, allowed: set<string>)
    ensures GroupsApart(KeptGroups(groups, allowed))
    decreases groups
  {
    if groups != [] {
      ValidatedApart(groups[1..], allowed);
      VariantsApart(groups[0].variants, groups[0].canonical, allowed);
      var first := Group(groups[0].canonical, KeptVariants(groups[0].variants, groups[0].canonical, allowed));
      var rest := KeptGroups(groups[1..], allowed);
      assert ([first] + rest)[1..] == rest && [] + rest == rest;
    }
  }

  lemma {:induction false} IdsApart(ids: map<string, string>, variants: seq<string>, u: string)
    requires Injective(ids) && u in ids && Apart(variants, u)
    ensures ids[u] !in IdsOf(ids, variants)
    decreases variants
  {
    if variants != [] {
      IdsApart(ids, variants[1..], u);
    }
  }

  predicate ValuesIn(m: map<string, string>, ids: set<string>) {
    forall u :: u in m ==> m[u] in ids
  }

  lemma {:induction false} ClaimedIn(canon: map<string, string>, variants: seq<string>, cid: string, ids: set<string>)
    requires ValuesIn(canon, ids) && cid in ids
    ensures ValuesIn(Claimed(canon, variants, cid), ids)
    decreases variants
  {
    if variants != [] {
      ClaimedIn(canon[Upper(variants[0]) := cid], variants[1..], cid, ids);
    }
  }

  lemma {:induction false} LinksSafe(
    names: map<string, string>, canon: map<string, string>, links: seq<Link>, ids: set<string>)
    requires ValuesIn(names, ids) && ValuesIn(canon, ids)
    ensures AllSafe(LinkQueries(names, canon, links), ids)
    decreases links
  {
    if links != [] {
      LinksSafe(names, canon, links[1..], ids);
    }
  }

  lemma {:induction false} RowSafe(
    names: map<string, string>, canon: map<string, string>, groups: seq<Group>, links: seq<Link>, ids: set<string>)
    requires Injective(names) && ValuesIn(names, ids) && ValuesIn(canon, ids) && GroupsApart(groups)
    ensures AllSafe(RowQueries(names, canon, groups, links), ids)
    decreases groups
  {
    if groups == [] {
      LinksSafe(names, canon, links, ids);
    } else {
      var g, u := groups[0], Upper(groups[0].canonical);
      if u in names && names[u] != "" {
        IdsApart(names, g.variants, u);
        ClaimedIn(canon, g.variants, names[u], ids);
        RowSafe(names, Claimed(canon, g.variants, names[u])[u := names[u]], groups[1..], links, ids);
      } else {
        RowSafe(names, canon, groups[1..], links, ids);
      }
    }
  }

  /** Reconciling one equipment under any plan, cut off by the store at any query, loses nothing. */
  lemma {:induction false} AnyPlanKeeps(g: Graph, row: Row, plan: Plan, left: nat)
    requires Distinct(row.failures)
    ensures Keeps(g, ApplyUpTo(g, ReconcileQueries(row, plan), left), Supplied(row.failures))
  {
    var labels, ids := Labels(row.failures), Supplied(row.failures);
    LabelsAreInjective(row.failures);
    ValidatedApart(plan.groups, Allowed(labels));
    var valid := Validated(plan, labels);
    RowSafe(ByLabel(row.failures), map[], valid.groups, valid.causal, ids);
    SafeQueriesKeep(g, ReconcileQueries(row, plan), left, ids);
  }

  /** Two different nodes that were supplied for the same equipment. */
  predicate SuppliedTogether(rows: seq<Row>, c: (string, string)) {
    && c.0 != c.1
    && exists k :: 0 <= k < |rows| && c.0 in Supplied(rows[k].failures) && c.1 in Supplied(rows[k].failures)
  }

  /** The whole phase, for any plans and any failures of the store: the set of (equipment, provenance)
      pairs that carry a failure edge stays the same, no failure-mode node is deleted, whatever is
      newly superseded has a trail, and new causes join two different supplied nodes. */
  lemma {:induction false} PhaseKeeps(g: Graph, rows: seq<Row>, plans: seq<Plan>, outages: seq<nat>)
    requires |plans| == |rows| == |outages| && forall k :: 0 <= k < |rows| ==> Distinct(rows[k].failures)
    ensures var h := ApplyRows(g, rows, plans, outages);
            && h.modes == g.modes
            && (forall e, p :: Carries(h, e, p) <==> Carries(g, e, p))
            && g.superseded <= h.superseded && g.mergedInto <= h.mergedInto && g.causes <= h.causes
            && (forall v :: v in h.superseded && v !in g.superseded ==> exists c :: (v, c) in h.mergedInto)
            && (forall c :: c in h.causes && c !in g.causes ==> SuppliedTogether(rows, c))
    decreases rows
  {
    if rows != [] {
      var mid := ApplyUpTo(g, ReconcileQueries(rows[0], plans[0]), outages[0]);
      var h := ApplyRows(g, rows, plans, outages);
      AnyPlanKeeps(g, rows[0], plans[0], outages[0]);
      PhaseKeeps(mid, rows[1..], plans[1..], outages[1..]);
      forall v | v in h.superseded && v !in g.superseded
        ensures exists c :: (v, c) in h.mergedInto
      {
        if v in mid.superseded {
          var c :| (v, c) in mid.mergedInto;
          assert (v, c) in h.mergedInto;
        }
      }
      forall c | c in h.causes && c !in g.causes
        ensures SuppliedTogether(rows, c)
      {
        if c in mid.causes {
          assert c.0 in Supplied(rows[0].failures) && c.1 in Supplied(rows[0].failures);
        } else {
          var k :| 0 <= k < |rows[1..]| && c.0 in Supplied(rows[1..][k].failures) && c.1 in Supplied(rows[1..][k].failures);
          assert rows[k + 1] == rows[1..][k];
        }
      }
    }
  }

  // ---- what it does not keep: failures in view -------------------------------------------------------

  /** Every failure edge leads to a node that is not superseded, so the next pass still sees it. */
  predicate InView(g: Graph) {
    forall x :: x in g.failures ==> x.mode !in g.superseded
  }

  /** A merge keeps the failures in view if and only if it moves no edge, or its canonical node is
      not superseded itself. */
  lemma {:induction false} MergeKeepsInView(g: Graph, cid: string, vids: seq<string>)
    requires InView(g) && cid in g.modes && cid !in vids
    ensures var h := Apply(Apply(g, Redirect(cid, vids)), Supersede(cid, vids));
            InView(h) <==> cid !in g.superseded || !(exists x :: x in g.failures && x.mode in vids)
  {
    var h := Apply(Apply(g, Redirect(cid, vids)), Supersede(cid, vids));
    if exists x :: x in g.failures && x.mode in vids {
      var x :| x in g.failures && x.mode in vids;
      assert HasFailure(x.equipment, x.provHash, cid) in h.failures;
    }
  }

  /** `kept` holds the canonical node of every group and no variant of any: no label is merged both
      from and into. */
  predicate Compatible(names: map<string, string>, groups: seq<Group>, kept: set<string>) {
    groups != [] ==>
      var u := Upper(groups[0].canonical);
      && (u in names ==> names[u] in kept)
      && (forall v :: v in IdsOf(names, groups[0].variants) ==> v !in kept)
      && Compatible(names, groups[1..], kept)
  }

  /** Failures in view, on nodes or moved to nodes that are not superseded. */
  predicate ViewKept(g: Graph, kept: set<string>) {
    InView(g) && kept !! g.superseded
  }

  lemma {:induction false} MergeKeepsView(g: Graph, cid: string, vids: seq<string>, kept: set<string>, left: nat)
    requires ViewKept(g, kept) && cid in kept && forall v :: v in vids ==> v !in kept
    ensures ViewKept(ApplyUpTo(g, MergeQueries(cid, vids), left), kept)
  {
    if vids != [] && left > 0 {
      var q, r := Redirect(cid, vids), Supersede(cid, vids);
      var mid := Apply(g, q);
      assert ViewKept(mid, kept);
      assert [q, r][1..] == [r] && [r][1..] == [];
      assert left == 1 ==> ApplyUpTo(g, [q, r], left) == mid;
      if left > 1 {
        TwoQueries(g, q, r, left);
        assert cid in g.modes ==> forall x :: x in mid.failures ==> x.mode !in vids;
      }
    }
  }

  lemma {:induction false} LinksKeepView(
    g: Graph, names: map<string, string>, canon: map<string, string>, links: seq<Link>, kept: set<string>, left: nat)
    requires ViewKept(g, kept)
    ensures ViewKept(ApplyUpTo(g, LinkQueries(names, canon, links), left), kept)
    decreases links
  {
    if links != [] {
      var cause, effect := Resolved(names, canon, links[0].cause), Resolved(names, canon, links[0].effect);
      var rest := LinkQueries(names, canon, links[1..]);
      if cause != "" && effect != "" && cause != effect {
        var q := AddCause(cause, effect);
        assert ([q] + rest)[1..] == rest;
        if left > 0 {
          LinksKeepView(Apply(g, q), names, canon, links[1..], kept, left - 1);
        }
      } else {
        assert [] + rest == rest;
        LinksKeepView(g, names, canon, links[1..], kept, left);
      }
    }
  }

  /** A plan that merges no label both from and into keeps every failure in view, wherever the store
      fails. */
  lemma {:induction false} CompatiblePlanKeepsView(
    g: Graph, names: map<string, string>, canon: map<string, string>, groups: seq<Group>, links: seq<Link>,
    kept: set<string>, left: nat)
    requires ViewKept(g, kept) && Compatible(names, groups, kept)
    ensures ViewKept(ApplyUpTo(g, RowQueries(names, canon, groups, links), left), kept)
    decreases groups
  {
    if groups == [] {
      LinksKeepView(g, names, canon, links, kept, left);
    } else {
      var group, u := groups[0], Upper(groups[0].canonical);
      if u !in names || names[u] == "" {
        CompatiblePlanKeepsView(g, names, canon, groups[1..], links, kept, left);
      } else {
        var cid, vids := names[u], IdsOf(names, group.variants);
        var next := Claimed(canon, group.variants, cid)[u := cid];
        var merge, rest := MergeQueries(cid, vids), RowQueries(names, next, groups[1..], links);
        ApplyJoins(g, merge, rest, left);
        MergeKeepsView(g, cid, vids, kept, left);
        if left >= |merge| {
          CompatiblePlanKeepsView(ApplyUpTo(g, merge, left), names, next, groups[1..], links, kept, left - |merge|);
        }
      }
    }
  }

  /** A plan that merges two labels into each other passes validation and takes every failure of the
      equipment on those labels out of view: both nodes end superseded. */
  lemma {:induction false} CrossMergeHides(g: Graph, a: Failure, b: Failure)
    requires Upper(a.name) != Upper(b.name) && a.id != b.id && a.id != "" && b.id != ""
    requires a.id in g.modes && b.id in g.modes
    requires exists x :: x in g.failures && x.mode == a.id
    ensures var plan := Plan([Group(a.name, [b.name]), Group(b.name, [a.name])], []);
            var h := ApplyUpTo(g, ReconcileQueries(Row([a, b]), plan), 4);
            a.id in h.superseded && b.id in h.superseded && !InView(h)
  {
    var x :| x in g.failures && x.mode == a.id;
    var plan := Plan([Group(a.name, [b.name]), Group(b.name, [a.name])], []);
    var row := Row([a, b]);
    CrossQueries(a, b);
    var m1, m2 := [Redirect(a.id, [b.id]), Supersede(a.id, [b.id])], [Redirect(b.id, [a.id]), Supersede(b.id, [a.id])];
    ApplyJoins(g, m1, m2, 4);
    TwoQueries(g, m1[0], m1[1], 4);
    var mid := ApplyUpTo(g, m1, 4);
    TwoQueries(mid, m2[0], m2[1], 2);
    var h := ApplyUpTo(mid, m2, 2);
    assert x in mid.failures && x.mode in [a.id] && b.id in mid.superseded;
    var moved := HasFailure(x.equipment, x.provHash, b.id);
    assert moved in Apply(mid, m2[0]).failures;
    assert moved in h.failures;
  }

  lemma {:induction false} TwoQueries(g: Graph, q: Query, r: Query, left: nat)
    requires left >= 2
    ensures ApplyUpTo(g, [q, r], left) == Apply(Apply(g, q), r)
  {
    assert [q, r][1..] == [r] && [r][1..] == [];
    var none: seq<Query> := [];
    assert ApplyUpTo(Apply(Apply(g, q), r), none, left - 2) == Apply(Apply(g, q), r);
    assert ApplyUpTo(Apply(g, q), [r], left - 1) == Apply(Apply(g, q), r);
  }

  lemma {:induction false} CrossQueries(a: Failure, b: Failure)
    requires Upper(a.name) != Upper(b.name) && a.id != b.id && a.id != "" && b.id != ""
    ensures var plan := Plan([Group(a.name, [b.name]), Group(b.name, [a.name])], []);
            ReconcileQueries(Row([a, b]), plan) ==
              [Redirect(a.id, [b.id]), Supersede(a.id, [b.id])] + [Redirect(b.id, [a.id]), Supersede(b.id, [a.id])]
  {
    var first, second := Group(a.name, [b.name]), Group(b.name, [a.name]);
    var ua, ub := Upper(a.name), Upper(b.name);
    TwoFailures(a, b);
    var allowed, ids := {ua, ub}, map[ua := a.id, ub := b.id];
    OneVariant(b.name, a.name, allowed, ids);
    OneVariant(a.name, b.name, allowed, ids);
    var groups, one := [first, second], [second];
    assert groups[1..] == one && one[1..] == [];
    assert KeptGroups(one, allowed) == [second] + [] == one;
    assert KeptGroups(groups, allowed) == [first] + one == groups;
    var canon := Claimed(map[], first.variants, a.id)[ua := a.id];
    var after := Claimed(canon, second.variants, b.id)[ub := b.id];
    var none: seq<Link>, done: seq<Group> := [], [];
    assert RowQueries(ids, after, done, none) == [];
    assert RowQueries(ids, canon, one, none) == MergeQueries(b.id, [a.id]) + [];
    assert RowQueries(ids, map[], groups, none) == MergeQueries(a.id, [b.id]) + RowQueries(ids, canon, one, none);
  }

  lemma {:induction false} TwoFailures(a: Failure, b: Failure)
    ensures Allowed(Labels([a, b])) == {Upper(a.name), Upper(b.name)}
    ensures ByLabel([a, b]) == map[Upper(a.name) := a.id, Upper(b.name) := b.id]
  {
    var two, one, last := [a, b], [a], [b];
    assert two[1..] == last && last[1..] == [] && two[..|two| - 1] == one && one[..|one| - 1] == [];
    assert Labels(last) == [b.name] + Labels(last[1..]) == [b.name];
    assert Labels(two) == [a.name] + [b.name];
    var names, rest := Labels(two), [b.name];
    assert names[0] == a.name && names[1..] == rest && rest[1..] == [];
    assert Allowed(rest) == {Upper(b.name)} + Allowed(rest[1..]);
    assert ByLabel(one) == ByLabel(one[..|one| - 1])[Upper(a.name) := a.id];
  }

  lemma {:induction false} OneVariant(v: string, canonical: string, allowed: set<string>, ids: map<string, string>)
    requires Upper(v) in allowed && Upper(v) != Upper(canonical) && Upper(v) in ids
    ensures KeptVariants([v], canonical, allowed) == [v] && IdsOf(ids, [v]) == [ids[Upper(v)]]
  {
    assert [v][1..] == [];
  }
}
