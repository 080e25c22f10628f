/** The denoise pass over failure modes: the plan a language model returns is validated, then merged
    into the graph query by query. The store may fail at any query, which abandons the equipment. */
module Denoise {
  import opened Text
  import opened Wrappers

  datatype Failure = Failure(id: string, name: string)

  datatype Row = Row(failures: seq<Failure>)

  datatype Group = Group(canonical: string, variants: seq<string>)

  datatype Link = Link(cause: string, effect: string)

  datatype Plan = Plan(groups: seq<Group>, causal: seq<Link>)

  /** A HAS_FAILURE edge. */
  datatype HasFailure = HasFailure(equipment: string, provHash: string, mode: string)

  datatype Graph = Graph(
    modes: set<string>, failures: set<HasFailure>, superseded: set<string>,
    mergedInto: set<(string, string)>, causes: set<(string, string)>)

  datatype Query =
    | Redirect(cid: string, vids: seq<string>)
    | Supersede(cid: string, vids: seq<string>)
    | AddCause(cause: string, effect: string)

  // ---- the plan -----------------------------------------------------------------------------------

  function Allowed(labels: seq<string>): set<string> {
    if labels == [] then {} else {Upper(labels[0])} + Allowed(labels[1..])
  }

  function KeptVariants(variants: seq<string>, canonical: string, allowed: set<string>): seq<string> {
    if variants == [] then []
    else
      var v := variants[0];
      (if Upper(v) in allowed && Upper(v) != Upper(canonical) then [v] else [])
      + KeptVariants(variants[1..], canonical, allowed)
  }

  function KeptGroups(groups: seq<Group>, allowed: set<string>): seq<Group> {
    if groups == [] then []
    else
      var g := groups[0];
      (if Upper(g.canonical) in allowed then [Group(g.canonical, KeptVariants(g.variants, g.canonical, allowed))] else [])
      + KeptGroups(groups[1..], allowed)
  }

  function KeptLinks(links: seq<Link>, allowed: set<string>): seq<Link> {
    if links == [] then []
    else
      var c := links[0];
      (if Upper(c.cause) in allowed && Upper(c.effect) in allowed && Upper(c.cause) != Upper(c.effect) then [c] else [])
      + KeptLinks(links[1..], allowed)
  }

  function Validated(plan: Plan, labels: seq<string>): Plan {
    Plan(KeptGroups(plan.groups, Allowed(labels)), KeptLinks(plan.causal, Allowed(labels)))
  }

  // ---- the queries of one equipment -----------------------------------------------------------------

  function Labels(failures: seq<Failure>): seq<string> {
    if failures == [] then [] else [failures[0].name] + Labels(failures[1..])
  }

  /** The last failure of a label gives its id. */
  function ByLabel(failures: seq<Failure>): map<string, string> {
    if failures == [] then map[]
    else
      var last := failures[|failures| - 1];
      ByLabel(failures[..|failures| - 1])[Upper(last.name) := last.id]
  }

  function IdsOf(ids: map<string, string>, variants: seq<string>): seq<string> {
    if variants == [] then []
    else
      var u := Upper(variants[0]);
      (if u in ids then [ids[u]] else []) + IdsOf(ids, variants[1..])
  }

  function Claimed(canon: map<string, string>, variants: seq<string>, cid: string): map<string, string>
    decreases variants
  {
    if variants == [] then canon else Claimed(canon[Upper(variants[0]) := cid], variants[1..], cid)
  }

  function Resolved(ids: map<string, string>, canon: map<string, string>, name: string): string {
    var u := Upper(name);
    if u in canon then canon[u] else if u in ids then ids[u] else ""
  }

  function LinkQuery(ids: map<string, string>, canon: map<string, string>, link: Link): seq<Query> {
    var cause, effect := Resolved(ids, canon, link.cause), Resolved(ids, canon, link.effect);
    if cause != "" && effect != "" && cause != effect then [AddCause(cause, effect)] else []
  }

  function LinkQueries(ids: map<string, string>, canon: map<string, string>, links: seq<Link>): seq<Query> {
    if links == [] then [] else LinkQuery(ids, canon, links[0]) + LinkQueries(ids, canon, links[1..])
  }

  function MergeQueries(cid: string, vids: seq<string>): seq<Query> {
    if vids == [] then [] else [Redirect(cid, vids), Supersede(cid, vids)]
  }

  /** The queries for the groups still to come and then the causal links; `canon` maps the labels of
      the groups done to the surviving ids. */
  function RowQueries(ids: map<string, string>, canon: map<string, string>, groups: seq<Group>, links: seq<Link>): seq<Query>
    decreases groups
  {
    if groups == [] then LinkQueries(ids, canon, links)
    else
      var g, u := groups[0], Upper(groups[0].canonical);
      if u !in ids || ids[u] == "" then RowQueries(ids, canon, groups[1..], links)
      else
        var next := Claimed(canon, g.variants, ids[u])[u := ids[u]];
        MergeQueries(ids[u], IdsOf(ids, g.variants)) + RowQueries(ids, next, groups[1..], links)
  }

  /** `_reconcile_one` under whatever plan the model returned. */
  function ReconcileQueries(row: Row, plan: Plan): seq<Query> {
    if |row.failures| < 2 then []
    else
      var valid := Validated(plan, Labels(row.failures));
      RowQueries(ByLabel(row.failures), map[], valid.groups, valid.causal)
  }

  // ---- the queries' effect ----------------------------------------------------------------------------

  /** MERGE an edge to the canonical node for every edge matched, then DELETE the edges matched. */
  function Redirected(failures: set<HasFailure>, cid: string, vids: seq<string>): set<HasFailure> {
    var matched := set x | x in failures && x.mode in vids;
    var moved := set x | x in matched :: HasFailure(x.equipment, x.provHash, cid);
    (failures + moved) - matched
  }

  function Apply(g: Graph, q: Query): Graph {
    match q
    case Redirect(cid, vids) =>
      if cid in g.modes then g.(failures := Redirected(g.failures, cid, vids)) else g
    case Supersede(cid, vids) =>
      if cid !in g.modes then g
      else
        var merged := set v | v in vids && v in g.modes;
        g.(superseded := g.superseded + merged, mergedInto := g.mergedInto + set v | v in merged :: (v, cid))
    case AddCause(cause, effect) =>
      if cause in g.modes && effect in g.modes then g.(causes := g.causes + {(cause, effect)}) else g
  }

  /** The first `left` of the queries; then the store fails. */
  function ApplyUpTo(g: Graph, qs: seq<Query>, left: nat): Graph
    decreases qs
  {
    if qs == [] || left == 0 then g else ApplyUpTo(Apply(g, qs[0]), qs[1..], left - 1)
  }

  /** The pass so far: the graph, how many more queries the store answers before it fails, the nodes
      merged away by merges that are through, and the causal links added. */
  datatype Pass = Pass(graph: Graph, left: nat, merged: nat, linked: nat)

  function Performed(p: Pass, q: Query): Pass
    requires p.left > 0
  {
    Pass(Apply(p.graph, q), p.left - 1,
         p.merged + if q.Supersede? then |q.vids| else 0,
         p.linked + if q.AddCause? then 1 else 0)
  }

  /** The queries in turn, until the store fails. */
  function Perform(p: Pass, qs: seq<Query>): Pass
    decreases qs
  {
    if qs == [] || p.left == 0 then p else Perform(Performed(p, qs[0]), qs[1..])
  }

  function PerformRows(p: Pass, rows: seq<Row>, plans: seq<Plan>, outages: seq<nat>): Pass
    requires |plans| == |rows| == |outages|
    decreases rows
  {
    if rows == [] then p
    else PerformRows(Perform(p.(left := outages[0]), ReconcileQueries(rows[0], plans[0])), rows[1..], plans[1..], outages[1..])
  }

  /** The equipment with something to reconcile, and those the store failed on. */
  function Reconciled(rows: seq<Row>): nat {
    if rows == [] then 0 else (if |rows[0].failures| >= 2 then 1 else 0) + Reconciled(rows[1..])
  }

  function Skipped(rows: seq<Row>, plans: seq<Plan>, outages: seq<nat>): nat
    requires |plans| == |rows| == |outages|
  {
    if rows == [] then 0
    else (if outages[0] < |ReconcileQueries(rows[0], plans[0])| then 1 else 0) + Skipped(rows[1..], plans[1..], outages[1..])
  }

  // ---- the pass -----------------------------------------------------------------------------------------

  method Validate(plan: Plan, labels: seq<string>) returns (valid: Plan)
    ensures valid == Validated(plan, labels)
  {
    var allowed := Allowed(labels);
    var groups := [];
    var rest := plan.groups;
    while rest != []
      invariant groups + KeptGroups(rest, allowed) == KeptGroups(plan.groups, allowed)
      decreases |rest|
    {
      var g := rest[0];
      if Upper(g.canonical) in allowed {
        groups := groups + [Group(g.canonical, KeptVariants(g.variants, g.canonical, allowed))];
      }
      rest := rest[1..];
    }
    valid := Plan(groups, KeptLinks(plan.causal, allowed));
  }

  class DenoiseGraph {
    var graph: Graph
    /** How many more queries the store answers before it fails. */
    var left: nat

    constructor (graph: Graph, left: nat)
      ensures this.graph == graph && this.left == left
    {
      this.graph, this.left := graph, left;
    }

    method Execute(q: Query) returns (ok: bool)
      modifies this
      ensures ok == (old(left) > 0)
      ensures graph == if ok then Apply(old(graph), q) else old(graph)
      ensures left == if ok then old(left) - 1 else 0
    {
      if left == 0 {
        return false;
      }
      graph, left := Apply(graph, q), left - 1;
      return true;
    }

    method MergeFailureModes(cid: string, vids: seq<string>) returns (merged: Option<nat>)
      modifies this
      ensures forall m: nat, l: nat :: Perform(Pass(old(graph), old(left), m, l), MergeQueries(cid, vids)) ==
                Pass(graph, left, m + if merged.Some? then merged.value else 0, l)
      ensures merged.Some? <==> old(left) >= |MergeQueries(cid, vids)|
    {
      if vids == [] {
        return Some(0);
      }
      MergePerforms(cid, vids, graph, left);
      var ok := Execute(Redirect(cid, vids));
      if !ok {
        return None;
      }
      ok := Execute(Supersede(cid, vids));
      if !ok {
        return None;
      }
      return Some(|vids|);
    }
  }

  class DenoiseRunner {
    const store: DenoiseGraph
    var merged: nat
    var causalAdded: nat
    var equipment: nat
    var skipped: nat

    constructor (store: DenoiseGraph)
      ensures this.store == store && merged == 0 && causalAdded == 0 && equipment == 0 && skipped == 0
    {
      this.store, merged, causalAdded, equipment, skipped := store, 0, 0, 0, 0;
    }

    function View(): Pass
      reads this, store
    {
      Pass(store.graph, store.left, merged, causalAdded)
    }

    /** The loop over the groups. False stands for a raise: the store failed. */
    method MergeGroups(ids: map<string, string>, groups: seq<Group>, ghost links: seq<Link>)
      returns (ok: bool, canon: map<string, string>)
      modifies this`merged, store
      ensures Perform(View(), LinkQueries(ids, canon, links)) == Perform(old(View()), RowQueries(ids, map[], groups, links))
      ensures var all, later := |RowQueries(ids, map[], groups, links)|, |LinkQueries(ids, canon, links)|;
              if ok then old(store.left) - all == store.left - later else store.left == 0 && old(store.left) < all
    {
      canon := map[];
      var rest := groups;
      ghost var all := RowQueries(ids, map[], groups, links);
      ghost var goal := Perform(View(), all);
      while rest != []
        invariant Perform(View(), RowQueries(ids, canon, rest, links)) == goal
        invariant old(store.left) - |all| == store.left - |RowQueries(ids, canon, rest, links)|
        decreases |rest|
      {
        var g := rest[0];
        var u := Upper(g.canonical);
        if u in ids && ids[u] != "" {
          var cid, vids := ids[u], IdsOf(ids, g.variants);
          canon := Claimed(canon, g.variants, cid)[u := cid];
          PerformJoins(View(), MergeQueries(cid, vids), RowQueries(ids, canon, rest[1..], links));
          LeftAfter(View(), MergeQueries(cid, vids));
          var n := store.MergeFailureModes(cid, vids);
          if n.None? {
            return false, canon;
          }
          merged := merged + n.value;
        }
        rest := rest[1..];
      }
      return true, canon;
    }

    /** One causal link: its labels stand for the surviving nodes. */
    method AddLink(ids: map<string, string>, canon: map<string, string>, link: Link) returns (ok: bool)
      modifies this`causalAdded, store
      ensures View() == Perform(old(View()), LinkQuery(ids, canon, link))
      ensures ok <==> old(store.left) >= |LinkQuery(ids, canon, link)|
    {
      var cause, effect := Resolved(ids, canon, link.cause), Resolved(ids, canon, link.effect);
      if cause == "" || effect == "" || cause == effect {
        return true;
      }
      assert [AddCause(cause, effect)][1..] == [];
      ok := store.Execute(AddCause(cause, effect));
      if ok {
        causalAdded := causalAdded + 1;
      }
    }

    /** The loop over the causal links. */
    method AddLinks(ids: map<string, string>, canon: map<string, string>, links: seq<Link>) returns (ok: bool)
      modifies this`causalAdded, store
      ensures View() == Perform(old(View()), LinkQueries(ids, canon, links))
      ensures ok <==> old(store.left) >= |LinkQueries(ids, canon, links)|
    {
      var rest := links;
      ghost var all := LinkQueries(ids, canon, links);
      ghost var goal := Perform(View(), all);
      while rest != []
        invariant Perform(View(), LinkQueries(ids, canon, rest)) == goal
        invariant old(store.left) - |all| == store.left - |LinkQueries(ids, canon, rest)|
        decreases |rest|
      {
        PerformJoins(View(), LinkQuery(ids, canon, rest[0]), LinkQueries(ids, canon, rest[1..]));
        LeftAfter(View(), LinkQuery(ids, canon, rest[0]));
        var done := AddLink(ids, canon, rest[0]);
        if !done {
          return false;
        }
        rest := rest[1..];
      }
      return true;
    }

    method ReconcileOne(row: Row, plan: Plan) returns (ok: bool)
      modifies this`merged, this`causalAdded, this`equipment, store
      ensures View() == Perform(old(View()), ReconcileQueries(row, plan))
      ensures ok <==> old(store.left) >= |ReconcileQueries(row, plan)|
      ensures equipment == old(equipment) + if |row.failures| >= 2 then 1 else 0
    {
      if |row.failures| < 2 {
        return true;
      }
      equipment := equipment + 1;
      var ids := ByLabel(row.failures);
      var valid := Validate(plan, Labels(row.failures));
      var canon;
      ok, canon := MergeGroups(ids, valid.groups, valid.causal);
      if ok {
        ok := AddLinks(ids, canon, valid.causal);
      }
    }

    /** The loop over the equipment. A failure costs that equipment alone; `outages` says how many
        queries the store answers for each. */
    method ReconcileFailures(rows: seq<Row>, plans: seq<Plan>, outages: seq<nat>)
      requires |plans| == |rows| == |outages|
      modifies this, store
      ensures View() == PerformRows(old(View()), rows, plans, outages)
      ensures equipment == old(equipment) + Reconciled(rows) && skipped == old(skipped) + Skipped(rows, plans, outages)
    {
      for k := 0 to |rows|
        invariant PerformRows(View(), rows[k..], plans[k..], outages[k..]) == PerformRows(old(View()), rows, plans, outages)
        invariant equipment + Reconciled(rows[k..]) == old(equipment) + Reconciled(rows)
        invariant skipped + Skipped(rows[k..], plans[k..], outages[k..]) == old(skipped) + Skipped(rows, plans, outages)
      {
        store.left := outages[k];
        var ok := ReconcileOne(rows[k], plans[k]);
        if !ok {
          skipped := skipped + 1;
        }
        assert rows[k..][1..] == rows[k + 1..] && plans[k..][1..] == plans[k + 1..];
        assert outages[k..][1..] == outages[k + 1..];
      }
    }
  }

  lemma {:induction false} PerformJoins(p: Pass, a: seq<Query>, b: seq<Query>)
    ensures Perform(p, a + b) == Perform(Perform(p, a), b)
    decreases a
  {
    if a == [] {
      assert a + b == b;
    } else if p.left > 0 {
      assert (a + b)[1..] == a[1..] + b;
      PerformJoins(Performed(p, a[0]), a[1..], b);
    }
  }

  lemma {:induction false} LeftAfter(p: Pass, qs: seq<Query>)
    ensures Perform(p, qs).left == if p.left < |qs| then 0 else p.left - |qs|
    decreases qs
  {
    if qs != [] && p.left > 0 {
      LeftAfter(Performed(p, qs[0]), qs[1..]);
    }
  }

  lemma {:induction false} MergePerforms(cid: string, vids: seq<string>, g: Graph, left: nat)
    requires vids != []
    ensures forall m: nat, l: nat :: Perform(Pass(g, left, m, l), MergeQueries(cid, vids)) ==
              if left == 0 then Pass(g, left, m, l)
              else if left == 1 then Pass(Apply(g, Redirect(cid, vids)), 0, m, l)
              else Pass(Apply(Apply(g, Redirect(cid, vids)), Supersede(cid, vids)), left - 2, m + |vids|, l)
  {
    var q, r := Redirect(cid, vids), Supersede(cid, vids);
    var none: seq<Query> := [];
    assert [q, r][1..] == [r] && [r][1..] == none;
    forall m: nat, l: nat
      ensures Perform(Pass(g, left, m, l), [q, r]) ==
              if left == 0 then Pass(g, left, m, l)
              else if left == 1 then Pass(Apply(g, q), 0, m, l)
              else Pass(Apply(Apply(g, q), r), left - 2, m + |vids|, l)
    {
      if left > 0 {
        var p := Performed(Pass(g, left, m, l), q);
        assert Perform(Pass(g, left, m, l), [q, r]) == Perform(p, [r]);
        if left > 1 {
          assert Perform(p, [r]) == Perform(Performed(p, r), none);
        }
      }
    }
  }

  function MergedBy(qs: seq<Query>): nat {
    if qs == [] then 0 else (if qs[0].Supersede? then |qs[0].vids| else 0) + MergedBy(qs[1..])
  }

  function LinkedBy(qs: seq<Query>): nat {
    if qs == [] then 0 else (if qs[0].AddCause? then 1 else 0) + LinkedBy(qs[1..])
  }

  /** The stats against the graph: they count the queries that took effect. */
  lemma {:induction false} StatsCount(p: Pass, qs: seq<Query>)
    ensures var end, n := Perform(p, qs), if p.left < |qs| then p.left else |qs|;
            && end.graph == ApplyUpTo(p.graph, qs, p.left) && end.left == p.left - n
            && end.merged == p.merged + MergedBy(qs[..n]) && end.linked == p.linked + LinkedBy(qs[..n])
    decreases qs
  {
    if qs != [] && p.left > 0 {
      var n := if p.left < |qs| then p.left else |qs|;
      StatsCount(Performed(p, qs[0]), qs[1..]);
      assert qs[..n][1..] == qs[1..][..n - 1];
    }
  }

  /** The graph after the whole phase. */
  lemma {:induction false} PhaseApplies(p: Pass, rows: seq<Row>, plans: seq<Plan>, outages: seq<nat>)
    requires |plans| == |rows| == |outages|
    ensures PerformRows(p, rows, plans, outages).graph == ApplyRows(p.graph, rows, plans, outages)
    decreases rows
  {
    if rows != [] {
      var qs := ReconcileQueries(rows[0], plans[0]);
      StatsCount(p.(left := outages[0]), qs);
      PhaseApplies(Perform(p.(left := outages[0]), qs), rows[1..], plans[1..], outages[1..]);
    }
  }

  function ApplyRows(g: Graph, rows: seq<Row>, plans: seq<Plan>, outages: seq<nat>): Graph
    requires |plans| == |rows| == |outages|
    decreases rows
  {
    if rows == [] then g
    else ApplyRows(ApplyUpTo(g, ReconcileQueries(rows[0], plans[0]), outages[0]), rows[1..], plans[1..], outages[1..])
  }

  lemma {:induction false} ApplyJoins(g: Graph, a: seq<Query>, b: seq<Query>, left: nat)
    ensures ApplyUpTo(g, a + b, left) ==
              if left < |a| then ApplyUpTo(g, a, left) else ApplyUpTo(ApplyUpTo(g, a, left), b, left - |a|)
    decreases a
  {
    if a == [] {
      assert a + b == b;
    } else {
      assert (a + b)[1..] == a[1..] + b;
      if left > 0 {
        ApplyJoins(Apply(g, a[0]), a[1..], b, left - 1);
      }
    }
  }
}
