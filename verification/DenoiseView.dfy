/** When a denoise pass keeps every failure in view: exactly, for one plan and for the whole phase. */
module DenoiseView {
  import opened Text
  import opened Denoise
  import opened DenoiseLaws

  // ---- where the queries take a node ------------------------------------------------------------------

  /** The node the failures on `mode` are on after the queries. */
  function Dest(qs: seq<Query>, modes: set<string>, mode: string): string {
    if qs == [] then mode
    else Dest(qs[1..], modes, Step(qs[0], modes, mode))
  }

  function Step(q: Query, modes: set<string>, mode: string): string {
    if q.Redirect? && q.cid in modes && mode in q.vids then q.cid else mode
  }

  /** The nodes the queries mark as superseded. */
  function Buried(qs: seq<Query>, modes: set<string>): set<string> {
    if qs == [] then {} else BuriedBy(qs[0], modes) + Buried(qs[1..], modes)
  }

  function BuriedBy(q: Query, modes: set<string>): set<string> {
    if q.Supersede? && q.cid in modes then set v | v in q.vids && v in modes else {}
  }

  /** No node is merged into itself. */
  predicate Proper(qs: seq<Query>) {
    forall i :: 0 <= i < |qs| && qs[i].Redirect? ==> qs[i].cid !in qs[i].vids
  }

  function All(g: Graph, qs: seq<Query>): Graph {
    ApplyUpTo(g, qs, |qs|)
  }

  /** The failures, each moved to where the queries take its node. */
  function Moved(failures: set<HasFailure>, qs: seq<Query>, modes: set<string>): set<HasFailure> {
    set x | x in failures :: HasFailure(x.equipment, x.provHash, Dest(qs, modes, x.mode))
  }

  function Stepped(failures: set<HasFailure>, q: Query, modes: set<string>): set<HasFailure> {
    set x | x in failures :: HasFailure(x.equipment, x.provHash, Step(q, modes, x.mode))
  }

  lemma {:induction false} QuerySteps(g: Graph, q: Query)
    requires q.Redirect? ==> q.cid !in q.vids
    ensures Apply(g, q).modes == g.modes
    ensures Apply(g, q).failures == Stepped(g.failures, q, g.modes)
    ensures Apply(g, q).superseded == g.superseded + BuriedBy(q, g.modes)
  {
    var h, after := Apply(g, q), Stepped(g.failures, q, g.modes);
    if q.Redirect? && q.cid in g.modes {
      forall y
        ensures y in h.failures <==> y in after
      {
        RedirectedMembers(g.failures, q.cid, q.vids, y);
        SteppedMembers(g.failures, q, g.modes, y);
      }
    } else {
      forall x | x in g.failures
        ensures HasFailure(x.equipment, x.provHash, Step(q, g.modes, x.mode)) == x
      {
      }
      assert forall x :: x in g.failures ==> x in after;
    }
  }

  lemma {:induction false} RedirectedMembers(failures: set<HasFailure>, cid: string, vids: seq<string>, y: HasFailure)
    requires cid !in vids
    ensures y in Redirected(failures, cid, vids) <==>
            || (y in failures && y.mode !in vids)
            || (y.mode == cid && exists x :: x in failures && x.mode in vids && x.equipment == y.equipment && x.provHash == y.provHash)
  {
    if exists x :: x in failures && x.mode in vids && x.equipment == y.equipment && x.provHash == y.provHash {
      var x :| x in failures && x.mode in vids && x.equipment == y.equipment && x.provHash == y.provHash;
      assert HasFailure(x.equipment, x.provHash, cid) == HasFailure(y.equipment, y.provHash, cid);
    }
  }

  lemma {:induction false} SteppedMembers(failures: set<HasFailure>, q: Query, modes: set<string>, y: HasFailure)
    requires q.Redirect? && q.cid in modes && q.cid !in q.vids
    ensures y in Stepped(failures, q, modes) <==>
            || (y in failures && y.mode !in q.vids)
            || (y.mode == q.cid && exists x :: x in failures && x.mode in q.vids && x.equipment == y.equipment && x.provHash == y.provHash)
  {
    if y in Stepped(failures, q, modes) {
      var x :| x in failures && y == HasFailure(x.equipment, x.provHash, Step(q, modes, x.mode));
    }
    if y in failures && y.mode !in q.vids {
      assert y == HasFailure(y.equipment, y.provHash, Step(q, modes, y.mode));
    }
    if y.mode == q.cid && exists x :: x in failures && x.mode in q.vids && x.equipment == y.equipment && x.provHash == y.provHash {
      var x :| x in failures && x.mode in q.vids && x.equipment == y.equipment && x.provHash == y.provHash;
      assert y == HasFailure(x.equipment, x.provHash, Step(q, modes, x.mode));
    }
  }

  /** The failures after the queries are the old ones moved, and what is superseded grows by what the
      queries bury. */
  lemma {:induction false} QueriesMove(g: Graph, qs: seq<Query>)
    requires Proper(qs)
    ensures var h := All(g, qs);
            h.modes == g.modes && h.failures == Moved(g.failures, qs, g.modes) && h.superseded == g.superseded + Buried(qs, g.modes)
    decreases qs
  {
    if qs == [] {
      assert forall x :: x in g.failures ==> HasFailure(x.equipment, x.provHash, Dest(qs, g.modes, x.mode)) == x;
      assert forall x :: x in g.failures ==> x in Moved(g.failures, qs, g.modes);
    } else {
      var mid := Apply(g, qs[0]);
      QuerySteps(g, qs[0]);
      assert forall i :: 0 <= i < |qs[1..]| ==> qs[1..][i] == qs[i + 1];
      QueriesMove(mid, qs[1..]);
      MovedChains(g.failures, qs, g.modes);
    }
  }

  lemma {:induction false} MovedChains(failures: set<HasFailure>, qs: seq<Query>, modes: set<string>)
    requires qs != []
    ensures Moved(Stepped(failures, qs[0], modes), qs[1..], modes) == Moved(failures, qs, modes)
  {
    var mid, after := Stepped(failures, qs[0], modes), Moved(failures, qs, modes);
    forall y | y in Moved(mid, qs[1..], modes)
      ensures y in after
    {
      var z :| z in mid && y == HasFailure(z.equipment, z.provHash, Dest(qs[1..], modes, z.mode));
      var x :| x in failures && z == HasFailure(x.equipment, x.provHash, Step(qs[0], modes, x.mode));
      assert y == HasFailure(x.equipment, x.provHash, Dest(qs, modes, x.mode));
    }
    forall y | y in after
      ensures y in Moved(mid, qs[1..], modes)
    {
      var x :| x in failures && y == HasFailure(x.equipment, x.provHash, Dest(qs, modes, x.mode));
      var z := HasFailure(x.equipment, x.provHash, Step(qs[0], modes, x.mode));
      assert z in mid && y == HasFailure(z.equipment, z.provHash, Dest(qs[1..], modes, z.mode));
    }
  }

  /** Every stored failure ends on a node that was not superseded before and is not buried. */
  predicate EndsInView(g: Graph, qs: seq<Query>) {
    forall x :: x in g.failures
      ==> Dest(qs, g.modes, x.mode) !in g.superseded && Dest(qs, g.modes, x.mode) !in Buried(qs, g.modes)
  }

  lemma {:induction false} QueriesKeepViewExactlyWhen(g: Graph, qs: seq<Query>)
    requires Proper(qs)
    ensures InView(All(g, qs)) <==> EndsInView(g, qs)
  {
    var h := All(g, qs);
    QueriesMove(g, qs);
    if EndsInView(g, qs) {
      forall y | y in h.failures
        ensures y.mode !in h.superseded
      {
        var x :| x in g.failures && y == HasFailure(x.equipment, x.provHash, Dest(qs, g.modes, x.mode));
      }
    }
    if InView(h) {
      forall x | x in g.failures
        ensures Dest(qs, g.modes, x.mode) !in h.superseded
      {
        assert HasFailure(x.equipment, x.provHash, Dest(qs, g.modes, x.mode)) in h.failures;
      }
    }
  }

  // ---- one plan ---------------------------------------------------------------------------------------

  /** The node a plan takes `mode` to: through its groups in order. */
  function PlanDest(ids: map<string, string>, groups: seq<Group>, modes: set<string>, mode: string): string
    decreases groups
  {
    if groups == [] then mode
    else
      var u := Upper(groups[0].canonical);
      if u in ids && ids[u] != "" && ids[u] in modes && mode in IdsOf(ids, groups[0].variants)
      then PlanDest(ids, groups[1..], modes, ids[u])
      else PlanDest(ids, groups[1..], modes, mode)
  }

  /** `mode` is a stored variant of a group whose canonical label is supplied and stored. */
  predicate IsVariant(ids: map<string, string>, groups: seq<Group>, modes: set<string>, mode: string) {
    groups != [] &&
    var u := Upper(groups[0].canonical);
    || (u in ids && ids[u] != "" && ids[u] in modes && mode in modes && mode in IdsOf(ids, groups[0].variants))
    || IsVariant(ids, groups[1..], modes, mode)
  }

  lemma {:induction false} DestJoins(a: seq<Query>, b: seq<Query>, modes: set<string>, mode: string)
    ensures Dest(a + b, modes, mode) == Dest(b, modes, Dest(a, modes, mode))
    ensures Buried(a + b, modes) == Buried(a, modes) + Buried(b, modes)
    decreases a
  {
    if a == [] {
      assert a + b == b;
    } else {
      assert (a + b)[1..] == a[1..] + b;
      DestJoins(a[1..], b, modes, Step(a[0], modes, mode));
    }
  }

  lemma {:induction false} MergeMeans(cid: string, vids: seq<string>, modes: set<string>, mode: string)
    ensures Dest(MergeQueries(cid, vids), modes, mode) == if cid in modes && mode in vids then cid else mode
    ensures mode in Buried(MergeQueries(cid, vids), modes) <==> cid in modes && mode in modes && mode in vids
  {
    if vids != [] {
      var q, r := Redirect(cid, vids), Supersede(cid, vids);
      assert [q, r][1..] == [r] && [r][1..] == [];
      var none: seq<Query> := [];
      var at := Step(q, modes, mode);
      assert Step(r, modes, at) == at;
      assert Dest([r], modes, at) == Dest(none, modes, at) == at;
      assert Dest([q, r], modes, mode) == Dest([r], modes, at);
      assert Buried([r], modes) == BuriedBy(r, modes) + {};
      assert Buried([q, r], modes) == {} + Buried([r], modes);
    }
  }

  lemma {:induction false} LinksMoveNothing(
    ids: map<string, string>, canon: map<string, string>, links: seq<Link>, modes: set<string>, mode: string)
    ensures Dest(LinkQueries(ids, canon, links), modes, mode) == mode
    ensures Buried(LinkQueries(ids, canon, links), modes) == {}
    decreases links
  {
    if links != [] {
      var cause, effect := Resolved(ids, canon, links[0].cause), Resolved(ids, canon, links[0].effect);
      var rest := LinkQueries(ids, canon, links[1..]);
      LinksMoveNothing(ids, canon, links[1..], modes, mode);
      assert ([AddCause(cause, effect)] + rest)[1..] == rest && [] + rest == rest;
    }
  }

  /** The queries of a plan take a node where its groups take it, and bury its variants. */
  lemma {:induction false} PlanMeans(
    ids: map<string, string>, canon: map<string, string>, groups: seq<Group>, links: seq<Link>,
    modes: set<string>, mode: string)
    ensures Dest(RowQueries(ids, canon, groups, links), modes, mode) == PlanDest(ids, groups, modes, mode)
    ensures mode in Buried(RowQueries(ids, canon, groups, links), modes) <==> IsVariant(ids, groups, modes, mode)
    decreases groups
  {
    if groups == [] {
      LinksMoveNothing(ids, canon, links, modes, mode);
    } else {
      var g, u := groups[0], Upper(groups[0].canonical);
      if u !in ids || ids[u] == "" {
        PlanMeans(ids, canon, groups[1..], links, modes, mode);
      } else {
        var cid, vids := ids[u], IdsOf(ids, g.variants);
        var next := Claimed(canon, g.variants, cid)[u := cid];
        var rest := RowQueries(ids, next, groups[1..], links);
        DestJoins(MergeQueries(cid, vids), rest, modes, mode);
        MergeMeans(cid, vids, modes, mode);
        PlanMeans(ids, next, groups[1..], links, modes, mode);
        PlanMeans(ids, next, groups[1..], links, modes, cid);
      }
    }
  }

  lemma {:induction false} PlansAreProper(row: Row, plan: Plan)
    requires Distinct(row.failures)
    ensures Proper(ReconcileQueries(row, plan))
  {
    var labels, ids := Labels(row.failures), Supplied(row.failures);
    LabelsAreInjective(row.failures);
    ValidatedApart(plan.groups, Allowed(labels));
    var valid := Validated(plan, labels);
    RowSafe(ByLabel(row.failures), map[], valid.groups, valid.causal, ids);
    var qs := ReconcileQueries(row, plan);
    assert |row.failures| >= 2 ==> AllSafe(qs, ids);
    forall i | 0 <= i < |qs| && qs[i].Redirect?
      ensures qs[i].cid !in qs[i].vids
    {
      assert Safe(qs[i], ids);
    }
  }

  /** The groups that are merged: of the validated plan, or none for a single failure. */
  function Merged(row: Row, plan: Plan): seq<Group> {
    if |row.failures| < 2 then [] else Validated(plan, Labels(row.failures)).groups
  }

  /** The plan takes every stored failure to a node that was not superseded and is a variant of none
      of its groups. */
  predicate PlanEndsInView(g: Graph, row: Row, plan: Plan) {
    var ids, groups := ByLabel(row.failures), Merged(row, plan);
    forall x :: x in g.failures ==>
      var end := PlanDest(ids, groups, g.modes, x.mode);
      end !in g.superseded && !IsVariant(ids, groups, g.modes, end)
  }

  /** Whatever plan the model returns, one equipment reconciled leaves every failure in view if and
      only if the plan takes each to a node that was in view and that it merges into no other. */
  lemma {:induction false} PlanKeepsViewExactlyWhen(g: Graph, row: Row, plan: Plan, left: nat)
    requires Distinct(row.failures) && left >= |ReconcileQueries(row, plan)|
    ensures InView(ApplyUpTo(g, ReconcileQueries(row, plan), left)) <==> PlanEndsInView(g, row, plan)
  {
    var qs := ReconcileQueries(row, plan);
    PlansAreProper(row, plan);
    EnoughLeft(g, qs, left);
    QueriesKeepViewExactlyWhen(g, qs);
    var ids, groups := ByLabel(row.failures), Merged(row, plan);
    var links := Validated(plan, Labels(row.failures)).causal;
    forall x | x in g.failures
      ensures Dest(qs, g.modes, x.mode) == PlanDest(ids, groups, g.modes, x.mode)
      ensures Dest(qs, g.modes, x.mode) in Buried(qs, g.modes) <==>
              IsVariant(ids, groups, g.modes, PlanDest(ids, groups, g.modes, x.mode))
    {
      if |row.failures| >= 2 {
        PlanMeans(ids, map[], groups, links, g.modes, x.mode);
        PlanMeans(ids, map[], groups, links, g.modes, Dest(qs, g.modes, x.mode));
      }
    }
  }

  lemma {:induction false} EnoughLeft(g: Graph, qs: seq<Query>, left: nat)
    requires left >= |qs|
    ensures ApplyUpTo(g, qs, left) == All(g, qs)
    decreases qs
  {
    if qs != [] {
      EnoughLeft(Apply(g, qs[0]), qs[1..], left - 1);
    }
  }

  // ---- the whole phase ----------------------------------------------------------------------------------

  /** The queries a phase gets done: of each equipment those before its outage. */
  function Done(rows: seq<Row>, plans: seq<Plan>, outages: seq<nat>): seq<Query>
    requires |plans| == |rows| == |outages|
    decreases rows
  {
    if rows == [] then []
    else Upto(ReconcileQueries(rows[0], plans[0]), outages[0]) + Done(rows[1..], plans[1..], outages[1..])
  }

  function Upto(qs: seq<Query>, left: nat): seq<Query> {
    if |qs| <= left then qs else qs[..left]
  }

  lemma {:induction false} CutOff(g: Graph, qs: seq<Query>, left: nat)
    ensures ApplyUpTo(g, qs, left) == All(g, Upto(qs, left))
  {
    if |qs| <= left {
      EnoughLeft(g, qs, left);
    } else {
      ApplyJoins(g, qs[..left], qs[left..], left);
      assert qs == qs[..left] + qs[left..];
    }
  }

  lemma {:induction false} PhaseIsDone(g: Graph, rows: seq<Row>, plans: seq<Plan>, outages: seq<nat>)
    requires |plans| == |rows| == |outages| && forall k :: 0 <= k < |rows| ==> Distinct(rows[k].failures)
    ensures ApplyRows(g, rows, plans, outages) == All(g, Done(rows, plans, outages)) && Proper(Done(rows, plans, outages))
    decreases rows
  {
    if rows != [] {
      var first := Upto(ReconcileQueries(rows[0], plans[0]), outages[0]);
      var rest := Done(rows[1..], plans[1..], outages[1..]);
      CutOff(g, ReconcileQueries(rows[0], plans[0]), outages[0]);
      PlansAreProper(rows[0], plans[0]);
      assert Proper(first);
      PhaseIsDone(All(g, first), rows[1..], plans[1..], outages[1..]);
      ApplyJoins(g, first, rest, |first| + |rest|);
      EnoughLeft(g, first, |first| + |rest|);
    }
  }

  /** The whole phase, for any plans and outages: every failure is in view at the end if and only if
      the queries done take each to a node that was in view and that none of them buries. */
  lemma {:induction false} PhaseKeepsViewExactlyWhen(g: Graph, rows: seq<Row>, plans: seq<Plan>, outages: seq<nat>)
    requires |plans| == |rows| == |outages| && forall k :: 0 <= k < |rows| ==> Distinct(rows[k].failures)
    ensures InView(ApplyRows(g, rows, plans, outages)) <==> EndsInView(g, Done(rows, plans, outages))
  {
    PhaseIsDone(g, rows, plans, outages);
    QueriesKeepViewExactlyWhen(g, Done(rows, plans, outages));
  }
}
