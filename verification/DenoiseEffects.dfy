/** What a denoise pass adds: the plan that is left after validation, the causal links and the trails of
    merged modes, exactly. */
module DenoiseEffects {
  import opened Text
  import opened Denoise
  import opened DenoiseView

  // ---- the validated plan -----------------------------------------------------------------------------

  /** The label was supplied, whatever its case. */
  predicate IsSupplied(labels: seq<string>, name: string) {
    exists k :: 0 <= k < |labels| && Upper(labels[k]) == Upper(name)
  }

  lemma {:induction false} AllowedAre(labels: seq<string>, name: string)
    ensures Upper(name) in Allowed(labels) <==> IsSupplied(labels, name)
    decreases labels
  {
    if labels != [] {
      AllowedAre(labels[1..], name);
      if k :| 0 <= k < |labels| && Upper(labels[k]) == Upper(name) {
        assert k > 0 ==> labels[1..][k - 1] == labels[k];
      }
      if k :| 0 <= k < |labels[1..]| && Upper(labels[1..][k]) == Upper(name) {
        assert labels[k + 1] == labels[1..][k];
      }
    }
  }

  lemma {:induction false} VariantsKept(variants: seq<string>, canonical: string, labels: seq<string>, v: string)
    ensures v in KeptVariants(variants, canonical, Allowed(labels)) <==>
            v in variants && IsSupplied(labels, v) && Upper(v) != Upper(canonical)
    decreases variants
  {
    if variants != [] {
      VariantsKept(variants[1..], canonical, labels, v);
      AllowedAre(labels, variants[0]);
      assert variants == [variants[0]] + variants[1..];
    }
  }

  /** `h` is `g` without the variants that were not supplied or are its canonical label. */
  ghost predicate Trims(g: Group, h: Group, labels: seq<string>) {
    && h.canonical == g.canonical
    && forall v :: v in h.variants <==> v in g.variants && IsSupplied(labels, v) && Upper(v) != Upper(g.canonical)
  }

  /** A kept group comes from a group of the plan, and a group of the plan gave a kept one. */
  ghost predicate ComesFrom(h: Group, groups: seq<Group>, labels: seq<string>) {
    exists g :: g in groups && IsSupplied(labels, g.canonical) && Trims(g, h, labels)
  }

  ghost predicate IsIn(g: Group, kept: seq<Group>, labels: seq<string>) {
    exists h :: h in kept && Trims(g, h, labels)
  }

  lemma {:induction false} GroupsKept(groups: seq<Group>, labels: seq<string>)
    ensures var kept := KeptGroups(groups, Allowed(labels));
            && (forall h :: h in kept ==> ComesFrom(h, groups, labels))
            && (forall g :: g in groups && IsSupplied(labels, g.canonical) ==> IsIn(g, kept, labels))
    decreases groups
  {
    if groups != [] {
      var g, rest := groups[0], groups[1..];
      GroupsKept(rest, labels);
      AllowedAre(labels, g.canonical);
      var h := Group(g.canonical, KeptVariants(g.variants, g.canonical, Allowed(labels)));
      forall v
        ensures v in h.variants <==> v in g.variants && IsSupplied(labels, v) && Upper(v) != Upper(g.canonical)
      {
        VariantsKept(g.variants, g.canonical, labels, v);
      }
      assert Trims(g, h, labels);
      assert groups == [g] + rest;
      var kept := KeptGroups(groups, Allowed(labels));
      var later := KeptGroups(rest, Allowed(labels));
      assert kept == (if Upper(g.canonical) in Allowed(labels) then [h] else []) + later;
      forall k | k in kept
        ensures ComesFrom(k, groups, labels)
      {
        if k in later {
          assert ComesFrom(k, rest, labels);
        }
      }
      forall f | f in groups && IsSupplied(labels, f.canonical)
        ensures IsIn(f, kept, labels)
      {
        if f != g {
          assert IsIn(f, later, labels);
        }
      }
    }
  }

  lemma {:induction false} LinksKept(links: seq<Link>, labels: seq<string>, c: Link)
    ensures c in KeptLinks(links, Allowed(labels)) <==>
            c in links && IsSupplied(labels, c.cause) && IsSupplied(labels, c.effect) && Upper(c.cause) != Upper(c.effect)
    decreases links
  {
    if links != [] {
      LinksKept(links[1..], labels, c);
      AllowedAre(labels, links[0].cause);
      AllowedAre(labels, links[0].effect);
      assert links == [links[0]] + links[1..];
    }
  }

  /** What validation lets through: the groups of supplied canonical labels, less the variants that were
      not supplied or are the canonical label itself, and the links between two different supplied
      labels; and all of these. */
  lemma {:induction false} ValidationKeeps(plan: Plan, labels: seq<string>, c: Link)
    ensures var valid := Validated(plan, labels);
            && (forall h :: h in valid.groups ==> ComesFrom(h, plan.groups, labels))
            && (forall g :: g in plan.groups && IsSupplied(labels, g.canonical) ==> IsIn(g, valid.groups, labels))
            && (c in valid.causal <==>
                  c in plan.causal && IsSupplied(labels, c.cause) && IsSupplied(labels, c.effect) && Upper(c.cause) != Upper(c.effect))
  {
    GroupsKept(plan.groups, labels);
    LinksKept(plan.causal, labels, c);
  }

  // ---- which node a label stands for ------------------------------------------------------------------

  /** The group merges something: its canonical label has a node. */
  predicate Merges(ids: map<string, string>, g: Group) {
    Upper(g.canonical) in ids && ids[Upper(g.canonical)] != ""
  }

  predicate Mentions(g: Group, u: string) {
    Upper(g.canonical) == u || exists k :: 0 <= k < |g.variants| && Upper(g.variants[k]) == u
  }

  /** The node that stands for an upper-case label after these groups: the canonical node of the last
      group that mentions it, or its own. */
  function StandIn(ids: map<string, string>, groups: seq<Group>, u: string): string {
    if groups == [] then if u in ids then ids[u] else ""
    else
      var last := groups[|groups| - 1];
      if Merges(ids, last) && Mentions(last, u) then ids[Upper(last.canonical)]
      else StandIn(ids, groups[..|groups| - 1], u)
  }

  /** The map of the groups done, as the runner keeps it. */
  function CanonAfter(ids: map<string, string>, canon: map<string, string>, groups: seq<Group>): map<string, string>
    decreases groups
  {
    if groups == [] then canon
    else
      var g, u := groups[0], Upper(groups[0].canonical);
      CanonAfter(ids, if Merges(ids, g) then Claimed(canon, g.variants, ids[u])[u := ids[u]] else canon, groups[1..])
  }

  function MergesOf(ids: map<string, string>, groups: seq<Group>): seq<Query> {
    if groups == [] then []
    else
      var g, u := groups[0], Upper(groups[0].canonical);
      (if Merges(ids, g) then MergeQueries(ids[u], IdsOf(ids, g.variants)) else []) + MergesOf(ids, groups[1..])
  }

  lemma {:induction false} RowSplits(ids: map<string, string>, canon: map<string, string>, groups: seq<Group>, links: seq<Link>)
    ensures RowQueries(ids, canon, groups, links) ==
              MergesOf(ids, groups) + LinkQueries(ids, CanonAfter(ids, canon, groups), links)
    decreases groups
  {
    if groups != [] {
      var g, u := groups[0], Upper(groups[0].canonical);
      if Merges(ids, g) {
        RowSplits(ids, Claimed(canon, g.variants, ids[u])[u := ids[u]], groups[1..], links);
      } else {
        RowSplits(ids, canon, groups[1..], links);
      }
    }
  }

  lemma {:induction false} ClaimedAt(canon: map<string, string>, variants: seq<string>, cid: string, u: string)
    ensures var after := Claimed(canon, variants, cid);
            if exists k :: 0 <= k < |variants| && Upper(variants[k]) == u then u in after && after[u] == cid
            else (u in after <==> u in canon) && (u in canon ==> after[u] == canon[u])
    decreases variants
  {
    if variants != [] {
      var rest := variants[1..];
      ClaimedAt(canon[Upper(variants[0]) := cid], rest, cid, u);
      assert forall k :: 0 <= k < |rest| ==> rest[k] == variants[k + 1];
      if k :| 0 <= k < |variants| && Upper(variants[k]) == u {
        assert k > 0 ==> Upper(rest[k - 1]) == u;
      }
    }
  }

  function Looked(ids: map<string, string>, canon: map<string, string>, u: string): string {
    if u in canon then canon[u] else if u in ids then ids[u] else ""
  }

  lemma {:induction false} CanonSnoc(ids: map<string, string>, canon: map<string, string>, groups: seq<Group>, g: Group)
    ensures var before, u := CanonAfter(ids, canon, groups), Upper(g.canonical);
            CanonAfter(ids, canon, groups + [g]) ==
              if Merges(ids, g) then Claimed(before, g.variants, ids[u])[u := ids[u]] else before
    decreases groups
  {
    if groups == [] {
      assert groups + [g] == [g] && [g][1..] == [];
    } else {
      var h, u := groups[0], Upper(groups[0].canonical);
      assert (groups + [g])[1..] == groups[1..] + [g] && (groups + [g])[0] == h;
      CanonSnoc(ids, if Merges(ids, h) then Claimed(canon, h.variants, ids[u])[u := ids[u]] else canon, groups[1..], g);
    }
  }

  lemma {:induction false} CanonStands(ids: map<string, string>, groups: seq<Group>, u: string)
    ensures Looked(ids, CanonAfter(ids, map[], groups), u) == StandIn(ids, groups, u)
    decreases groups
  {
    if groups != [] {
      var init, last := groups[..|groups| - 1], groups[|groups| - 1];
      assert groups == init + [last];
      CanonStands(ids, init, u);
      CanonSnoc(ids, map[], init, last);
      if Merges(ids, last) {
        ClaimedAt(CanonAfter(ids, map[], init), last.variants, ids[Upper(last.canonical)], u);
      }
    }
  }

  // ---- the causal links -----------------------------------------------------------------------------

  /** What the queries add to the causes. */
  function Added(qs: seq<Query>, modes: set<string>): set<(string, string)> {
    if qs == [] then {}
    else
      (if qs[0].AddCause? && qs[0].cause in modes && qs[0].effect in modes then {(qs[0].cause, qs[0].effect)} else {})
      + Added(qs[1..], modes)
  }

  lemma {:induction false} CausesAre(g: Graph, qs: seq<Query>)
    ensures All(g, qs).modes == g.modes && All(g, qs).causes == g.causes + Added(qs, g.modes)
    decreases qs
  {
    if qs != [] {
      CausesAre(Apply(g, qs[0]), qs[1..]);
    }
  }

  lemma {:induction false} AddedJoin(a: seq<Query>, b: seq<Query>, modes: set<string>)
    ensures Added(a + b, modes) == Added(a, modes) + Added(b, modes)
    decreases a
  {
    if a == [] {
      assert a + b == b;
    } else {
      assert (a + b)[1..] == a[1..] + b;
      AddedJoin(a[1..], b, modes);
    }
  }

  lemma {:induction false} MergesAddNone(ids: map<string, string>, groups: seq<Group>, modes: set<string>)
    ensures Added(MergesOf(ids, groups), modes) == {}
    decreases groups
  {
    if groups != [] {
      var g, u := groups[0], Upper(groups[0].canonical);
      MergesAddNone(ids, groups[1..], modes);
      if Merges(ids, g) {
        var vids := IdsOf(ids, g.variants);
        OneMergeAddsNone(ids[u], vids, modes);
        AddedJoin(MergeQueries(ids[u], vids), MergesOf(ids, groups[1..]), modes);
      } else {
        assert [] + MergesOf(ids, groups[1..]) == MergesOf(ids, groups[1..]);
      }
    }
  }

  lemma {:induction false} OneMergeAddsNone(cid: string, vids: seq<string>, modes: set<string>)
    ensures Added(MergeQueries(cid, vids), modes) == {}
  {
    if vids != [] {
      var q, r := Redirect(cid, vids), Supersede(cid, vids);
      assert [q, r][1..] == [r] && [r][1..] == [];
      assert Added([r], modes) == {} + Added([], modes);
    }
  }

  /** A link from node `a` to node `b`: the nodes its labels stand for, different and stored. */
  ghost predicate Links(ids: map<string, string>, groups: seq<Group>, links: seq<Link>, modes: set<string>, a: string, b: string) {
    && a != "" && b != "" && a != b && a in modes && b in modes
    && exists c :: c in links && a == StandIn(ids, groups, Upper(c.cause)) && b == StandIn(ids, groups, Upper(c.effect))
  }

  lemma {:induction false} LinksAdd(
    ids: map<string, string>, groups: seq<Group>, links: seq<Link>, modes: set<string>, a: string, b: string)
    ensures (a, b) in Added(LinkQueries(ids, CanonAfter(ids, map[], groups), links), modes) <==> Links(ids, groups, links, modes, a, b)
    decreases links
  {
    var canon := CanonAfter(ids, map[], groups);
    if links != [] {
      var c, rest := links[0], links[1..];
      LinksAdd(ids, groups, rest, modes, a, b);
      CanonStands(ids, groups, Upper(c.cause));
      CanonStands(ids, groups, Upper(c.effect));
      assert links == [c] + rest;
      var cause, effect := Resolved(ids, canon, c.cause), Resolved(ids, canon, c.effect);
      assert cause == StandIn(ids, groups, Upper(c.cause)) && effect == StandIn(ids, groups, Upper(c.effect));
      var first := if cause != "" && effect != "" && cause != effect then [AddCause(cause, effect)] else [];
      assert first != [] ==> first[1..] == [];
      AddedJoin(first, LinkQueries(ids, canon, rest), modes);
    }
  }

  /** The causal links of a plan, exactly: one equipment reconciled to the end has gained a cause between
      two nodes if and only if a validated link says so of the nodes its labels stand for once all groups
      are merged, and these are two different stored nodes. */
  lemma {:induction false} CausesExactlyWhen(g: Graph, row: Row, plan: Plan, left: nat, a: string, b: string)
    requires left >= |ReconcileQueries(row, plan)|
    ensures var h := ApplyUpTo(g, ReconcileQueries(row, plan), left);
            (a, b) in h.causes <==>
              || (a, b) in g.causes
              || (|row.failures| >= 2
                  && var valid := Validated(plan, Labels(row.failures));
                     Links(ByLabel(row.failures), valid.groups, valid.causal, g.modes, a, b))
  {
    var qs := ReconcileQueries(row, plan);
    EnoughLeft(g, qs, left);
    CausesAre(g, qs);
    if |row.failures| >= 2 {
      var ids, valid := ByLabel(row.failures), Validated(plan, Labels(row.failures));
      RowSplits(ids, map[], valid.groups, valid.causal);
      MergesAddNone(ids, valid.groups, g.modes);
      AddedJoin(MergesOf(ids, valid.groups), LinkQueries(ids, CanonAfter(ids, map[], valid.groups), valid.causal), g.modes);
      LinksAdd(ids, valid.groups, valid.causal, g.modes, a, b);
    }
  }

  // ---- the trails -------------------------------------------------------------------------------------

  function TrailsOf(qs: seq<Query>, modes: set<string>): set<(string, string)> {
    if qs == [] then {}
    else
      (if qs[0].Supersede? && qs[0].cid in modes then set v | v in qs[0].vids && v in modes :: (v, qs[0].cid) else {})
      + TrailsOf(qs[1..], modes)
  }

  lemma {:induction false} TrailsAre(g: Graph, qs: seq<Query>)
    ensures All(g, qs).modes == g.modes && All(g, qs).mergedInto == g.mergedInto + TrailsOf(qs, g.modes)
    decreases qs
  {
    if qs != [] {
      TrailsAre(Apply(g, qs[0]), qs[1..]);
    }
  }

  lemma {:induction false} TrailsJoin(a: seq<Query>, b: seq<Query>, modes: set<string>)
    ensures TrailsOf(a + b, modes) == TrailsOf(a, modes) + TrailsOf(b, modes)
    decreases a
  {
    if a == [] {
      assert a + b == b;
    } else {
      assert (a + b)[1..] == a[1..] + b;
      TrailsJoin(a[1..], b, modes);
    }
  }

  lemma {:induction false} LinksLeaveNoTrail(ids: map<string, string>, canon: map<string, string>, links: seq<Link>, modes: set<string>)
    ensures TrailsOf(LinkQueries(ids, canon, links), modes) == {}
    decreases links
  {
    if links != [] {
      var cause, effect := Resolved(ids, canon, links[0].cause), Resolved(ids, canon, links[0].effect);
      var rest := LinkQueries(ids, canon, links[1..]);
      LinksLeaveNoTrail(ids, canon, links[1..], modes);
      assert ([AddCause(cause, effect)] + rest)[1..] == rest && [] + rest == rest;
    }
  }

  /** Node `v` is one of the group's variants and `c` its canonical node. */
  predicate MergesInto(ids: map<string, string>, g: Group, v: string, c: string) {
    && Merges(ids, g) && c == ids[Upper(g.canonical)]
    && exists k :: 0 <= k < |g.variants| && Upper(g.variants[k]) in ids && ids[Upper(g.variants[k])] == v
  }

  predicate SomeMerges(ids: map<string, string>, groups: seq<Group>, v: string, c: string) {
    exists k :: 0 <= k < |groups| && MergesInto(ids, groups[k], v, c)
  }

  lemma {:induction false} FirstMerges(ids: map<string, string>, groups: seq<Group>, v: string, c: string)
    requires groups != []
    ensures SomeMerges(ids, groups, v, c) <==> MergesInto(ids, groups[0], v, c) || SomeMerges(ids, groups[1..], v, c)
  {
    if k :| 0 <= k < |groups| && MergesInto(ids, groups[k], v, c) {
      assert k > 0 ==> groups[1..][k - 1] == groups[k];
    }
    if k :| 0 <= k < |groups[1..]| && MergesInto(ids, groups[1..][k], v, c) {
      assert groups[k + 1] == groups[1..][k];
    }
  }

  lemma {:induction false} IdsAre(ids: map<string, string>, variants: seq<string>, v: string)
    ensures v in IdsOf(ids, variants) <==>
            exists k :: 0 <= k < |variants| && Upper(variants[k]) in ids && ids[Upper(variants[k])] == v
    decreases variants
  {
    if variants != [] {
      var rest := variants[1..];
      IdsAre(ids, rest, v);
      assert forall k :: 0 <= k < |rest| ==> rest[k] == variants[k + 1];
      if k :| 0 <= k < |variants| && Upper(variants[k]) in ids && ids[Upper(variants[k])] == v {
        assert k > 0 ==> Upper(rest[k - 1]) in ids;
      }
      if k :| 0 <= k < |rest| && Upper(rest[k]) in ids && ids[Upper(rest[k])] == v {
        assert Upper(variants[k + 1]) in ids;
      }
    }
  }

  lemma {:induction false} OneTrail(cid: string, vids: seq<string>, modes: set<string>, v: string, c: string)
    ensures (v, c) in TrailsOf(MergeQueries(cid, vids), modes) <==> c == cid && cid in modes && v in modes && v in vids
  {
    if vids != [] {
      var q, r := Redirect(cid, vids), Supersede(cid, vids);
      assert [q, r][1..] == [r] && [r][1..] == [];
      var none: seq<Query> := [];
      assert TrailsOf(none, modes) == {};
      assert TrailsOf([r], modes) == (if cid in modes then set w | w in vids && w in modes :: (w, cid) else {}) + {};
      assert TrailsOf([q, r], modes) == {} + TrailsOf([r], modes);
    }
  }

  lemma {:induction false} MergesTrail(ids: map<string, string>, groups: seq<Group>, modes: set<string>, v: string, c: string)
    ensures (v, c) in TrailsOf(MergesOf(ids, groups), modes) <==>
            v in modes && c in modes && SomeMerges(ids, groups, v, c)
    decreases groups
  {
    if groups != [] {
      var g, u, rest := groups[0], Upper(groups[0].canonical), groups[1..];
      MergesTrail(ids, rest, modes, v, c);
      FirstMerges(ids, groups, v, c);
      if Merges(ids, g) {
        var vids := IdsOf(ids, g.variants);
        TrailsJoin(MergeQueries(ids[u], vids), MergesOf(ids, rest), modes);
        OneTrail(ids[u], vids, modes, v, c);
        IdsAre(ids, g.variants, v);
      } else {
        assert [] + MergesOf(ids, rest) == MergesOf(ids, rest);
      }
    }
  }

  /** The trails of a plan, exactly: one equipment reconciled to the end has gained a trail from a stored
      node to another if and only if a validated group has the one among its variants and the other as
      its canonical node. */
  lemma {:induction false} TrailsExactlyWhen(g: Graph, row: Row, plan: Plan, left: nat, v: string, c: string)
    requires left >= |ReconcileQueries(row, plan)|
    ensures var h := ApplyUpTo(g, ReconcileQueries(row, plan), left);
            (v, c) in h.mergedInto <==>
              || (v, c) in g.mergedInto
              || (v in g.modes && c in g.modes && SomeMerges(ByLabel(row.failures), Merged(row, plan), v, c))
  {
    var qs := ReconcileQueries(row, plan);
    EnoughLeft(g, qs, left);
    TrailsAre(g, qs);
    if |row.failures| >= 2 {
      var ids, valid := ByLabel(row.failures), Validated(plan, Labels(row.failures));
      var later := LinkQueries(ids, CanonAfter(ids, map[], valid.groups), valid.causal);
      RowSplits(ids, map[], valid.groups, valid.causal);
      TrailsJoin(MergesOf(ids, valid.groups), later, g.modes);
      LinksLeaveNoTrail(ids, CanonAfter(ids, map[], valid.groups), valid.causal, g.modes);
      MergesTrail(ids, valid.groups, g.modes, v, c);
    }
  }

  // ---- labels and nodes -----------------------------------------------------------------------------

  /** Failure `k` is the last one supplied under that label. */
  predicate IsLastLabelled(failures: seq<Failure>, u: string, k: int) {
    0 <= k < |failures| && Upper(failures[k].name) == u && forall j :: k < j < |failures| ==> Upper(failures[j].name) != u
  }

  /** A label stands for the last failure supplied under it, whatever its case, and for nothing when there
      is none. */
  lemma {:induction false} LabelsAreLast(failures: seq<Failure>, u: string)
    ensures forall k :: IsLastLabelled(failures, u, k) ==> u in ByLabel(failures) && ByLabel(failures)[u] == failures[k].id
    ensures (forall k :: 0 <= k < |failures| ==> Upper(failures[k].name) != u) ==> u !in ByLabel(failures)
    decreases failures
  {
    if failures != [] {
      var init := failures[..|failures| - 1];
      LabelsAreLast(init, u);
      assert forall k :: IsLastLabelled(failures, u, k) && k < |init| ==> IsLastLabelled(init, u, k);
    }
  }
}
