/** What a flush keeps: no item is lost or doubled, versions rise, only culprits are parked, and
    batching is invisible in the graph. */
module FlushLaws {
  import opened Sequences
  import opened Regrouping
  import opened Schemas
  import opened Batching
  import opened Writer

  // ---- conservation ---------------------------------------------------------------------------

  /** How often `x` occurs. */
  function Times(x: Item, items: seq<Item>): nat {
    if items == [] then 0 else (if items[0] == x then 1 else 0) + Times(x, items[1..])
  }

  /** How often a desk has dealt with `x`: committed it, found it empty or parked it. */
  function Handled(x: Item, d: Desk): nat {
    Times(x, AsItems(d.committed)) + Times(x, AsItems(d.idle)) + Times(x, d.dlq)
  }

  /** Between two desks the counters moved with the lists they count. */
  ghost predicate Counted(d: Desk, e: Desk) {
    && e.stats.subgraphs - d.stats.subgraphs == |e.committed| - |d.committed|
    && e.stats.bad - d.stats.bad == |e.dlq| - |d.dlq|
  }

  /** From `d` to `e` exactly the items `took` were dealt with, as far as `x` goes. */
  ghost predicate Conserves(x: Item, d: Desk, e: Desk, took: seq<Item>) {
    Handled(x, e) == Handled(x, d) + Times(x, took) && Counted(d, e)
  }

  lemma {:induction false} TimesConcat(x: Item, a: seq<Item>, b: seq<Item>)
    ensures Times(x, a + b) == Times(x, a) + Times(x, b)
    decreases a
  {
    if a == [] {
      assert a + b == b;
    } else {
      assert (a + b)[0] == a[0] && (a + b)[1..] == a[1..] + b;
      TimesConcat(x, a[1..], b);
    }
  }

  lemma {:induction false} AsItemsConcat(a: seq<Subgraph>, b: seq<Subgraph>)
    ensures AsItems(a + b) == AsItems(a) + AsItems(b)
    decreases a
  {
    if a == [] {
      assert a + b == b;
    } else {
      assert (a + b)[0] == a[0] && (a + b)[1..] == a[1..] + b;
      AsItemsConcat(a[1..], b);
    }
  }

  lemma {:induction false} WrittenConserves(x: Item, db: Database, d: Desk, cs: seq<Subgraph>, b: Batch)
    ensures Conserves(x, d, Written(db, d, cs, b), AsItems(cs))
  {
    AsItemsConcat(d.committed, cs);
    TimesConcat(x, AsItems(d.committed), AsItems(cs));
  }

  lemma {:induction false} IdleConserves(x: Item, d: Desk, cs: seq<Subgraph>)
    ensures Conserves(x, d, d.(idle := d.idle + cs), AsItems(cs))
  {
    AsItemsConcat(d.idle, cs);
    TimesConcat(x, AsItems(d.idle), AsItems(cs));
  }

  lemma {:induction false} ParkedConserves(x: Item, d: Desk, items: seq<Item>)
    ensures Conserves(x, d, Parked(d, items), items)
  {
    TimesConcat(x, d.dlq, items);
  }

  lemma {:induction false} SettledConserves(x: Item, db: Database, d: Desk, c: Subgraph, b: Batch)
    ensures Conserves(x, d, Settled(db, d, c, b), AsItems([c]))
  {
    var next := d.(version := d.version + 1);
    IdleConserves(x, d, [c]);
    ParkedConserves(x, next, AsItems([c]));
    WrittenConserves(x, db, next, [c], b);
  }

  lemma {:induction false} CommitOneConserves(x: Item, db: Database, d: Desk, c: Subgraph)
    ensures Conserves(x, d, CommitOne(db, d, c), AsItems([c]))
  {
    SettledConserves(x, db, d, c, GroupedBatch([c]));
    ParkedConserves(x, d, AsItems([c]));
  }

  lemma {:induction false} CommitEachConserves(x: Item, db: Database, d: Desk, cs: seq<Subgraph>)
    ensures Conserves(x, d, CommitEach(db, d, cs), AsItems(cs))
    decreases cs
  {
    if cs != [] {
      var e := CommitOne(db, d, cs[0]);
      CommitOneConserves(x, db, d, cs[0]);
      CommitEachConserves(x, db, e, cs[1..]);
      AsItemsConcat([cs[0]], cs[1..]);
      assert cs == [cs[0]] + cs[1..];
      TimesConcat(x, AsItems([cs[0]]), AsItems(cs[1..]));
    }
  }

  lemma {:induction false} GroupedConserves(x: Item, db: Database, d: Desk, cs: seq<Subgraph>, b: Batch)
    ensures Conserves(x, d, CommitGrouped(db, d, cs, b), AsItems(cs))
  {
    var next := d.(version := d.version + 1);
    if Empty(b) {
      IdleConserves(x, d, cs);
    } else if !db.rejects(d.graph, b) {
      WrittenConserves(x, db, next, cs, b);
    } else if |cs| == 1 {
      ParkedConserves(x, next, AsItems(cs));
    } else {
      CommitEachConserves(x, db, next, cs);
    }
  }

  lemma {:induction false} CommitRoundConserves(x: Item, db: Database, d: Desk, cs: seq<Subgraph>)
    ensures Conserves(x, d, CommitRound(db, d, cs), AsItems(cs))
  {
    GroupedConserves(x, db, d, cs, GroupedBatch(cs));
    ParkedConserves(x, d, AsItems(cs));
  }

  lemma {:induction false} ParsingSplits(x: Item, items: seq<Item>)
    ensures Times(x, AsItems(ParsedOf(items))) + Times(x, MalformedOf(items)) == Times(x, items)
    decreases items
  {
    if items != [] {
      var first, rest := items[0], items[1..];
      ParsingSplits(x, rest);
      var parsed, bad := if first.Json? then [first.csg] else [], if first.Json? then [] else [first];
      AsItemsConcat(parsed, ParsedOf(rest));
      assert parsed == [] || parsed[1..] == [];
      assert AsItems(parsed) + bad == [first];
      TimesConcat(x, AsItems(parsed), AsItems(ParsedOf(rest)));
      TimesConcat(x, bad, MalformedOf(rest));
      TimesConcat(x, AsItems(parsed), bad);
      TimesConcat(x, [first], rest);
      assert items == [first] + rest;
    }
  }

  lemma {:induction false} RoundConserves(x: Item, db: Database, d: Desk, items: seq<Item>)
    ensures Conserves(x, d, Round(db, d, items), items)
  {
    var bad, parsed := MalformedOf(items), ParsedOf(items);
    ParsingSplits(x, items);
    ParkedConserves(x, d, bad);
    CommitRoundConserves(x, db, Parked(d, bad), parsed);
  }

  /** The items a flush takes off the front of the buffer. */
  function TakenBy(buffer: seq<Item>, size: nat, rounds: nat): seq<Item>
    decreases rounds
  {
    var n := Taken(buffer, size);
    if rounds == 0 || n == 0 then []
    else if n < size then buffer[..n]
    else buffer[..n] + TakenBy(buffer[n..], size, rounds - 1)
  }

  /** Conservation: every item taken from the buffer ends exactly once as committed, parked in
      the DLQ or empty; the others stay in the buffer, in order; and the counters are right. */
  lemma {:induction false} FlushConserves(x: Item, db: Database, d: Desk, buffer: seq<Item>, size: nat, rounds: nat)
    ensures var (e, left) := Drained(RoundWith(db), d, buffer, size, rounds);
            buffer == TakenBy(buffer, size, rounds) + left && Conserves(x, d, e, TakenBy(buffer, size, rounds))
  {
    forall d, items
      ensures Conserves(x, d, RoundWith(db)(d, items), items)
    {
      RoundConserves(x, db, d, items);
    }
    DrainConserves(x, RoundWith(db), d, buffer, size, rounds);
  }

  lemma {:induction false} DrainConserves(x: Item, step: RoundStep, d: Desk, buffer: seq<Item>, size: nat, rounds: nat)
    requires forall d, items :: Conserves(x, d, step(d, items), items)
    ensures var (e, left) := Drained(step, d, buffer, size, rounds);
            buffer == TakenBy(buffer, size, rounds) + left && Conserves(x, d, e, TakenBy(buffer, size, rounds))
    decreases rounds
  {
    var n := Taken(buffer, size);
    if rounds > 0 && n > 0 {
      var items, rest := buffer[..n], buffer[n..];
      var e := step(d, items);
      assert Conserves(x, d, e, items);
      if n == size {
        var taken := TakenBy(rest, size, rounds - 1);
        DrainConserves(x, step, e, rest, size, rounds - 1);
        ConcatAssociates(items, taken, Drained(step, e, rest, size, rounds - 1).1);
        TimesConcat(x, items, taken);
      }
    }
  }

  // ---- versions -------------------------------------------------------------------------------

  /** Announced versions strictly rise and none is ahead of the counter. */
  ghost predicate Ordered(d: Desk) {
    && (forall i, j :: 0 <= i < j < |d.deltas| ==> d.deltas[i].version < d.deltas[j].version)
    && (forall i :: 0 <= i < |d.deltas| ==> d.deltas[i].version <= d.version)
  }

  lemma {:induction false} SettledOrdered(db: Database, d: Desk, c: Subgraph, b: Batch)
    requires Ordered(d)
    ensures Ordered(Settled(db, d, c, b)) && d.deltas <= Settled(db, d, c, b).deltas
  {
  }

  lemma {:induction false} WrittenOrdered(db: Database, d: Desk, cs: seq<Subgraph>, b: Batch)
    requires Ordered(d)
    ensures var e := Written(db, d.(version := d.version + 1), cs, b);
            Ordered(e) && d.deltas <= e.deltas
  {
  }

  lemma {:induction false} CommitEachOrdered(db: Database, d: Desk, cs: seq<Subgraph>)
    requires Ordered(d)
    ensures Ordered(CommitEach(db, d, cs)) && d.deltas <= CommitEach(db, d, cs).deltas
    decreases cs
  {
    if cs != [] {
      SettledOrdered(db, d, cs[0], GroupedBatch([cs[0]]));
      CommitEachOrdered(db, CommitOne(db, d, cs[0]), cs[1..]);
    }
  }

  lemma {:induction false} GroupedOrdered(db: Database, d: Desk, cs: seq<Subgraph>, b: Batch)
    requires Ordered(d)
    ensures var e := CommitGrouped(db, d, cs, b);
            Ordered(e) && d.deltas <= e.deltas
  {
    var next := d.(version := d.version + 1);
    CommitEachOrdered(db, next, cs);
    WrittenOrdered(db, d, cs, b);
    GroupedCases((e: Desk) => Ordered(e) && d.deltas <= e.deltas, db, d, cs, b);
  }

  lemma {:induction false} RoundOrdered(db: Database, d: Desk, items: seq<Item>)
    requires Ordered(d)
    ensures Ordered(Round(db, d, items)) && d.deltas <= Round(db, d, items).deltas
  {
    var d', parsed := Parked(d, MalformedOf(items)), ParsedOf(items);
    if parsed != [] && EveryResolved(parsed) {
      GroupedOrdered(db, d', parsed, GroupedBatch(parsed));
    }
  }

  /** Published versions strictly increase over any flush, and nothing published is taken back. */
  lemma {:induction false} VersionsRise(db: Database, d: Desk, buffer: seq<Item>, size: nat, rounds: nat)
    requires Ordered(d)
    ensures var e := Drained(RoundWith(db), d, buffer, size, rounds).0;
            Ordered(e) && d.deltas <= e.deltas
  {
    forall d, items | Ordered(d)
      ensures var e := RoundWith(db)(d, items); Ordered(e) && d.deltas <= e.deltas
    {
      RoundOrdered(db, d, items);
    }
    DrainOrdered(RoundWith(db), d, buffer, size, rounds);
  }

  lemma {:induction false} DrainOrdered(step: RoundStep, d: Desk, buffer: seq<Item>, size: nat, rounds: nat)
    requires forall d, items :: Ordered(d) ==> Ordered(step(d, items)) && d.deltas <= step(d, items).deltas
    requires Ordered(d)
    ensures var e := Drained(step, d, buffer, size, rounds).0;
            Ordered(e) && d.deltas <= e.deltas
    decreases rounds
  {
    var n := Taken(buffer, size);
    if rounds > 0 && n > 0 {
      DrainOrdered(step, step(d, buffer[..n]), buffer[n..], size, rounds - 1);
    }
  }

  // ---- only the culprits are parked -----------------------------------------------------------

  function Culprits(poison: Subgraph -> bool, cs: seq<Subgraph>): seq<Subgraph> {
    if cs == [] then [] else (if poison(cs[0]) then [cs[0]] else []) + Culprits(poison, cs[1..])
  }

  /** The store refuses a batch exactly when it holds a poisoned subgraph, and only a subgraph
      with something to write can be poisoned. */
  ghost predicate RefusesPoison(db: Database, poison: Subgraph -> bool) {
    && (forall g, cs {:trigger db.rejects(g, GroupedBatch(cs))} :: EveryResolved(cs) ==> (db.rejects(g, GroupedBatch(cs)) <==> Culprits(poison, cs) != []))
    && (forall c :: poison(c) ==> c.nodes != [] || c.edges != [])
  }

  lemma {:induction false} EmptyBatchIsHarmless(poison: Subgraph -> bool, cs: seq<Subgraph>)
    requires forall c :: poison(c) ==> c.nodes != [] || c.edges != []
    requires Empty(GroupedBatch(cs))
    ensures AllNodeWrites(cs) == [] && AllEdgeWrites(cs) == [] && Culprits(poison, cs) == []
  {
    GroupedEmpty(AllNodeWrites(cs), true);
    GroupedEmpty(AllEdgeWrites(cs), false);
    NothingToWrite(poison, cs);
  }

  lemma {:induction false} NothingToWrite(poison: Subgraph -> bool, cs: seq<Subgraph>)
    requires forall c :: poison(c) ==> c.nodes != [] || c.edges != []
    requires AllNodeWrites(cs) == [] && AllEdgeWrites(cs) == []
    ensures Culprits(poison, cs) == []
    decreases cs
  {
    if cs != [] {
      assert NodeWrites(cs[0]) == [] && EdgeWrites(cs[0]) == [];
      NothingToWrite(poison, cs[1..]);
    }
  }

  lemma {:induction false} GroupedEmpty<C, K>(ws: seq<Write<C, K>>, dedup: bool)
    requires Grouped(ws, dedup) == []
    ensures ws == []
  {
  }

  lemma {:induction false} CulpritsOfOne(poison: Subgraph -> bool, c: Subgraph)
    ensures Culprits(poison, [c]) == if poison(c) then [c] else []
    ensures EveryResolved([c]) <==> AllResolved(c.nodes)
  {
    assert [c][1..] == [] && Culprits(poison, []) == [];
  }

  lemma {:induction false} OneParksCulprits(db: Database, poison: Subgraph -> bool, d: Desk, c: Subgraph)
    requires RefusesPoison(db, poison) && EveryResolved([c])
    ensures CommitOne(db, d, c).dlq == d.dlq + AsItems(Culprits(poison, [c]))
  {
    CulpritsOfOne(poison, c);
    var b := GroupedBatch([c]);
    if Empty(b) {
      EmptyBatchIsHarmless(poison, [c]);
    } else {
      assert db.rejects(d.graph, b) <==> Culprits(poison, [c]) != [];
    }
  }

  lemma {:induction false} EachParksCulprits(db: Database, poison: Subgraph -> bool, d: Desk, cs: seq<Subgraph>)
    requires RefusesPoison(db, poison) && EveryResolved(cs)
    ensures CommitEach(db, d, cs).dlq == d.dlq + AsItems(Culprits(poison, cs))
    decreases cs
  {
    if cs != [] {
      var e := CommitOne(db, d, cs[0]);
      var first, others := Culprits(poison, [cs[0]]), Culprits(poison, cs[1..]);
      CulpritsOfOne(poison, cs[0]);
      OneParksCulprits(db, poison, d, cs[0]);
      EachParksCulprits(db, poison, e, cs[1..]);
      AsItemsConcat(first, others);
      ConcatAssociates(d.dlq, AsItems(first), AsItems(others));
    }
  }

  lemma {:induction false} GroupedParksCulprits(db: Database, poison: Subgraph -> bool, d: Desk,
                                                cs: seq<Subgraph>, b: Batch)
    requires RefusesPoison(db, poison) && EveryResolved(cs)
    requires Empty(b) ==> Culprits(poison, cs) == []
    requires db.rejects(d.graph, b) <==> Culprits(poison, cs) != []
    ensures CommitGrouped(db, d, cs, b).dlq == d.dlq + AsItems(Culprits(poison, cs))
  {
    var next, culprits := d.(version := d.version + 1), Culprits(poison, cs);
    var none: seq<Item> := [];
    assert d.dlq + none == d.dlq;
    if Empty(b) || !db.rejects(d.graph, b) {
      assert AsItems(culprits) == none;
    } else if |cs| == 1 {
      CulpritsOfOne(poison, cs[0]);
      assert cs == [cs[0]];
    } else {
      EachParksCulprits(db, poison, next, cs);
    }
  }

  /** When every node is resolved and refusal depends on the subgraph alone, a round parks
      exactly the refused subgraphs, in order, and nothing else. */
  lemma {:induction false} RoundParksCulprits(db: Database, poison: Subgraph -> bool, d: Desk, cs: seq<Subgraph>)
    requires RefusesPoison(db, poison) && EveryResolved(cs)
    ensures CommitRound(db, d, cs).dlq == d.dlq + AsItems(Culprits(poison, cs))
  {
    var b := GroupedBatch(cs);
    if Empty(b) {
      EmptyBatchIsHarmless(poison, cs);
    }
    assert db.rejects(d.graph, b) <==> Culprits(poison, cs) != [];
    GroupedParksCulprits(db, poison, d, cs, b);
  }

  /** What one round parks: the malformed items first, then the refused subgraphs. */
  function BadItems(poison: Subgraph -> bool, items: seq<Item>): seq<Item> {
    MalformedOf(items) + AsItems(Culprits(poison, ParsedOf(items)))
  }

  function ParkedBy(poison: Subgraph -> bool, buffer: seq<Item>, size: nat, rounds: nat): seq<Item>
    decreases rounds
  {
    var n := Taken(buffer, size);
    if rounds == 0 || n == 0 then []
    else if n < size then BadItems(poison, buffer[..n])
    else BadItems(poison, buffer[..n]) + ParkedBy(poison, buffer[n..], size, rounds - 1)
  }

  lemma {:induction false} ParsedConcat(a: seq<Item>, b: seq<Item>)
    ensures ParsedOf(a + b) == ParsedOf(a) + ParsedOf(b)
    decreases a
  {
    if a == [] {
      assert a + b == b;
    } else {
      assert (a + b)[0] == a[0] && (a + b)[1..] == a[1..] + b;
      ParsedConcat(a[1..], b);
    }
  }

  lemma {:induction false} ResolvedConcat(a: seq<Subgraph>, b: seq<Subgraph>)
    ensures EveryResolved(a + b) <==> EveryResolved(a) && EveryResolved(b)
    decreases a
  {
    if a == [] {
      assert a + b == b;
    } else {
      assert (a + b)[0] == a[0] && (a + b)[1..] == a[1..] + b;
      ResolvedConcat(a[1..], b);
    }
  }

  lemma {:induction false} RoundParksBad(db: Database, poison: Subgraph -> bool, d: Desk, items: seq<Item>)
    requires RefusesPoison(db, poison) && EveryResolved(ParsedOf(items))
    ensures Round(db, d, items).dlq == d.dlq + BadItems(poison, items)
  {
    var d', parsed := Parked(d, MalformedOf(items)), ParsedOf(items);
    if parsed != [] {
      RoundParksCulprits(db, poison, d', parsed);
      assert Round(db, d, items).dlq == CommitRound(db, d', parsed).dlq;
      ConcatAssociates(d.dlq, MalformedOf(items), AsItems(Culprits(poison, parsed)));
    } else {
      assert AsItems(Culprits(poison, parsed)) == [];
    }
  }

  /** Over a whole flush the DLQ grows, round by round, by exactly the malformed and the refused
      items taken. */
  lemma {:induction false} FlushParksCulprits(db: Database, poison: Subgraph -> bool, d: Desk,
                                              buffer: seq<Item>, size: nat, rounds: nat)
    requires RefusesPoison(db, poison) && EveryResolved(ParsedOf(buffer))
    ensures Drained(RoundWith(db), d, buffer, size, rounds).0.dlq == d.dlq + ParkedBy(poison, buffer, size, rounds)
  {
    forall d, items | EveryResolved(ParsedOf(items))
      ensures RoundWith(db)(d, items).dlq == d.dlq + BadItems(poison, items)
    {
      RoundParksBad(db, poison, d, items);
    }
    DrainParksBad(RoundWith(db), poison, d, buffer, size, rounds);
  }

  lemma {:induction false} DrainParksBad(step: RoundStep, poison: Subgraph -> bool, d: Desk,
                                         buffer: seq<Item>, size: nat, rounds: nat)
    requires forall d, items :: EveryResolved(ParsedOf(items)) ==> step(d, items).dlq == d.dlq + BadItems(poison, items)
    requires EveryResolved(ParsedOf(buffer))
    ensures Drained(step, d, buffer, size, rounds).0.dlq == d.dlq + ParkedBy(poison, buffer, size, rounds)
    decreases rounds
  {
    var n := Taken(buffer, size);
    if rounds > 0 && n > 0 {
      var items, rest := buffer[..n], buffer[n..];
      assert buffer == items + rest;
      ParsedConcat(items, rest);
      ResolvedConcat(ParsedOf(items), ParsedOf(rest));
      if n == size {
        DrainParksBad(step, poison, step(d, items), rest, size, rounds - 1);
        ConcatAssociates(d.dlq, BadItems(poison, items), ParkedBy(poison, rest, size, rounds - 1));
      }
    }
  }
}
