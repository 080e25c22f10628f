/** The single graph writer: `flush` drains the write buffer in rounds, `_commit` writes a round
    as one transaction and falls back to one subgraph at a time. */
module Writer {
  import opened Sequences
  import opened Wrappers
  import opened Regrouping
  import opened Schemas
  import opened Batching
  import opened Store

  /** A write-buffer entry: the json of a subgraph, or something that does not validate. */
  datatype Item = Json(csg: Subgraph) | Malformed(text: string)

  /** The announcement of one committed batch on the delta stream. */
  datatype Delta = Delta(version: int, nodeIds: set<Id>, edgeTypes: set<EdgeType>, docIds: set<string>)

  datatype Stats = Stats(rounds: nat, subgraphs: nat, nodes: nat, edges: nat, bad: nat)

  /** What the database does with a batch: refuse it, or change the graph under a version. */
  datatype Database = Database(rejects: (Graph, Batch) -> bool, write: (Graph, Batch, int) -> Graph)

  // ---- specification ------------------------------------------------------------------------

  /** Everything a commit can change, with the subgraphs committed and those found empty. */
  datatype Desk = Desk(
    graph: Graph, version: int, dlq: seq<Item>, deltas: seq<Delta>, stats: Stats,
    committed: seq<Subgraph>, idle: seq<Subgraph>)

  function AsItems(cs: seq<Subgraph>): seq<Item> {
    if cs == [] then [] else [Json(cs[0])] + AsItems(cs[1..])
  }

  predicate Empty(b: Batch) {
    b.nodesByLabel == [] && b.edgesByType == []
  }

  function RowCount<C, K>(groups: seq<Group<C, K>>): nat {
    if groups == [] then 0 else |groups[0].rows| + RowCount(groups[1..])
  }

  function Parked(d: Desk, items: seq<Item>): Desk {
    d.(dlq := d.dlq + items, stats := d.stats.(bad := d.stats.bad + |items|))
  }

  /** The desk after the batch `b` of `cs` is written, announced and counted. */
  function Written(db: Database, d: Desk, cs: seq<Subgraph>, b: Batch): Desk {
    d.(graph := db.write(d.graph, b, d.version),
       deltas := d.deltas + [Delta(d.version, b.nodeIds, b.edgeTypes, b.docIds)],
       stats := d.stats.(subgraphs := d.stats.subgraphs + |cs|,
                         nodes := d.stats.nodes + |b.nodeIds|,
                         edges := d.stats.edges + RowCount(b.edgesByType)),
       committed := d.committed + cs)
  }

  /** A grouped subgraph on its own: nobody is left to retry it with. */
  function Settled(db: Database, d: Desk, c: Subgraph, b: Batch): Desk {
    var next := d.(version := d.version + 1);
    if Empty(b) then d.(idle := d.idle + [c])
    else if db.rejects(d.graph, b) then Parked(next, AsItems([c]))
    else Written(db, next, [c], b)
  }

  function CommitOne(db: Database, d: Desk, c: Subgraph): Desk {
    if !EveryResolved([c]) then Parked(d, AsItems([c])) else Settled(db, d, c, GroupedBatch([c]))
  }

  function CommitEach(db: Database, d: Desk, cs: seq<Subgraph>): Desk
    decreases cs
  {
    if cs == [] then d else CommitEach(db, CommitOne(db, d, cs[0]), cs[1..])
  }

  /** A grouped round: written whole when the store takes it, retried one by one when not. */
  function CommitGrouped(db: Database, d: Desk, cs: seq<Subgraph>, b: Batch): Desk {
    var next := d.(version := d.version + 1);
    if Empty(b) then d.(idle := d.idle + cs)
    else if !db.rejects(d.graph, b) then Written(db, next, cs, b)
    else if |cs| == 1 then Parked(next, AsItems(cs))
    else CommitEach(db, next, cs)
  }

  /** A round is parked whole when any node of it is unresolved. */
  function CommitRound(db: Database, d: Desk, cs: seq<Subgraph>): Desk {
    if !EveryResolved(cs) then Parked(d, AsItems(cs)) else CommitGrouped(db, d, cs, GroupedBatch(cs))
  }

  function ParsedOf(items: seq<Item>): seq<Subgraph> {
    if items == [] then []
    else (if items[0].Json? then [items[0].csg] else []) + ParsedOf(items[1..])
  }

  function MalformedOf(items: seq<Item>): seq<Item> {
    if items == [] then []
    else (if items[0].Malformed? then [items[0]] else []) + MalformedOf(items[1..])
  }

  function Round(db: Database, d: Desk, items: seq<Item>): Desk {
    var parsed := ParsedOf(items);
    var d' := Parked(d, MalformedOf(items));
    var d'' := if parsed == [] then d' else CommitRound(db, d', parsed);
    d''.(stats := d''.stats.(rounds := d''.stats.rounds + 1))
  }

  function Taken(buffer: seq<Item>, size: nat): nat {
    if size < |buffer| then size else |buffer|
  }

  type RoundStep = (Desk, seq<Item>) -> Desk

  function RoundWith(db: Database): RoundStep {
    (d, items) => Round(db, d, items)
  }

  /** `step` is the round over this database. */
  ghost predicate Runs(step: RoundStep, db: Database) {
    forall d, items {:trigger Round(db, d, items)} :: step(d, items) == Round(db, d, items)
  }

  /** At most `rounds` rounds, stopping at an empty or a short take. */
  function Drained(step: RoundStep, d: Desk, buffer: seq<Item>, size: nat, rounds: nat): (r: (Desk, seq<Item>))
    decreases rounds
  {
    var n := Taken(buffer, size);
    if rounds == 0 || n == 0 then (d, buffer)
    else
      var d' := step(d, buffer[..n]);
      if n < size then (d', buffer[n..]) else Drained(step, d', buffer[n..], size, rounds - 1)
  }

  // ---- the classes --------------------------------------------------------------------------

  /** The write buffer, the dead letter queue, the flush lock, the graph version counter and
      the delta stream. */
  class RedisBus {
    var buffer: seq<Item>
    var dlq: seq<Item>
    var flushLock: bool
    var graphVersion: int
    var deltas: seq<Delta>

    constructor (buffer: seq<Item>, graphVersion: int)
      ensures this.buffer == buffer && this.graphVersion == graphVersion
      ensures dlq == [] && deltas == [] && !flushLock
    {
      this.buffer, this.graphVersion := buffer, graphVersion;
      dlq, deltas, flushLock := [], [], false;
    }

    method AcquireFlushLock() returns (acquired: bool)
      modifies this`flushLock
      ensures acquired == !old(flushLock) && flushLock
    {
      acquired := !flushLock;
      flushLock := true;
    }

    method ReleaseFlushLock()
      modifies this`flushLock
      ensures !flushLock
    {
      flushLock := false;
    }

    method TakeSubgraphs(count: nat) returns (items: seq<Item>)
      modifies this`buffer
      ensures items + buffer == old(buffer) && |items| == Taken(old(buffer), count)
      ensures items == old(buffer)[..|items|] && buffer == old(buffer)[|items|..]
    {
      var n := Taken(buffer, count);
      items, buffer := buffer[..n], buffer[n..];
    }

    method ParkBadSubgraph(item: Item)
      modifies this`dlq
      ensures dlq == old(dlq) + [item]
    {
      dlq := dlq + [item];
    }

    method NextGraphVersion() returns (version: int)
      modifies this`graphVersion
      ensures graphVersion == old(graphVersion) + 1 == version
    {
      graphVersion := graphVersion + 1;
      version := graphVersion;
    }

    method PublishDelta(delta: Delta)
      modifies this`deltas
      ensures deltas == old(deltas) + [delta]
    {
      deltas := deltas + [delta];
    }
  }

  class GraphWriter {
    const bus: RedisBus
    const store: GraphStore
    const batchSize: nat
    const maxRounds: nat
    /** The stats dict of the flush in progress. */
    var stats: Stats
    ghost var committed: seq<Subgraph>
    ghost var idle: seq<Subgraph>

    constructor (bus: RedisBus, store: GraphStore, batchSize: nat, maxRounds: nat)
      ensures this.bus == bus && this.store == store
      ensures this.batchSize == batchSize && this.maxRounds == maxRounds
      ensures committed == [] && idle == []
    {
      this.bus, this.store, this.batchSize, this.maxRounds := bus, store, batchSize, maxRounds;
      stats := Stats(0, 0, 0, 0, 0);
      committed, idle := [], [];
    }

    /** The database as `_write_tx` drives it. */
    ghost function Db(): Database {
      Database(store.rejects, WriteTx)
    }

    ghost function View(): Desk
      reads this, bus, store
    {
      Desk(store.graph, bus.graphVersion, bus.dlq, bus.deltas, stats, committed, idle)
    }

    method Park(cs: seq<Subgraph>)
      modifies this`stats, bus`dlq
      ensures View() == Parked(old(View()), AsItems(cs))
    {
      var rest := cs;
      while rest != []
        invariant unchanged(this)
        invariant bus.dlq + AsItems(rest) == old(bus.dlq) + AsItems(cs)
        decreases |rest|
      {
        ConcatAssociates(bus.dlq, [Json(rest[0])], AsItems(rest[1..]));
        bus.ParkBadSubgraph(Json(rest[0]));
        rest := rest[1..];
      }
      AsItemsLength(cs);
      stats := stats.(bad := stats.bad + |cs|);
    }

    method CountRows(groups: seq<Group<EdgeType, EdgeKey>>) returns (n: nat)
      ensures n == RowCount(groups)
    {
      n := 0;
      var rest := groups;
      while rest != []
        invariant n + RowCount(rest) == RowCount(groups)
        decreases |rest|
      {
        n := n + |rest[0].rows|;
        rest := rest[1..];
      }
    }

    /** Takes a version number and tries the batch; a written batch is announced and counted. */
    method Write(subgraphs: seq<Subgraph>, batch: Batch) returns (ok: bool)
      modifies this`stats, this`committed, bus`graphVersion, bus`deltas, store
      ensures ok == !store.rejects(old(store.graph), batch)
      ensures var next := old(View()).(version := old(bus.graphVersion) + 1);
              View() == if ok then Written(Db(), next, subgraphs, batch) else next
    {
      var version := bus.NextGraphVersion();
      ok := store.WriteBatch(batch, version);
      if ok {
        bus.PublishDelta(Delta(version, batch.nodeIds, batch.edgeTypes, batch.docIds));
        var rows := CountRows(batch.edgesByType);
        stats := stats.(subgraphs := stats.subgraphs + |subgraphs|,
                        nodes := stats.nodes + |batch.nodeIds|,
                        edges := stats.edges + rows);
        committed := committed + subgraphs;
      }
    }

    method Commit(subgraphs: seq<Subgraph>)
      requires subgraphs != []
      modifies this`stats, this`committed, this`idle, bus`dlq, bus`graphVersion, bus`deltas, store
      ensures View() == CommitRound(Db(), old(View()), subgraphs)
      decreases if |subgraphs| == 1 then 0 else 1, 2
    {
      var grouped := GroupBatch(subgraphs);
      if grouped.Failure? {
        Park(subgraphs);
        return;
      }
      CommitBatch(subgraphs, grouped.value.View());
    }

    method CommitBatch(subgraphs: seq<Subgraph>, batch: Batch)
      modifies this`stats, this`committed, this`idle, bus`dlq, bus`graphVersion, bus`deltas, store
      ensures View() == CommitGrouped(Db(), old(View()), subgraphs, batch)
      decreases if |subgraphs| == 1 then 0 else 1, 1
    {
      if Empty(batch) {
        idle := idle + subgraphs;
        return;
      }
      var ok := Write(subgraphs, batch);
      if !ok {
        if |subgraphs| == 1 {
          Park(subgraphs);
        } else {
          CommitSingly(subgraphs);
        }
      }
    }

    /** The retry loop: one `_commit` per subgraph, so only the culprit is parked. */
    method CommitSingly(subgraphs: seq<Subgraph>)
      modifies this`stats, this`committed, this`idle, bus`dlq, bus`graphVersion, bus`deltas, store
      ensures View() == CommitEach(Db(), old(View()), subgraphs)
      decreases 1, 0
    {
      var rest := subgraphs;
      while rest != []
        invariant CommitEach(Db(), View(), rest) == CommitEach(Db(), old(View()), subgraphs)
        decreases |rest|
      {
        RoundOfOne(Db(), View(), rest[0]);
        Commit([rest[0]]);
        rest := rest[1..];
      }
    }

    method Parse(items: seq<Item>) returns (subgraphs: seq<Subgraph>)
      modifies this`stats, bus`dlq
      ensures subgraphs == ParsedOf(items)
      ensures View() == Parked(old(View()), MalformedOf(items))
    {
      subgraphs := [];
      var rest := items;
      while rest != []
        invariant subgraphs + ParsedOf(rest) == ParsedOf(items)
        invariant Parked(View(), MalformedOf(rest)) == Parked(old(View()), MalformedOf(items))
        decreases |rest|
      {
        if rest[0].Json? {
          ConcatAssociates(subgraphs, [rest[0].csg], ParsedOf(rest[1..]));
          subgraphs := subgraphs + [rest[0].csg];
        } else {
          ConcatAssociates(bus.dlq, [rest[0]], MalformedOf(rest[1..]));
          bus.ParkBadSubgraph(rest[0]);
          stats := stats.(bad := stats.bad + 1);
        }
        rest := rest[1..];
      }
    }

    method RunRound(items: seq<Item>)
      modifies this`stats, this`committed, this`idle, bus`dlq, bus`graphVersion, bus`deltas, store
      ensures View() == Round(Db(), old(View()), items)
    {
      var subgraphs := Parse(items);
      if subgraphs != [] {
        Commit(subgraphs);
      }
      stats := stats.(rounds := stats.rounds + 1);
    }

    /** One turn of the drain loop; the number of items taken. */
    method NextRound(ghost step: RoundStep) returns (taken: nat)
      requires Runs(step, Db())
      modifies this`stats, this`committed, this`idle, bus`buffer, bus`dlq, bus`graphVersion, bus`deltas, store
      ensures taken == Taken(old(bus.buffer), batchSize) && bus.buffer == old(bus.buffer)[taken..]
      ensures View() == if taken == 0 then old(View()) else step(old(View()), old(bus.buffer)[..taken])
    {
      var items := bus.TakeSubgraphs(batchSize);
      taken := |items|;
      if items != [] {
        RunRound(items);
      }
    }

    /** At most maxRounds rounds; the next tick continues where this one stopped. */
    method Drain(ghost step: RoundStep)
      requires Runs(step, Db())
      modifies this`stats, this`committed, this`idle, bus`buffer, bus`dlq, bus`graphVersion, bus`deltas, store
      ensures (View(), bus.buffer) == Drained(step, old(View()), old(bus.buffer), batchSize, maxRounds)
    {
      var left := maxRounds;
      ghost var goal := Drained(step, View(), bus.buffer, batchSize, maxRounds);
      while left > 0
        invariant Drained(step, View(), bus.buffer, batchSize, left) == goal
        decreases left
      {
        DrainedStep(step, View(), bus.buffer, batchSize, left);
        var taken := NextRound(step);
        if taken == 0 || taken < batchSize {
          return;
        }
        left := left - 1;
      }
    }

    /** One drain cycle under the flush lock; None when another flush holds it. */
    method Flush() returns (result: Option<Stats>)
      modifies this, bus, store
      ensures old(bus.flushLock) ==>
                result.None? && bus.flushLock && View() == old(View()) && bus.buffer == old(bus.buffer)
      ensures !old(bus.flushLock) ==>
                && !bus.flushLock && result == Some(View().stats)
                && (View(), bus.buffer)
                   == Drained(RoundWith(Db()), old(View()).(stats := Stats(0, 0, 0, 0, 0)), old(bus.buffer), batchSize, maxRounds)
    {
      var acquired := bus.AcquireFlushLock();
      if !acquired {
        return None;
      }
      stats := Stats(0, 0, 0, 0, 0);
      Drain(RoundWith(Db()));
      bus.ReleaseFlushLock();
      return Some(stats);
    }
  }

  lemma {:induction false} AsItemsLength(cs: seq<Subgraph>)
    ensures |AsItems(cs)| == |cs|
    decreases cs
  {
    if cs != [] {
      AsItemsLength(cs[1..]);
    }
  }

  lemma {:induction false} DrainedStep(step: RoundStep, d: Desk, buffer: seq<Item>, size: nat, rounds: nat)
    requires rounds > 0
    ensures var n := Taken(buffer, size);
            var d' := step(d, buffer[..n]);
            Drained(step, d, buffer, size, rounds)
            == if n == 0 then (d, buffer)
               else if n < size then (d', buffer[n..])
               else Drained(step, d', buffer[n..], size, rounds - 1)
  {
  }

  lemma {:induction false} RoundOfOne(db: Database, d: Desk, c: Subgraph)
    ensures CommitRound(db, d, [c]) == CommitOne(db, d, c)
  {
  }

  /** The four ends of a grouped commit. */
  lemma {:induction false} GroupedCases(p: Desk -> bool, db: Database, d: Desk, cs: seq<Subgraph>, b: Batch)
    requires p(d.(idle := d.idle + cs))
    requires var next := d.(version := d.version + 1);
             p(Written(db, next, cs, b)) && p(Parked(next, AsItems(cs))) && p(CommitEach(db, next, cs))
    ensures p(CommitGrouped(db, d, cs, b))
  {
  }
}
