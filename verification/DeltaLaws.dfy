/** What a flush tells the outside: its announcements against the subgraphs it committed and the graph
    it leaves, and its counters. */
module DeltaLaws {
  import opened Wrappers
  import opened Regrouping
  import opened Schemas
  import opened Batching
  import opened BatchLaws
  import opened Store
  import opened GraphWrites
  import opened Writer

  // ---- one announcement -----------------------------------------------------------------------------

  ghost predicate HasNode(cs: seq<Subgraph>, id: Id) {
    exists m, i {:trigger cs[m].nodes[i]} :: 0 <= m < |cs| && 0 <= i < |cs[m].nodes| && cs[m].nodes[i].resolvedId == Some(id)
  }

  ghost predicate HasEdgeOf(cs: seq<Subgraph>, t: EdgeType) {
    exists m, i {:trigger cs[m].edges[i]} :: 0 <= m < |cs| && 0 <= i < |cs[m].edges| && cs[m].edges[i].edgeType == t
  }

  ghost predicate HasDoc(cs: seq<Subgraph>, docId: string) {
    exists m :: 0 <= m < |cs| && cs[m].docId == docId
  }

  /** The announcement names the resolved ids of the nodes, the types of the edges and the document
      ids of these subgraphs. */
  ghost predicate Describes(delta: Delta, cs: seq<Subgraph>) {
    && (forall id :: id in delta.nodeIds <==> HasNode(cs, id))
    && (forall t :: t in delta.edgeTypes <==> HasEdgeOf(cs, t))
    && (forall d :: d in delta.docIds <==> HasDoc(cs, d))
  }

  function EdgeTotal(cs: seq<Subgraph>): nat {
    if cs == [] then 0 else |cs[0].edges| + EdgeTotal(cs[1..])
  }

  lemma {:induction false} ResolvedKeys(cs: seq<Subgraph>, id: Id)
    requires EveryResolved(cs)
    ensures id in Keys(AllNodeWrites(cs)) <==> HasNode(cs, id)
    decreases cs
  {
    if cs != [] {
      var rest := cs[1..];
      ResolvedKeys(rest, id);
      NodesAreWritten(cs[0].nodes);
      KeysConcat(NodeWrites(cs[0]), AllNodeWrites(rest));
      KeyAmong(NodeWrites(cs[0]), id);
      HeadNode(cs, id);
      if i :| 0 <= i < |NodeWrites(cs[0])| && NodeWrites(cs[0])[i].key == id {
        assert cs[0].nodes[i].resolvedId == Some(id);
      }
      if i :| 0 <= i < |cs[0].nodes| && cs[0].nodes[i].resolvedId == Some(id) {
        assert NodeWrites(cs[0])[i].key == id;
      }
    }
  }

  lemma {:induction false} HeadNode(cs: seq<Subgraph>, id: Id)
    requires cs != []
    ensures HasNode(cs, id) <==> (exists i :: 0 <= i < |cs[0].nodes| && cs[0].nodes[i].resolvedId == Some(id)) || HasNode(cs[1..], id)
  {
    if m, i :| 0 <= m < |cs| && 0 <= i < |cs[m].nodes| && cs[m].nodes[i].resolvedId == Some(id) {
      assert m > 0 ==> cs[1..][m - 1].nodes[i] == cs[m].nodes[i];
    }
    if m, i :| 0 <= m < |cs[1..]| && 0 <= i < |cs[1..][m].nodes| && cs[1..][m].nodes[i].resolvedId == Some(id) {
      assert cs[m + 1].nodes[i] == cs[1..][m].nodes[i];
    }
  }

  lemma {:induction false} ClassAmong<C, K>(ws: seq<Write<C, K>>, c: C)
    ensures c in Classes(ws) <==> exists i :: 0 <= i < |ws| && ws[i].cls == c
    decreases |ws|
  {
    if ws != [] {
      var n := |ws| - 1;
      ClassAmong(ws[..n], c);
      if i :| 0 <= i < |ws| && ws[i].cls == c {
        assert i < n ==> ws[..n][i] == ws[i];
      }
    }
  }

  lemma {:induction false} ClassesConcat<C, K>(a: seq<Write<C, K>>, b: seq<Write<C, K>>, c: C)
    ensures c in Classes(a + b) <==> c in Classes(a) || c in Classes(b)
  {
    ClassAmong(a + b, c);
    ClassAmong(a, c);
    ClassAmong(b, c);
    if i :| 0 <= i < |a| && a[i].cls == c {
      assert (a + b)[i].cls == c;
    }
    if i :| 0 <= i < |b| && b[i].cls == c {
      assert (a + b)[|a| + i].cls == c;
    }
  }

  lemma {:induction false} EdgeTypesWritten(cs: seq<Subgraph>, t: EdgeType)
    requires EveryResolved(cs)
    ensures t in Classes(AllEdgeWrites(cs)) <==> HasEdgeOf(cs, t)
    decreases cs
  {
    if cs != [] {
      var rest := cs[1..];
      EdgeTypesWritten(rest, t);
      ClassesConcat(EdgeWrites(cs[0]), AllEdgeWrites(rest), t);
      TypesOfOne(cs[0], t);
      HeadEdge(cs, t);
    }
  }

  lemma {:induction false} TypesOfOne(c: Subgraph, t: EdgeType)
    requires AllResolved(c.nodes)
    ensures t in Classes(EdgeWrites(c)) <==> exists i :: 0 <= i < |c.edges| && c.edges[i].edgeType == t
  {
    EdgeClasses(c);
    ClassAmong(EdgeWrites(c), t);
    if i :| 0 <= i < |EdgeWrites(c)| && EdgeWrites(c)[i].cls == t {
      assert c.edges[i].edgeType == t;
    }
    if i :| 0 <= i < |c.edges| && c.edges[i].edgeType == t {
      assert EdgeWrites(c)[i].cls == t;
    }
  }

  lemma {:induction false} HeadEdge(cs: seq<Subgraph>, t: EdgeType)
    requires cs != []
    ensures HasEdgeOf(cs, t) <==> (exists i :: 0 <= i < |cs[0].edges| && cs[0].edges[i].edgeType == t) || HasEdgeOf(cs[1..], t)
  {
    if m, i :| 0 <= m < |cs| && 0 <= i < |cs[m].edges| && cs[m].edges[i].edgeType == t {
      assert m > 0 ==> cs[1..][m - 1].edges[i] == cs[m].edges[i];
    }
    if m, i :| 0 <= m < |cs[1..]| && 0 <= i < |cs[1..][m].edges| && cs[1..][m].edges[i].edgeType == t {
      assert cs[m + 1].edges[i] == cs[1..][m].edges[i];
    }
  }

  lemma {:induction false} DocIdsAre(cs: seq<Subgraph>, d: string)
    ensures d in DocIds(cs) <==> HasDoc(cs, d)
    decreases cs
  {
    if cs != [] {
      DocIdsAre(cs[1..], d);
      if m :| 0 <= m < |cs| && cs[m].docId == d {
        assert m > 0 ==> cs[1..][m - 1] == cs[m];
      }
      if m :| 0 <= m < |cs[1..]| && cs[1..][m].docId == d {
        assert cs[m + 1] == cs[1..][m];
      }
    }
  }

  // ---- counting rows ----------------------------------------------------------------------------------

  lemma {:induction false} RowCountJoin<C, K>(a: seq<Group<C, K>>, b: seq<Group<C, K>>)
    ensures RowCount(a + b) == RowCount(a) + RowCount(b)
    decreases a
  {
    if a == [] {
      assert a + b == b;
    } else {
      assert (a + b)[1..] == a[1..] + b;
      RowCountJoin(a[1..], b);
    }
  }

  lemma {:induction false} SetRowsCount<C, K>(groups: seq<Group<C, K>>, c: C, rows: seq<Row<K>>)
    ensures RowCount(SetRows(groups, c, rows)) == RowCount(groups) - |RowsOf(groups, c)| + |rows|
  {
    var i := GroupAt(groups, c);
    if i < |groups| {
      var before, later := groups[..i], groups[i + 1..];
      assert groups == before + ([groups[i]] + later);
      assert SetRows(groups, c, rows) == before + ([Group(c, rows)] + later);
      RowCountJoin(before, [groups[i]] + later);
      RowCountJoin(before, [Group(c, rows)] + later);
    } else {
      RowCountJoin(groups, [Group(c, rows)]);
    }
  }

  /** Edge rows are never merged: as many as edge writes. */
  lemma {:induction false} EdgeRowsCount<C, K>(ws: seq<Write<C, K>>)
    ensures RowCount(Grouped(ws, false)) == |ws|
    decreases |ws|
  {
    if ws != [] {
      var init, w := ws[..|ws| - 1], ws[|ws| - 1];
      EdgeRowsCount(init);
      var groups := Grouped(init, false);
      SetRowsCount(groups, w.cls, RowsOf(groups, w.cls) + [Row(w.key, w.props)]);
    }
  }

  lemma {:induction false} EdgesCounted(cs: seq<Subgraph>)
    requires EveryResolved(cs)
    ensures |AllEdgeWrites(cs)| == EdgeTotal(cs)
    decreases cs
  {
    if cs != [] {
      EdgesAreWritten(cs[0]);
      EdgesCounted(cs[1..]);
    }
  }

  /** The announcement of a written batch describes its subgraphs; its edges are all counted. */
  lemma {:induction false} BatchDescribed(cs: seq<Subgraph>, version: int)
    requires EveryResolved(cs)
    ensures var b := GroupedBatch(cs);
            Describes(Delta(version, b.nodeIds, b.edgeTypes, b.docIds), cs) && RowCount(b.edgesByType) == EdgeTotal(cs)
  {
    forall id
      ensures id in Keys(AllNodeWrites(cs)) <==> HasNode(cs, id)
    {
      ResolvedKeys(cs, id);
    }
    forall t
      ensures t in Classes(AllEdgeWrites(cs)) <==> HasEdgeOf(cs, t)
    {
      EdgeTypesWritten(cs, t);
    }
    forall d
      ensures d in DocIds(cs) <==> HasDoc(cs, d)
    {
      DocIdsAre(cs, d);
    }
    EdgeRowsCount(AllEdgeWrites(cs));
    EdgesCounted(cs);
  }

  // ---- what every step of a flush keeps ---------------------------------------------------------------

  /** The parts of the desk that only a written batch changes. */
  predicate SameOutside(d: Desk, e: Desk) {
    && e.graph == d.graph && e.deltas == d.deltas && e.committed == d.committed
    && e.stats.nodes == d.stats.nodes && e.stats.edges == d.stats.edges
  }

  ghost predicate KeptByAll(inv: Desk -> bool, db: Database) {
    && (forall d, e {:trigger inv(d), inv(e)} :: inv(d) && SameOutside(d, e) ==> inv(e))
    && (forall d, cs {:trigger Written(db, d, cs, GroupedBatch(cs))} ::
          inv(d) && cs != [] && EveryResolved(cs) ==> inv(Written(db, d, cs, GroupedBatch(cs))))
  }

  lemma {:induction false} OneKeeps(inv: Desk -> bool, db: Database, d: Desk, c: Subgraph)
    requires KeptByAll(inv, db) && inv(d)
    ensures inv(CommitOne(db, d, c))
  {
    var next, cs := d.(version := d.version + 1), [c];
    assert SameOutside(d, next) && SameOutside(d, Parked(d, AsItems(cs))) && SameOutside(d, Parked(next, AsItems(cs)));
    assert SameOutside(d, d.(idle := d.idle + cs));
    assert inv(next);
    if EveryResolved(cs) {
      assert inv(Written(db, next, cs, GroupedBatch(cs)));
    }
  }

  lemma {:induction false} EachKeeps(inv: Desk -> bool, db: Database, d: Desk, cs: seq<Subgraph>)
    requires KeptByAll(inv, db) && inv(d)
    ensures inv(CommitEach(db, d, cs))
    decreases cs
  {
    if cs != [] {
      OneKeeps(inv, db, d, cs[0]);
      EachKeeps(inv, db, CommitOne(db, d, cs[0]), cs[1..]);
    }
  }

  lemma {:induction false} RoundKeeps(inv: Desk -> bool, db: Database, d: Desk, items: seq<Item>)
    requires KeptByAll(inv, db) && inv(d)
    ensures inv(Round(db, d, items))
  {
    var cs, d' := ParsedOf(items), Parked(d, MalformedOf(items));
    assert SameOutside(d, d');
    if cs != [] {
      CommitKeeps(inv, db, d', cs);
    }
    var d'' := if cs == [] then d' else CommitRound(db, d', cs);
    assert SameOutside(d'', Round(db, d, items));
  }

  lemma {:induction false} CommitKeeps(inv: Desk -> bool, db: Database, d: Desk, cs: seq<Subgraph>)
    requires KeptByAll(inv, db) && inv(d) && cs != []
    ensures inv(CommitRound(db, d, cs))
  {
    var next := d.(version := d.version + 1);
    assert SameOutside(d, next) && SameOutside(d, Parked(d, AsItems(cs))) && SameOutside(d, Parked(next, AsItems(cs)));
    assert SameOutside(d, d.(idle := d.idle + cs));
    assert inv(next);
    EachKeeps(inv, db, next, cs);
    if EveryResolved(cs) {
      var b := GroupedBatch(cs);
      assert inv(Written(db, next, cs, b));
      GroupedCases(inv, db, d, cs, b);
    }
  }

  lemma {:induction false} DrainKeeps(inv: Desk -> bool, step: RoundStep, d: Desk, buffer: seq<Item>, size: nat, rounds: nat)
    requires forall e, items :: inv(e) ==> inv(step(e, items))
    requires inv(d)
    ensures inv(Drained(step, d, buffer, size, rounds).0)
    decreases rounds
  {
    var n := Taken(buffer, size);
    if rounds > 0 && n > 0 {
      DrainKeeps(inv, step, step(d, buffer[..n]), buffer[n..], size, rounds - 1);
    }
  }

  lemma {:induction false} FlushKeeps(inv: Desk -> bool, db: Database, d: Desk, buffer: seq<Item>, size: nat, rounds: nat)
    requires KeptByAll(inv, db) && inv(d)
    ensures inv(Drained(RoundWith(db), d, buffer, size, rounds).0)
  {
    forall e, items | inv(e)
      ensures inv(RoundWith(db)(e, items))
    {
      RoundKeeps(inv, db, e, items);
    }
    DrainKeeps(inv, RoundWith(db), d, buffer, size, rounds);
  }

  // ---- the announcements of a flush -------------------------------------------------------------------

  /** The subgraphs split into consecutive runs, one per announcement, which describes it. */
  ghost predicate Announced(deltas: seq<Delta>, cs: seq<Subgraph>)
    decreases deltas
  {
    if deltas == [] then cs == []
    else
      exists n :: 0 <= n < |cs| && Describes(deltas[|deltas| - 1], cs[n..]) && Announced(deltas[..|deltas| - 1], cs[..n])
  }

  function NodeTotal(deltas: seq<Delta>): nat {
    if deltas == [] then 0 else NodeTotal(deltas[..|deltas| - 1]) + |deltas[|deltas| - 1].nodeIds|
  }

  /** What was announced, committed and counted since `d`. */
  ghost predicate ToldSince(d: Desk, e: Desk) {
    && d.deltas <= e.deltas && d.committed <= e.committed
    && var ds, cs := e.deltas[|d.deltas|..], e.committed[|d.committed|..];
    && Announced(ds, cs)
    && e.stats.nodes == d.stats.nodes + NodeTotal(ds)
    && e.stats.edges == d.stats.edges + EdgeTotal(cs)
  }

  lemma {:induction false} EdgeTotalJoin(a: seq<Subgraph>, b: seq<Subgraph>)
    ensures EdgeTotal(a + b) == EdgeTotal(a) + EdgeTotal(b)
    decreases a
  {
    if a == [] {
      assert a + b == b;
    } else {
      assert (a + b)[1..] == a[1..] + b;
      EdgeTotalJoin(a[1..], b);
    }
  }

  lemma {:induction false} AnnouncedMore(ds: seq<Delta>, cs: seq<Subgraph>, delta: Delta, run: seq<Subgraph>)
    requires Announced(ds, cs) && Describes(delta, run) && run != []
    ensures Announced(ds + [delta], cs + run) && NodeTotal(ds + [delta]) == NodeTotal(ds) + |delta.nodeIds|
  {
    var all, both := ds + [delta], cs + run;
    assert all[..|all| - 1] == ds && all[|all| - 1] == delta;
    assert both[|cs|..] == run && both[..|cs|] == cs;
    assert 0 <= |cs| < |both| && Describes(all[|all| - 1], both[|cs|..]) && Announced(all[..|all| - 1], both[..|cs|]);
  }

  lemma {:induction false} WrittenTold(db: Database, base: Desk, d: Desk, cs: seq<Subgraph>)
    requires ToldSince(base, d) && cs != [] && EveryResolved(cs)
    ensures ToldSince(base, Written(db, d, cs, GroupedBatch(cs)))
  {
    var b := GroupedBatch(cs);
    var delta := Delta(d.version, b.nodeIds, b.edgeTypes, b.docIds);
    var ds, done := d.deltas[|base.deltas|..], d.committed[|base.committed|..];
    BatchDescribed(cs, d.version);
    AnnouncedMore(ds, done, delta, cs);
    EdgeTotalJoin(done, cs);
    Since(base.deltas, d.deltas, [delta]);
    Since(base.committed, d.committed, cs);
  }

  lemma {:induction false} Since<T>(start: seq<T>, s: seq<T>, more: seq<T>)
    requires start <= s
    ensures start <= s + more && (s + more)[|start|..] == s[|start|..] + more
  {
  }

  /** Over a whole flush, whatever the store refuses: the new announcements split the newly committed
      subgraphs into consecutive runs and describe one run each; the counters are the number of
      different nodes announced, batch by batch, and of all edges committed. */
  lemma {:induction false} FlushIsAnnounced(db: Database, d: Desk, buffer: seq<Item>, size: nat, rounds: nat)
    ensures ToldSince(d, Drained(RoundWith(db), d, buffer, size, rounds).0)
  {
    var inv := (e: Desk) => ToldSince(d, e);
    forall e, cs | inv(e) && cs != [] && EveryResolved(cs)
      ensures inv(Written(db, e, cs, GroupedBatch(cs)))
    {
      WrittenTold(db, d, e, cs);
    }
    assert ToldSince(d, d) by {
      assert d.deltas[|d.deltas|..] == [] && d.committed[|d.committed|..] == [];
    }
    FlushKeeps(inv, db, d, buffer, size, rounds);
  }

  // ---- the stamps in the graph --------------------------------------------------------------------------

  predicate Names(deltas: seq<Delta>, id: Id) {
    deltas != [] && (id in deltas[|deltas| - 1].nodeIds || Names(deltas[..|deltas| - 1], id))
  }

  /** The version of the last announcement that names a node. */
  function LastVersion(deltas: seq<Delta>, id: Id): int
    requires Names(deltas, id)
  {
    var last := deltas[|deltas| - 1];
    if id in last.nodeIds then last.version else LastVersion(deltas[..|deltas| - 1], id)
  }

  /** A node named since carries the version of the last announcement naming it; the others are as
      they were. */
  ghost predicate StampedSince(d: Desk, e: Desk, id: Id) {
    && d.deltas <= e.deltas
    && var ds := e.deltas[|d.deltas|..];
    if Names(ds, id) then
      id in e.graph.nodes && StampedWith(e.graph.nodes[id].props, "updated_version", LastVersion(ds, id))
    else (id in e.graph.nodes <==> id in d.graph.nodes) && (id in d.graph.nodes ==> e.graph.nodes[id] == d.graph.nodes[id])
  }

  lemma {:induction false} WrittenStamps(rejects: (Graph, Batch) -> bool, base: Desk, d: Desk, cs: seq<Subgraph>, id: Id, k: EdgeKey)
    requires StampedSince(base, d, id)
    ensures StampedSince(base, Written(Database(rejects, WriteTx), d, cs, GroupedBatch(cs)), id)
  {
    var b := GroupedBatch(cs);
    var delta := Delta(d.version, b.nodeIds, b.edgeTypes, b.docIds);
    var ds := d.deltas[|base.deltas|..];
    TransactionStamps(d.graph, cs, d.version, id, k);
    assert (d.deltas + [delta])[|base.deltas|..] == ds + [delta];
    assert (ds + [delta])[..|ds|] == ds;
  }

  /** Readers can trust the announcements: after a flush a node has changed only if some new
      announcement names it, and then it carries the version of the last one. */
  lemma {:induction false} AnnouncementsAreTrue(
    rejects: (Graph, Batch) -> bool, d: Desk, buffer: seq<Item>, size: nat, rounds: nat, id: Id, k: EdgeKey)
    ensures StampedSince(d, Drained(RoundWith(Database(rejects, WriteTx)), d, buffer, size, rounds).0, id)
  {
    var db := Database(rejects, WriteTx);
    var inv := (e: Desk) => StampedSince(d, e, id);
    forall e, cs | inv(e) && cs != [] && EveryResolved(cs)
      ensures inv(Written(db, e, cs, GroupedBatch(cs)))
    {
      WrittenStamps(rejects, d, e, cs, id, k);
    }
    assert StampedSince(d, d, id) by {
      assert d.deltas[|d.deltas|..] == [];
    }
    FlushKeeps(inv, db, d, buffer, size, rounds);
  }

  // ---- how much a flush takes ---------------------------------------------------------------------------

  lemma {:induction false} RoundCounts(db: Database, d: Desk, items: seq<Item>)
    ensures Round(db, d, items).stats.rounds == d.stats.rounds + 1
  {
    RoundsStay(db, Parked(d, MalformedOf(items)), ParsedOf(items));
  }

  lemma {:induction false} RoundsStay(db: Database, d: Desk, cs: seq<Subgraph>)
    ensures CommitRound(db, d, cs).stats.rounds == d.stats.rounds
  {
    EachRoundsStay(db, d.(version := d.version + 1), cs);
    if EveryResolved(cs) {
      GroupedCases((e: Desk) => e.stats.rounds == d.stats.rounds, db, d, cs, GroupedBatch(cs));
    }
  }

  lemma {:induction false} EachRoundsStay(db: Database, d: Desk, cs: seq<Subgraph>)
    ensures CommitEach(db, d, cs).stats.rounds == d.stats.rounds
    decreases cs
  {
    if cs != [] {
      EachRoundsStay(db, CommitOne(db, d, cs[0]), cs[1..]);
    }
  }

  /** What `rounds` batches hold. */
  function Room(size: nat, rounds: nat): nat {
    if rounds == 0 then 0 else size + Room(size, rounds - 1)
  }

  /** The batches `n` items fill, the last one perhaps in part. */
  function Batches(n: nat, size: nat): nat
    requires size > 0
  {
    if n == 0 then 0 else if n <= size then 1 else 1 + Batches(n - size, size)
  }

  /** That is `rounds * size`, and `n / size` rounded up. */
  lemma {:induction false} RoomIsProduct(size: nat, rounds: nat)
    ensures Room(size, rounds) == rounds * size
    decreases rounds
  {
    if rounds > 0 {
      RoomIsProduct(size, rounds - 1);
      assert rounds * size == (rounds - 1) * size + size;
    }
  }

  lemma {:induction false} BatchesRoundUp(n: nat, size: nat)
    requires size > 0
    ensures n <= Batches(n, size) * size < n + size
    decreases n
  {
    if n > size {
      BatchesRoundUp(n - size, size);
      assert Batches(n, size) * size == Batches(n - size, size) * size + size;
    } else if n > 0 {
      assert 1 * size == size;
    }
  }

  function Least(a: nat, b: nat): nat {
    if a < b then a else b
  }

  /** A flush takes the items in order, as many as `rounds` batches hold, and counts the batches. */
  lemma {:induction false} FlushTakes(step: RoundStep, d: Desk, buffer: seq<Item>, size: nat, rounds: nat)
    requires size > 0 && forall e, items :: step(e, items).stats.rounds == e.stats.rounds + 1
    ensures var (e, left) := Drained(step, d, buffer, size, rounds);
            var n := Least(|buffer|, Room(size, rounds));
            left == buffer[n..] && e.stats.rounds == d.stats.rounds + Batches(n, size)
    decreases rounds
  {
    var n := Taken(buffer, size);
    if rounds > 0 && n > 0 {
      var e, rest := step(d, buffer[..n]), buffer[n..];
      if n == size {
        FlushTakes(step, e, rest, size, rounds - 1);
        var m := Least(|rest|, Room(size, rounds - 1));
        assert rest[m..] == buffer[n + m..];
        assert Least(|buffer|, Room(size, rounds)) == n + m;
        assert Batches(n + m, size) == 1 + Batches(m, size);
      }
    }
  }

  /** For the flush itself. */
  lemma {:induction false} FlushTakesInOrder(db: Database, d: Desk, buffer: seq<Item>, size: nat, rounds: nat)
    requires size > 0
    ensures var (e, left) := Drained(RoundWith(db), d, buffer, size, rounds);
            var n := Least(|buffer|, rounds * size);
            && left == buffer[n..]
            && e.stats.rounds >= d.stats.rounds
            && n <= (e.stats.rounds - d.stats.rounds) * size < n + size
  {
    forall e, items
      ensures RoundWith(db)(e, items).stats.rounds == e.stats.rounds + 1
    {
      RoundCounts(db, e, items);
    }
    FlushTakes(RoundWith(db), d, buffer, size, rounds);
    RoomIsProduct(size, rounds);
    BatchesRoundUp(Least(|buffer|, rounds * size), size);
  }
}
