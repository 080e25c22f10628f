/** At-least-once delivery of the telemetry sink, over every run with failures and crashes. */
module SinkLaws {
  import opened Sequences
  import opened HistorianSink

  /** A log with repeats removed, first occurrences kept. */
  function Dedup(xs: seq<nat>): seq<nat> {
    if xs == [] then []
    else
      var init, last := xs[..|xs| - 1], xs[|xs| - 1];
      Dedup(init) + if last in init then [] else [last]
  }

  /** The parseable entries among the first `n` of the stream. */
  function ParsedUpTo(stream: seq<Fields>, n: nat): seq<nat>
    requires n <= |stream|
  {
    if n == 0 then [] else ParsedUpTo(stream, n - 1) + if Parses(stream[n - 1]) then [n - 1] else []
  }

  // ---- rows and the stream ------------------------------------------------------------------------

  lemma {:induction false} RowsAre(stream: seq<Fields>, ids: seq<nat>, x: nat)
    ensures x in Rows(stream, ids) <==> x in ids && x < |stream| && Parses(stream[x])
    ensures |Rows(stream, ids)| <= |ids|
    decreases |ids|
  {
    if ids != [] {
      RowsAre(stream, ids[..|ids| - 1], x);
      assert x in ids <==> x in ids[..|ids| - 1] || x == ids[|ids| - 1];
    }
  }

  lemma {:induction false} ParsedAre(stream: seq<Fields>, n: nat, x: nat)
    requires n <= |stream|
    ensures x in ParsedUpTo(stream, n) <==> x < n && Parses(stream[x])
    decreases n
  {
    if n > 0 {
      ParsedAre(stream, n - 1, x);
    }
  }

  lemma {:induction false} ParsedSplits(stream: seq<Fields>, a: nat, n: nat)
    requires a <= n <= |stream|
    ensures ParsedUpTo(stream, n) == ParsedUpTo(stream, a) + Rows(stream, Range(a, n))
    decreases n
  {
    if a < n {
      ParsedSplits(stream, a, n - 1);
      assert Range(a, n)[..n - a - 1] == Range(a, n - 1);
    } else {
      assert Range(a, n) == [];
    }
  }

  lemma {:induction false} ParsedGrows(stream: seq<Fields>, e: Fields, n: nat)
    requires n <= |stream|
    ensures ParsedUpTo(stream + [e], n) == ParsedUpTo(stream, n)
    decreases n
  {
    if n > 0 {
      ParsedGrows(stream, e, n - 1);
    }
  }

  lemma {:induction false} RangeHas(lo: nat, hi: nat, x: int)
    requires lo <= hi
    ensures (exists i :: 0 <= i < |Range(lo, hi)| && Range(lo, hi)[i] == x) <==> lo <= x < hi
  {
    if lo <= x < hi {
      assert Range(lo, hi)[x - lo] == x;
    }
  }

  // ---- repeats ------------------------------------------------------------------------------------

  lemma {:induction false} DedupKeepsMembers(xs: seq<nat>, x: nat)
    ensures x in Dedup(xs) <==> x in xs
    decreases |xs|
  {
    if xs != [] {
      DedupKeepsMembers(xs[..|xs| - 1], x);
    }
  }

  /** Landing rows that are already there only repeats them. */
  lemma {:induction false} DedupOld(xs: seq<nat>, ys: seq<nat>)
    requires forall i :: 0 <= i < |ys| ==> ys[i] in xs
    ensures Dedup(xs + ys) == Dedup(xs)
    decreases |ys|
  {
    if ys == [] {
      assert xs + ys == xs;
    } else {
      assert (xs + ys)[..|xs + ys| - 1] == xs + ys[..|ys| - 1];
      DedupOld(xs, ys[..|ys| - 1]);
    }
  }

  /** Landing new ascending rows repeats nothing. */
  lemma {:induction false} DedupNew(xs: seq<nat>, ys: seq<nat>)
    requires Ascending(ys) && forall i :: 0 <= i < |ys| ==> ys[i] !in xs
    ensures Dedup(xs + ys) == Dedup(xs) + ys
    decreases |ys|
  {
    if ys == [] {
      assert xs + ys == xs;
      assert Dedup(xs) + ys == Dedup(xs);
    } else {
      var init, last := ys[..|ys| - 1], ys[|ys| - 1];
      assert (xs + ys)[..|xs + ys| - 1] == xs + init;
      DedupNew(xs, init);
      assert last !in xs + init;
      assert Dedup(xs) + init + [last] == Dedup(xs) + ys;
    }
  }

  ghost predicate Ascending(ys: seq<nat>) {
    forall i, j :: 0 <= i < j < |ys| ==> ys[i] < ys[j]
  }

  lemma {:induction false} RowsAscend(stream: seq<Fields>, ids: seq<nat>)
    requires Ascending(ids)
    ensures Ascending(Rows(stream, ids))
    decreases |ids|
  {
    if ids != [] {
      var init := ids[..|ids| - 1];
      RowsAscend(stream, init);
      forall i | 0 <= i < |Rows(stream, init)|
        ensures Rows(stream, init)[i] < ids[|ids| - 1]
      {
        RowsAre(stream, init, Rows(stream, init)[i]);
      }
    }
  }

  lemma {:induction false} AllAcked(pending: seq<nat>, ids: seq<nat>)
    requires forall x :: x in pending ==> x in ids
    ensures Remaining(pending, ids) == []
    decreases pending
  {
    if pending != [] {
      AllAcked(pending[1..], ids);
    }
  }

  // ---- the invariant ------------------------------------------------------------------------------

  function Repeats(xs: seq<nat>): int {
    |xs| - |Dedup(xs)|
  }

  function AckedEnd(s: Sink): int {
    s.delivered - |s.pending|
  }

  /** Everything delivered is acked up to some entry and pending from there. */
  ghost predicate Ordered(s: Sink, batch: nat) {
    var a := AckedEnd(s);
    && 0 <= a <= s.delivered <= |s.stream| && |s.pending| <= batch
    && s.pending == Range(a, s.delivered)
    && (forall x :: x in s.acked <==> 0 <= x < a)
  }

  /** What has landed is the parseable stream up to `m`, which is the acked or the delivered end. */
  ghost predicate LandedTo(s: Sink, m: nat) {
    && (m == AckedEnd(s) || m == s.delivered) && m <= |s.stream|
    && Dedup(s.landed) == ParsedUpTo(s.stream, m)
  }

  /** Repeats so far, and those a landed but unacked batch will cause, are paid for by failures. */
  ghost predicate Paid(s: Sink, batch: nat, m: nat) {
    Repeats(s.landed) + (if m > AckedEnd(s) then |s.pending| else 0) <= batch * s.failures
  }

  ghost predicate Consistent(s: Sink, batch: nat) {
    && Ordered(s, batch) && (s.cursor.Live? ==> s.pending == [])
    && exists m: nat :: LandedTo(s, m) && Paid(s, batch, m)
  }

  lemma {:induction false} OneMoreFailure(batch: nat, failures: nat)
    ensures batch * (failures + 1) == batch * failures + batch
  {
  }

  lemma {:induction false} RaiseKeeps(s: Sink, batch: nat, m: nat)
    requires Ordered(s, batch) && LandedTo(s, m) && Paid(s, batch, m)
    ensures Consistent(Raised(s), batch)
  {
    OneMoreFailure(batch, s.failures);
    assert LandedTo(Raised(s), m) && Paid(Raised(s), batch, m);
  }

  /** A read hands out exactly what is then pending. */
  lemma {:induction false} ReadAll(s: Sink, batch: nat, m: nat)
    requires Ordered(s, batch) && (s.cursor.Live? ==> s.pending == []) && LandedTo(s, m) && Paid(s, batch, m)
    ensures var (r, ids) := Read(s, batch);
            ids == r.pending && Ordered(r, batch) && LandedTo(r, m) && Paid(r, batch, m)
  {
    if s.cursor.Live? {
      var upTo := Min(s.delivered + batch, |s.stream|);
      assert s.pending + Range(s.delivered, upTo) == Range(s.delivered, upTo);
    } else {
      assert s.pending[..|s.pending|] == s.pending;
    }
  }

  /** Landing the pending batch: new rows extend the log, rows landed before are repeated. */
  lemma {:induction false} LandKeeps(s: Sink, batch: nat, m: nat)
    requires Ordered(s, batch) && LandedTo(s, m) && s.pending != []
    ensures var put := s.(landed := s.landed + Rows(s.stream, s.pending));
            && Dedup(put.landed) == ParsedUpTo(s.stream, s.delivered)
            && Repeats(put.landed) <= Repeats(s.landed) + if m > AckedEnd(s) then |s.pending| else 0
  {
    var a, rows := AckedEnd(s), Rows(s.stream, s.pending);
    ParsedSplits(s.stream, a, s.delivered);
    RowsAscend(s.stream, s.pending);
    RowsAre(s.stream, s.pending, 0);
    forall i | 0 <= i < |rows|
      ensures rows[i] in s.landed <==> rows[i] < m
      ensures a <= rows[i] < s.delivered
    {
      RowsAre(s.stream, s.pending, rows[i]);
      ParsedAre(s.stream, m, rows[i]);
      DedupKeepsMembers(s.landed, rows[i]);
    }
    if m == a {
      DedupNew(s.landed, rows);
    } else {
      DedupOld(s.landed, rows);
    }
  }

  lemma {:induction false} AckKeeps(s: Sink, batch: nat)
    requires Ordered(s, batch)
    ensures var done := Acked(s, s.pending);
            && done.pending == [] && Ordered(done, batch) && AckedEnd(done) == s.delivered
  {
    AllAcked(s.pending, s.pending);
    var a, acked := AckedEnd(s), s.acked + set i | i in s.pending;
    forall x
      ensures x in acked <==> 0 <= x < s.delivered
    {
      RangeHas(a, s.delivered, x);
    }
  }

  lemma {:induction false} DrainKeeps(s: Sink, batch: nat, fault: Fault)
    requires Consistent(s, batch)
    ensures Consistent(DrainStep(s, batch, fault), batch)
  {
    var m: nat :| LandedTo(s, m) && Paid(s, batch, m);
    if fault.ReadFails? {
      RaiseKeeps(s, batch, m);
    } else {
      ReadAll(s, batch, m);
      var (read, ids) := Read(s, batch);
      if fault.ReplyLost? {
        RaiseKeeps(read, batch, m);
      } else if ids == [] {
        assert LandedTo(read.(cursor := Live), m) && Paid(read.(cursor := Live), batch, m);
      } else if fault.InsertFails? {
        RaiseKeeps(read, batch, m);
      } else {
        LandAndAck(read, batch, m, fault);
      }
    }
  }

  lemma {:induction false} LandAndAck(s: Sink, batch: nat, m: nat, fault: Fault)
    requires Ordered(s, batch) && LandedTo(s, m) && Paid(s, batch, m) && s.pending != []
    ensures var put := s.(landed := s.landed + Rows(s.stream, s.pending));
            && Consistent(Raised(put), batch)
            && Consistent(Acked(put, put.pending), batch)
            && Consistent(Raised(Acked(put, put.pending)), batch)
  {
    var put := s.(landed := s.landed + Rows(s.stream, s.pending));
    var done := Acked(put, put.pending);
    LandKeeps(s, batch, m);
    AckKeeps(put, batch);
    OneMoreFailure(batch, s.failures);
    assert LandedTo(Raised(put), s.delivered) && Paid(Raised(put), batch, s.delivered);
    assert LandedTo(done, s.delivered) && Paid(done, batch, s.delivered);
    RaiseKeeps(done, batch, s.delivered);
  }

  lemma {:induction false} HandleKeeps(s: Sink, batch: nat, e: Event)
    requires Consistent(s, batch)
    ensures Consistent(Handle(s, batch, e), batch)
  {
    match e
    case Produced(f) =>
      var m: nat :| LandedTo(s, m) && Paid(s, batch, m);
      ParsedGrows(s.stream, f, m);
      assert LandedTo(Handle(s, batch, e), m) && Paid(Handle(s, batch, e), batch, m);
    case Drain(fault) => DrainKeeps(s, batch, fault);
  }

  lemma {:induction false} RunKeeps(s: Sink, batch: nat, events: seq<Event>)
    requires Consistent(s, batch)
    ensures Consistent(HandleAll(s, batch, events), batch)
    decreases events
  {
    if events != [] {
      HandleKeeps(s, batch, events[0]);
      RunKeeps(Handle(s, batch, events[0]), batch, events[1..]);
    }
  }

  // ---- the promises -------------------------------------------------------------------------------

  /** At least once, for every run with failures and crashes anywhere: an acked entry that parses
      has landed; the landed log without its repeats is the parseable stream up to some delivered
      entry, in stream order; on the live tail nothing is pending; and repeats number at most one
      batch per failure. */
  lemma {:induction false} AtLeastOnce(batch: nat, events: seq<Event>)
    ensures var s := HandleAll(EMPTY, batch, events);
            && (forall x :: x in s.acked && x < |s.stream| && Parses(s.stream[x]) ==> x in s.landed)
            && (exists m: nat :: m <= s.delivered <= |s.stream| && Dedup(s.landed) == ParsedUpTo(s.stream, m))
            && (s.cursor.Live? ==> s.pending == [])
            && Repeats(s.landed) <= batch * s.failures
  {
    assert LandedTo(EMPTY, 0) && Paid(EMPTY, batch, 0);
    assert Consistent(EMPTY, batch);
    RunKeeps(EMPTY, batch, events);
    var s := HandleAll(EMPTY, batch, events);
    var m: nat :| LandedTo(s, m) && Paid(s, batch, m);
    forall x | x in s.acked && x < |s.stream| && Parses(s.stream[x])
      ensures x in s.landed
    {
      ParsedAre(s.stream, m, x);
      DedupKeepsMembers(s.landed, x);
    }
  }

  /** Nothing is ever lost: one drain without a failure, whatever went wrong before it, leaves
      nothing pending and every parseable entry delivered so far landed. */
  lemma {:induction false} CleanDrainCatchesUp(batch: nat, events: seq<Event>)
    ensures var s := DrainStep(HandleAll(EMPTY, batch, events), batch, NoFault);
            && s.pending == []
            && s.delivered <= |s.stream|
            && Dedup(s.landed) == ParsedUpTo(s.stream, s.delivered)
  {
    assert LandedTo(EMPTY, 0) && Paid(EMPTY, batch, 0);
    assert Consistent(EMPTY, batch);
    RunKeeps(EMPTY, batch, events);
    CatchesUp(HandleAll(EMPTY, batch, events), batch);
  }

  lemma {:induction false} PendingLands(s: Sink, batch: nat, m: nat)
    requires Ordered(s, batch) && LandedTo(s, m) && s.pending != []
    ensures var t := Acked(s.(landed := s.landed + Rows(s.stream, s.pending)), s.pending);
            t.pending == [] && t.stream == s.stream && t.delivered == s.delivered && Dedup(t.landed) == ParsedUpTo(s.stream, s.delivered)
  {
    LandKeeps(s, batch, m);
    AckKeeps(s.(landed := s.landed + Rows(s.stream, s.pending)), batch);
  }

  lemma {:induction false} CatchesUp(s: Sink, batch: nat)
    requires Consistent(s, batch)
    ensures var t := DrainStep(s, batch, NoFault);
            t.pending == [] && Dedup(t.landed) == ParsedUpTo(t.stream, t.delivered)
  {
    var m: nat :| LandedTo(s, m) && Paid(s, batch, m);
    ReadAll(s, batch, m);
    var (read, ids) := Read(s, batch);
    if ids != [] {
      PendingLands(read, batch, m);
    }
  }

  // ---- progress -------------------------------------------------------------------------------------

  /** The sink after `n` drains in which nothing goes wrong. */
  function Drained(s: Sink, batch: nat, n: nat): (t: Sink)
    requires s.delivered <= |s.stream|
    ensures t.stream == s.stream && s.delivered <= t.delivered <= |t.stream|
    decreases n
  {
    if n == 0 then s else Drained(DrainStep(s, batch, NoFault), batch, n - 1)
  }

  /** How many such drains are needed: one per entry not delivered yet, one to leave recovery and one
      more when something is pending. */
  function Behind(s: Sink): nat
    requires s.delivered <= |s.stream|
  {
    (if s.cursor.Live? then 0 else if s.pending == [] then 1 else 2) + |s.stream| - s.delivered
  }

  lemma {:induction false} DrainAdvances(s: Sink, batch: nat)
    requires Consistent(s, batch) && batch > 0
    ensures var t := DrainStep(s, batch, NoFault);
            Consistent(t, batch) && Behind(t) <= if Behind(s) == 0 then 0 else Behind(s) - 1
  {
    DrainKeeps(s, batch, NoFault);
    CatchesUp(s, batch);
    var m: nat :| LandedTo(s, m) && Paid(s, batch, m);
    ReadAll(s, batch, m);
    if s.cursor.Live? && s.delivered < |s.stream| {
      assert Min(s.delivered + batch, |s.stream|) > s.delivered;
    }
  }

  lemma {:induction false} DrainsSettle(s: Sink, batch: nat, n: nat)
    requires Consistent(s, batch) && batch > 0 && n >= Behind(s)
    ensures var t := Drained(s, batch, n); Consistent(t, batch) && Behind(t) == 0
    decreases n
  {
    if n > 0 {
      DrainAdvances(s, batch);
      DrainsSettle(DrainStep(s, batch, NoFault), batch, n - 1);
    }
  }

  /** Everything arrives: whatever went wrong in a run, that many clean drains after it leave the sink
      on the live tail with every entry delivered, nothing pending, and exactly the parseable entries
      landed, in order. */
  lemma {:induction false} CleanDrainsFinish(batch: nat, events: seq<Event>, n: nat)
    requires batch > 0 && n >= Behind(HandleAll(EMPTY, batch, events))
    ensures var t := Drained(HandleAll(EMPTY, batch, events), batch, n);
            && t.cursor == Live && t.delivered == |t.stream| && t.pending == []
            && Dedup(t.landed) == ParsedUpTo(t.stream, |t.stream|)
  {
    assert LandedTo(EMPTY, 0) && Paid(EMPTY, batch, 0);
    assert Consistent(EMPTY, batch);
    RunKeeps(EMPTY, batch, events);
    var s := HandleAll(EMPTY, batch, events);
    DrainsSettle(s, batch, n);
    var t := Drained(s, batch, n);
    var m: nat :| LandedTo(t, m) && Paid(t, batch, m);
  }

  // ---- the stream and the failures ------------------------------------------------------------------

  /** The entries produced in a run. */
  function ProducedIn(events: seq<Event>): seq<Fields> {
    if events == [] then [] else (if events[0].Produced? then [events[0].e] else []) + ProducedIn(events[1..])
  }

  /** The drains of a run that went wrong where something could: an insert or an ack only fails when
      there is something to land. */
  function FaultsIn(events: seq<Event>): nat {
    if events == [] then 0 else (if events[0].Drain? && !events[0].fault.NoFault? then 1 else 0) + FaultsIn(events[1..])
  }

  lemma {:induction false} HandleProduces(s: Sink, batch: nat, e: Event)
    requires s.delivered <= |s.stream|
    ensures var t := Handle(s, batch, e);
            && t.stream == s.stream + (if e.Produced? then [e.e] else [])
            && s.failures <= t.failures <= s.failures + if e.Drain? && !e.fault.NoFault? then 1 else 0
  {
    assert s.stream + [] == s.stream;
  }

  /** The stream is what was produced, in order, and only drains that went wrong count as failures. */
  lemma {:induction false} StreamIsProduced(s: Sink, batch: nat, events: seq<Event>)
    requires s.delivered <= |s.stream|
    ensures var t := HandleAll(s, batch, events);
            && t.stream == s.stream + ProducedIn(events)
            && s.failures <= t.failures <= s.failures + FaultsIn(events)
    decreases events
  {
    if events == [] {
      assert s.stream + [] == s.stream;
    } else {
      var first := if events[0].Produced? then [events[0].e] else [];
      HandleProduces(s, batch, events[0]);
      StreamIsProduced(Handle(s, batch, events[0]), batch, events[1..]);
      ConcatAssociates(s.stream, first, ProducedIn(events[1..]));
    }
  }

}
