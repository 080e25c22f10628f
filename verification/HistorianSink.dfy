/** The telemetry sink: a consumer group with pending entries, land-then-ack and a recovery
    cursor, with a failure or crash possible at every point of a drain. */
module HistorianSink {
  import opened Wrappers

  /** One stream entry; it parses into a row exactly when it names a tag. */
  datatype Fields = Fields(tagId: string, timestamp: string, value: string)

  predicate Parses(e: Fields) {
    e.tagId != ""
  }

  /** "0" reads this consumer's pending entries, ">" the live tail. */
  datatype Cursor = Recovering | Live

  /** Where a drain goes wrong, if it does. A crash is a failure after which the sink restarts. */
  datatype Fault =
    | NoFault
    | ReadFails          // the read never reaches the server
    | ReplyLost          // entries delivered, but the reply never arrives
    | InsertFails        // the COPY rolls back
    | CrashBeforeAck     // the COPY has committed, the ack is not sent or has no effect
    | AckReplyLost       // the ack takes effect, its reply never arrives

  datatype Event = Produced(e: Fields) | Drain(fault: Fault)

  /** The group's stream with `delivered` entries handed out so far, the pending entries, the
      acked ones, the rows landed (by entry), the cursor of the run loop and the failures seen. */
  datatype Sink = Sink(
    stream: seq<Fields>, delivered: nat, pending: seq<nat>, acked: set<nat>,
    landed: seq<nat>, cursor: Cursor, failures: nat)

  // ---- specification ----------------------------------------------------------------------------

  function Range(lo: nat, hi: nat): (r: seq<nat>)
    requires lo <= hi
    ensures |r| == hi - lo && forall i :: 0 <= i < |r| ==> r[i] == lo + i
  {
    seq(hi - lo, i requires 0 <= i < hi - lo => lo + i)
  }

  function Min(a: nat, b: nat): nat {
    if a < b then a else b
  }

  /** XREADGROUP: ">" hands out new entries and makes them pending, "0" repeats pending ones. */
  function Read(s: Sink, batch: nat): (r: (Sink, seq<nat>))
    requires s.delivered <= |s.stream|
  {
    match s.cursor
    case Live =>
      var upTo := Min(s.delivered + batch, |s.stream|);
      var ids := Range(s.delivered, upTo);
      (s.(delivered := upTo, pending := s.pending + ids), ids)
    case Recovering => (s, s.pending[..Min(batch, |s.pending|)])
  }

  /** The entries of `ids` that parse. */
  function Rows(stream: seq<Fields>, ids: seq<nat>): seq<nat> {
    if ids == [] then []
    else Rows(stream, ids[..|ids| - 1])
         + if ids[|ids| - 1] < |stream| && Parses(stream[ids[|ids| - 1]]) then [ids[|ids| - 1]] else []
  }

  function Remaining(pending: seq<nat>, ids: seq<nat>): seq<nat> {
    if pending == [] then []
    else (if pending[0] in ids then [] else [pending[0]]) + Remaining(pending[1..], ids)
  }

  function Acked(s: Sink, ids: seq<nat>): Sink {
    s.(pending := Remaining(s.pending, ids), acked := s.acked + set i | i in ids)
  }

  /** A raise: the run loop drops back into recovery. */
  function Raised(s: Sink): Sink {
    s.(cursor := Recovering, failures := s.failures + 1)
  }

  function DrainStep(s: Sink, batch: nat, fault: Fault): (t: Sink)
    requires s.delivered <= |s.stream|
    ensures t.stream == s.stream && s.delivered <= t.delivered <= |t.stream|
  {
    if fault.ReadFails? then Raised(s)
    else
      var (read, ids) := Read(s, batch);
      if fault.ReplyLost? then Raised(read)
      else if ids == [] then read.(cursor := Live)
      else if fault.InsertFails? then Raised(read)
      else
        var put := read.(landed := read.landed + Rows(read.stream, ids));
        if fault.CrashBeforeAck? then Raised(put)
        else
          var done := Acked(put, ids);
          if fault.AckReplyLost? then Raised(done) else done
  }

  function Handle(s: Sink, batch: nat, e: Event): (t: Sink)
    requires s.delivered <= |s.stream|
    ensures s.stream <= t.stream && s.delivered <= t.delivered <= |t.stream|
  {
    match e
    case Produced(f) => s.(stream := s.stream + [f])
    case Drain(fault) => DrainStep(s, batch, fault)
  }

  function HandleAll(s: Sink, batch: nat, events: seq<Event>): (t: Sink)
    requires s.delivered <= |s.stream|
    ensures s.stream <= t.stream && s.delivered <= t.delivered <= |t.stream|
    decreases events
  {
    if events == [] then s else HandleAll(Handle(s, batch, events[0]), batch, events[1..])
  }

  const EMPTY := Sink([], 0, [], {}, [], Recovering, 0)

  // ---- the sink ---------------------------------------------------------------------------------

  class ConsumerGroup {
    var stream: seq<Fields>
    var delivered: nat
    var pending: seq<nat>
    ghost var acked: set<nat>

    constructor ()
      ensures stream == [] && delivered == 0 && pending == [] && acked == {}
    {
      stream, delivered, pending, acked := [], 0, [], {};
    }

    method XAdd(e: Fields)
      modifies this`stream
      ensures stream == old(stream) + [e]
    {
      stream := stream + [e];
    }

    method XReadGroup(cursor: Cursor, count: nat) returns (ids: seq<nat>)
      requires delivered <= |stream|
      modifies this`delivered, this`pending
      ensures forall landed, failures ::
                var s := Sink(stream, old(delivered), old(pending), acked, landed, cursor, failures);
                (Sink(stream, delivered, pending, acked, landed, cursor, failures), ids) == Read(s, count)
    {
      if cursor.Live? {
        var upTo := Min(delivered + count, |stream|);
        ids := Range(delivered, upTo);
        delivered, pending := upTo, pending + ids;
      } else {
        ids := pending[..Min(count, |pending|)];
      }
    }

    method XAck(ids: seq<nat>)
      modifies this`pending, this`acked
      ensures pending == Remaining(old(pending), ids) && acked == old(acked) + set i | i in ids
    {
      var kept := [];
      var rest := pending;
      while rest != []
        invariant kept + Remaining(rest, ids) == Remaining(pending, ids)
        decreases |rest|
      {
        if rest[0] !in ids {
          kept := kept + [rest[0]];
        }
        rest := rest[1..];
      }
      pending := kept;
      acked := acked + set i | i in ids;
    }
  }

  class TelemetrySink {
    const group: ConsumerGroup
    const batch: nat
    /** The rows the database holds. */
    var landed: seq<nat>
    var cursor: Cursor
    ghost var failures: nat

    constructor (group: ConsumerGroup, batch: nat)
      ensures this.group == group && this.batch == batch
      ensures landed == [] && cursor == Recovering && failures == 0
    {
      this.group, this.batch := group, batch;
      landed, cursor, failures := [], Recovering, 0;
    }

    ghost function View(): Sink
      reads this, group
    {
      Sink(group.stream, group.delivered, group.pending, group.acked, landed, cursor, failures)
    }

    /** Read one batch, land it, ack it; None stands for a raise. */
    method DrainOnce(fault: Fault) returns (next: Option<Cursor>)
      requires group.delivered <= |group.stream|
      modifies this`landed, group
      ensures var after := if next.Some? then View().(cursor := next.value) else Raised(View());
              after == DrainStep(old(View()), batch, fault)
    {
      if fault.ReadFails? {
        return None;
      }
      var ids := group.XReadGroup(cursor, batch);
      assert (View(), ids) == Read(old(View()), batch);
      if fault.ReplyLost? {
        return None;
      }
      if ids == [] {
        return Some(Live);
      }
      var rows := [];
      for i := 0 to |ids|
        invariant rows == Rows(group.stream, ids[..i])
      {
        assert ids[..i + 1][..i] == ids[..i];
        if ids[i] < |group.stream| && Parses(group.stream[ids[i]]) {
          rows := rows + [ids[i]];
        }
      }
      assert ids[..|ids|] == ids;
      if fault.InsertFails? {
        return None;
      }
      landed := landed + rows;
      if fault.CrashBeforeAck? {
        return None;
      }
      group.XAck(ids);
      if fault.AckReplyLost? {
        return None;
      }
      return Some(if cursor != Live then Recovering else Live);
    }

    /** The run loop over a schedule of produced entries and drains. */
    method Run(events: seq<Event>)
      requires group.delivered <= |group.stream|
      modifies this, group
      ensures View() == HandleAll(old(View()), batch, events)
    {
      var rest := events;
      while rest != []
        invariant group.delivered <= |group.stream|
        invariant HandleAll(View(), batch, rest) == HandleAll(old(View()), batch, events)
        decreases |rest|
      {
        match rest[0] {
          case Produced(e) =>
            group.XAdd(e);
          case Drain(fault) =>
            var next := DrainOnce(fault);
            if next.Some? {
              cursor := next.value;
            } else {
              cursor, failures := Recovering, failures + 1;
            }
        }
        rest := rest[1..];
      }
    }
  }
}
