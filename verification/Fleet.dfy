/** Worker processes per stage: live, draining after a warm shutdown, or reaped. */
module Fleet {

  /** A process is named by its stage and the stage's counter when it was spawned. */
  datatype Replica = Replica(stage: string, number: nat)

  datatype Draining = Draining(replica: Replica, since: real)

  datatype Fleet = Fleet(
    live: map<string, seq<Replica>>, counter: map<string, nat>, draining: seq<Draining>, reaped: seq<Replica>)

  const GRACE_S := 45.0

  predicate Known(f: Fleet, name: string) {
    name in f.live && name in f.counter
  }

  function Count(f: Fleet, name: string): nat {
    if name in f.live then |f.live[name]| else 0
  }

  function Up(f: Fleet, name: string): Fleet
    requires Known(f, name)
  {
    var n := f.counter[name] + 1;
    f.(counter := f.counter[name := n], live := f.live[name := f.live[name] + [Replica(name, n)]])
  }

  /** The newest replica drains; nothing happens when there is none. */
  function Down(f: Fleet, name: string, now: real): Fleet
    requires Known(f, name)
  {
    var rs := f.live[name];
    if rs == [] then f
    else f.(live := f.live[name := rs[..|rs| - 1]], draining := f.draining + [Draining(rs[|rs| - 1], now)])
  }

  function Distance(a: int, b: int): nat {
    if a < b then b - a else a - b
  }

  function ScaledTo(f: Fleet, name: string, target: nat, now: real): (g: Fleet)
    requires Known(f, name)
    ensures Known(g, name)
    decreases Distance(Count(f, name), target)
  {
    if Count(f, name) < target then ScaledTo(Up(f, name), name, target, now)
    else if Count(f, name) > target then ScaledTo(Down(f, name, now), name, target, now)
    else f
  }

  predicate Going(d: Draining, exited: set<Replica>, now: real) {
    d.replica !in exited && now - d.since <= GRACE_S
  }

  function StillGoing(ds: seq<Draining>, exited: set<Replica>, now: real): seq<Draining> {
    if ds == [] then []
    else (if Going(ds[0], exited, now) then [ds[0]] else []) + StillGoing(ds[1..], exited, now)
  }

  function Gone(ds: seq<Draining>, exited: set<Replica>, now: real): seq<Replica> {
    if ds == [] then []
    else (if Going(ds[0], exited, now) then [] else [ds[0].replica]) + Gone(ds[1..], exited, now)
  }

  function Reap(f: Fleet, exited: set<Replica>, now: real): Fleet {
    f.(draining := StillGoing(f.draining, exited, now), reaped := f.reaped + Gone(f.draining, exited, now))
  }

  class WorkerFleet {
    var live: map<string, seq<Replica>>
    var counter: map<string, nat>
    var draining: seq<Draining>
    ghost var reaped: seq<Replica>

    constructor (stages: set<string>)
      ensures View() == Fleet(map n | n in stages :: [], map n | n in stages :: 0, [], [])
    {
      live, counter := map n | n in stages :: [], map n | n in stages :: 0;
      draining, reaped := [], [];
    }

    ghost function View(): Fleet
      reads this
    {
      Fleet(live, counter, draining, reaped)
    }

    method ScaleUp(name: string)
      requires Known(View(), name)
      modifies this
      ensures View() == Up(old(View()), name)
    {
      counter := counter[name := counter[name] + 1];
      live := live[name := live[name] + [Replica(name, counter[name])]];
    }

    method ScaleDown(name: string, now: real)
      requires Known(View(), name)
      modifies this
      ensures View() == Down(old(View()), name, now)
    {
      var rs := live[name];
      if rs == [] {
        return;
      }
      live := live[name := rs[..|rs| - 1]];
      draining := draining + [Draining(rs[|rs| - 1], now)];
    }

    method ScaleTo(name: string, target: nat, now: real)
      requires Known(View(), name)
      modifies this
      ensures View() == ScaledTo(old(View()), name, target, now)
    {
      while |live[name]| < target
        invariant Known(View(), name)
        invariant ScaledTo(View(), name, target, now) == ScaledTo(old(View()), name, target, now)
        decreases target - |live[name]|
      {
        ScaleUp(name);
      }
      while |live[name]| > target
        invariant Known(View(), name) && |live[name]| >= target
        invariant ScaledTo(View(), name, target, now) == ScaledTo(old(View()), name, target, now)
        decreases |live[name]| - target
      {
        ScaleDown(name, now);
      }
    }

    method ReapDrained(exited: set<Replica>, now: real)
      modifies this
      ensures View() == Reap(old(View()), exited, now)
    {
      var stillGoing := [];
      ghost var gone := [];
      var rest := draining;
      while rest != []
        invariant stillGoing + StillGoing(rest, exited, now) == StillGoing(draining, exited, now)
        invariant gone + Gone(rest, exited, now) == Gone(draining, exited, now)
        decreases |rest|
      {
        if rest[0].replica in exited {
          gone := gone + [rest[0].replica];
        } else if now - rest[0].since > GRACE_S {
          gone := gone + [rest[0].replica];
        } else {
          stillGoing := stillGoing + [rest[0]];
        }
        rest := rest[1..];
      }
      draining, reaped := stillGoing, reaped + gone;
    }
  }
}

/** Conservation of processes. */
module FleetLaws {
  import opened Sorting
  import opened Fleet

  function Replicas(ds: seq<Draining>): seq<Replica> {
    if ds == [] then [] else [ds[0].replica] + Replicas(ds[1..])
  }

  /** In how many places a process is: among the live ones of its stage, draining, or reaped. */
  function Places(f: Fleet, r: Replica): nat {
    Times(if r.stage in f.live then f.live[r.stage] else [], r) + Times(Replicas(f.draining), r) + Times(f.reaped, r)
  }

  predicate Spawned(f: Fleet, r: Replica) {
    r.stage in f.counter && 1 <= r.number <= f.counter[r.stage]
  }

  /** Every process spawned is in exactly one place, and no other is anywhere. */
  ghost predicate Conserved(f: Fleet) {
    && f.live.Keys == f.counter.Keys
    && (forall name, k :: name in f.live && 0 <= k < |f.live[name]| ==> f.live[name][k].stage == name)
    && forall r: Replica :: Places(f, r) == if Spawned(f, r) then 1 else 0
  }

  lemma {:induction false} TimesSnoc<T>(s: seq<T>, x: T, y: T)
    ensures Times(s + [x], y) == Times(s, y) + if x == y then 1 else 0
  {
    TimesJoin(s, [x], y);
    assert [x][1..] == [];
  }

  lemma {:induction false} ReplicasSnoc(ds: seq<Draining>, d: Draining)
    ensures Replicas(ds + [d]) == Replicas(ds) + [d.replica]
    decreases ds
  {
    if ds == [] {
      assert [d][1..] == [];
      assert ds + [d] == [d];
    } else {
      assert (ds + [d])[1..] == ds[1..] + [d];
      ReplicasSnoc(ds[1..], d);
    }
  }

  /** A process spawned is new, live, and the rest stay where they are. */
  lemma {:induction false} UpConserves(f: Fleet, name: string)
    requires Conserved(f) && Known(f, name)
    ensures Conserved(Up(f, name))
    ensures var g, added := Up(f, name), Replica(name, f.counter[name] + 1);
            && !Spawned(f, added) && Spawned(g, added) && added in g.live[name]
            && forall r :: r != added ==> (Spawned(g, r) <==> Spawned(f, r)) && Places(g, r) == Places(f, r)
  {
    var g := Up(f, name);
    var added := Replica(name, g.counter[name]);
    forall r: Replica
      ensures Places(g, r) == if Spawned(g, r) then 1 else 0
    {
      TimesSnoc(f.live[name], added, r);
      assert Places(g, r) == Places(f, r) + if r == added then 1 else 0;
    }
  }

  /** A process drained leaves the live ones, and the rest stay live. */
  lemma {:induction false} DownConserves(f: Fleet, name: string, now: real)
    requires Conserved(f) && Known(f, name)
    ensures Conserved(Down(f, name, now))
    ensures f.live[name] != [] ==>
              var g, last := Down(f, name, now), f.live[name][|f.live[name]| - 1];
              && last in Replicas(g.draining) && last !in g.live[name] && last !in g.reaped
              && f.live[name] == g.live[name] + [last]
  {
    var rs, g := f.live[name], Down(f, name, now);
    if rs != [] {
      var init, last := rs[..|rs| - 1], rs[|rs| - 1];
      assert rs == init + [last];
      assert f.live[name][|init|].stage == name;
      ReplicasSnoc(f.draining, Draining(last, now));
      forall r: Replica
        ensures Places(g, r) == if Spawned(g, r) then 1 else 0
      {
        TimesSnoc(init, last, r);
        TimesSnoc(Replicas(f.draining), last, r);
        assert Places(g, r) == Places(f, r);
      }
      TimesSnoc(Replicas(f.draining), last, last);
      TimesMember(init, last);
      TimesMember(f.reaped, last);
      assert last.stage == name && Places(g, last) <= 1;
    }
  }

  lemma {:induction false} ReapSplits(ds: seq<Draining>, exited: set<Replica>, now: real, r: Replica)
    ensures Times(Replicas(ds), r) ==
              Times(Replicas(StillGoing(ds, exited, now)), r) + Times(Gone(ds, exited, now), r)
    decreases ds
  {
    if ds != [] {
      var d, rest := ds[0], ds[1..];
      ReapSplits(rest, exited, now, r);
      var going, gone := StillGoing(rest, exited, now), Gone(rest, exited, now);
      assert ([d] + going)[1..] == going && ([d.replica] + gone)[1..] == gone;
      assert ([d.replica] + Replicas(rest))[1..] == Replicas(rest);
      assert ([d.replica] + Replicas(going))[1..] == Replicas(going);
      assert [] + going == going && [] + gone == gone;
    }
  }

  lemma {:induction false} ReapConserves(f: Fleet, exited: set<Replica>, now: real)
    requires Conserved(f)
    ensures Conserved(Reap(f, exited, now))
  {
    var g := Reap(f, exited, now);
    forall r: Replica
      ensures Places(g, r) == if Spawned(g, r) then 1 else 0
    {
      ReapSplits(f.draining, exited, now, r);
      TimesJoin(f.reaped, Gone(f.draining, exited, now), r);
      assert Places(g, r) == Places(f, r);
    }
  }

  /** Scaling reaches the target and conserves the processes; nothing but this stage's live list
      changes among the live ones and the counters. */
  lemma {:induction false} ScaledToTarget(f: Fleet, name: string, target: nat, now: real)
    requires Known(f, name)
    ensures var g := ScaledTo(f, name, target, now);
            && Count(g, name) == target && (Conserved(f) ==> Conserved(g))
            && g.live.Keys == f.live.Keys && g.counter.Keys == f.counter.Keys
            && f.draining <= g.draining && g.reaped == f.reaped
            && forall other :: other != name ==>
                 && Count(g, other) == Count(f, other)
                 && (other in f.live ==> g.live[other] == f.live[other])
                 && (other in f.counter ==> g.counter[other] == f.counter[other])
    decreases Distance(Count(f, name), target)
  {
    if Count(f, name) < target {
      if Conserved(f) {
        UpConserves(f, name);
      }
      ScaledToTarget(Up(f, name), name, target, now);
    } else if Count(f, name) > target {
      if Conserved(f) {
        DownConserves(f, name, now);
      }
      ScaledToTarget(Down(f, name, now), name, target, now);
    }
  }

  /** A new fleet has no processes. */
  lemma {:induction false} NewFleetConserved(stages: set<string>)
    ensures Conserved(Fleet(map n | n in stages :: [], map n | n in stages :: 0, [], []))
  {
    var f := Fleet(map n | n in stages :: [], map n | n in stages :: 0, [], []);
    assert Replicas(f.draining) == [];
    assert forall r: Replica :: Places(f, r) == 0;
  }

  predicate Overdue(d: Draining, now: real) {
    now - d.since > GRACE_S
  }

  /** Reaping, process by process: exactly those that have exited or outstayed the grace period go, and
      the others stay in their order. */
  lemma {:induction false} ReapedExactly(ds: seq<Draining>, exited: set<Replica>, now: real, d: Draining)
    ensures d in StillGoing(ds, exited, now) <==> d in ds && d.replica !in exited && !Overdue(d, now)
    ensures d in ds && (d.replica in exited || Overdue(d, now)) ==> d.replica in Gone(ds, exited, now)
    ensures d.replica in Gone(ds, exited, now) ==>
              exists e :: e in ds && e.replica == d.replica && (e.replica in exited || Overdue(e, now))
    ensures |StillGoing(ds, exited, now)| + |Gone(ds, exited, now)| == |ds|
    decreases ds
  {
    if ds != [] {
      ReapedExactly(ds[1..], exited, now, d);
      assert ds == [ds[0]] + ds[1..];
    }
  }

  /** A drained process starts its grace period when it is told to stop. */
  lemma {:induction false} GraceStarts(f: Fleet, name: string, now: real, later: real)
    requires Known(f, name) && f.live[name] != []
    ensures var last := f.live[name][|f.live[name]| - 1];
            var d := Down(f, name, now).draining;
            && d == f.draining + [Draining(last, now)]
            && (Overdue(d[|d| - 1], later) <==> later > now + GRACE_S)
  {
  }
}
