/** Matching the number of workers to the depth of the queues they consume. */
module Autoscaler {
  import opened Fleet
  import opened FleetLaws

  datatype WorkerSpec = WorkerSpec(minReplicas: nat, maxReplicas: nat)

  datatype Policy = Policy(service: string, queues: seq<string>, perWorker: nat)

  predicate Scalable(s: WorkerSpec) {
    s.maxReplicas > s.minReplicas
  }

  function Backlog(queues: seq<string>, depths: map<string, nat>): nat {
    if queues == [] then 0
    else (if queues[0] in depths then depths[queues[0]] else 0) + Backlog(queues[1..], depths)
  }

  /** `math.ceil(backlog / per_worker)`. */
  function Wanted(backlog: nat, perWorker: nat): nat
    requires perWorker > 0
  {
    (backlog + perWorker - 1) / perWorker
  }

  /** The target: what absorbs the backlog, within the bounds of the stage. */
  function Desired(backlog: nat, perWorker: nat, spec: WorkerSpec): (r: nat)
    requires perWorker > 0
    ensures spec.minReplicas <= spec.maxReplicas ==> spec.minReplicas <= r <= spec.maxReplicas
    ensures spec.minReplicas <= Wanted(backlog, perWorker) <= spec.maxReplicas ==> r == Wanted(backlog, perWorker)
  {
    var capped := if Wanted(backlog, perWorker) < spec.maxReplicas then Wanted(backlog, perWorker) else spec.maxReplicas;
    if capped > spec.minReplicas then capped else spec.minReplicas
  }

  // ---- one stage ----------------------------------------------------------------------------------

  /** A stage's live count and its run of quiet ticks. */
  datatype Stage = Stage(count: nat, quiet: nat)

  function StageStep(s: Stage, desired: nat, quietTicks: int): Stage {
    if desired > s.count then Stage(desired, 0)
    else if desired < s.count then
      if s.quiet + 1 >= quietTicks then Stage(s.count - 1, 0) else Stage(s.count, s.quiet + 1)
    else Stage(s.count, 0)
  }

  // ---- the fleet ----------------------------------------------------------------------------------

  function QuietOf(quiet: map<string, nat>, name: string): nat {
    if name in quiet then quiet[name] else 0
  }

  function StageOf(f: Fleet, quiet: map<string, nat>, name: string): Stage {
    Stage(Count(f, name), QuietOf(quiet, name))
  }

  class QueueAutoscaler {
    const fleet: WorkerFleet
    const specs: map<string, WorkerSpec>
    const policies: seq<Policy>
    const quietTicks: int
    var quiet: map<string, nat>

    constructor (fleet: WorkerFleet, specs: map<string, WorkerSpec>, policies: seq<Policy>, quietTicks: int := 3)
      ensures this.fleet == fleet && this.specs == specs && this.policies == policies
      ensures this.quietTicks == quietTicks && quiet == map[]
    {
      this.fleet, this.specs, this.policies, this.quietTicks, quiet := fleet, specs, policies, quietTicks, map[];
    }

    /** Every policy names a stage the fleet has, and divides by a positive number. */
    ghost predicate Valid()
      reads this, fleet
    {
      && fleet.live.Keys == fleet.counter.Keys == specs.Keys
      && forall k :: 0 <= k < |policies| ==> policies[k].service in specs && policies[k].perWorker > 0
    }

    /** One stage takes one step; no other stage changes and no process is lost. */
    method Apply(p: Policy, depths: map<string, nat>, now: real)
      requires Valid() && p.service in specs && p.perWorker > 0
      modifies this`quiet, fleet
      ensures Valid() && (old(Conserved(fleet.View())) ==> Conserved(fleet.View()))
      ensures StageOf(fleet.View(), quiet, p.service) ==
                var before := old(StageOf(fleet.View(), quiet, p.service));
                if !Scalable(specs[p.service]) then before
                else StageStep(before, Desired(Backlog(p.queues, depths), p.perWorker, specs[p.service]), quietTicks)
      ensures forall other :: other != p.service ==>
                StageOf(fleet.View(), quiet, other) == old(StageOf(fleet.View(), quiet, other))
      ensures old(fleet.draining) <= fleet.draining && fleet.reaped == old(fleet.reaped)
    {
      var spec := specs[p.service];
      if !Scalable(spec) {
        return;
      }
      ghost var before := fleet.View();
      var current := |fleet.live[p.service]|;
      var desired := Desired(Backlog(p.queues, depths), p.perWorker, spec);
      if desired > current {
        quiet := quiet[p.service := 0];
        ScaledToTarget(before, p.service, desired, now);
        fleet.ScaleTo(p.service, desired, now);
      } else if desired < current {
        var q := QuietOf(quiet, p.service) + 1;
        quiet := quiet[p.service := q];
        if q >= quietTicks {
          quiet := quiet[p.service := 0];
          ScaledToTarget(before, p.service, current - 1, now);
          fleet.ScaleTo(p.service, current - 1, now);
        }
      } else {
        quiet := quiet[p.service := 0];
      }
    }

    /** Every policy's stage takes one step against the same depths. */
    method Tick(depths: map<string, nat>, exited: set<Replica>, now: real)
      requires Valid()
      modifies this`quiet, fleet
      ensures Valid() && (old(Conserved(fleet.View())) ==> Conserved(fleet.View()))
      ensures forall name :: StageOf(fleet.View(), quiet, name) ==
                Stepped(old(StageOf(fleet.View(), quiet, name)), name, specs, policies, depths, quietTicks)
      ensures fleet.reaped == old(fleet.reaped) + Gone(old(fleet.draining), exited, now)
      ensures StillGoing(old(fleet.draining), exited, now) <= fleet.draining
    {
      ghost var before := fleet.View();
      if Conserved(before) {
        ReapConserves(before, exited, now);
      }
      fleet.ReapDrained(exited, now);
      for k := 0 to |policies|
        invariant Valid() && (Conserved(before) ==> Conserved(fleet.View()))
        invariant fleet.reaped == before.reaped + Gone(before.draining, exited, now)
        invariant StillGoing(before.draining, exited, now) <= fleet.draining
        invariant forall name ::
          Stepped(StageOf(fleet.View(), quiet, name), name, specs, policies[k..], depths, quietTicks) ==
            Stepped(old(StageOf(fleet.View(), quiet, name)), name, specs, policies, depths, quietTicks)
      {
        ghost var last, was := fleet.View(), quiet;
        Apply(policies[k], depths, now);
        forall name
          ensures Stepped(StageOf(fleet.View(), quiet, name), name, specs, policies[k + 1..], depths, quietTicks) ==
                  Stepped(StageOf(last, was, name), name, specs, policies[k..], depths, quietTicks)
        {
          SteppedOnce(StageOf(last, was, name), name, specs, policies, k, depths, quietTicks);
          assert StageOf(fleet.View(), quiet, name) ==
                 PolicyStep(StageOf(last, was, name), name, specs, policies[k], depths, quietTicks);
        }
      }
    }
  }

  /** What the policies in turn make of one stage. */
  function Stepped(
    s: Stage, name: string, specs: map<string, WorkerSpec>, policies: seq<Policy>, depths: map<string, nat>,
    quietTicks: int): Stage
    decreases policies
  {
    if policies == [] then s
    else
      Stepped(PolicyStep(s, name, specs, policies[0], depths, quietTicks), name, specs, policies[1..], depths, quietTicks)
  }

  /** What one policy makes of one stage. */
  function PolicyStep(
    s: Stage, name: string, specs: map<string, WorkerSpec>, p: Policy, depths: map<string, nat>, quietTicks: int): Stage
  {
    if p.service == name && name in specs && p.perWorker > 0 && Scalable(specs[name]) then
      StageStep(s, Desired(Backlog(p.queues, depths), p.perWorker, specs[name]), quietTicks)
    else s
  }

  lemma {:induction false} SteppedOnce(
    s: Stage, name: string, specs: map<string, WorkerSpec>, policies: seq<Policy>, k: nat, depths: map<string, nat>,
    quietTicks: int)
    requires k < |policies|
    ensures Stepped(s, name, specs, policies[k..], depths, quietTicks) ==
              Stepped(PolicyStep(s, name, specs, policies[k], depths, quietTicks), name, specs, policies[k + 1..], depths,
                      quietTicks)
  {
    assert policies[k..][1..] == policies[k + 1..];
  }
}

/** Hysteresis and convergence of one stage. */
module AutoscalerLaws {
  import opened Autoscaler

  lemma {:induction false} Product(a: int, b: int, q: nat)
    ensures a <= b ==> a * q <= b * q
    ensures (a + 1) * q == a * q + q
  {
  }

  /** The target is the smallest number of workers that absorbs the backlog, within the bounds. */
  lemma {:induction false} WantedIsCeiling(backlog: nat, perWorker: nat)
    requires perWorker > 0
    ensures Wanted(backlog, perWorker) * perWorker >= backlog
    ensures forall n: nat :: n * perWorker >= backlog ==> n >= Wanted(backlog, perWorker)
  {
    var w := Wanted(backlog, perWorker);
    var x := backlog + perWorker - 1;
    assert x == w * perWorker + x % perWorker;
    forall n: nat | n * perWorker >= backlog
      ensures n >= w
    {
      Product(n + 1, w, perWorker);
      Product(n, n, perWorker);
    }
  }

  /** The stage after some ticks, given the target of each. */
  function Run(s: Stage, targets: seq<nat>, quietTicks: int): Stage
    decreases |targets|
  {
    if targets == [] then s
    else StageStep(Run(s, targets[..|targets| - 1], quietTicks), targets[|targets| - 1], quietTicks)
  }

  predicate WithinBounds(targets: seq<nat>, min: nat, max: nat) {
    forall k :: 0 <= k < |targets| ==> min <= targets[k] <= max
  }

  /** Counts stay within the bounds the targets keep to. */
  lemma {:induction false} CountsStayBounded(s: Stage, targets: seq<nat>, quietTicks: int, min: nat, max: nat)
    requires min <= s.count <= max && WithinBounds(targets, min, max)
    ensures min <= Run(s, targets, quietTicks).count <= max
    decreases |targets|
  {
    if targets != [] {
      CountsStayBounded(s, targets[..|targets| - 1], quietTicks, min, max);
    }
  }

  /** The targets of a stage over ticks that find these backlogs. */
  function TargetsFor(backlogs: seq<nat>, perWorker: nat, spec: WorkerSpec): seq<nat>
    requires perWorker > 0
  {
    if backlogs == [] then []
    else TargetsFor(backlogs[..|backlogs| - 1], perWorker, spec) + [Desired(backlogs[|backlogs| - 1], perWorker, spec)]
  }

  lemma {:induction false} TargetsWithinBounds(backlogs: seq<nat>, perWorker: nat, spec: WorkerSpec)
    requires perWorker > 0 && spec.minReplicas <= spec.maxReplicas
    ensures WithinBounds(TargetsFor(backlogs, perWorker, spec), spec.minReplicas, spec.maxReplicas)
    decreases backlogs
  {
    if backlogs != [] {
      TargetsWithinBounds(backlogs[..|backlogs| - 1], perWorker, spec);
    }
  }

  /** Whatever the backlogs, a stage that starts within its bounds stays within them. */
  lemma {:induction false} StageStaysBounded(s: Stage, backlogs: seq<nat>, perWorker: nat, spec: WorkerSpec, quietTicks: int)
    requires perWorker > 0 && spec.minReplicas <= s.count <= spec.maxReplicas
    ensures spec.minReplicas <= Run(s, TargetsFor(backlogs, perWorker, spec), quietTicks).count <= spec.maxReplicas
  {
    TargetsWithinBounds(backlogs, perWorker, spec);
    CountsStayBounded(s, TargetsFor(backlogs, perWorker, spec), quietTicks, spec.minReplicas, spec.maxReplicas);
  }

  /** One worker goes only after `quiet_ticks` consecutive ticks whose target was below the count,
      which did not change meanwhile. */
  lemma {:induction false} DropsAfterQuietTicks(s: Stage, targets: seq<nat>, quietTicks: int)
    requires targets != [] && s.quiet == 0
    requires Run(s, targets, quietTicks).count < Run(s, targets[..|targets| - 1], quietTicks).count
    ensures Run(s, targets, quietTicks).count == Run(s, targets[..|targets| - 1], quietTicks).count - 1
    ensures |targets| >= quietTicks
    ensures forall k :: |targets| - quietTicks <= k < |targets| && k >= 0 ==>
              Run(s, targets[..k], quietTicks).count == Run(s, targets, quietTicks).count + 1 > targets[k]
  {
    var before := targets[..|targets| - 1];
    QuietRun(s, before, quietTicks);
    forall k | |targets| - quietTicks <= k < |targets| && k >= 0
      ensures Run(s, targets[..k], quietTicks).count == Run(s, targets, quietTicks).count + 1 > targets[k]
    {
      if k < |before| {
        assert before[..k] == targets[..k] && before[k] == targets[k];
      }
    }
  }

  /** The quiet count is how many ticks running the target has been below this very count. */
  lemma {:induction false} QuietRun(s: Stage, targets: seq<nat>, quietTicks: int)
    requires s.quiet == 0
    ensures var t := Run(s, targets, quietTicks);
            && t.quiet <= |targets|
            && forall k :: |targets| - t.quiet <= k < |targets| ==>
                 Run(s, targets[..k], quietTicks).count == t.count > targets[k]
    decreases |targets|
  {
    if targets != [] {
      var before, t := targets[..|targets| - 1], Run(s, targets, quietTicks);
      QuietRun(s, before, quietTicks);
      forall k | |targets| - t.quiet <= k < |targets|
        ensures Run(s, targets[..k], quietTicks).count == t.count > targets[k]
      {
        if k < |before| {
          assert before[..k] == targets[..k] && before[k] == targets[k];
        } else {
          assert targets[..k] == before;
        }
      }
    }
  }

  function Constantly(target: nat, ticks: nat): (targets: seq<nat>)
    ensures |targets| == ticks
  {
    if ticks == 0 then [] else Constantly(target, ticks - 1) + [target]
  }

  /** A tick below the target reaches it at once, and it then stays. */
  lemma {:induction false} ScalesUpAtOnce(s: Stage, target: nat, ticks: nat, quietTicks: int)
    requires s.count < target && ticks > 0
    ensures Run(s, Constantly(target, ticks), quietTicks) == Stage(target, 0)
    decreases ticks
  {
    var now := Constantly(target, ticks);
    assert now[..ticks - 1] == Constantly(target, ticks - 1);
    if ticks > 1 {
      ScalesUpAtOnce(s, target, ticks - 1, quietTicks);
    }
  }

  lemma {:induction false} RunFollows(s: Stage, target: nat, ticks: nat, quietTicks: int, path: nat -> Stage)
    requires path(0) == s && forall t: nat :: path(t + 1) == StageStep(path(t), target, quietTicks)
    ensures Run(s, Constantly(target, ticks), quietTicks) == path(ticks)
    decreases ticks
  {
    if ticks > 0 {
      var now := Constantly(target, ticks);
      assert now[..ticks - 1] == Constantly(target, ticks - 1);
      RunFollows(s, target, ticks - 1, quietTicks, path);
      assert path(ticks - 1 + 1) == StageStep(path(ticks - 1), target, quietTicks);
    }
  }

  /** Where a stage `periods` above its target is after `x` quiet ticks. */
  function Descent(target: nat, periods: nat, x: nat, quietTicks: nat): Stage
    requires quietTicks > 0
  {
    if x < periods * quietTicks && x / quietTicks <= periods then
      Stage(target + periods - x / quietTicks, x % quietTicks)
    else Stage(target, 0)
  }

  lemma {:induction false} RunIsDescent(s: Stage, target: nat, ticks: nat, quietTicks: nat)
    requires s.count > target && s.quiet < quietTicks
    ensures Run(s, Constantly(target, ticks), quietTicks) ==
              Descent(target, s.count - target, s.quiet + ticks, quietTicks)
  {
    var periods := s.count - target;
    var path := (t: nat) => Descent(target, periods, s.quiet + t, quietTicks);
    Product(1, periods, quietTicks);
    Product(0, 0, quietTicks);
    Quotient(s.quiet, 0, s.quiet, quietTicks);
    forall t: nat
      ensures path(t + 1) == StageStep(path(t), target, quietTicks)
    {
      DescentSteps(target, periods, s.quiet + t, quietTicks);
    }
    RunFollows(s, target, ticks, quietTicks, path);
  }

  lemma {:induction false} DescentMeans(target: nat, periods: nat, x: nat, quietTicks: nat)
    requires quietTicks > 0
    ensures x < periods * quietTicks ==> x / quietTicks < periods
    ensures x < periods * quietTicks ==>
              Descent(target, periods, x, quietTicks) == Stage(target + periods - x / quietTicks, x % quietTicks)
    ensures x >= periods * quietTicks ==> Descent(target, periods, x, quietTicks) == Stage(target, 0)
  {
    BelowTarget(x, periods, quietTicks);
  }

  /** The whole way down under a constant target: the count after any number of ticks, exactly. A
      stage at `c` reaches `d < c` after (c - d) * quiet_ticks - q ticks, q being the quiet ticks it
      had accrued, not one tick earlier, and stays there. */
  lemma {:induction false} ScalesDownExactly(s: Stage, target: nat, ticks: nat, quietTicks: nat)
    requires s.count > target && s.quiet < quietTicks
    ensures var done := (s.count - target) * quietTicks - s.quiet;
            var t := Run(s, Constantly(target, ticks), quietTicks);
            && (ticks < done ==> t.count == s.count - (s.quiet + ticks) / quietTicks > target)
            && (ticks >= done ==> t == Stage(target, 0))
  {
    RunIsDescent(s, target, ticks, quietTicks);
    DescentMeans(target, s.count - target, s.quiet + ticks, quietTicks);
  }

  lemma {:induction false} DescentSteps(target: nat, periods: nat, x: nat, quietTicks: nat)
    requires quietTicks > 0
    ensures Descent(target, periods, x + 1, quietTicks) == StageStep(Descent(target, periods, x, quietTicks), target, quietTicks)
  {
    BelowTarget(x, periods, quietTicks);
    BelowTarget(x + 1, periods, quietTicks);
    if x < periods * quietTicks {
      TickDown(Descent(target, periods, x, quietTicks), target, x, periods, quietTicks);
    }
  }

  /** One quiet tick of the way down. */
  lemma {:induction false} TickDown(before: Stage, target: nat, x: nat, periods: nat, quietTicks: nat)
    requires quietTicks > 0 && x / quietTicks < periods
    requires before == Stage(target + periods - x / quietTicks, x % quietTicks)
    ensures x + 1 < periods * quietTicks ==>
              StageStep(before, target, quietTicks) ==
                Stage(target + periods - (x + 1) / quietTicks, (x + 1) % quietTicks)
    ensures x + 1 == periods * quietTicks ==> StageStep(before, target, quietTicks) == Stage(target, 0)
  {
    NextDivision(x, quietTicks);
    BelowTarget(x + 1, periods, quietTicks);
  }

  lemma {:induction false} NextDivision(x: nat, q: nat)
    requires q > 0
    ensures (x + 1) / q == if x % q + 1 == q then x / q + 1 else x / q
    ensures (x + 1) % q == if x % q + 1 == q then 0 else x % q + 1
  {
    var d, m := x / q, x % q;
    assert x == d * q + m;
    if m + 1 == q {
      Product(d, d, q);
      Quotient(x + 1, d + 1, 0, q);
    } else {
      Quotient(x + 1, d, m + 1, q);
    }
  }

  lemma {:induction false} Quotient(x: nat, d: nat, m: nat, q: nat)
    requires m < q && x == d * q + m
    ensures x / q == d && x % q == m
  {
    var e, n := x / q, x % q;
    assert x == e * q + n;
    Product(e + 1, d, q);
    Product(d + 1, e, q);
    Product(e, e, q);
    Product(d, d, q);
    assert e == d;
  }

  /** Below `n` whole periods exactly when the quotient is below `n`. */
  lemma {:induction false} BelowTarget(x: nat, n: nat, q: nat)
    requires q > 0
    ensures x < n * q <==> x / q < n
    ensures x == n * q ==> x / q == n && x % q == 0
  {
    var d, m := x / q, x % q;
    assert x == d * q + m;
    Product(d + 1, n, q);
    Product(n, d, q);
    Product(d, d, q);
    if x == n * q {
      Quotient(x, n, 0, q);
    }
  }

  /** A `quiet_ticks` of zero or less acts as one. */
  lemma {:induction false} QuietTicksActAsOne(s: Stage, targets: seq<nat>, quietTicks: int)
    requires quietTicks <= 1
    ensures Run(s, targets, quietTicks) == Run(s, targets, 1)
    decreases |targets|
  {
    if targets != [] {
      QuietTicksActAsOne(s, targets[..|targets| - 1], quietTicks);
    }
  }

  // ---- the backlog --------------------------------------------------------------------------------------

  function DepthOf(depths: map<string, nat>, queue: string): nat {
    if queue in depths then depths[queue] else 0
  }

  /** The backlog of a stage is the sum over its queues, in whatever order they are listed. */
  lemma {:induction false} BacklogAdds(a: seq<string>, b: seq<string>, depths: map<string, nat>)
    ensures Backlog(a + b, depths) == Backlog(a, depths) + Backlog(b, depths)
    ensures forall q :: Backlog([q], depths) == DepthOf(depths, q)
    decreases a
  {
    assert forall q: string :: [q][1..] == [];
    if a == [] {
      assert a + b == b;
    } else {
      assert (a + b)[1..] == a[1..] + b;
      BacklogAdds(a[1..], b, depths);
    }
  }

  /** A stage whose limits leave no room is never scaled. */
  lemma {:induction false} FixedStageStays(
    s: Stage, name: string, specs: map<string, WorkerSpec>, policies: seq<Policy>, depths: map<string, nat>, quietTicks: int)
    requires name in specs && specs[name].maxReplicas <= specs[name].minReplicas
    ensures Stepped(s, name, specs, policies, depths, quietTicks) == s
    decreases policies
  {
    if policies != [] {
      FixedStageStays(s, name, specs, policies[1..], depths, quietTicks);
    }
  }
}
