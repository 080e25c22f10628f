/** The controller bank: six loops, each driving one valve. */
module ControllerBank {
  import opened Pid

  datatype Tag = ReactorT | ReactorP | ReactorLevel | SeparatorP | SeparatorLevel | StripperLevel

  datatype Valve =
    | DFeed | EFeed | AFeed | AcFeed | CompRecycle | Purge | SepLiqOut | StripLiqIn | StripSteam
    | ReactorCool | CondCool | ProductSplit

  function Nominal(v: Valve): real {
    match v
    case DFeed => 63.053
    case EFeed => 53.980
    case AFeed => 51.130
    case AcFeed => 50.390
    case CompRecycle => 50.0
    case Purge => 22.210
    case SepLiqOut => 30.640
    case StripLiqIn => 47.0
    case StripSteam => 45.0
    case ReactorCool => 50.0
    case CondCool => 47.446
    case ProductSplit => 40.0
  }

  function ValveOf(t: Tag): Valve {
    match t
    case ReactorT => ReactorCool
    case ReactorP => Purge
    case ReactorLevel => DFeed
    case SeparatorP => CompRecycle
    case SeparatorLevel => SepLiqOut
    case StripperLevel => StripLiqIn
  }

  function Tuned(t: Tag): Loop {
    match t
    case ReactorT => Loop(122.9, 0.5, 0.05, 0.0, 0.0, 100.0, 1.0, 0.0, 0.0)
    case ReactorP => Loop(2705.0, 0.3, 0.02, 0.0, 0.0, 100.0, 1.0, 0.0, 0.0)
    case ReactorLevel => Loop(75.0, 1.0, 0.1, 0.0, 0.0, 100.0, 1.0, 0.0, 0.0)
    case SeparatorP => Loop(2633.7, 0.2, 0.01, 0.0, 0.0, 100.0, 1.0, 0.0, 0.0)
    case SeparatorLevel => Loop(50.0, 1.0, 0.1, 0.0, 0.0, 100.0, 1.0, 0.0, 0.0)
    case StripperLevel => Loop(50.0, 1.0, 0.1, 0.0, 0.0, 100.0, 1.0, 0.0, 0.0)
  }

  /** The bank: loops and valves, the sensor biases and PID degradations in force, and whether the
      reactor coolant valve is stuck. */
  datatype Bank = Bank(
    loops: map<Tag, Loop>, mv: map<Valve, real>, bias: map<Tag, real>, degrade: map<Tag, real>, coolStuck: bool)

  /** Every loop keeps its tuning, but for the gain that degradation changes. */
  predicate Built(b: Bank) {
    && (forall t: Tag :: t in b.loops && Retuned(b.loops[t], Tuned(t)))
    && forall v: Valve :: v in b.mv
  }

  predicate Retuned(p: Loop, q: Loop) {
    p == q.(kp := p.kp, integral := p.integral, prevError := p.prevError)
  }

  function BiasOf(bias: map<Tag, real>, t: Tag): real {
    if t in bias then bias[t] else 0.0
  }

  /** One loop of `step`. Only the reactor temperature loop is retuned by a degradation, and only its
      valve can be stuck. */
  function LoopStep(b: Bank, state: map<Tag, real>, t: Tag): (c: Bank)
    requires Built(b)
    ensures Built(c)
  {
    if t !in state then b
    else
      var factor := if t in b.degrade then b.degrade[t] else 1.0;
      var tuned := if t == ReactorT then b.loops[t].(kp := 0.5 * factor) else b.loops[t];
      var (next, out) := Compute(tuned, state[t] + BiasOf(b.bias, t));
      b.(loops := b.loops[t := next], mv := if t == ReactorT && b.coolStuck then b.mv else b.mv[ValveOf(t) := out])
  }

  function StepFrom(b: Bank, state: map<Tag, real>, order: seq<Tag>): (c: Bank)
    requires Built(b)
    ensures Built(c)
    decreases order
  {
    if order == [] then b else StepFrom(LoopStep(b, state, order[0]), state, order[1..])
  }

  const ORDER := [ReactorT, ReactorP, ReactorLevel, SeparatorP, SeparatorLevel, StripperLevel]

  function Step(b: Bank, state: map<Tag, real>): (c: Bank)
    requires Built(b)
    ensures Built(c)
  {
    StepFrom(b, state, ORDER)
  }

  function ResetPids(b: Bank): Bank {
    b.(mv := map v | v in b.mv :: Nominal(v),
       loops := map t | t in b.loops :: Reset(b.loops[t], Nominal(ValveOf(t))))
  }

  /** `clear_faults()` without a tag: every fault goes, and every loop is reset to hold zero. */
  function ClearFaults(b: Bank): Bank {
    Bank(map t | t in b.loops :: Reset(b.loops[t], 0.0), b.mv, map[], map[], false)
  }

  class TepControllerBank {
    var loops: map<Tag, Loop>
    var mv: map<Valve, real>
    var bias: map<Tag, real>
    var degrade: map<Tag, real>
    var coolStuck: bool

    constructor ()
      ensures Built(View()) && View().bias == map[] && !View().coolStuck
      ensures forall v: Valve :: mv[v] == Nominal(v)
      ensures forall t: Tag :: loops[t] == Reset(Tuned(t), Nominal(ValveOf(t)))
    {
      loops := map t: Tag | true :: Tuned(t);
      mv := map v: Valve | true :: Nominal(v);
      bias, degrade, coolStuck := map[], map[], false;
      new;
      ResetAll();
    }

    function View(): Bank
      reads this
    {
      Bank(loops, mv, bias, degrade, coolStuck)
    }

    /** One of the six blocks of `step`. */
    method RunLoop(state: map<Tag, real>, t: Tag)
      requires Built(View())
      modifies this`loops, this`mv
      ensures View() == LoopStep(old(View()), state, t)
    {
      if t in state {
        var pid := loops[t];
        if t == ReactorT {
          pid := pid.(kp := 0.5 * if t in degrade then degrade[t] else 1.0);
        }
        var (next, out) := Compute(pid, state[t] + BiasOf(bias, t));
        loops := loops[t := next];
        if t != ReactorT || !coolStuck {
          mv := mv[ValveOf(t) := out];
        }
      }
    }

    method RunLoops(state: map<Tag, real>)
      requires Built(View())
      modifies this`loops, this`mv
      ensures Built(View()) && View() == Step(old(View()), state)
    {
      var rest := ORDER;
      while rest != []
        invariant Built(View()) && StepFrom(View(), state, rest) == Step(old(View()), state)
        decreases |rest|
      {
        RunLoop(state, rest[0]);
        rest := rest[1..];
      }
    }

    method ResetAll()
      modifies this`loops, this`mv
      ensures View() == ResetPids(old(View()))
    {
      mv := map v | v in mv :: Nominal(v);
      loops := map t | t in loops :: Reset(loops[t], Nominal(ValveOf(t)));
    }

    method ClearAll()
      modifies this
      ensures View() == ClearFaults(old(View()))
    {
      bias, degrade, coolStuck := map[], map[], false;
      loops := map t | t in loops :: Reset(loops[t], 0.0);
    }
  }

  // ---- holding the valves -----------------------------------------------------------------------------

  /** The loops present in the state sit at their setpoints. */
  predicate AtSetpoint(state: map<Tag, real>) {
    forall t :: t in state ==> state[t] == Tuned(t).setpoint
  }

  /** No sensor bias and no stuck valve, and every loop holds what `hold` says of its valve. */
  predicate Holding(b: Bank, hold: Valve -> real) {
    Built(b) && b.bias == map[] && !b.coolStuck && forall t: Tag :: Holds(b.loops[t], hold(ValveOf(t)))
  }

  lemma {:induction false} LoopStepHolds(b: Bank, state: map<Tag, real>, t: Tag, hold: Valve -> real)
    requires Holding(b, hold) && AtSetpoint(state)
    ensures var c := LoopStep(b, state, t);
            && Holding(c, hold)
            && forall v: Valve :: c.mv[v] == if t in state && v == ValveOf(t) then hold(v) else b.mv[v]
  {
    var c := LoopStep(b, state, t);
    OnlyItsValve(b, state, t);
    forall u: Tag
      ensures Holds(c.loops[u], hold(ValveOf(u)))
      ensures u == t ==> c.mv[ValveOf(t)] == if t in state then hold(ValveOf(t)) else b.mv[ValveOf(t)]
    {
      OneActs(b, state, t, u);
      ActedHolds(b, state, c, u, u == t, hold);
    }
  }

  /** A loop step moves no other valve. */
  lemma {:induction false} OnlyItsValve(b: Bank, state: map<Tag, real>, t: Tag)
    requires Built(b)
    ensures forall v: Valve :: v != ValveOf(t) ==> LoopStep(b, state, t).mv[v] == b.mv[v]
    ensures LoopStep(b, state, t).bias == b.bias && LoopStep(b, state, t).coolStuck == b.coolStuck
  {
  }

  /** A loop at its setpoint goes on holding its valve, with whatever gain. */
  lemma {:induction false} ActedHolds(b: Bank, state: map<Tag, real>, c: Bank, t: Tag, ran: bool, hold: Valve -> real)
    requires Holding(b, hold) && AtSetpoint(state) && Built(c) && Acted(b, state, c, t, ran)
    ensures Holds(c.loops[t], hold(ValveOf(t)))
    ensures c.mv[ValveOf(t)] == if ran && t in state then hold(ValveOf(t)) else b.mv[ValveOf(t)]
  {
    if ran && t in state {
      HoldsOn(Running(b, t), hold(ValveOf(t)));
      assert Sensed(b, state, t) == Running(b, t).setpoint;
    }
  }

  lemma {:induction false} StepHolds(b: Bank, state: map<Tag, real>, order: seq<Tag>, hold: Valve -> real)
    requires Holding(b, hold) && AtSetpoint(state)
    ensures var c := StepFrom(b, state, order);
            && Holding(c, hold)
            && forall v: Valve ::
                 c.mv[v] == if exists t :: t in order && t in state && v == ValveOf(t) then hold(v) else b.mv[v]
    decreases order
  {
    if order != [] {
      LoopStepHolds(b, state, order[0], hold);
      var mid := LoopStep(b, state, order[0]);
      StepHolds(mid, state, order[1..], hold);
      assert order == [order[0]] + order[1..];
    }
  }

  function RunSteps(b: Bank, states: seq<map<Tag, real>>): (c: Bank)
    requires Built(b)
    ensures Built(c)
    decreases states
  {
    if states == [] then b else RunSteps(Step(b, states[0]), states[1..])
  }

  /** After `reset_pids`, any number of steps at setpoint without bias or stuck valve keeps all twelve
      valves at nominal, the six driven ones included. */
  lemma {:induction false} ResetHoldsNominal(b: Bank, states: seq<map<Tag, real>>)
    requires Built(b) && b.bias == map[] && !b.coolStuck
    requires forall k :: 0 <= k < |states| ==> AtSetpoint(states[k])
    ensures Built(ResetPids(b))
    ensures forall v: Valve :: RunSteps(ResetPids(b), states).mv[v] == Nominal(v)
  {
    var c := ResetPids(b);
    forall t: Tag
      ensures Holds(c.loops[t], Nominal(ValveOf(t)))
    {
      ResetIsBumpless(b.loops[t], Nominal(ValveOf(t)));
    }
    NominalRuns(c, states);
  }

  lemma {:induction false} NominalRuns(b: Bank, states: seq<map<Tag, real>>)
    requires Holding(b, Nominal) && forall v: Valve :: b.mv[v] == Nominal(v)
    requires forall k :: 0 <= k < |states| ==> AtSetpoint(states[k])
    ensures forall v: Valve :: RunSteps(b, states).mv[v] == Nominal(v)
    decreases states
  {
    if states != [] {
      StepHolds(b, states[0], ORDER, Nominal);
      NominalRuns(Step(b, states[0]), states[1..]);
    }
  }

  lemma {:induction false} ClearedHoldsZero(b: Bank)
    requires Built(b)
    ensures Holding(ClearFaults(b), (v: Valve) => 0.0)
  {
    var c := ClearFaults(b);
    forall t: Tag
      ensures Holds(c.loops[t], 0.0)
    {
      ResetIsBumpless(b.loops[t], 0.0);
    }
  }

  lemma {:induction false} EveryLoopRuns(t: Tag)
    ensures t in ORDER
  {
    assert ORDER[0] == ReactorT && ORDER[1] == ReactorP && ORDER[2] == ReactorLevel;
    assert ORDER[3] == SeparatorP && ORDER[4] == SeparatorLevel && ORDER[5] == StripperLevel;
  }

  lemma {:induction false} ClearedStep(b: Bank, state: map<Tag, real>, t: Tag)
    requires Built(b) && AtSetpoint(state) && t in state
    ensures Built(ClearFaults(b)) && Step(ClearFaults(b), state).mv[ValveOf(t)] == 0.0
  {
    ClearedHoldsZero(b);
    StepHolds(ClearFaults(b), state, ORDER, (v: Valve) => 0.0);
    EveryLoopRuns(t);
  }

  /** Clearing the faults after a reset undoes the hold: the first step at setpoint shuts every driven
      valve. */
  lemma {:induction false} ClearingFaultsShutsValves(b: Bank, state: map<Tag, real>, t: Tag)
    requires Built(b) && AtSetpoint(state) && t in state
    ensures Built(ResetPids(b)) && Built(ClearFaults(ResetPids(b)))
    ensures Step(ClearFaults(ResetPids(b)), state).mv[ValveOf(t)] == 0.0
  {
    ClearedStep(ResetPids(b), state, t);
  }

  // ---- the loops side by side -----------------------------------------------------------------------------

  /** The measurement a loop gets, and the gain it runs with. */
  function Sensed(b: Bank, state: map<Tag, real>, t: Tag): real
    requires t in state
  {
    if t in b.bias then state[t] + b.bias[t] else state[t]
  }

  function Running(b: Bank, t: Tag): Loop
    requires Built(b)
  {
    if t == ReactorT then b.loops[t].(kp := 0.5 * if t in b.degrade then b.degrade[t] else 1.0) else b.loops[t]
  }

  lemma {:induction false} ValvesApart(t: Tag, u: Tag)
    ensures ValveOf(t) == ValveOf(u) ==> t == u
  {
  }

  /** What a step leaves of the loop and the valve of one tag, said from the bank before it. */
  predicate Acted(b: Bank, state: map<Tag, real>, c: Bank, t: Tag, ran: bool)
    requires Built(b) && Built(c)
  {
    if ran && t in state then
      var (next, out) := Compute(Running(b, t), Sensed(b, state, t));
      && c.loops[t] == next
      && c.mv[ValveOf(t)] == if t == ReactorT && b.coolStuck then b.mv[ValveOf(t)] else out
    else c.loops[t] == b.loops[t] && c.mv[ValveOf(t)] == b.mv[ValveOf(t)]
  }

  predicate SameFaults(b: Bank, c: Bank) {
    b.bias == c.bias && b.degrade == c.degrade && b.coolStuck == c.coolStuck
  }

  lemma {:induction false} OneActs(b: Bank, state: map<Tag, real>, u: Tag, t: Tag)
    requires Built(b)
    ensures var c := LoopStep(b, state, u); Acted(b, state, c, t, t == u) && SameFaults(b, c)
  {
    ValvesApart(t, u);
  }

  predicate NoRepeats(order: seq<Tag>) {
    order != [] ==> order[0] !in order[1..] && NoRepeats(order[1..])
  }

  lemma {:induction false} AllAct(b: Bank, state: map<Tag, real>, order: seq<Tag>, t: Tag)
    requires Built(b) && NoRepeats(order)
    ensures var c := StepFrom(b, state, order); Acted(b, state, c, t, t in order) && SameFaults(b, c)
    decreases order
  {
    if order != [] {
      var mid, c := LoopStep(b, state, order[0]), StepFrom(b, state, order);
      OneActs(b, state, order[0], t);
      AllAct(mid, state, order[1..], t);
      assert order == [order[0]] + order[1..];
      if t == order[0] {
        ThenLeft(b, state, mid, c, t);
      } else {
        LeftThen(b, state, mid, c, t, t in order[1..]);
      }
    }
  }

  /** Acted, and then left alone. */
  lemma {:induction false} ThenLeft(b: Bank, state: map<Tag, real>, mid: Bank, c: Bank, t: Tag)
    requires Built(b) && Built(mid) && Built(c) && Acted(b, state, mid, t, true) && Acted(mid, state, c, t, false)
    ensures Acted(b, state, c, t, true)
  {
  }

  /** Left alone, and then acted. */
  lemma {:induction false} LeftThen(b: Bank, state: map<Tag, real>, mid: Bank, c: Bank, t: Tag, ran: bool)
    requires Built(b) && Built(mid) && Built(c) && SameFaults(b, mid)
    requires Acted(b, state, mid, t, false) && Acted(mid, state, c, t, ran)
    ensures Acted(b, state, c, t, ran)
  {
    assert Running(b, t) == Running(mid, t);
    assert t in state ==> Sensed(b, state, t) == Sensed(mid, state, t);
  }

  /** A step runs each loop once, on its own measurement with its own sensor's bias added, and moves its
      own valve; the reactor coolant valve alone can be stuck, and only its loop is degraded. */
  lemma {:induction false} StepIsParallel(b: Bank, state: map<Tag, real>, t: Tag)
    requires Built(b)
    ensures Acted(b, state, Step(b, state), t, true) && SameFaults(b, Step(b, state))
  {
    EveryLoopRuns(t);
    assert NoRepeats(ORDER) by {
      var none: seq<Tag> := [];
      assert ORDER[1..] == [ReactorP, ReactorLevel, SeparatorP, SeparatorLevel, StripperLevel];
      assert ORDER[1..][1..] == [ReactorLevel, SeparatorP, SeparatorLevel, StripperLevel];
      assert ORDER[1..][1..][1..] == [SeparatorP, SeparatorLevel, StripperLevel];
      assert ORDER[1..][1..][1..][1..] == [SeparatorLevel, StripperLevel];
      assert ORDER[1..][1..][1..][1..][1..] == [StripperLevel];
      assert ORDER[1..][1..][1..][1..][1..][1..] == none;
    }
    AllAct(b, state, ORDER, t);
  }

  /** A biased sensor is a shifted measurement: the bank answers as it would to the true values moved by
      the biases. */
  lemma {:induction false} BiasShifts(b: Bank, state: map<Tag, real>, shifted: map<Tag, real>, t: Tag)
    requires Built(b) && shifted.Keys == state.Keys && forall u :: u in state ==> shifted[u] == state[u] + BiasOf(b.bias, u)
    ensures var c, d := Step(b, state), Step(b.(bias := map[]), shifted);
            c.loops[t] == d.loops[t] && c.mv[ValveOf(t)] == d.mv[ValveOf(t)]
  {
    var a := b.(bias := map[]);
    ShiftedSense(b, state, shifted, t);
    var c, d := Stepped(b, state, t), Stepped(a, shifted, t);
    SameAnswer(b, state, c, a, shifted, d, t);
  }

  lemma {:induction false} ShiftedSense(b: Bank, state: map<Tag, real>, shifted: map<Tag, real>, t: Tag)
    requires shifted.Keys == state.Keys && forall u :: u in state ==> shifted[u] == state[u] + BiasOf(b.bias, u)
    ensures t in state <==> t in shifted
    ensures t in state ==> Sensed(b, state, t) == Sensed(b.(bias := map[]), shifted, t)
  {
    assert t in state.Keys <==> t in shifted.Keys;
  }

  /** The step, with what it did to one tag. */
  function Stepped(b: Bank, state: map<Tag, real>, t: Tag): (c: Bank)
    requires Built(b)
    ensures Built(c) && c == Step(b, state) && Acted(b, state, c, t, true)
  {
    StepIsParallel(b, state, t);
    Step(b, state)
  }

  lemma {:induction false} SameAnswer(
    b: Bank, state: map<Tag, real>, c: Bank, a: Bank, shifted: map<Tag, real>, d: Bank, t: Tag)
    requires Built(a) && Built(b) && Built(c) && Built(d) && (t in state <==> t in shifted)
    requires a.loops == b.loops && a.mv == b.mv && a.degrade == b.degrade && a.coolStuck == b.coolStuck
    requires t in state ==> Sensed(b, state, t) == Sensed(a, shifted, t)
    requires Acted(b, state, c, t, true) && Acted(a, shifted, d, t, true)
    ensures c.loops[t] == d.loops[t] && c.mv[ValveOf(t)] == d.mv[ValveOf(t)]
  {
    assert Running(b, t) == Running(a, t);
  }

  lemma {:induction false} UndrivenFrom(b: Bank, state: map<Tag, real>, order: seq<Tag>, v: Valve)
    requires Built(b) && forall t: Tag :: ValveOf(t) != v
    ensures StepFrom(b, state, order).mv[v] == b.mv[v]
    decreases order
  {
    if order != [] {
      OnlyItsValve(b, state, order[0]);
      UndrivenFrom(LoopStep(b, state, order[0]), state, order[1..], v);
    }
  }

  /** A valve that no loop drives never moves. */
  lemma {:induction false} UndrivenStay(b: Bank, state: map<Tag, real>, v: Valve)
    requires Built(b) && forall t: Tag :: ValveOf(t) != v
    ensures Step(b, state).mv[v] == b.mv[v]
  {
    UndrivenFrom(b, state, ORDER, v);
  }

  /** Clearing the faults leaves none, whatever they were, and touches no valve: the next step runs the
      reactor temperature loop at its full gain and senses the true values. */
  lemma {:induction false} ClearingForgetsFaults(b: Bank, bias: map<Tag, real>, degrade: map<Tag, real>, stuck: bool, state: map<Tag, real>, t: Tag)
    requires Built(b)
    ensures ClearFaults(b.(bias := bias, degrade := degrade, coolStuck := stuck)) == ClearFaults(b)
    ensures Built(ClearFaults(b)) && ClearFaults(b).mv == b.mv && !ClearFaults(b).coolStuck
    ensures Running(ClearFaults(b), ReactorT).kp == 0.5
    ensures t in state ==> Sensed(ClearFaults(b), state, t) == state[t]
  {
  }
}
