/** The persistence filter of the online anomaly detector, over a bounded window of scores. */
module OnlineDetector {
  import opened Wrappers
  import opened Spacing

  /** What the filter uses of a model's score. */
  datatype Score = Score(ts: real, isAnomaly: bool, trigger: string)

  datatype Anomaly = Anomaly(onset: real, trigger: string, at: real)

  datatype Input = Sample(score: Score) | NewModel

  datatype State = State(history: seq<Score>, lastEventTime: real, events: seq<Anomaly>)

  const START := State([], 0.0, [])

  function Lasts<T>(s: seq<T>, n: nat): (r: seq<T>) {
    if |s| <= n then s else s[|s| - n..]
  }

  predicate AllAnomalous(scores: seq<Score>) {
    forall i :: 0 <= i < |scores| ==> scores[i].isAnomaly
  }

  predicate Persists(history: seq<Score>, persistence: nat) {
    |history| >= persistence && AllAnomalous(Lasts(history, persistence))
  }

  /** One step over a history from which all but the last `window` scores are dropped. */
  function Step(persistence: nat, window: nat, cooldownS: real, s: State, i: Input): State
    requires persistence > 0
  {
    match i
    case NewModel => s.(history := [])
    case Sample(score) =>
      var history := Lasts(s.history + [score], window);
      if score.ts >= s.lastEventTime + cooldownS && Persists(history, persistence) then
        var onset := Lasts(history, persistence)[0].ts;
        State(history, score.ts, s.events + [Anomaly(onset, score.trigger, score.ts)])
      else s.(history := history)
  }

  /** One step that keeps every score since the last model update. */
  function FullStep(persistence: nat, cooldownS: real, s: State, i: Input): State
    requires persistence > 0
  {
    match i
    case NewModel => s.(history := [])
    case Sample(score) =>
      var history := s.history + [score];
      if score.ts >= s.lastEventTime + cooldownS && Persists(history, persistence) then
        State(history, score.ts,
              s.events + [Anomaly(history[|history| - persistence].ts, score.trigger, score.ts)])
      else s.(history := history)
  }

  function Run(persistence: nat, window: nat, cooldownS: real, s: State, inputs: seq<Input>): State
    requires persistence > 0
    decreases inputs
  {
    if inputs == [] then s
    else Run(persistence, window, cooldownS, Step(persistence, window, cooldownS, s, inputs[0]), inputs[1..])
  }

  function FullRun(persistence: nat, cooldownS: real, s: State, inputs: seq<Input>): State
    requires persistence > 0
    decreases inputs
  {
    if inputs == [] then s
    else FullRun(persistence, cooldownS, FullStep(persistence, cooldownS, s, inputs[0]), inputs[1..])
  }

  // ---- the window refines the full history -----------------------------------------------------------

  /** The same state but for the scores the window has dropped. */
  function Windowed(s: State, window: nat): State {
    s.(history := Lasts(s.history, window))
  }

  lemma {:induction false} StepRefines(persistence: nat, window: nat, cooldownS: real, s: State, i: Input)
    requires 0 < persistence <= window
    ensures Step(persistence, window, cooldownS, Windowed(s, window), i) ==
              Windowed(FullStep(persistence, cooldownS, s, i), window)
  {
    if i.Sample? {
      var full := s.history + [i.score];
      assert Lasts(Lasts(s.history, window) + [i.score], window) == Lasts(full, window);
      if |full| >= persistence {
        LastsOfLasts(full, window, persistence);
      }
    }
  }

  /** With `persistence_count <= window_size` the bounded window raises exactly the events, with the
      same onsets, that the full history since the last model update would. */
  lemma {:induction false} WindowRefinesHistory(
    persistence: nat, window: nat, cooldownS: real, s: State, inputs: seq<Input>)
    requires 0 < persistence <= window
    ensures Run(persistence, window, cooldownS, Windowed(s, window), inputs) ==
              Windowed(FullRun(persistence, cooldownS, s, inputs), window)
    decreases inputs
  {
    if inputs != [] {
      StepRefines(persistence, window, cooldownS, s, inputs[0]);
      WindowRefinesHistory(persistence, window, cooldownS,
                           FullStep(persistence, cooldownS, s, inputs[0]), inputs[1..]);
    }
  }

  /** With a larger `persistence_count` no event is ever raised. */
  lemma {:induction false} ShortWindowNeverFires(
    persistence: nat, window: nat, cooldownS: real, s: State, inputs: seq<Input>)
    requires window < persistence
    ensures Run(persistence, window, cooldownS, s, inputs).events == s.events
    decreases inputs
  {
    if inputs != [] {
      ShortWindowNeverFires(persistence, window, cooldownS,
                            Step(persistence, window, cooldownS, s, inputs[0]), inputs[1..]);
    }
  }

  /** The scores since the last model update. */
  function SinceUpdate(inputs: seq<Input>): seq<Score> {
    if inputs == [] then []
    else
      var last := inputs[|inputs| - 1];
      if last.NewModel? then [] else SinceUpdate(inputs[..|inputs| - 1]) + [last.score]
  }

  lemma {:induction false} RunSnoc(
    persistence: nat, window: nat, cooldownS: real, s: State, inputs: seq<Input>, i: Input)
    requires persistence > 0
    ensures Run(persistence, window, cooldownS, s, inputs + [i]) ==
              Step(persistence, window, cooldownS, Run(persistence, window, cooldownS, s, inputs), i)
    decreases inputs
  {
    if inputs == [] {
      assert (inputs + [i])[1..] == [];
    } else {
      assert (inputs + [i])[1..] == inputs[1..] + [i];
      RunSnoc(persistence, window, cooldownS, Step(persistence, window, cooldownS, s, inputs[0]), inputs[1..], i);
    }
  }

  lemma {:induction false} HistoryIsWindow(persistence: nat, window: nat, cooldownS: real, inputs: seq<Input>)
    requires persistence > 0
    ensures Run(persistence, window, cooldownS, START, inputs).history == Lasts(SinceUpdate(inputs), window)
    decreases inputs
  {
    if inputs != [] {
      var before, i := inputs[..|inputs| - 1], inputs[|inputs| - 1];
      assert before + [i] == inputs;
      HistoryIsWindow(persistence, window, cooldownS, before);
      RunSnoc(persistence, window, cooldownS, START, before, i);
      if i.Sample? {
        assert Lasts(Lasts(SinceUpdate(before), window) + [i.score], window) == Lasts(SinceUpdate(inputs), window);
      }
    }
  }

  /** An event is raised at a sample if and only if the sample is out of cooldown and, with it, the
      last `persistence` scores since the last model update are all anomalous; its onset is the
      first of them. */
  lemma {:induction false} FiresExactlyWhen(
    persistence: nat, window: nat, cooldownS: real, inputs: seq<Input>, score: Score)
    requires 0 < persistence <= window
    ensures var before := Run(persistence, window, cooldownS, START, inputs);
            var after := Run(persistence, window, cooldownS, START, inputs + [Sample(score)]);
            var scores := SinceUpdate(inputs) + [score];
            var fires := && score.ts >= before.lastEventTime + cooldownS
                         && |scores| >= persistence
                         && forall k :: |scores| - persistence <= k < |scores| ==> scores[k].isAnomaly;
            after.events ==
              if fires then before.events + [Anomaly(scores[|scores| - persistence].ts, score.trigger, score.ts)]
              else before.events
  {
    var before := Run(persistence, window, cooldownS, START, inputs);
    var scores := SinceUpdate(inputs) + [score];
    RunSnoc(persistence, window, cooldownS, START, inputs, Sample(score));
    HistoryIsWindow(persistence, window, cooldownS, inputs);
    assert Lasts(before.history + [score], window) == Lasts(scores, window);
    if |scores| >= persistence {
      LastsOfLasts(scores, window, persistence);
      AnomalousTail(scores, persistence);
    }
  }

  lemma {:induction false} LastsOfLasts(scores: seq<Score>, window: nat, n: nat)
    requires 0 < n <= window && n <= |scores|
    ensures Lasts(Lasts(scores, window), n) == Lasts(scores, n)
    ensures Lasts(scores, n)[0] == scores[|scores| - n]
  {
  }

  lemma {:induction false} AnomalousTail(scores: seq<Score>, n: nat)
    requires n <= |scores|
    ensures AllAnomalous(Lasts(scores, n)) <==> forall k :: |scores| - n <= k < |scores| ==> scores[k].isAnomaly
  {
    var lasts := Lasts(scores, n);
    assert lasts == scores[|scores| - n..];
    if AllAnomalous(lasts) {
      forall k | |scores| - n <= k < |scores|
        ensures scores[k].isAnomaly
      {
        assert scores[k] == lasts[k - (|scores| - n)];
      }
    }
  }

  // ---- cooldown ---------------------------------------------------------------------------------------

  function Times(events: seq<Anomaly>): (r: seq<real>)
    ensures |r| == |events|
    ensures forall k :: 0 <= k < |events| ==> r[k] == events[k].at
  {
    if events == [] then [] else Times(events[..|events| - 1]) + [events[|events| - 1].at]
  }

  /** Events are a cooldown apart, whatever the timestamps do, and none comes before the first cooldown
      has passed on the samples' own clock. */
  lemma {:induction false} EventsAreSpaced(
    persistence: nat, window: nat, cooldownS: real, s: State, inputs: seq<Input>)
    requires persistence > 0 && Spaced(Times(s.events), cooldownS)
    requires s.lastEventTime == if s.events == [] then 0.0 else s.events[|s.events| - 1].at
    requires s.events != [] ==> s.events[0].at >= cooldownS
    ensures var t := Run(persistence, window, cooldownS, s, inputs);
            Spaced(Times(t.events), cooldownS) && (t.events != [] ==> t.events[0].at >= cooldownS)
    decreases inputs
  {
    if inputs != [] {
      var t := Step(persistence, window, cooldownS, s, inputs[0]);
      if |t.events| > |s.events| {
        assert t.events[..|s.events|] == s.events;
        SpacedSnoc(Times(s.events), inputs[0].score.ts, cooldownS);
      }
      EventsAreSpaced(persistence, window, cooldownS, t, inputs[1..]);
    }
  }

  // ---- the detector -----------------------------------------------------------------------------------

  class OnlinePCADetector {
    const persistence: nat
    const window: nat
    const cooldownS: real
    var history: seq<Score>
    var lastEventTime: real
    ghost var events: seq<Anomaly>

    constructor (persistence: nat := 3, window: nat := 5, cooldownS: real := 300.0)
      requires persistence > 0
      ensures this.persistence == persistence && this.window == window && this.cooldownS == cooldownS
      ensures View() == START
    {
      this.persistence, this.window, this.cooldownS := persistence, window, cooldownS;
      history, lastEventTime, events := [], 0.0, [];
    }

    ghost function View(): State
      reads this
    {
      State(history, lastEventTime, events)
    }

    /** `deque.append` with a maximal length. */
    method Append(score: Score)
      requires |history| <= window
      modifies this`history
      ensures history == Lasts(old(history) + [score], window) && |history| <= window
    {
      history := history + [score];
      if |history| > window {
        history := history[1..];
      }
    }

    method ProcessSample(score: Score) returns (event: Option<Anomaly>)
      requires persistence > 0 && |history| <= window
      modifies this
      ensures |history| <= window
      ensures View() == Step(persistence, window, cooldownS, old(View()), Sample(score))
      ensures events == old(events) + if event.Some? then [event.value] else []
    {
      Append(score);
      if score.ts < lastEventTime + cooldownS {
        return None;
      }
      if |history| >= persistence {
        var lastN := Lasts(history, persistence);
        var all := true;
        for k := 0 to |lastN|
          invariant all <==> AllAnomalous(lastN[..k])
        {
          if !lastN[k].isAnomaly {
            all := false;
          }
          assert lastN[..k + 1] == lastN[..k] + [lastN[k]];
        }
        assert lastN[..|lastN|] == lastN;
        if all {
          lastEventTime := score.ts;
          event := Some(Anomaly(lastN[0].ts, score.trigger, score.ts));
          events := events + [event.value];
          return;
        }
      }
      return None;
    }

    method UpdateModel()
      requires persistence > 0
      modifies this`history
      ensures View() == Step(persistence, window, cooldownS, old(View()), NewModel)
    {
      history := [];
    }
  }
}
