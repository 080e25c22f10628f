/** The diagnostics runtime: a single armed slot and a cooldown turn bursts of alarms and anomalies
    into one diagnosis each. */
module Diagnostics {
  import opened Wrappers

  datatype Episode = Episode(onset: real, readyAt: real, tag: string, level: string)

  datatype Diagnosed = Diagnosed(episode: Episode, start: real)

  /** What happens to the runtime, with the clock readings taken: an alarm of the stream (its own
      timestamp None if missing or unparsable), an event of the anomaly detector, and the flush at
      the end of a tick, which reads the clock to test and again to set the cooldown. */
  datatype Event =
    | Alarm(live: bool, tag: string, level: string, stamp: Option<real>, now: real)
    | Anomaly(onset: real, tag: string, now: real)
    | Flush(check: real, start: real)

  datatype State = State(pending: Option<Episode>, cooldownUntil: real, diagnosed: seq<Diagnosed>)

  const FLUSH_MARGIN_S := 6.0
  const START := State(None, 0.0, [])

  // ---- specification ------------------------------------------------------------------------------

  /** The episode an alarm or an anomaly arms. */
  function Armed(afterS: real, s: State, e: Event): Option<Episode> {
    if e.Flush? || (e.Alarm? && !e.live) || s.pending.Some? || e.now < s.cooldownUntil then None
    else
      var onset := if e.Anomaly? then e.onset else if e.stamp.Some? then e.stamp.value else e.now;
      Some(Episode(onset, onset + afterS + FLUSH_MARGIN_S, e.tag, if e.Anomaly? then "ML_ANOMALY" else e.level))
  }

  predicate Ready(s: State, e: Event) {
    s.pending.Some? && e.Flush? && e.check >= s.pending.value.readyAt
  }

  function Step(afterS: real, cooldownS: real, s: State, e: Event): State {
    if Ready(s, e) then State(None, e.start + cooldownS, s.diagnosed + [Diagnosed(s.pending.value, e.start)])
    else if Armed(afterS, s, e).Some? then s.(pending := Armed(afterS, s, e))
    else s
  }

  // ---- the runtime --------------------------------------------------------------------------------

  class DiagnosticsRuntime {
    const afterS: real
    const cooldownS: real
    var pending: Option<Episode>
    var cooldownUntil: real
    /** The episodes handed to the diagnostician, with the clock reading taken at that moment. */
    var diagnosed: seq<Diagnosed>

    constructor (afterS: real := 120.0, cooldownS: real := 300.0)
      ensures this.afterS == afterS && this.cooldownS == cooldownS && View() == START
    {
      this.afterS, this.cooldownS := afterS, cooldownS;
      pending, cooldownUntil, diagnosed := None, 0.0, [];
    }

    function View(): State
      reads this
    {
      State(pending, cooldownUntil, diagnosed)
    }

    method MaybeArm(live: bool, tag: string, level: string, stamp: Option<real>, now: real)
      modifies this`pending
      ensures View() == Step(afterS, cooldownS, old(View()), Alarm(live, tag, level, stamp, now))
    {
      if !live || pending.Some? || now < cooldownUntil {
        return;
      }
      var onset := if stamp.Some? then stamp.value else now;
      pending := Some(Episode(onset, onset + afterS + FLUSH_MARGIN_S, tag, level));
    }

    method MaybeArmMl(onset: real, tag: string, now: real)
      modifies this`pending
      ensures View() == Step(afterS, cooldownS, old(View()), Anomaly(onset, tag, now))
    {
      if pending.Some? || now < cooldownUntil {
        return;
      }
      pending := Some(Episode(onset, onset + afterS + FLUSH_MARGIN_S, tag, "ML_ANOMALY"));
    }

    method FlushReady(check: real, start: real)
      modifies this
      ensures View() == Step(afterS, cooldownS, old(View()), Flush(check, start))
    {
      if pending.None? || check < pending.value.readyAt {
        return;
      }
      var episode := pending.value;
      pending := None;
      cooldownUntil := start + cooldownS;
      diagnosed := diagnosed + [Diagnosed(episode, start)];
    }
  }
}

/** The diagnostics runtime over whole runs. */
module DiagnosticsLaws {
  import opened Wrappers
  import opened Sequences
  import opened Spacing
  import opened Diagnostics

  function Run(afterS: real, cooldownS: real, s: State, events: seq<Event>): State
    decreases events
  {
    if events == [] then s else Run(afterS, cooldownS, Step(afterS, cooldownS, s, events[0]), events[1..])
  }

  /** The episodes armed in a run, in order. */
  function ArmedIn(afterS: real, cooldownS: real, s: State, events: seq<Event>): seq<Episode>
    decreases events
  {
    if events == [] then []
    else
      var a := Armed(afterS, s, events[0]);
      (if a.Some? then [a.value] else []) + ArmedIn(afterS, cooldownS, Step(afterS, cooldownS, s, events[0]), events[1..])
  }

  function Episodes(ds: seq<Diagnosed>): seq<Episode> {
    if ds == [] then [] else Episodes(ds[..|ds| - 1]) + [ds[|ds| - 1].episode]
  }

  function Starts(ds: seq<Diagnosed>): (r: seq<real>)
    ensures |r| == |ds|
    ensures forall k :: 0 <= k < |ds| ==> r[k] == ds[k].start
  {
    if ds == [] then [] else Starts(ds[..|ds| - 1]) + [ds[|ds| - 1].start]
  }

  function Slot(s: State): seq<Episode> {
    if s.pending.Some? then [s.pending.value] else []
  }

  lemma {:induction false} StepAccounts(afterS: real, cooldownS: real, s: State, e: Event)
    ensures var t, a := Step(afterS, cooldownS, s, e), Armed(afterS, s, e);
            Episodes(t.diagnosed) + Slot(t) == Episodes(s.diagnosed) + Slot(s) + if a.Some? then [a.value] else []
  {
    if Ready(s, e) {
      var t := Step(afterS, cooldownS, s, e);
      assert t.diagnosed[..|s.diagnosed|] == s.diagnosed;
    }
  }

  /** Armed episodes are never overwritten and never diagnosed twice: those diagnosed, in order, and
      then the one in the slot are exactly those armed, in order. */
  lemma {:induction false} EpisodesAreConserved(afterS: real, cooldownS: real, s: State, events: seq<Event>)
    ensures var t := Run(afterS, cooldownS, s, events);
            Episodes(t.diagnosed) + Slot(t) ==
              Episodes(s.diagnosed) + Slot(s) + ArmedIn(afterS, cooldownS, s, events)
    decreases events
  {
    if events != [] {
      var t, a := Step(afterS, cooldownS, s, events[0]), Armed(afterS, s, events[0]);
      StepAccounts(afterS, cooldownS, s, events[0]);
      EpisodesAreConserved(afterS, cooldownS, t, events[1..]);
      ConcatAssociates(Episodes(s.diagnosed) + Slot(s), if a.Some? then [a.value] else [],
                       ArmedIn(afterS, cooldownS, t, events[1..]));
    } else {
      assert Episodes(s.diagnosed) + Slot(s) + [] == Episodes(s.diagnosed) + Slot(s);
    }
  }

  /** The clock readings of an event. */
  function First(e: Event): real { if e.Flush? then e.check else e.now }

  function Last(e: Event): real { if e.Flush? then e.start else e.now }

  /** Readings from `now` on never run backwards. */
  predicate Clocked(events: seq<Event>, now: real) {
    events == [] || (now <= First(events[0]) <= Last(events[0]) && Clocked(events[1..], Last(events[0])))
  }

  /** What every reachable state satisfies at clock reading `now`. */
  predicate Sound(afterS: real, cooldownS: real, s: State, now: real) {
    && Spaced(Starts(s.diagnosed), cooldownS)
    && (forall k :: 0 <= k < |s.diagnosed| ==>
          s.diagnosed[k].start >= s.diagnosed[k].episode.onset + afterS + FLUSH_MARGIN_S)
    && (s.pending.Some? ==> s.pending.value.readyAt == s.pending.value.onset + afterS + FLUSH_MARGIN_S)
    && (s.diagnosed != [] ==>
          var last := s.diagnosed[|s.diagnosed| - 1].start;
          s.cooldownUntil == last + cooldownS && (s.pending.Some? ==> last + cooldownS <= now))
  }

  lemma {:induction false} StepSound(afterS: real, cooldownS: real, s: State, e: Event, now: real)
    requires Sound(afterS, cooldownS, s, now) && now <= First(e) <= Last(e)
    ensures Sound(afterS, cooldownS, Step(afterS, cooldownS, s, e), Last(e))
  {
    if Ready(s, e) {
      var t := Step(afterS, cooldownS, s, e);
      assert t.diagnosed[..|s.diagnosed|] == s.diagnosed;
      SpacedSnoc(Starts(s.diagnosed), e.start, cooldownS);
      assert Starts(t.diagnosed) == Starts(s.diagnosed) + [e.start];
    }
  }

  lemma {:induction false} RunSound(afterS: real, cooldownS: real, s: State, events: seq<Event>, now: real)
    returns (end: real)
    requires Sound(afterS, cooldownS, s, now) && Clocked(events, now)
    ensures Sound(afterS, cooldownS, Run(afterS, cooldownS, s, events), end)
    decreases events
  {
    if events != [] {
      StepSound(afterS, cooldownS, s, events[0], now);
      end := RunSound(afterS, cooldownS, Step(afterS, cooldownS, s, events[0]), events[1..], Last(events[0]));
    } else {
      end := now;
    }
  }

  /** In every run: no diagnosis starts before its reaction window has filled, starts are a cooldown
      apart, and an interval of length `span` holds at most floor(span / cooldown) + 1 of them. */
  lemma {:induction false} DiagnosesAreSpaced(
    afterS: real, cooldownS: real, events: seq<Event>, now: real, i: nat, j: nat, span: real)
    requires Clocked(events, now) && cooldownS > 0.0
    requires i <= j < |Run(afterS, cooldownS, START, events).diagnosed|
    requires var ds := Run(afterS, cooldownS, START, events).diagnosed;
             ds[j].start - ds[i].start <= span
    ensures var ds := Run(afterS, cooldownS, START, events).diagnosed;
            && ds[i].start >= ds[i].episode.onset + afterS + FLUSH_MARGIN_S
            && (i < j ==> ds[i].start + cooldownS <= ds[i + 1].start)
            && j - i + 1 <= (span / cooldownS).Floor + 1
  {
    var end := RunSound(afterS, cooldownS, START, events, now);
    var ds := Run(afterS, cooldownS, START, events).diagnosed;
    var starts := Starts(ds);
    SpacedCount(starts, cooldownS, i, j, span);
    assert i < j ==> starts[i + 1 - 1] + cooldownS <= starts[i + 1];
  }

  predicate NoneReady(s: State, events: seq<Event>) {
    events == [] || (!Ready(s, events[0]) && NoneReady(s, events[1..]))
  }

  /** The armed episode holds the slot, whatever else happens, until the first flush whose clock
      reading has reached its time; that flush diagnoses it. */
  lemma {:induction false} SlotIsHeld(afterS: real, cooldownS: real, s: State, events: seq<Event>, flush: Event)
    requires s.pending.Some? && NoneReady(s, events)
    ensures Run(afterS, cooldownS, s, events) == s
    ensures Ready(s, flush) ==>
              var t := Step(afterS, cooldownS, Run(afterS, cooldownS, s, events), flush);
              t.pending.None? && t.diagnosed == s.diagnosed + [Diagnosed(s.pending.value, flush.start)]
    decreases events
  {
    if events != [] {
      SlotIsHeld(afterS, cooldownS, s, events[1..], flush);
    }
  }

  // ---- when an alarm arms -------------------------------------------------------------------------------

  /** When the runtime is next free to arm: a cooldown after its last diagnosis, or at once. */
  function FreeFrom(cooldownS: real, ds: seq<Diagnosed>): real {
    if ds == [] then 0.0 else ds[|ds| - 1].start + cooldownS
  }

  lemma {:induction false} EpisodesCount(ds: seq<Diagnosed>)
    ensures |Episodes(ds)| == |ds|
    decreases ds
  {
    if ds != [] {
      EpisodesCount(ds[..|ds| - 1]);
    }
  }

  lemma {:induction false} CooldownIsLast(afterS: real, cooldownS: real, s: State, events: seq<Event>)
    requires s.cooldownUntil == FreeFrom(cooldownS, s.diagnosed)
    ensures var t := Run(afterS, cooldownS, s, events); t.cooldownUntil == FreeFrom(cooldownS, t.diagnosed)
    decreases events
  {
    if events != [] {
      CooldownIsLast(afterS, cooldownS, Step(afterS, cooldownS, s, events[0]), events[1..]);
    }
  }

  /** After any run the slot is free exactly when everything armed has been diagnosed, and the cooldown
      ends a cooldown after the last diagnosis. */
  lemma {:induction false} FreeExactlyWhen(afterS: real, cooldownS: real, events: seq<Event>)
    ensures var t := Run(afterS, cooldownS, START, events);
            && (t.pending.None? <==> |ArmedIn(afterS, cooldownS, START, events)| == |t.diagnosed|)
            && t.cooldownUntil == FreeFrom(cooldownS, t.diagnosed)
  {
    var t := Run(afterS, cooldownS, START, events);
    EpisodesAreConserved(afterS, cooldownS, START, events);
    CooldownIsLast(afterS, cooldownS, START, events);
    EpisodesCount(t.diagnosed);
  }

  /** The episode of an alarm or an anomaly: from its own time, or now when it has none, ready when the
      reaction window and the margin have passed. */
  function EpisodeOf(afterS: real, e: Event): Episode
    requires !e.Flush?
  {
    match e
    case Alarm(_, tag, level, stamp, now) =>
      var onset := if stamp.Some? then stamp.value else now;
      Episode(onset, onset + afterS + 6.0, tag, level)
    case Anomaly(onset, tag, _) => Episode(onset, onset + afterS + 6.0, tag, "ML_ANOMALY")
  }

  /** After any run a live alarm, or an anomaly, arms its episode if and only if everything armed has
      been diagnosed and the last diagnosis is a cooldown ago; otherwise nothing changes. */
  lemma {:induction false} ArmsExactlyWhen(afterS: real, cooldownS: real, events: seq<Event>, e: Event)
    requires !e.Flush?
    ensures var t := Run(afterS, cooldownS, START, events);
            var free := |ArmedIn(afterS, cooldownS, START, events)| == |t.diagnosed| && e.now >= FreeFrom(cooldownS, t.diagnosed);
            Step(afterS, cooldownS, t, e) ==
              if free && (e.Alarm? ==> e.live) then t.(pending := Some(EpisodeOf(afterS, e))) else t
  {
    FreeExactlyWhen(afterS, cooldownS, events);
  }

  lemma {:induction false} PendingReady(afterS: real, cooldownS: real, s: State, events: seq<Event>)
    requires s.pending.Some? ==> s.pending.value.readyAt == s.pending.value.onset + afterS + 6.0
    ensures var t := Run(afterS, cooldownS, s, events);
            t.pending.Some? ==> t.pending.value.readyAt == t.pending.value.onset + afterS + 6.0
    decreases events
  {
    if events != [] {
      PendingReady(afterS, cooldownS, Step(afterS, cooldownS, s, events[0]), events[1..]);
    }
  }

  /** After any run a flush diagnoses the episode in the slot if and only if its clock reading has reached
      the onset plus the reaction window and the margin; otherwise nothing changes. */
  lemma {:induction false} DiagnosesExactlyWhen(afterS: real, cooldownS: real, events: seq<Event>, check: real, start: real)
    ensures var t := Run(afterS, cooldownS, START, events);
            Step(afterS, cooldownS, t, Flush(check, start)) ==
              if t.pending.Some? && check >= t.pending.value.onset + afterS + 6.0
              then State(None, start + cooldownS, t.diagnosed + [Diagnosed(t.pending.value, start)])
              else t
  {
    PendingReady(afterS, cooldownS, START, events);
  }
}
