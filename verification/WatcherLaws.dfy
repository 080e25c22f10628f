/** The alarm watcher over whole runs. */
module WatcherLaws {
  import opened Wrappers
  import opened TepWatching

  /** The state before event `k` of a run. */
  function At(s: State, events: seq<Event>, k: nat): State
    requires k <= |events|
    decreases k
  {
    if k == 0 then s else Step(At(s, events, k - 1), events[k - 1])
  }

  predicate Fired(s: State, events: seq<Event>, k: nat, tag: string, level: Level)
    requires k < |events|
  {
    var alert := Fires(At(s, events, k), events[k]);
    alert.Some? && alert.value.tag == tag && alert.value.level == level
  }

  /** Event `k` is a sample of the tag, looked at and found inside its envelope. */
  predicate Inside(s: State, events: seq<Event>, k: nat, tag: string)
    requires k < |events|
  {
    var before := At(s, events, k);
    Counts(before, events[k]) && events[k].tag == tag && LevelOf(before, events[k]).None?
  }

  /** Event `k` is a sample of the tag outside its envelope. */
  predicate Breach(s: State, events: seq<Event>, k: nat, tag: string)
    requires k < |events|
  {
    var before := At(s, events, k);
    Counts(before, events[k]) && events[k].tag == tag && LevelOf(before, events[k]).Some?
  }

  /** Event `k` resets the watcher or fires an alarm of the tag. */
  predicate Stirs(s: State, events: seq<Event>, k: nat, tag: string)
    requires k < |events|
  {
    || events[k].Reset?
    || (Fires(At(s, events, k), events[k]).Some? && events[k].tag == tag)
  }

  /** Between events `i` and `k` the tag neither alarms nor is reset. */
  predicate Quiet(s: State, events: seq<Event>, i: nat, k: nat, tag: string)
    requires k <= |events|
  {
    forall n :: i < n < k ==> !Stirs(s, events, n, tag)
  }

  /** No sample of the tag from `a` to before `b` is outside its envelope. */
  predicate Calm(s: State, events: seq<Event>, a: nat, b: nat, tag: string)
    requires b <= |events|
  {
    forall n :: a <= n < b ==> !Breach(s, events, n, tag)
  }

  /** Samples inside the envelope at `a` and at `b`, half a minute apart, and none outside between. */
  predicate ClearSpell(s: State, events: seq<Event>, a: nat, b: nat, tag: string)
    requires b < |events|
  {
    && a < b && Inside(s, events, a, tag) && Inside(s, events, b, tag) && Calm(s, events, a, b, tag)
    && events[b].at - events[a].at >= DEBOUNCE_S
  }

  /** What is known of a tag at `k` since its alarm at `i`: its alarm is still open, back inside
      since event `a` if it has a clearing time; or it closed after a clear spell `a..b`. */
  predicate Since(s: State, events: seq<Event>, i: nat, k: nat, tag: string, level: Level, a: nat, b: nat)
    requires k <= |events|
  {
    var open := At(s, events, k).open;
    if tag in open then
      && open[tag].level == level
      && (open[tag].clearedAt.Some? ==>
            && i < a < k && Inside(s, events, a, tag) && events[a].at == open[tag].clearedAt.value
            && Calm(s, events, a, k, tag))
    else i < a < b < k && ClearSpell(s, events, a, b, tag)
  }

  lemma {:induction false} SinceHolds(s: State, events: seq<Event>, i: nat, k: nat, tag: string, level: Level)
    returns (a: nat, b: nat)
    requires i < k <= |events| && Fired(s, events, i, tag, level) && Quiet(s, events, i, k, tag)
    ensures Since(s, events, i, k, tag, level, a, b)
    decreases k
  {
    if k == i + 1 {
      a, b := 0, 0;
    } else {
      a, b := SinceHolds(s, events, i, k - 1, tag, level);
      var before, e := At(s, events, k - 1), events[k - 1];
      assert !Stirs(s, events, k - 1, tag);
      if Inside(s, events, k - 1, tag) && tag in before.open {
        if before.open[tag].clearedAt.None? {
          a := k - 1;
        } else {
          b := k - 1;
        }
      }
    }
  }

  /** Two consecutive alarms of one tag at the same level, with no reset between them, are separated
      by a clear spell. */
  lemma {:induction false} RepeatNeedsClearSpell(
    s: State, events: seq<Event>, i: nat, j: nat, tag: string, level: Level) returns (a: nat, b: nat)
    requires i < j < |events| && Fired(s, events, i, tag, level) && Fired(s, events, j, tag, level)
    requires Quiet(s, events, i, j, tag)
    ensures i < a < b < j && ClearSpell(s, events, a, b, tag)
  {
    a, b := SinceHolds(s, events, i, j, tag, level);
  }

  // ---- no alarm is lost --------------------------------------------------------------------------------

  /** An open alarm was fired by some event, and nothing happened to its tag since. */
  lemma {:induction false} OpenWasFired(s: State, events: seq<Event>, k: nat, tag: string) returns (i: nat)
    requires k <= |events| && tag !in s.open && tag in At(s, events, k).open
    ensures i < k && Fired(s, events, i, tag, At(s, events, k).open[tag].level) && Quiet(s, events, i, k, tag)
    decreases k
  {
    var before, e := At(s, events, k - 1), events[k - 1];
    if Fires(before, e).Some? && e.tag == tag {
      i := k - 1;
    } else {
      i := OpenWasFired(s, events, k - 1, tag);
    }
  }

  /** The clock does not run backwards. */
  predicate Forward(events: seq<Event>) {
    forall m, n :: 0 <= m <= n < |events| && events[m].Sample? && events[n].Sample? ==> events[m].at <= events[n].at
  }

  lemma {:induction false} SpellRuns(
    s: State, events: seq<Event>, i: nat, a: nat, n: nat, tag: string, level: Level)
    requires i < a < n <= |events| && Forward(events)
    requires Fired(s, events, i, tag, level) && Quiet(s, events, i, n, tag)
    requires Inside(s, events, a, tag) && Calm(s, events, a, n, tag)
    ensures var open := At(s, events, n).open;
            tag in open ==> open[tag].clearedAt.Some? && open[tag].clearedAt.value <= events[a].at
    decreases n
  {
    if n == a + 1 {
      var since, spell := SinceHolds(s, events, i, a, tag, level);
    } else {
      SpellRuns(s, events, i, a, n - 1, tag, level);
      assert !Breach(s, events, n - 1, tag) && !Stirs(s, events, n - 1, tag);
    }
  }

  lemma {:induction false} StaysClosed(s: State, events: seq<Event>, b: nat, k: nat, tag: string)
    requires b < k <= |events| && tag !in At(s, events, b + 1).open && Quiet(s, events, b, k, tag)
    ensures tag !in At(s, events, k).open
    decreases k
  {
    if b + 1 < k {
      StaysClosed(s, events, b, k - 1, tag);
      assert !Stirs(s, events, k - 1, tag);
    }
  }

  /** A clear spell after an alarm re-arms its tag. */
  lemma {:induction false} ClearSpellRearms(
    s: State, events: seq<Event>, i: nat, a: nat, b: nat, k: nat, tag: string, level: Level)
    requires i < a < b < k <= |events| && Forward(events)
    requires Fired(s, events, i, tag, level) && Quiet(s, events, i, k, tag) && ClearSpell(s, events, a, b, tag)
    ensures tag !in At(s, events, k).open
  {
    SpellRuns(s, events, i, a, b, tag, level);
    StaysClosed(s, events, b, k, tag);
  }

  /** A breach is already announced: the tag's last alarm is at this level, with neither a reset nor
      a clear spell since. */
  ghost predicate Announced(s: State, events: seq<Event>, j: nat, tag: string, level: Level)
    requires j < |events|
  {
    exists i: nat :: i < j && Fired(s, events, i, tag, level) && Quiet(s, events, i, j, tag) && NoSpell(s, events, i, j, tag)
  }

  predicate NoSpell(s: State, events: seq<Event>, i: nat, j: nat, tag: string)
    requires j < |events|
  {
    forall a: nat, b: nat :: i < a < b < j ==> !ClearSpell(s, events, a, b, tag)
  }

  /** A sample outside its envelope alarms exactly when its level is not already announced. */
  lemma {:induction false} AlarmsExactlyWhen(s: State, events: seq<Event>, j: nat, tag: string)
    requires j < |events| && Forward(events) && s.open == map[] && Breach(s, events, j, tag)
    ensures var level := LevelOf(At(s, events, j), events[j]).value;
            Fired(s, events, j, tag, level) <==> !Announced(s, events, j, tag, level)
  {
    var now := At(s, events, j);
    var level := LevelOf(now, events[j]).value;
    if Fired(s, events, j, tag, level) {
      forall i: nat | i < j && Fired(s, events, i, tag, level) && Quiet(s, events, i, j, tag)
        ensures !NoSpell(s, events, i, j, tag)
      {
        var a, b := RepeatNeedsClearSpell(s, events, i, j, tag, level);
      }
    } else {
      var i := OpenWasFired(s, events, j, tag);
      forall a: nat, b: nat | i < a < b < j
        ensures !ClearSpell(s, events, a, b, tag)
      {
        if ClearSpell(s, events, a, b, tag) {
          ClearSpellRearms(s, events, i, a, b, j, tag, level);
          assert false;
        }
      }
      assert NoSpell(s, events, i, j, tag);
    }
  }

  // ---- tags do not disturb each other --------------------------------------------------------------------

  predicate Concerns(e: Event, tag: string) {
    e.Reset? || e.tag == tag
  }

  function Only(events: seq<Event>, tag: string): seq<Event> {
    if events == [] then []
    else (if Concerns(events[0], tag) then [events[0]] else []) + Only(events[1..], tag)
  }

  function Run(s: State, events: seq<Event>): State
    decreases events
  {
    if events == [] then s else Run(Step(s, events[0]), events[1..])
  }

  function AlertsOf(alerts: seq<Alert>, tag: string): seq<Alert> {
    if alerts == [] then []
    else
      var last := alerts[|alerts| - 1];
      AlertsOf(alerts[..|alerts| - 1], tag) + if last.tag == tag then [last] else []
  }

  /** All that concerns one tag. */
  function View(s: State, tag: string): (Option<Envelope>, Option<Alarm>, seq<Alert>) {
    (Lookup(s.envelopes, tag), Lookup(s.open, tag), AlertsOf(s.alerts, tag))
  }

  lemma {:induction false} AlertsSnoc(alerts: seq<Alert>, a: Alert, tag: string)
    ensures AlertsOf(alerts + [a], tag) ==
              if a.tag == tag then AlertsOf(alerts, tag) + [a] else AlertsOf(alerts, tag)
  {
    assert (alerts + [a])[..|alerts|] == alerts;
    assert AlertsOf(alerts, tag) + [] == AlertsOf(alerts, tag);
  }

  lemma {:induction false} OthersUntouched(s: State, e: Event, tag: string)
    requires !Concerns(e, tag)
    ensures View(Step(s, e), tag) == View(s, tag)
  {
    var t := Step(s, e);
    if Fires(s, e).Some? {
      AlertsSnoc(s.alerts, Fires(s, e).value, tag);
    } else {
      assert s.alerts + [] == s.alerts;
    }
  }

  lemma {:induction false} SameView(s: State, t: State, e: Event, tag: string)
    requires View(s, tag) == View(t, tag) && Concerns(e, tag)
    ensures View(Step(s, e), tag) == View(Step(t, e), tag)
  {
    if e.Sample? {
      assert tag in s.envelopes <==> Lookup(s.envelopes, tag).Some?;
      assert tag in t.envelopes <==> Lookup(t.envelopes, tag).Some?;
      assert tag in s.open <==> Lookup(s.open, tag).Some?;
      assert tag in t.open <==> Lookup(t.open, tag).Some?;
      assert Counts(s, e) == Counts(t, e) && Fires(s, e) == Fires(t, e);
      if Fires(s, e).Some? {
        AlertsSnoc(s.alerts, Fires(s, e).value, tag);
        AlertsSnoc(t.alerts, Fires(t, e).value, tag);
      } else {
        assert s.alerts + [] == s.alerts && t.alerts + [] == t.alerts;
      }
    }
  }

  /** A tag's envelope, alarm and alerts depend on its own messages and the resets alone. */
  lemma {:induction false} TagsAreIndependent(s: State, t: State, events: seq<Event>, tag: string)
    requires View(s, tag) == View(t, tag)
    ensures View(Run(s, events), tag) == View(Run(t, Only(events, tag)), tag)
    decreases events
  {
    if events != [] {
      var e, rest := events[0], events[1..];
      if Concerns(e, tag) {
        SameView(s, t, e, tag);
        assert Only(events, tag)[1..] == Only(rest, tag);
        TagsAreIndependent(Step(s, e), Step(t, e), rest, tag);
      } else {
        OthersUntouched(s, e, tag);
        assert Only(events, tag) == Only(rest, tag);
        TagsAreIndependent(Step(s, e), t, rest, tag);
      }
    }
  }

  // ---- levels and alerts --------------------------------------------------------------------------------

  predicate Reaches(limit: Option<real>, value: real) {
    limit.Some? && value >= limit.value
  }

  predicate FallsTo(limit: Option<real>, value: real) {
    limit.Some? && value <= limit.value
  }

  /** The limits of an envelope are in order where they are set. */
  predicate InOrder(env: Envelope) {
    && (env.h.Some? && env.hh.Some? ==> env.h.value <= env.hh.value)
    && (env.ll.Some? && env.l.Some? ==> env.ll.value <= env.l.value)
    && (env.l.Some? && env.h.Some? ==> env.l.value < env.h.value)
    && (env.l.Some? && env.hh.Some? ==> env.l.value < env.hh.value)
    && (env.ll.Some? && env.h.Some? ==> env.ll.value < env.h.value)
    && (env.ll.Some? && env.hh.Some? ==> env.ll.value < env.hh.value)
  }

  /** With limits in order each level is its own stretch of values: the outer levels win over the inner
      ones, and inside all limits there is none. */
  lemma {:induction false} LevelsAreStretches(value: real, env: Envelope)
    requires InOrder(env)
    ensures LevelFor(value, env) == Some(HH) <==> Reaches(env.hh, value)
    ensures LevelFor(value, env) == Some(H) <==> Reaches(env.h, value) && !Reaches(env.hh, value)
    ensures LevelFor(value, env) == Some(L) <==> FallsTo(env.l, value) && !FallsTo(env.ll, value)
    ensures LevelFor(value, env) == Some(LL) <==> FallsTo(env.ll, value)
    ensures LevelFor(value, env) == None <==>
              !Reaches(env.hh, value) && !Reaches(env.h, value) && !FallsTo(env.l, value) && !FallsTo(env.ll, value)
  {
  }

  function Height(level: Option<Level>): int {
    match level
    case Some(HH) => 2
    case Some(H) => 1
    case None => 0
    case Some(L) => -1
    case Some(LL) => -2
  }

  /** A higher value never has a lower level. */
  lemma {:induction false} LevelsRise(a: real, b: real, env: Envelope)
    requires InOrder(env) && a <= b
    ensures Height(LevelFor(a, env)) <= Height(LevelFor(b, env))
  {
  }

  /** The alarms fired before event `k`, in order. */
  function FiredAlerts(s: State, events: seq<Event>, k: nat): seq<Alert>
    requires k <= |events|
    decreases k
  {
    if k == 0 then []
    else
      var alert := Fires(At(s, events, k - 1), events[k - 1]);
      FiredAlerts(s, events, k - 1) + if alert.Some? then [alert.value] else []
  }

  /** What an alarm tells is what the event said. */
  predicate Tells(s: State, e: Event, alert: Alert) {
    && e.Sample? && e.value.Some? && e.tag in s.envelopes
    && alert.tag == e.tag && alert.value == e.value.value && alert.at == e.at
    && LevelFor(e.value.value, s.envelopes[e.tag]) == Some(alert.level)
  }

  /** The alerts of a run are the alarms fired, in order, and each tells the tag, value and time of its
      event and the level the envelope in force gives the value. */
  lemma {:induction false} AlertsTell(s: State, events: seq<Event>, k: nat)
    requires k <= |events|
    ensures At(s, events, k).alerts == s.alerts + FiredAlerts(s, events, k)
    ensures forall n :: 0 <= n < k ==>
              var alert := Fires(At(s, events, n), events[n]);
              alert.Some? ==> Tells(At(s, events, n), events[n], alert.value)
    decreases k
  {
    if k == 0 {
      assert s.alerts + [] == s.alerts;
    } else {
      AlertsTell(s, events, k - 1);
      var before, e := At(s, events, k - 1), events[k - 1];
      var fired := if Fires(before, e).Some? then [Fires(before, e).value] else [];
      assert before.alerts + [] == before.alerts;
      assert Step(before, e).alerts == before.alerts + fired;
      assert (s.alerts + FiredAlerts(s, events, k - 1)) + fired == s.alerts + (FiredAlerts(s, events, k - 1) + fired);
    }
  }

  // ---- the open alarm -----------------------------------------------------------------------------------

  function ValueAt(events: seq<Event>, n: nat): real
    requires n < |events|
  {
    if events[n].Sample? && events[n].value.Some? then events[n].value.value else 0.0
  }

  /** `x` is no farther out than `y` at this level. */
  predicate NoFarther(level: Level, x: real, y: real) {
    if level.HH? || level.H? then x <= y else x >= y
  }

  /** The alarm opened at event `i`, as it stands before event `k`: its peak is the value of breach `p`,
      which no breach since exceeds, and breach `l` is the last one. */
  ghost predicate Accounts(
    s: State, events: seq<Event>, i: nat, k: nat, tag: string, level: Level, alarm: Alarm, p: nat, l: nat)
    requires k <= |events|
  {
    && i < |events| && events[i].Sample? && alarm.firstSeen == events[i].at && alarm.level == level
    && tag in At(s, events, i).envelopes && alarm.env == At(s, events, i).envelopes[tag]
    && i <= p < k && Breach(s, events, p, tag) && alarm.peak == ValueAt(events, p)
    && (forall n :: i <= n < k && Breach(s, events, n, tag) ==> NoFarther(level, ValueAt(events, n), alarm.peak))
    && i <= l < k && Breach(s, events, l, tag) && events[l].Sample? && alarm.lastSeen == events[l].at
    && forall n :: l < n < k ==> !Breach(s, events, n, tag)
  }

  /** An open alarm remembers where and when it began, the farthest excursion since, and the last time
      the tag was seen outside. */
  lemma {:induction false} AlarmRemembers(s: State, events: seq<Event>, i: nat, k: nat, tag: string, level: Level)
    returns (p: nat, l: nat)
    requires i < k <= |events| && Fired(s, events, i, tag, level) && Quiet(s, events, i, k, tag)
    requires tag in At(s, events, k).open
    ensures Accounts(s, events, i, k, tag, level, At(s, events, k).open[tag], p, l)
    decreases k
  {
    if k == i + 1 {
      p, l := i, i;
    } else {
      var before, e := At(s, events, k - 1), events[k - 1];
      assert !Stirs(s, events, k - 1, tag);
      assert tag in before.open;
      p, l := AlarmRemembers(s, events, i, k - 1, tag, level);
      if Breach(s, events, k - 1, tag) {
        l := k - 1;
        if !NoFarther(level, ValueAt(events, k - 1), before.open[tag].peak) {
          p := k - 1;
        }
      }
    }
  }

  // ---- what is looked at --------------------------------------------------------------------------------

  /** Actuator positions, tags without an envelope and values that do not parse change nothing, and of the
      others every breach counts. */
  lemma {:induction false} IgnoredSamples(s: State, tag: string, value: Option<real>, at: real)
    ensures "MV." <= tag || tag !in s.envelopes || value.None? ==> Step(s, Sample(tag, value, at)) == s
    ensures !("MV." <= tag) && tag in s.envelopes && value.Some? && LevelFor(value.value, s.envelopes[tag]).Some?
            ==> tag in Step(s, Sample(tag, value, at)).open
  {
  }

  predicate GivesLimits(e: Event, tag: string) {
    e.Limits? && e.tag == tag && e.env.Some?
  }

  lemma {:induction false} OneEnvelope(s: State, e: Event, tag: string)
    requires tag != ""
    ensures Lookup(Step(s, e).envelopes, tag) == if GivesLimits(e, tag) then e.env else Lookup(s.envelopes, tag)
  {
  }

  /** Event `i` is the last before `k` to give the tag limits. */
  predicate LastLimits(events: seq<Event>, i: int, k: nat, tag: string)
    requires k <= |events|
  {
    0 <= i < k && GivesLimits(events[i], tag) && forall n :: i < n < k ==> !GivesLimits(events[n], tag)
  }

  /** What one tag's envelope is before each event. */
  predicate Follows(envs: seq<Option<Envelope>>, events: seq<Event>, tag: string) {
    && |envs| == |events| + 1
    && forall n :: 0 <= n < |events| ==> envs[n + 1] == if GivesLimits(events[n], tag) then events[n].env else envs[n]
  }

  lemma {:induction false} LastGiven(envs: seq<Option<Envelope>>, events: seq<Event>, tag: string, i: int, k: nat)
    requires Follows(envs, events, tag) && -1 <= i < k <= |events|
    requires forall n :: i < n < k ==> !GivesLimits(events[n], tag)
    ensures envs[k] == envs[i + 1]
    decreases k
  {
    if i + 1 < k {
      LastGiven(envs, events, tag, i, k - 1);
      assert envs[k - 1 + 1] == envs[k - 1];
    }
  }

  lemma {:induction false} EnvelopesOf(s: State, events: seq<Event>, tag: string) returns (envs: seq<Option<Envelope>>)
    requires tag != ""
    ensures Follows(envs, events, tag)
    ensures forall n :: 0 <= n <= |events| ==> envs[n] == Lookup(At(s, events, n).envelopes, tag)
  {
    envs := seq(|events| + 1, n requires 0 <= n <= |events| => Lookup(At(s, events, n).envelopes, tag));
    forall n | 0 <= n < |events|
      ensures envs[n + 1] == if GivesLimits(events[n], tag) then events[n].env else envs[n]
    {
      OneEnvelope(At(s, events, n), events[n], tag);
    }
  }

  /** The envelope in force is the last one given, or the first there was. */
  lemma {:induction false} EnvelopeInForce(s: State, events: seq<Event>, k: nat, tag: string)
    requires k <= |events| && tag != ""
    ensures forall i :: LastLimits(events, i, k, tag) ==> Lookup(At(s, events, k).envelopes, tag) == events[i].env
    ensures (forall n :: 0 <= n < k ==> !GivesLimits(events[n], tag)) ==>
              Lookup(At(s, events, k).envelopes, tag) == Lookup(s.envelopes, tag)
  {
    var envs := EnvelopesOf(s, events, tag);
    assert envs[0] == Lookup(s.envelopes, tag);
    forall i | LastLimits(events, i, k, tag)
      ensures envs[k] == events[i].env
    {
      LastGiven(envs, events, tag, i, k);
      assert envs[i + 1] == events[i].env;
    }
    if forall n :: 0 <= n < k ==> !GivesLimits(events[n], tag) {
      if k > 0 {
        LastGiven(envs, events, tag, -1, k);
      }
    }
  }
}
