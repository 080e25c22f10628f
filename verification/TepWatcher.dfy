/** The TEP threshold watcher: per-tag alarm state with debounced re-arming. */
module TepWatching {
  import opened Wrappers

  datatype Level = HH | H | L | LL

  datatype Envelope = Envelope(hh: Option<real>, h: Option<real>, l: Option<real>, ll: Option<real>)

  datatype Alarm = Alarm(
    firstSeen: real, lastSeen: real, peak: real, level: Level, env: Envelope, clearedAt: Option<real>)

  datatype Alert = Alert(tag: string, value: real, level: Level, at: real)

  /** A telemetry message (its value None if it does not parse), a simulator reset, or new limits. */
  datatype Event =
    | Sample(tag: string, value: Option<real>, at: real)
    | Reset
    | Limits(tag: string, env: Option<Envelope>)  // None for an empty dict

  datatype State = State(envelopes: map<string, Envelope>, open: map<string, Alarm>, alerts: seq<Alert>)

  const DEBOUNCE_S := 30.0

  function LevelFor(value: real, env: Envelope): Option<Level> {
    if env.hh.Some? && value >= env.hh.value then Some(HH)
    else if env.h.Some? && value >= env.h.value then Some(H)
    else if env.ll.Some? && value <= env.ll.value then Some(LL)
    else if env.l.Some? && value <= env.l.value then Some(L)
    else None
  }

  // ---- specification ------------------------------------------------------------------------------

  /** A sample that is looked at: not an actuator position, with an envelope and a value. */
  predicate Counts(s: State, e: Event) {
    e.Sample? && !("MV." <= e.tag) && e.tag in s.envelopes && e.value.Some?
  }

  function LevelOf(s: State, e: Event): Option<Level>
    requires Counts(s, e)
  {
    LevelFor(e.value.value, s.envelopes[e.tag])
  }

  /** The alert an event fires. */
  function Fires(s: State, e: Event): Option<Alert> {
    if Counts(s, e) && LevelOf(s, e).Some? && !(e.tag in s.open && s.open[e.tag].level == LevelOf(s, e).value)
    then Some(Alert(e.tag, e.value.value, LevelOf(s, e).value, e.at))
    else None
  }

  /** The open alarm of a tag after a counting sample of it. */
  function NextAlarm(current: Option<Alarm>, level: Option<Level>, value: real, env: Envelope, at: real): Option<Alarm> {
    match (level, current)
    case (Some(l), Some(a)) =>
      if a.level != l then Some(Alarm(at, at, value, l, env, None))
      else
        var further := if l.HH? || l.H? then value > a.peak else value < a.peak;
        Some(a.(lastSeen := at, clearedAt := None, peak := if further then value else a.peak))
    case (Some(l), None) => Some(Alarm(at, at, value, l, env, None))
    case (None, None) => None
    case (None, Some(a)) =>
      if a.clearedAt.None? then Some(a.(clearedAt := Some(at)))
      else if at - a.clearedAt.value >= DEBOUNCE_S then None
      else current
  }

  function Lookup<V>(m: map<string, V>, tag: string): Option<V> {
    if tag in m then Some(m[tag]) else None
  }

  function Put(m: map<string, Alarm>, tag: string, a: Option<Alarm>): map<string, Alarm> {
    if a.Some? then m[tag := a.value] else m - {tag}
  }

  function Step(s: State, e: Event): State {
    match e
    case Reset => s.(open := map[])
    case Limits(tag, env) => if tag == "" || env.None? then s else s.(envelopes := s.envelopes[tag := env.value])
    case Sample(tag, value, at) =>
      if !Counts(s, e) then s
      else
        var next := NextAlarm(Lookup(s.open, tag), LevelOf(s, e), value.value, s.envelopes[tag], at);
        State(s.envelopes, Put(s.open, tag, next), s.alerts + if Fires(s, e).Some? then [Fires(s, e).value] else [])
  }

  // ---- the watcher --------------------------------------------------------------------------------

  class TepWatcher {
    var envelopes: map<string, Envelope>
    var open: map<string, Alarm>
    var alerts: seq<Alert>

    constructor (envelopes: map<string, Envelope>)
      ensures View() == State(envelopes, map[], [])
    {
      this.envelopes, open, alerts := envelopes, map[], [];
    }

    function View(): State
      reads this
    {
      State(envelopes, open, alerts)
    }

    method CheckMessage(tag: string, value: Option<real>, now: real)
      modifies this`open, this`alerts
      ensures View() == Step(old(View()), Sample(tag, value, now))
    {
      if "MV." <= tag || tag !in envelopes || value.None? {
        return;
      }
      var env := envelopes[tag];
      var level := LevelFor(value.value, env);
      if level.Some? {
        if tag !in open || open[tag].level != level.value {
          open := open[tag := Alarm(now, now, value.value, level.value, env, None)];
          alerts := alerts + [Alert(tag, value.value, level.value, now)];
          return;
        }
        var alarm := open[tag].(lastSeen := now, clearedAt := None);
        if level.value in {HH, H} && value.value > alarm.peak {
          alarm := alarm.(peak := value.value);
        } else if level.value in {LL, L} && value.value < alarm.peak {
          alarm := alarm.(peak := value.value);
        }
        open := open[tag := alarm];
        return;
      }
      if tag in open {
        var alarm := open[tag];
        if alarm.clearedAt.None? {
          open := open[tag := alarm.(clearedAt := Some(now))];
        } else if now - alarm.clearedAt.value >= DEBOUNCE_S {
          open := open - {tag};
        }
      }
    }

    method RearmAll()
      modifies this`open
      ensures View() == Step(old(View()), Reset)
    {
      open := map[];
    }

    method UpdateLimits(tag: string, env: Option<Envelope>)
      modifies this`envelopes
      ensures View() == Step(old(View()), Limits(tag, env))
    {
      if tag != "" && env.Some? {
        envelopes := envelopes[tag := env.value];
      }
    }
  }
}
