/** The evaluator object: targets and alert state per session, updated in place. */
module AlertEvaluator {
  import opened Options
  import opened AlertRules

  class Evaluator {
    var states: States
    var targets: TargetLists

    constructor ()
      ensures states == map[] && targets == map[]
    {
      states, targets := map[], map[];
    }

    function TargetsOf(session: string): seq<TargetConfig>
      reads this
    {
      if session in targets then targets[session] else []
    }

    method SetTargets(session: string, ts: seq<TargetConfig>)
      modifies this
      ensures targets == old(targets)[session := ts]
      ensures states == Retarget(old(states), session, old(TargetsOf(session)), ts).states
    {
      var olds := TargetsOf(session);
      ghost var rearmed := Stale(states, session, ts);
      targets := targets[session := ts];
      states := states - Stale(states, session, ts);
      ghost var start := Arming(states, rearmed);
      for i := 0 to |ts|
        invariant targets == old(targets)[session := ts]
        invariant Arming(states, rearmed) == ArmAll(start, session, olds, ts[..i])
      {
        assert ts[..i + 1][..i] == ts[..i];
        var k := Key(session, ts[i].probe);
        if k !in states {
          states, rearmed := states[k := FRESH], rearmed + {k};
        } else {
          var was := ByIndex(olds, ts[i].probe);
          if was.Some? && StartsOver(was.value, ts[i]) {
            states, rearmed := states[k := FRESH], rearmed + {k};
          }
        }
      }
      assert ts[..|ts|] == ts;
    }

    method ClearSession(session: string)
      modifies this
      ensures targets == old(targets) - {session}
      ensures states == old(states) - OfSession(old(states), session)
    {
      targets := targets - {session};
      states := states - OfSession(states, session);
    }

    /** The emitted alerts of one target, which `events` lists among the reading they came from. */
    method EvaluateTarget(session: string, t: TargetConfig, probes: seq<Probe>, sensor: string, now: real)
        returns (alerts: seq<Event>, ghost events: seq<Event>)
      modifies this`states
      ensures Round(states, events) == JudgeTarget(old(states), session, t, probes, sensor, now)
      ensures alerts == Alerts(events)
    {
      var p := FirstWithIndex(probes, t.probe);
      if p.None? || p.value.unplugged || p.value.temp.None? {
        return [], [];
      }
      var key := Key(session, t.probe);
      if key !in states {
        states := states[key := FRESH];
      }
      ghost var step := Judge(states[key], key, t, p.value.temp.value, sensor, now);
      var f, sent := JudgeProbe(states[key], key, t, p.value.temp.value, sensor, now);
      states := states[key := f];
      return sent, step.events;
    }

    method Evaluate(session: string, probes: seq<Probe>, sensor: string, now: real) returns (alerts: seq<Event>, ghost events: seq<Event>)
      modifies this`states
      ensures Round(states, events) == JudgeAll(old(states), session, TargetsOf(session), probes, sensor, now)
      ensures alerts == Alerts(events)
    {
      var ts := TargetsOf(session);
      alerts, events := [], [];
      for i := 0 to |ts|
        invariant Round(states, events) == JudgeAll(old(states), session, ts[..i], probes, sensor, now)
        invariant alerts == Alerts(events)
      {
        assert ts[..i + 1][..i] == ts[..i];
        ghost var said;
        var sent;
        sent, said := EvaluateTarget(session, ts[i], probes, sensor, now);
        AlertsAppend(events, said);
        events, alerts := events + said, alerts + sent;
      }
      assert ts[..|ts|] == ts;
    }
  }

  method FirstWithIndex(probes: seq<Probe>, index: int) returns (p: Option<Probe>)
    ensures p == Lookup(probes, index)
  {
    for i := 0 to |probes|
      invariant Lookup(probes, index) == Lookup(probes[i..], index)
    {
      if probes[i].index == index {
        return Some(probes[i]);
      }
    }
    return None;
  }

  /** Where a reading stands against a target, if the target can be evaluated. */
  method Classify(t: TargetConfig, temp: real) returns (s: Option<Standing>)
    ensures s == Stand(t, temp)
  {
    var raw := EffectiveTarget(t);
    if raw.None? {
      return None;
    }
    var ceiling := ToCelsius(raw.value, t.unit);
    var offset := OffsetToCelsius(t.preAlertOffset, t.unit);
    if t.mode == "fixed" {
      var reached, exceeded := temp >= ceiling, temp > ceiling;
      return Some(Standing(temp >= ceiling - offset && !reached, false, reached, exceeded));
    }
    var rawLow := EffectiveLow(t);
    if rawLow.None? {
      return None;
    }
    var low := ToCelsius(rawLow.value, t.unit);
    var exceeded := temp > ceiling;
    return Some(Standing(
      temp >= low - offset && temp < low,
      temp > ceiling - offset && temp <= ceiling && !exceeded,
      low <= temp <= ceiling,
      exceeded));
  }

  /** The announcements for a reading that stands at `s`: sets the flags and collects the events as it goes. */
  method Announce(f0: Flags, k: Key, t: TargetConfig, s: Standing, sensor: string, now: real) returns (f: Flags, sent: seq<Event>)
    ensures Step(f, sent) == Announcements(f0, k, t, s, sensor, now)
  {
    f, sent := f0, [];
    var iv := t.reminderInterval;
    ghost var a := Approach(f, k, s, sensor, now, iv);
    if s.approaching && !f.approaching {
      f := f.(approaching := true);
      sent := sent + [Alert(k, sensor, Approaching, now, iv)];
    }
    assert Step(f, sent) == a;
    ghost var b := ApproachHigh(f, k, t, s, sensor, now, iv);
    if t.mode == "range" && s.approachingHigh && !f.approachingHigh {
      f := f.(approachingHigh := true);
      sent := sent + [Alert(k, sensor, ApproachingHigh, now, iv)];
    }
    assert f == b.flags && sent == a.events + b.events;
    ghost var c := Reach(f, k, s, sensor, now, iv);
    if s.reached && !f.reached {
      f := f.(reached := true, approaching := true);
      sent := sent + [Alert(k, sensor, Reached, now, iv)];
    }
    assert f == c.flags && sent == a.events + b.events + c.events;
    ghost var d := Exceed(f, k, s, sensor, now, iv);
    if s.exceeded && !f.exceeded {
      f := f.(exceeded := true, reached := true, approaching := true, lastReminder := now);
      sent := sent + [Alert(k, sensor, Exceeded, now, iv)];
    }
    assert f == d.flags && sent == a.events + b.events + c.events + d.events;
    ghost var e := Remind(f, k, s, sensor, now, iv);
    if s.exceeded && iv > 0 {
      var elapsed := now - f.lastReminder;
      if f.exceeded && elapsed >= iv as real {
        f := f.(lastReminder := now);
        sent := sent + [Alert(k, sensor, Reminder, now, iv)];
      }
    }
    assert f == e.flags && sent == a.events + b.events + c.events + d.events + e.events;
  }

  lemma AnnouncementsAreAlerts(f: Flags, k: Key, t: TargetConfig, s: Standing, sensor: string, now: real)
    ensures forall e | e in Announcements(f, k, t, s, sensor, now).events :: e.Alert?
  {
  }

  /** One reading against one target. */
  method JudgeProbe(f0: Flags, k: Key, t: TargetConfig, temp: real, sensor: string, now: real) returns (f: Flags, sent: seq<Event>)
    ensures f == Judge(f0, k, t, temp, sensor, now).flags && sent == Alerts(Judge(f0, k, t, temp, sensor, now).events)
  {
    f, sent := f0, [];
    var s := Classify(t, temp);
    if s.None? {
      return;
    }
    f, sent := Announce(f0, k, t, s.value, sensor, now);
    AnnouncementsAreAlerts(f0, k, t, s.value, sensor, now);
    AlertsOnly(sent);
    AlertsAppend([Read(k, sensor, temp, Ceiling(t).value)], sent);
  }

  lemma {:induction false} AlertsOnly(events: seq<Event>)
    requires forall e | e in events :: e.Alert?
    ensures Alerts(events) == events
    decreases |events|
  {
    if events != [] {
      AlertsOnly(events[1..]);
    }
  }

  function Alerts(events: seq<Event>): seq<Event> {
    if events == [] then [] else (if events[0].Alert? then [events[0]] else []) + Alerts(events[1..])
  }

  lemma {:induction false} AlertsAppend(a: seq<Event>, b: seq<Event>)
    ensures Alerts(a + b) == Alerts(a) + Alerts(b)
    decreases |a|
  {
    if a == [] {
      assert a + b == b;
    } else {
      var head := if a[0].Alert? then [a[0]] else [];
      assert (a + b)[0] == a[0] && (a + b)[1..] == a[1..] + b;
      AlertsAppend(a[1..], b);
      assert (head + Alerts(a[1..])) + Alerts(b) == head + (Alerts(a[1..]) + Alerts(b));
    }
  }
}
