/**
 Every announcement, exactly: each stage of each target is announced in an evaluation if and only if the
 reading asks for it, in the target's own unit, and nothing on record since the rearm has settled it.
 */
module AlertStages {
  import opened Options
  import opened AlertRules
  import opened AlertRuns
  import opened AlertTargets
  import opened AlertDelivery
  import D = AlertDevices

  // ---------------------------------------------------------------- what a reading asks for

  /** At or above a fixed target, or within the bounds of a range. */
  predicate AtTarget(t: TargetConfig, temp: real) {
    var own := InUnit(temp, t.unit);
    || (t.mode == "fixed" && t.targetValue.Some? && t.targetValue.value <= own)
    || (t.mode == "range" && t.rangeLow.Some? && t.rangeHigh.Some? && t.rangeLow.value <= own <= t.rangeHigh.value)
  }

  predicate AboveTarget(t: TargetConfig, temp: real) {
    var own := InUnit(temp, t.unit);
    || (t.mode == "fixed" && t.targetValue.Some? && t.targetValue.value < own)
    || (t.mode == "range" && t.rangeLow.Some? && t.rangeHigh.Some? && t.rangeHigh.value < own)
  }

  /** Less than the offset below a fixed target or a lower bound. */
  predicate NearTarget(t: TargetConfig, temp: real) {
    var own := InUnit(temp, t.unit);
    || (t.mode == "fixed" && t.targetValue.Some? && t.targetValue.value - t.preAlertOffset <= own < t.targetValue.value)
    || (t.mode == "range" && t.rangeLow.Some? && t.rangeHigh.Some? && t.rangeLow.value - t.preAlertOffset <= own < t.rangeLow.value)
  }

  /** Less than the offset below an upper bound. */
  predicate NearUpperBound(t: TargetConfig, temp: real) {
    var own := InUnit(temp, t.unit);
    t.mode == "range" && t.rangeLow.Some? && t.rangeHigh.Some? && t.rangeHigh.value - t.preAlertOffset < own <= t.rangeHigh.value
  }

  predicate AsksFor(t: TargetConfig, temp: real, kind: Kind) {
    match kind
    case Approaching => NearTarget(t, temp)
    case ApproachingHigh => NearUpperBound(t, temp)
    case Reached => AtTarget(t, temp)
    case Exceeded => AboveTarget(t, temp)
    case Reminder => AboveTarget(t, temp) && t.reminderInterval > 0
  }

  lemma StandsAsAsked(t: TargetConfig, temp: real)
    ensures Stand(t, temp).None? ==> forall kind :: !AsksFor(t, temp, kind)
    ensures Stand(t, temp).Some? ==> var s := Stand(t, temp).value;
      && (s.approaching <==> AsksFor(t, temp, Approaching))
      && (t.mode == "range" && s.approachingHigh <==> AsksFor(t, temp, ApproachingHigh))
      && (s.reached <==> AsksFor(t, temp, Reached))
      && (s.exceeded <==> AsksFor(t, temp, Exceeded))
  {
    StandsWhenConfigured(t, temp);
    if Stand(t, temp).Some? {
      StandInOwnUnit(t, temp);
    }
  }

  // ---------------------------------------------------------------- what is on record

  predicate Says(events: seq<Event>, k: Key, kind: Kind) {
    exists i | 0 <= i < |events| :: IsOf(events[i], k, kind)
  }

  predicate IsOf(e: Event, k: Key, kind: Kind) {
    e.Alert? && e.key == k && e.kind == kind
  }

  ghost predicate HeardSince(log: seq<Event>, k: Key, kind: Kind) {
    exists i :: Since(log, i, |log|, k) && IsOf(log[i], k, kind)
  }

  /** A stage is settled once it or a later one was announced; the high-side warning stands by itself. */
  predicate SettledBy(kind: Kind, heard: Kind) {
    match kind
    case Approaching => heard == Approaching || heard == Reached || heard == Exceeded
    case Reached => heard == Reached || heard == Exceeded
    case _ => heard == kind
  }

  ghost predicate Settled(log: seq<Event>, k: Key, kind: Kind) {
    exists heard :: SettledBy(kind, heard) && HeardSince(log, k, heard)
  }

  predicate Settles(events: seq<Event>, k: Key, kind: Kind) {
    exists heard :: SettledBy(kind, heard) && Says(events, k, heard)
  }

  lemma SaysConcat(a: seq<Event>, b: seq<Event>, k: Key, kind: Kind)
    ensures Says(a + b, k, kind) <==> Says(a, k, kind) || Says(b, k, kind)
  {
    var all := a + b;
    assert forall i | 0 <= i < |a| :: all[i] == a[i];
    assert forall i | 0 <= i < |b| :: all[|a| + i] == b[i];
  }

  lemma SettlesConcat(a: seq<Event>, b: seq<Event>, k: Key, kind: Kind)
    ensures Settles(a + b, k, kind) <==> Settles(a, k, kind) || Settles(b, k, kind)
  {
    forall heard ensures Says(a + b, k, heard) <==> Says(a, k, heard) || Says(b, k, heard) {
      SaysConcat(a, b, k, heard);
    }
  }

  lemma HeardAppended(log: seq<Event>, more: seq<Event>, k: Key, kind: Kind)
    requires forall e | e in more :: !Rearms(e, k)
    ensures HeardSince(log + more, k, kind) <==> HeardSince(log, k, kind) || Says(more, k, kind)
  {
    var all := log + more;
    if i :| Since(all, i, |all|, k) && IsOf(all[i], k, kind) {
      D.SinceAppended(log, more, i, k);
      assert if i < |log| then all[i] == log[i] else all[i] == more[i - |log|];
    }
    if i :| Since(log, i, |log|, k) && IsOf(log[i], k, kind) {
      D.SinceAppended(log, more, i, k);
      assert all[i] == log[i];
    }
    if i :| 0 <= i < |more| && IsOf(more[i], k, kind) {
      D.SinceAppended(log, more, |log| + i, k);
      assert all[|log| + i] == more[i];
    }
  }

  lemma SettledAppended(log: seq<Event>, more: seq<Event>, k: Key, kind: Kind)
    requires forall e | e in more :: !Rearms(e, k)
    ensures Settled(log + more, k, kind) <==> Settled(log, k, kind) || Settles(more, k, kind)
  {
    forall heard ensures HeardSince(log + more, k, heard) <==> HeardSince(log, k, heard) || Says(more, k, heard) {
      HeardAppended(log, more, k, heard);
    }
  }

  // ---------------------------------------------------------------- one turn

  predicate Flag(states: States, k: Key, kind: Kind) {
    k in states && FlagOf(states[k], kind)
  }

  predicate FlagOf(f: Flags, kind: Kind) {
    match kind
    case Approaching => f.approaching
    case ApproachingHigh => f.approachingHigh
    case Reached => f.reached
    case _ => f.exceeded
  }

  /** The stages of one reading, told from the flags it finds. */
  ghost predicate Spoken(f: Flags, k: Key, t: TargetConfig, s: Standing, now: real, said: Step) {
    && (Says(said.events, k, Approaching) <==> s.approaching && !f.approaching)
    && (Says(said.events, k, ApproachingHigh) <==> t.mode == "range" && s.approachingHigh && !f.approachingHigh)
    && (Says(said.events, k, Reached) <==> s.reached && !f.reached)
    && (Says(said.events, k, Exceeded) <==> s.exceeded && !f.exceeded)
    && (Says(said.events, k, Reminder) <==>
          s.exceeded && t.reminderInterval > 0 && f.exceeded && now - f.lastReminder >= t.reminderInterval as real)
  }

  /** Flags are set exactly for what is settled. */
  ghost predicate Flagged(f: Flags, k: Key, said: Step) {
    forall kind | kind != Reminder :: FlagOf(said.flags, kind) <==> FlagOf(f, kind) || Settles(said.events, k, kind)
  }

  lemma SaysOne(events: seq<Event>, k: Key, kind: Kind, other: Kind)
    requires events == [] || (|events| == 1 && IsOf(events[0], k, kind))
    ensures Says(events, k, other) <==> events != [] && other == kind
  {
    if events != [] {
      assert IsOf(events[0], k, kind);
    }
  }

  /** Which of the five kinds `events` says. */
  ghost predicate SaysExactly(events: seq<Event>, k: Key, near: bool, high: bool, at: bool, above: bool, again: bool) {
    && (Says(events, k, Approaching) <==> near)
    && (Says(events, k, ApproachingHigh) <==> high)
    && (Says(events, k, Reached) <==> at)
    && (Says(events, k, Exceeded) <==> above)
    && (Says(events, k, Reminder) <==> again)
  }

  lemma SaysFive(a: seq<Event>, b: seq<Event>, c: seq<Event>, d: seq<Event>, e: seq<Event>, k: Key)
    requires a == [] || (|a| == 1 && IsOf(a[0], k, Approaching))
    requires b == [] || (|b| == 1 && IsOf(b[0], k, ApproachingHigh))
    requires c == [] || (|c| == 1 && IsOf(c[0], k, Reached))
    requires d == [] || (|d| == 1 && IsOf(d[0], k, Exceeded))
    requires e == [] || (|e| == 1 && IsOf(e[0], k, Reminder))
    ensures SaysExactly(a + b + c + d + e, k, a != [], b != [], c != [], d != [], e != [])
  {
    forall kind ensures Says(a + b + c + d + e, k, kind) <==>
      Says(a, k, kind) || Says(b, k, kind) || Says(c, k, kind) || Says(d, k, kind) || Says(e, k, kind)
    {
      SaysConcat(a, b, k, kind);
      SaysConcat(a + b, c, k, kind);
      SaysConcat(a + b + c, d, k, kind);
      SaysConcat(a + b + c + d, e, k, kind);
    }
    forall kind ensures Says(a, k, kind) <==> a != [] && kind == Approaching {
      SaysOne(a, k, Approaching, kind);
    }
    forall kind ensures Says(b, k, kind) <==> b != [] && kind == ApproachingHigh {
      SaysOne(b, k, ApproachingHigh, kind);
    }
    forall kind ensures Says(c, k, kind) <==> c != [] && kind == Reached {
      SaysOne(c, k, Reached, kind);
    }
    forall kind ensures Says(d, k, kind) <==> d != [] && kind == Exceeded {
      SaysOne(d, k, Exceeded, kind);
    }
    forall kind ensures Says(e, k, kind) <==> e != [] && kind == Reminder {
      SaysOne(e, k, Reminder, kind);
    }
  }

  /** The flags after stages that said `near`, `high`, `at` and `above`. */
  ghost predicate FlagsMoved(f: Flags, g: Flags, near: bool, high: bool, at: bool, above: bool) {
    && (g.approaching <==> f.approaching || near || at || above)
    && (g.approachingHigh <==> f.approachingHigh || high)
    && (g.reached <==> f.reached || at || above)
    && (g.exceeded <==> f.exceeded || above)
  }

  lemma FlaggedBySaid(f: Flags, k: Key, said: Step, near: bool, high: bool, at: bool, above: bool, again: bool)
    requires SaysExactly(said.events, k, near, high, at, above, again) && FlagsMoved(f, said.flags, near, high, at, above)
    ensures Flagged(f, k, said)
  {
    assert Settles(said.events, k, Approaching) <==> near || at || above by {
      assert SettledBy(Approaching, Approaching) && SettledBy(Approaching, Reached) && SettledBy(Approaching, Exceeded);
    }
    assert Settles(said.events, k, Reached) <==> at || above by {
      assert SettledBy(Reached, Reached) && SettledBy(Reached, Exceeded);
    }
    assert Settles(said.events, k, ApproachingHigh) <==> high by {
      assert SettledBy(ApproachingHigh, ApproachingHigh);
    }
    assert Settles(said.events, k, Exceeded) <==> above by {
      assert SettledBy(Exceeded, Exceeded);
    }
  }

  /** What the five stages of one reading do, each finding the flags the one before left. */
  lemma StagesSay(f: Flags, k: Key, t: TargetConfig, s: Standing, sensor: string, now: real, said: Step)
    requires said == Announcements(f, k, t, s, sensor, now)
    ensures var near, high := s.approaching && !f.approaching, t.mode == "range" && s.approachingHigh && !f.approachingHigh;
      var at, above := s.reached && !f.reached, s.exceeded && !f.exceeded;
      var again := s.exceeded && t.reminderInterval > 0 && f.exceeded && now - f.lastReminder >= t.reminderInterval as real;
      SaysExactly(said.events, k, near, high, at, above, again) && FlagsMoved(f, said.flags, near, high, at, above)
  {
    var iv := t.reminderInterval;
    var a := Approach(f, k, s, sensor, now, iv);
    var b := ApproachHigh(a.flags, k, t, s, sensor, now, iv);
    var c := Reach(b.flags, k, s, sensor, now, iv);
    var d := Exceed(c.flags, k, s, sensor, now, iv);
    var e := Remind(d.flags, k, s, sensor, now, iv);
    SaysFive(a.events, b.events, c.events, d.events, e.events, k);
  }

  lemma SpokenAndFlagged(f: Flags, k: Key, t: TargetConfig, s: Standing, sensor: string, now: real, said: Step)
    requires said == Announcements(f, k, t, s, sensor, now)
    ensures Spoken(f, k, t, s, now, said) && Flagged(f, k, said)
  {
    StagesSay(f, k, t, s, sensor, now, said);
    FlaggedBySaid(f, k, said, s.approaching && !f.approaching, t.mode == "range" && s.approachingHigh && !f.approachingHigh,
                  s.reached && !f.reached, s.exceeded && !f.exceeded,
                  s.exceeded && t.reminderInterval > 0 && f.exceeded && now - f.lastReminder >= t.reminderInterval as real);
  }

  /** A turn of one target: `r` against the states before it. */
  ghost predicate FlagsFollow(states: States, r: Round, k: Key) {
    && (forall e | e in r.events :: !e.Rearmed?)
    && (forall kind | kind != Reminder :: Flag(r.states, k, kind) <==> Flag(states, k, kind) || Settles(r.events, k, kind))
  }

  lemma SilentTurn(states: States, states': States, k: Key)
    requires k in states ==> k in states' && states'[k] == states[k]
    requires k in states' && k !in states ==> states'[k] == FRESH
    ensures FlagsFollow(states, Round(states', []), k)
  {
  }

  /** A reading in front, and alerts of another probe, change nothing of what is said of `k`. */
  lemma ReadingFirst(read: Event, said: seq<Event>, own: Key, k: Key, kind: Kind)
    requires !read.Alert? && forall e | e in said :: e.Alert? && e.key == own
    ensures Says([read] + said, k, kind) <==> k == own && Says(said, own, kind)
  {
    SaysConcat([read], said, k, kind);
    assert !Says([read], k, kind) by {
      assert !IsOf([read][0], k, kind);
    }
    if Says(said, k, kind) {
      var i :| 0 <= i < |said| && IsOf(said[i], k, kind);
      assert said[i] in said;
    }
  }

  lemma SettlesOwn(read: Event, said: seq<Event>, own: Key, k: Key)
    requires !read.Alert? && forall e | e in said :: e.Alert? && e.key == own
    ensures forall kind :: Settles([read] + said, k, kind) <==> k == own && Settles(said, own, kind)
  {
    forall kind ensures Says([read] + said, k, kind) <==> k == own && Says(said, own, kind) {
      ReadingFirst(read, said, own, k, kind);
    }
  }

  lemma SpeakingTurn(states: States, f: Flags, own: Key, read: Event, said: Step, k: Key)
    requires f == if own in states then states[own] else FRESH
    requires read.Read? && (forall e | e in said.events :: e.Alert? && e.key == own) && Flagged(f, own, said)
    ensures FlagsFollow(states, Round(states[own := said.flags], [read] + said.events), k)
  {
    SettlesOwn(read, said.events, own, k);
  }

  lemma TurnFollows(states: States, session: string, t: TargetConfig, probes: seq<Probe>, sensor: string, now: real, k: Key)
    ensures FlagsFollow(states, JudgeTarget(states, session, t, probes, sensor, now), k)
  {
    var own, temp := Key(session, t.probe), Reading(probes, t);
    if temp.None? || Stand(t, temp.value).None? {
      SilentTurn(states, JudgeTarget(states, session, t, probes, sensor, now).states, k);
    } else {
      var f := if own in states then states[own] else FRESH;
      var s := Stand(t, temp.value).value;
      var said := Announcements(f, own, t, s, sensor, now);
      AnnouncedNow(f, own, t, s, sensor, now);
      SpokenAndFlagged(f, own, t, s, sensor, now, said);
      SpeakingTurn(states, f, own, Read(own, sensor, temp.value, Ceiling(t).value), said, k);
    }
  }

  /** When the reminder of a flagged probe is due, told from the flags. */
  ghost predicate ClockRanOut(states: States, k: Key, t: TargetConfig, now: real) {
    k in states && states[k].exceeded && now - states[k].lastReminder >= t.reminderInterval as real
  }

  lemma TurnSays(states: States, session: string, t: TargetConfig, probes: seq<Probe>, sensor: string, now: real, kind: Kind)
    ensures var own, temp := Key(session, t.probe), Reading(probes, t);
      Says(JudgeTarget(states, session, t, probes, sensor, now).events, own, kind) <==>
        && temp.Some? && AsksFor(t, temp.value, kind)
        && (if kind == Reminder then ClockRanOut(states, own, t, now) else !Flag(states, own, kind))
  {
    var own, temp := Key(session, t.probe), Reading(probes, t);
    if temp.Some? {
      StandsAsAsked(t, temp.value);
      if Stand(t, temp.value).Some? {
        var f := if own in states then states[own] else FRESH;
        var s, read := Stand(t, temp.value).value, Read(own, sensor, temp.value, Ceiling(t).value);
        var said := Announcements(f, own, t, s, sensor, now);
        AnnouncedNow(f, own, t, s, sensor, now);
        SpokenAndFlagged(f, own, t, s, sensor, now, said);
        ReadingFirst(read, said.events, own, own, kind);
      }
    }
  }

  /** Alerts of a turn are for its own probe and carry the evaluation's device and time and the target's interval. */
  lemma TurnSpeaksForItsTarget(states: States, session: string, t: TargetConfig, probes: seq<Probe>, sensor: string, now: real)
    ensures forall e | e in JudgeTarget(states, session, t, probes, sensor, now).events && e.Alert? ::
      e.key == Key(session, t.probe) && e.sensor == sensor && e.at == now && e.interval == t.reminderInterval
  {
    var own, temp := Key(session, t.probe), Reading(probes, t);
    if temp.Some? && Stand(t, temp.value).Some? {
      var f := if own in states then states[own] else FRESH;
      AnnouncedNow(f, own, t, Stand(t, temp.value).value, sensor, now);
      AnnouncedWithInterval(f, own, t, Stand(t, temp.value).value, sensor, now);
    }
  }

  lemma AnnouncedWithInterval(f: Flags, k: Key, t: TargetConfig, s: Standing, sensor: string, now: real)
    ensures forall e | e in Announcements(f, k, t, s, sensor, now).events && e.Alert? :: e.interval == t.reminderInterval
  {
    var iv := t.reminderInterval;
    var a := Approach(f, k, s, sensor, now, iv);
    var b := ApproachHigh(a.flags, k, t, s, sensor, now, iv);
    var c := Reach(b.flags, k, s, sensor, now, iv);
    var d := Exceed(c.flags, k, s, sensor, now, iv);
    var e := Remind(d.flags, k, s, sensor, now, iv);
    assert forall x | x in a.events + b.events + c.events + d.events + e.events ::
      x in a.events || x in b.events || x in c.events || x in d.events || x in e.events;
  }

  // ---------------------------------------------------------------- flags against the log

  /** The flags of a probe say exactly what is settled since its rearm. */
  ghost predicate FlagsTell(states: States, log: seq<Event>, k: Key) {
    forall kind | kind != Reminder :: Flag(states, k, kind) <==> Settled(log, k, kind)
  }

  lemma FollowTells(states: States, log: seq<Event>, r: Round, k: Key)
    requires FlagsTell(states, log, k) && FlagsFollow(states, r, k)
    ensures FlagsTell(r.states, log + r.events, k)
  {
    forall kind | kind != Reminder ensures Flag(r.states, k, kind) <==> Settled(log + r.events, k, kind) {
      SettledAppended(log, r.events, k, kind);
    }
  }

  lemma {:induction false} RoundTells(states: States, log: seq<Event>, session: string, ts: seq<TargetConfig>, probes: seq<Probe>, sensor: string, now: real, k: Key)
    requires FlagsTell(states, log, k)
    ensures var r := JudgeAll(states, session, ts, probes, sensor, now); FlagsTell(r.states, log + r.events, k)
    decreases |ts|
  {
    if ts == [] {
      assert log + [] == log;
    } else {
      var before := JudgeAll(states, session, ts[..|ts| - 1], probes, sensor, now);
      var last := JudgeTarget(before.states, session, ts[|ts| - 1], probes, sensor, now);
      RoundTells(states, log, session, ts[..|ts| - 1], probes, sensor, now, k);
      TurnFollows(before.states, session, ts[|ts| - 1], probes, sensor, now, k);
      FollowTells(before.states, log + before.events, last, k);
      Associative(log, before.events, last.events);
    }
  }

  lemma RearmTells(states: States, log: seq<Event>, states': States, keys: set<Key>, k: Key)
    requires FlagsTell(states, log, k)
    requires k !in keys ==> (k in states' <==> k in states) && (k in states ==> states'[k] == states[k])
    requires k in keys && k in states' ==> states'[k] == FRESH
    ensures FlagsTell(states', log + [AlertRules.Rearmed(keys)], k)
  {
    var e := AlertRules.Rearmed(keys);
    if k in keys {
      forall kind | kind != Reminder ensures !Settled(log + [e], k, kind) {
        NothingAfterRearm(log, e, k);
      }
    } else {
      forall kind | kind != Reminder ensures Settled(log + [e], k, kind) <==> Settled(log, k, kind) {
        SettledAppended(log, [e], k, kind);
        assert !Settles([e], k, kind);
      }
    }
  }

  lemma NothingAfterRearm(log: seq<Event>, e: Event, k: Key)
    requires Rearms(e, k)
    ensures forall kind :: !HeardSince(log + [e], k, kind)
  {
    var all := log + [e];
    assert all[|log|] == e;
    forall kind, i | Since(all, i, |all|, k) ensures !IsOf(all[i], k, kind) {
      assert i == |log|;
    }
  }

  lemma ActTells(w: World, a: Action, k: Key)
    requires FlagsTell(w.states, w.log, k)
    ensures FlagsTell(Act(w, a).states, Act(w, a).log, k)
  {
    match a
    case SetTargets(session, ts) =>
      var arming := Retarget(w.states, session, TargetsOf(w, session), ts);
      RetargetArmed(w.states, session, TargetsOf(w, session), ts);
      RearmTells(w.states, w.log, arming.states, arming.rearmed, k);
    case ClearSession(session) =>
      var gone := OfSession(w.states, session);
      RearmTells(w.states, w.log, w.states - gone, gone, k);
    case Evaluate(session, probes, sensor, now) =>
      RoundTells(w.states, w.log, session, TargetsOf(w, session), probes, sensor, now, k);
  }

  lemma {:induction false} AlwaysTells(actions: seq<Action>, k: Key)
    ensures FlagsTell(Run(actions).states, Run(actions).log, k)
    decreases |actions|
  {
    if actions != [] {
      AlwaysTells(actions[..|actions| - 1], k);
      ActTells(Run(actions[..|actions| - 1]), actions[|actions| - 1], k);
    }
  }

  // ---------------------------------------------------------------- whole runs

  /** The evaluation up to target `n`, and its turn. */
  function Before(w: World, session: string, probes: seq<Probe>, sensor: string, now: real, n: nat): Round
    requires n <= |TargetsOf(w, session)|
  {
    JudgeAll(w.states, session, TargetsOf(w, session)[..n], probes, sensor, now)
  }

  function TurnOf(w: World, session: string, probes: seq<Probe>, sensor: string, now: real, n: nat): Round
    requires n < |TargetsOf(w, session)|
  {
    JudgeTarget(Before(w, session, probes, sensor, now, n).states, session, TargetsOf(w, session)[n], probes, sensor, now)
  }

  /** The turns, one after the other, are what the evaluation logs. */
  lemma TurnsMakeTheLog(actions: seq<Action>, session: string, probes: seq<Probe>, sensor: string, now: real, n: nat)
    requires n < |TargetsOf(Run(actions), session)|
    ensures var w := Run(actions);
      && Before(w, session, probes, sensor, now, 0).events == []
      && Before(w, session, probes, sensor, now, n + 1).events
           == Before(w, session, probes, sensor, now, n).events + TurnOf(w, session, probes, sensor, now, n).events
      && Run(actions + [Evaluate(session, probes, sensor, now)]).log
           == w.log + Before(w, session, probes, sensor, now, |TargetsOf(w, session)|).events
  {
    var ts := TargetsOf(Run(actions), session);
    RunOneMore(actions, Evaluate(session, probes, sensor, now));
    assert ts[..n + 1][..n] == ts[..n] && ts[..|ts|] == ts;
  }

  /** All that was heard of an excess since the rearm lies at least the target's interval back. */
  ghost predicate ReminderDue(log: seq<Event>, k: Key, t: TargetConfig, now: real) {
    && HeardSince(log, k, Exceeded)
    && forall i | Since(log, i, |log|, k) && Nags(log[i], k) :: log[i].at + t.reminderInterval as real <= now
  }

  lemma ClockIsTheLog(states: States, log: seq<Event>, k: Key, t: TargetConfig, now: real)
    requires Coherent(states, log) && Timed(states, log, k) && FlagsTell(states, log, k)
    ensures ClockRanOut(states, k, t, now) <==> ReminderDue(log, k, t, now)
  {
    assert Flag(states, k, Exceeded) <==> HeardSince(log, k, Exceeded) by {
      assert Flag(states, k, Exceeded) <==> Settled(log, k, Exceeded);
      assert SettledBy(Exceeded, Exceeded);
    }
    if ReminderDue(log, k, t, now) {
      var i :| Since(log, i, |log|, k) && Nags(log[i], k) && log[i].at == states[k].lastReminder;
    }
  }

  /** After any run, in an evaluation of any list: the turn of target `n` announces stage `kind` if and only if the
      reading asks for it and nothing on record since the rearm has settled it; and it reminds if and only if the
      reading is above the target and all that was heard of an excess lies the target's interval back. */
  lemma StageComesExactlyWhen(actions: seq<Action>, session: string, probes: seq<Probe>, sensor: string, now: real, n: nat, kind: Kind)
    requires n < |TargetsOf(Run(actions), session)|
    ensures var w, t := Run(actions), TargetsOf(Run(actions), session)[n];
      var log, k, temp := w.log + Before(w, session, probes, sensor, now, n).events, Key(session, t.probe), Reading(probes, t);
      Says(TurnOf(w, session, probes, sensor, now, n).events, k, kind) <==>
        && temp.Some? && AsksFor(t, temp.value, kind)
        && (if kind == Reminder then ReminderDue(log, k, t, now) else !Settled(log, k, kind))
  {
    var w, t := Run(actions), TargetsOf(Run(actions), session)[n];
    var before, k := Before(w, session, probes, sensor, now, n), Key(session, t.probe);
    AlwaysTells(actions, k);
    RoundTells(w.states, w.log, session, TargetsOf(w, session)[..n], probes, sensor, now, k);
    AlertsInOrder(actions);
    JudgeAllCoherent(w.states, w.log, session, TargetsOf(w, session)[..n], probes, sensor, now);
    AlwaysTimed(actions, k);
    RoundsFollow(w.states, session, TargetsOf(w, session)[..n], probes, sensor, now, k);
    RoundTimed(w.states, w.log, before, k);
    ClockIsTheLog(before.states, w.log + before.events, k, t, now);
    TurnSays(before.states, session, t, probes, sensor, now, kind);
  }

  // ---------------------------------------------------------------- whole evaluations

  lemma {:induction false} LaterTurnsFollow(w: World, session: string, probes: seq<Probe>, sensor: string, now: real, n: nat, m: nat, k: Key, kind: Kind)
    requires n <= m <= |TargetsOf(w, session)|
    ensures forall e | e in Before(w, session, probes, sensor, now, m).events :: !e.Rearmed?
    ensures Settles(Before(w, session, probes, sensor, now, n).events, k, kind) ==> Settles(Before(w, session, probes, sensor, now, m).events, k, kind)
    decreases m
  {
    var ts := TargetsOf(w, session);
    if m > 0 {
      assert ts[..m][..m - 1] == ts[..m - 1];
      TurnFollows(Before(w, session, probes, sensor, now, m - 1).states, session, ts[m - 1], probes, sensor, now, k);
      LaterTurnsFollow(w, session, probes, sensor, now, if n < m then n else m - 1, m - 1, k, kind);
      SettlesConcat(Before(w, session, probes, sensor, now, m - 1).events, TurnOf(w, session, probes, sensor, now, m - 1).events, k, kind);
    }
  }

  /** So a stage that a reading asks for is settled when the evaluation is over: it, or a later one, is on record
      for the probe, sent now or before. */
  lemma AskedForIsOnRecord(actions: seq<Action>, session: string, probes: seq<Probe>, sensor: string, now: real, n: nat, kind: Kind)
    requires n < |TargetsOf(Run(actions), session)| && kind != Reminder
    requires var t := TargetsOf(Run(actions), session)[n]; Reading(probes, t).Some? && AsksFor(t, Reading(probes, t).value, kind)
    ensures var after := Run(actions + [Evaluate(session, probes, sensor, now)]);
      Settled(after.log, Key(session, TargetsOf(Run(actions), session)[n].probe), kind)
  {
    var w, ts := Run(actions), TargetsOf(Run(actions), session);
    var k := Key(session, ts[n].probe);
    var upto, all := Before(w, session, probes, sensor, now, n), Before(w, session, probes, sensor, now, |ts|);
    StageComesExactlyWhen(actions, session, probes, sensor, now, n, kind);
    TurnsMakeTheLog(actions, session, probes, sensor, now, n);
    LaterTurnsFollow(w, session, probes, sensor, now, n + 1, |ts|, k, kind);
    LaterTurnsFollow(w, session, probes, sensor, now, 0, n, k, kind);
    SettledAppended(w.log, upto.events, k, kind);
    SettledAppended(w.log, all.events, k, kind);
    SettlesConcat(upto.events, TurnOf(w, session, probes, sensor, now, n).events, k, kind);
    assert SettledBy(kind, kind);
  }

  /** Turns of targets of other probes say nothing of this one. */
  lemma {:induction false} OthersSayNothing(w: World, session: string, probes: seq<Probe>, sensor: string, now: real, from: nat, n: nat, k: Key, kind: Kind)
    requires from <= n <= |TargetsOf(w, session)| && forall i | from <= i < n :: Key(session, TargetsOf(w, session)[i].probe) != k
    ensures Says(Before(w, session, probes, sensor, now, n).events, k, kind) <==> Says(Before(w, session, probes, sensor, now, from).events, k, kind)
    decreases n
  {
    var ts := TargetsOf(w, session);
    if from < n {
      var turn := TurnOf(w, session, probes, sensor, now, n - 1);
      assert ts[..n][..n - 1] == ts[..n - 1];
      OthersSayNothing(w, session, probes, sensor, now, from, n - 1, k, kind);
      TurnSpeaksForItsTarget(Before(w, session, probes, sensor, now, n - 1).states, session, ts[n - 1], probes, sensor, now);
      SaysConcat(Before(w, session, probes, sensor, now, n - 1).events, turn.events, k, kind);
      assert !Says(turn.events, k, kind) by {
        forall i | 0 <= i < |turn.events| ensures !IsOf(turn.events[i], k, kind) {
          assert turn.events[i] in turn.events;
        }
      }
    }
  }

  lemma SettledBeforeIsSettled(log: seq<Event>, more: seq<Event>, k: Key, kind: Kind)
    requires (forall e | e in more :: !e.Rearmed?) && forall x :: !Says(more, k, x)
    ensures Settled(log + more, k, kind) <==> Settled(log, k, kind)
  {
    SettledAppended(log, more, k, kind);
  }

  /** The turns before that of target `n` neither say nor settle anything of its probe. */
  lemma RecordUnmoved(w: World, session: string, probes: seq<Probe>, sensor: string, now: real, n: nat, k: Key, kind: Kind)
    requires n < |TargetsOf(w, session)| && Distinct(TargetsOf(w, session)) && k == Key(session, TargetsOf(w, session)[n].probe)
    ensures var upto := Before(w, session, probes, sensor, now, n).events;
      !Says(upto, k, kind) && (Settled(w.log + upto, k, kind) <==> Settled(w.log, k, kind))
  {
    var upto := Before(w, session, probes, sensor, now, n);
    forall x ensures !Says(upto.events, k, x) {
      OthersSayNothing(w, session, probes, sensor, now, 0, n, k, x);
    }
    LaterTurnsFollow(w, session, probes, sensor, now, 0, n, k, kind);
    SettledBeforeIsSettled(w.log, upto.events, k, kind);
  }

  /** What the evaluation says of a probe is what the turn of its target says. */
  lemma OnlyItsTurnSpeaks(w: World, session: string, probes: seq<Probe>, sensor: string, now: real, n: nat, k: Key, kind: Kind)
    requires n < |TargetsOf(w, session)| && Distinct(TargetsOf(w, session)) && k == Key(session, TargetsOf(w, session)[n].probe)
    ensures Says(JudgeAll(w.states, session, TargetsOf(w, session), probes, sensor, now).events, k, kind) <==>
            Says(TurnOf(w, session, probes, sensor, now, n).events, k, kind)
  {
    var ts, upto := TargetsOf(w, session), Before(w, session, probes, sensor, now, n);
    RecordUnmoved(w, session, probes, sensor, now, n, k, kind);
    assert ts[..n + 1][..n] == ts[..n] && ts[..|ts|] == ts;
    SaysConcat(upto.events, TurnOf(w, session, probes, sensor, now, n).events, k, kind);
    OthersSayNothing(w, session, probes, sensor, now, n + 1, |ts|, k, kind);
  }

  /** With lists that name no probe twice: the evaluation announces a stage of a probe if and only if the reading
      asks for it and nothing on record since the rearm, before the evaluation, has settled it. */
  lemma EvaluationSaysExactlyWhen(actions: seq<Action>, session: string, probes: seq<Probe>, sensor: string, now: real, n: nat, kind: Kind)
    requires n < |TargetsOf(Run(actions), session)| && Distinct(TargetsOf(Run(actions), session)) && kind != Reminder
    ensures var w, t := Run(actions), TargetsOf(Run(actions), session)[n];
      var k, temp := Key(session, t.probe), Reading(probes, t);
      Says(JudgeAll(w.states, session, TargetsOf(w, session), probes, sensor, now).events, k, kind) <==>
        temp.Some? && AsksFor(t, temp.value, kind) && !Settled(w.log, k, kind)
  {
    var w, k := Run(actions), Key(session, TargetsOf(Run(actions), session)[n].probe);
    OnlyItsTurnSpeaks(w, session, probes, sensor, now, n, k, kind);
    RecordUnmoved(w, session, probes, sensor, now, n, k, kind);
    StageComesExactlyWhen(actions, session, probes, sensor, now, n, kind);
  }

  lemma {:induction false} OnlyTargetsSpeak(states: States, session: string, ts: seq<TargetConfig>, probes: seq<Probe>, sensor: string, now: real, all: seq<TargetConfig>)
    requires ts <= all
    ensures forall e | e in JudgeAll(states, session, ts, probes, sensor, now).events && e.Alert? ::
      SpeaksFor(e, session, all) && e.sensor == sensor && e.at == now
    decreases |ts|
  {
    if ts != [] {
      OnlyTargetsSpeak(states, session, ts[..|ts| - 1], probes, sensor, now, all);
      var before := JudgeAll(states, session, ts[..|ts| - 1], probes, sensor, now);
      TurnSpeaksForItsTarget(before.states, session, ts[|ts| - 1], probes, sensor, now);
      assert all[|ts| - 1] == ts[|ts| - 1];
    }
  }

  predicate SpeaksFor(e: Event, session: string, ts: seq<TargetConfig>)
    requires e.Alert?
  {
    exists i | 0 <= i < |ts| :: e.key == Key(session, ts[i].probe) && e.interval == ts[i].reminderInterval
  }

  /** Every alert of an evaluation is for a target of the session, with its interval, sent for the device read and
      at the time of the evaluation. */
  lemma NoOtherAlerts(w: World, session: string, probes: seq<Probe>, sensor: string, now: real, e: Event)
    requires e in JudgeAll(w.states, session, TargetsOf(w, session), probes, sensor, now).events && e.Alert?
    ensures SpeaksFor(e, session, TargetsOf(w, session)) && e.sensor == sensor && e.at == now
  {
    OnlyTargetsSpeak(w.states, session, TargetsOf(w, session), probes, sensor, now, TargetsOf(w, session));
  }

  /** The reading a target is held against is the first entry of its probe number, if it is plugged in. */
  lemma {:induction false} FirstEntryIsRead(probes: seq<Probe>, t: TargetConfig, i: nat)
    requires i < |probes| && probes[i].index == t.probe && forall j | 0 <= j < i :: probes[j].index != t.probe
    ensures Reading(probes, t) == if probes[i].unplugged then None else probes[i].temp
    decreases i
  {
    if i > 0 {
      FirstEntryIsRead(probes[1..], t, i - 1);
    }
  }

  lemma {:induction false} AbsentIsNotRead(probes: seq<Probe>, t: TargetConfig)
    requires forall j | 0 <= j < |probes| :: probes[j].index != t.probe
    ensures Reading(probes, t) == None
    decreases |probes|
  {
    if probes != [] {
      AbsentIsNotRead(probes[1..], t);
    }
  }
}
