/**
 Several devices, one set of flags: the evaluator keeps its state by session and probe number, so the
 probes of that number on all devices share it. Whose crossing is announced, exactly.
 */
module AlertDevices {
  import opened Options
  import opened AlertRules
  import opened AlertRuns
  import opened AlertTargets
  import opened AlertDelivery

  predicate IsExceeded(e: Event, k: Key) {
    e.Alert? && e.key == k && e.kind == Exceeded
  }

  /** A reading of some device's probe above the target it was held against. */
  predicate Above(e: Event, k: Key) {
    e.Read? && e.key == k && e.temp > e.ceiling
  }

  predicate HasAbove(events: seq<Event>, k: Key) {
    exists i | 0 <= i < |events| :: Above(events[i], k)
  }

  /** Since the probe's last rearm before position `n` a reading was above the target it was held against. */
  ghost predicate AboveSince(log: seq<Event>, n: int, k: Key) {
    exists i :: Since(log, i, n, k) && Above(log[i], k)
  }

  ghost predicate AboveBy(log: seq<Event>, n: int, k: Key, sensor: string) {
    exists i :: Since(log, i, n, k) && Above(log[i], k) && log[i].sensor == sensor
  }

  predicate Flagged(states: States, k: Key) {
    k in states && states[k].exceeded
  }

  // ---------------------------------------------------------------- one evaluation

  lemma AboveConcat(a: seq<Event>, b: seq<Event>, k: Key)
    ensures HasAbove(a + b, k) <==> HasAbove(a, k) || HasAbove(b, k)
  {
    var all := a + b;
    assert forall i | 0 <= i < |a| :: all[i] == a[i];
    assert forall i | 0 <= i < |b| :: all[|a| + i] == b[i];
  }

  lemma AlertsAreNoReadings(events: seq<Event>, k: Key)
    requires forall e | e in events :: e.Alert?
    ensures !HasAbove(events, k)
  {
    forall i | 0 <= i < |events| ensures !Above(events[i], k) {
      assert events[i] in events;
    }
  }

  lemma StandsAbove(t: TargetConfig, temp: real)
    requires Stand(t, temp).Some?
    ensures Stand(t, temp).value.exceeded <==> temp > Ceiling(t).value
  {
  }

  /** A round over one target flags a probe exactly if it was flagged or is read above the target. */
  lemma JudgeFlags(states: States, session: string, t: TargetConfig, probes: seq<Probe>, sensor: string, now: real, k: Key)
    ensures var r := JudgeTarget(states, session, t, probes, sensor, now);
      && (Flagged(r.states, k) <==> Flagged(states, k) || HasAbove(r.events, k))
      && (forall e | e in r.events :: !e.Rearmed? && e.sensor == sensor)
  {
    var own, temp := Key(session, t.probe), Reading(probes, t);
    if temp.Some? && Stand(t, temp.value).Some? {
      var f := if own in states then states[own] else FRESH;
      var s := Stand(t, temp.value).value;
      var said := Announcements(f, own, t, s, sensor, now).events;
      var read := Read(own, sensor, temp.value, Ceiling(t).value);
      Announced(f, own, t, s, sensor, now);
      AnnouncementFacts(f, own, t, s, sensor, now);
      AnnouncedNow(f, own, t, s, sensor, now);
      StandsAbove(t, temp.value);
      AboveConcat([read], said, k);
      AlertsAreNoReadings(said, k);
      assert HasAbove([read], k) <==> Above([read][0], k);
    }
  }

  lemma {:induction false} RoundFlags(states: States, session: string, ts: seq<TargetConfig>, probes: seq<Probe>, sensor: string, now: real, k: Key)
    ensures var r := JudgeAll(states, session, ts, probes, sensor, now);
      && (Flagged(r.states, k) <==> Flagged(states, k) || HasAbove(r.events, k))
      && (forall e | e in r.events :: !e.Rearmed? && e.sensor == sensor)
    decreases |ts|
  {
    if ts != [] {
      var before := JudgeAll(states, session, ts[..|ts| - 1], probes, sensor, now);
      RoundFlags(states, session, ts[..|ts| - 1], probes, sensor, now, k);
      JudgeFlags(before.states, session, ts[|ts| - 1], probes, sensor, now, k);
      AboveConcat(before.events, JudgeTarget(before.states, session, ts[|ts| - 1], probes, sensor, now).events, k);
    }
  }

  // ---------------------------------------------------------------- the flag and the readings

  ghost predicate FlagIsAbove(states: States, log: seq<Event>, k: Key) {
    Flagged(states, k) <==> AboveSince(log, |log|, k)
  }

  /** Positions since the last rearm, when events that rearm nothing follow. */
  lemma SinceAppended(log: seq<Event>, more: seq<Event>, i: int, k: Key)
    requires forall e | e in more :: !Rearms(e, k)
    ensures Since(log + more, i, |log + more|, k) <==>
      if i < |log| then Since(log, i, |log|, k) else |log| <= i < |log + more|
  {
    var all := log + more;
    if 0 <= i < |log| && Since(all, i, |all|, k) {
      forall j | i < j < |log| ensures !Rearms(log[j], k) {
        assert all[j] == log[j];
      }
    }
    if 0 <= i < |log| && Since(log, i, |log|, k) {
      SinceLonger(log, more, i, k);
    }
    if |log| <= i < |all| {
      forall j | i < j < |all| ensures !Rearms(all[j], k) {
        assert all[j] in more;
      }
    }
  }

  lemma AboveAppended(log: seq<Event>, more: seq<Event>, k: Key)
    requires forall e | e in more :: !Rearms(e, k)
    ensures AboveSince(log + more, |log + more|, k) <==> AboveSince(log, |log|, k) || HasAbove(more, k)
  {
    var all := log + more;
    if i :| Since(all, i, |all|, k) && Above(all[i], k) {
      SinceAppended(log, more, i, k);
      assert if i < |log| then all[i] == log[i] else all[i] == more[i - |log|];
    }
    if i :| Since(log, i, |log|, k) && Above(log[i], k) {
      SinceAppended(log, more, i, k);
      assert all[i] == log[i];
    }
    if i :| 0 <= i < |more| && Above(more[i], k) {
      SinceAppended(log, more, |log| + i, k);
      assert all[|log| + i] == more[i];
    }
  }

  lemma RearmedIsNotAbove(log: seq<Event>, e: Event, k: Key)
    requires Rearms(e, k)
    ensures !AboveSince(log + [e], |log| + 1, k)
  {
    var all := log + [e];
    assert all[|log|] == e;
    forall i | Since(all, i, |all|, k) ensures !Above(all[i], k) {
      assert i == |log|;
    }
  }

  lemma RearmFlags(states: States, log: seq<Event>, states': States, keys: set<Key>, k: Key)
    requires FlagIsAbove(states, log, k)
    requires k !in keys ==> (k in states' <==> k in states) && (k in states ==> states'[k] == states[k])
    requires k in keys && k in states' ==> !states'[k].exceeded
    ensures FlagIsAbove(states', log + [AlertRules.Rearmed(keys)], k)
  {
    if k in keys {
      RearmedIsNotAbove(log, AlertRules.Rearmed(keys), k);
    } else {
      AboveAppended(log, [AlertRules.Rearmed(keys)], k);
    }
  }

  lemma ActFlags(w: World, a: Action, k: Key)
    requires FlagIsAbove(w.states, w.log, k)
    ensures FlagIsAbove(Act(w, a).states, Act(w, a).log, k)
  {
    match a
    case SetTargets(session, ts) =>
      var arming := Retarget(w.states, session, TargetsOf(w, session), ts);
      RetargetArmed(w.states, session, TargetsOf(w, session), ts);
      RearmFlags(w.states, w.log, arming.states, arming.rearmed, k);
    case ClearSession(session) =>
      var gone := OfSession(w.states, session);
      RearmFlags(w.states, w.log, w.states - gone, gone, k);
    case Evaluate(session, probes, sensor, now) =>
      RoundFlags(w.states, session, TargetsOf(w, session), probes, sensor, now, k);
      AboveAppended(w.log, JudgeAll(w.states, session, TargetsOf(w, session), probes, sensor, now).events, k);
  }

  lemma {:induction false} AlwaysFlagged(actions: seq<Action>, k: Key)
    ensures FlagIsAbove(Run(actions).states, Run(actions).log, k)
    decreases |actions|
  {
    if actions != [] {
      AlwaysFlagged(actions[..|actions| - 1], k);
      ActFlags(Run(actions[..|actions| - 1]), actions[|actions| - 1], k);
    }
  }

  /** In every run, an exceeded event was sent for a probe number since its last rearm exactly if some device's
      probe of that number was read above the target it was held against. */
  lemma SentExactlyIfAbove(actions: seq<Action>, k: Key)
    ensures var log := Run(actions).log; ExceededSince(log, |log|, k) <==> AboveSince(log, |log|, k)
    ensures Flagged(Run(actions).states, k) <==> AboveSince(Run(actions).log, |Run(actions).log|, k)
  {
    AlwaysFlagged(actions, k);
    AlertsInOrder(actions);
  }

  // ---------------------------------------------------------------- which crossing is announced

  predicate Announces(events: seq<Event>, k: Key, sensor: string) {
    exists i | 0 <= i < |events| :: IsExceeded(events[i], k) && events[i].sensor == sensor
  }

  lemma OnlyOnce(log: seq<Event>, events: seq<Event>, k: Key)
    requires ExceededSince(log, |log|, k) && StagesAscend(log + events) && forall e | e in events :: !e.Rearmed?
    ensures forall e | e in events :: !IsExceeded(e, k)
  {
    var all := log + events;
    var i :| Since(log, i, |log|, k) && log[i].Alert? && log[i].key == k && log[i].kind == Exceeded;
    forall m | 0 <= m < |events| ensures !IsExceeded(events[m], k) {
      assert all[i] == log[i] && all[|log| + m] == events[m];
      StillSince(log, events, i, m, k);
    }
  }

  lemma StillSince(log: seq<Event>, events: seq<Event>, i: int, m: nat, k: Key)
    requires Since(log, i, |log|, k) && m < |events| && forall e | e in events :: !e.Rearmed?
    ensures Since(log + events, i, |log| + m, k)
  {
    var all := log + events;
    forall j | i < j < |log| + m ensures !Rearms(all[j], k) {
      if j < |log| {
        assert all[j] == log[j];
      } else {
        assert all[j] == events[j - |log|];
      }
    }
  }

  lemma NotInOldLog(log: seq<Event>, events: seq<Event>, i: int, k: Key)
    requires 0 <= i < |log + events| && IsExceeded((log + events)[i], k) && !ExceededSince(log, |log|, k)
    requires i < |log| ==> Since(log, i, |log|, k)
    ensures i >= |log|
  {
  }

  lemma NewlySent(log: seq<Event>, events: seq<Event>, k: Key, sensor: string)
    requires ExceededSince(log + events, |log + events|, k) && !ExceededSince(log, |log|, k)
    requires forall e | e in events :: !e.Rearmed? && e.sensor == sensor
    ensures Announces(events, k, sensor)
  {
    var all := log + events;
    var i :| Since(all, i, |all|, k) && all[i].Alert? && all[i].key == k && all[i].kind == Exceeded;
    SinceAppended(log, events, i, k);
    NotInOldLog(log, events, i, k);
    assert all[i] == events[i - |log|];
  }

  /** After any run, a device's crossing of one of the session's targets is announced as its own if and only if no
      device's probe of that number was read above the target it was held against since the last rearm. */
  lemma CrossingAnnouncedExactlyWhen(actions: seq<Action>, session: string, probes: seq<Probe>, sensor: string, now: real, n: nat)
    requires n < |TargetsOf(Run(actions), session)| && Crossed(probes, TargetsOf(Run(actions), session)[n])
    ensures var w, k := Run(actions), Key(session, TargetsOf(Run(actions), session)[n].probe);
      Announces(JudgeAll(w.states, session, TargetsOf(w, session), probes, sensor, now).events, k, sensor)
      <==> !AboveSince(w.log, |w.log|, k)
  {
    var w, a := Run(actions), Evaluate(session, probes, sensor, now);
    var k := Key(session, TargetsOf(w, session)[n].probe);
    var events := JudgeAll(w.states, session, TargetsOf(w, session), probes, sensor, now).events;
    RunOneMore(actions, a);
    AlertsInOrder(actions + [a]);
    SentExactlyIfAbove(actions, k);
    RoundFlags(w.states, session, TargetsOf(w, session), probes, sensor, now, k);
    CrossingIsAnnounced(actions, session, probes, sensor, now, n);
    if ExceededSince(w.log, |w.log|, k) {
      OnlyOnce(w.log, events, k);
    } else {
      NewlySent(w.log, events, k, sensor);
    }
  }

  /** So of the crossings of one device in one arming the first is announced if and only if no other device's probe
      of the same number was read above its target before. */
  lemma FirstCrossingAnnouncedExactlyWhen(actions: seq<Action>, session: string, probes: seq<Probe>, sensor: string, now: real, n: nat)
    requires n < |TargetsOf(Run(actions), session)| && Crossed(probes, TargetsOf(Run(actions), session)[n])
    requires !AboveBy(Run(actions).log, |Run(actions).log|, Key(session, TargetsOf(Run(actions), session)[n].probe), sensor)
    ensures var w, k := Run(actions), Key(session, TargetsOf(Run(actions), session)[n].probe);
      Announces(JudgeAll(w.states, session, TargetsOf(w, session), probes, sensor, now).events, k, sensor)
      <==> forall other | other != sensor :: !AboveBy(w.log, |w.log|, k, other)
  {
    var w, k := Run(actions), Key(session, TargetsOf(Run(actions), session)[n].probe);
    CrossingAnnouncedExactlyWhen(actions, session, probes, sensor, now, n);
    if i :| Since(w.log, i, |w.log|, k) && Above(w.log[i], k) {
      assert AboveBy(w.log, |w.log|, k, w.log[i].sensor);
    }
  }

  // ---------------------------------------------------------------- the second device

  lemma ActExtends(w: World, a: Action)
    ensures w.log <= Act(w, a).log
  {
  }

  lemma {:induction false} RunExtends(actions: seq<Action>, more: seq<Action>)
    ensures Run(actions).log <= Run(actions + more).log
    decreases |more|
  {
    if more == [] {
      assert actions + more == actions;
    } else {
      var front, a := more[..|more| - 1], more[|more| - 1];
      RunExtends(actions, front);
      assert actions + more == (actions + front) + [a];
      RunOneMore(actions + front, a);
      ActExtends(Run(actions + front), a);
      PrefixTrans(Run(actions).log, Run(actions + front).log, Run(actions + more).log);
    }
  }

  lemma PrefixTrans(a: seq<Event>, b: seq<Event>, c: seq<Event>)
    requires a <= b <= c
    ensures a <= c
  {
  }

  lemma NoneUntilRearmed(before: seq<Event>, log: seq<Event>, k: Key)
    requires before <= log && StagesAscend(log) && ExceededSince(before, |before|, k)
    ensures forall j | |before| <= j < |log| && IsExceeded(log[j], k) :: exists m | |before| <= m < j :: Rearms(log[m], k)
  {
    var i :| Since(before, i, |before|, k) && before[i].Alert? && before[i].key == k && before[i].kind == Exceeded;
    assert log[i] == before[i];
    forall j | |before| <= j < |log| && IsExceeded(log[j], k) ensures exists m | |before| <= m < j :: Rearms(log[m], k) {
      if forall m | |before| <= m < j :: !Rearms(log[m], k) {
        SinceUpTo(before, log, i, j, k);
      }
    }
  }

  /** Once sent, the exceeded event of a probe number is not sent again, for any device, before the next rearm. */
  lemma SilentUntilRearmed(actions: seq<Action>, more: seq<Action>, k: Key)
    requires ExceededSince(Run(actions).log, |Run(actions).log|, k)
    ensures var log, n := Run(actions + more).log, |Run(actions).log|;
      && n <= |log|
      && forall j | n <= j < |log| && IsExceeded(log[j], k) :: exists m | n <= m < j :: Rearms(log[m], k)
  {
    RunExtends(actions, more);
    AlertsInOrder(actions + more);
    NoneUntilRearmed(Run(actions).log, Run(actions + more).log, k);
  }

  lemma SinceUpTo(before: seq<Event>, log: seq<Event>, i: int, j: int, k: Key)
    requires before <= log && Since(before, i, |before|, k) && |before| <= j < |log|
    requires forall m | |before| <= m < j :: !Rearms(log[m], k)
    ensures Since(log, i, j, k)
  {
    forall m | i < m < j ensures !Rearms(log[m], k) {
      assert m < |before| ==> log[m] == before[m];
    }
  }

  /** Whatever the targets: after one device's probe crossed, no device with a probe of that number hears of a
      crossing of its own, through any readings and target changes, until that number is rearmed. */
  lemma OtherDevicesGoUnheard(actions: seq<Action>, session: string, probes: seq<Probe>, sensor: string, now: real, n: nat, more: seq<Action>)
    requires n < |TargetsOf(Run(actions), session)| && Crossed(probes, TargetsOf(Run(actions), session)[n])
    ensures var k, crossed := Key(session, TargetsOf(Run(actions), session)[n].probe), actions + [Evaluate(session, probes, sensor, now)];
      var log, from := Run(crossed + more).log, |Run(crossed).log|;
      && from <= |log|
      && forall j | from <= j < |log| && IsExceeded(log[j], k) :: exists m | from <= m < j :: Rearms(log[m], k)
  {
    CrossingIsAnnounced(actions, session, probes, sensor, now, n);
    SilentUntilRearmed(actions + [Evaluate(session, probes, sensor, now)], more, Key(session, TargetsOf(Run(actions), session)[n].probe));
  }

  /** In particular a second device's crossing right after is not announced. */
  lemma SecondCrossingIsSilent(actions: seq<Action>, session: string, probes: seq<Probe>, sensor: string, now: real, n: nat,
                               probes2: seq<Probe>, sensor2: string, later: real)
    requires n < |TargetsOf(Run(actions), session)|
    requires Crossed(probes, TargetsOf(Run(actions), session)[n]) && Crossed(probes2, TargetsOf(Run(actions), session)[n])
    ensures var k := Key(session, TargetsOf(Run(actions), session)[n].probe);
      var w := Run(actions + [Evaluate(session, probes, sensor, now)]);
      !Announces(JudgeAll(w.states, session, TargetsOf(w, session), probes2, sensor2, later).events, k, sensor2)
  {
    var crossed := actions + [Evaluate(session, probes, sensor, now)];
    var k := Key(session, TargetsOf(Run(actions), session)[n].probe);
    RunOneMore(actions, Evaluate(session, probes, sensor, now));
    CrossingIsAnnounced(actions, session, probes, sensor, now, n);
    SentExactlyIfAbove(crossed, k);
    CrossingAnnouncedExactlyWhen(crossed, session, probes2, sensor2, later, n);
  }
}
