/** That alerts do come: a probe read above a target is announced once per arming, and reminded of whenever that is due. */
module AlertDelivery {
  import opened Options
  import opened AlertRules
  import opened AlertRuns
  import T = AlertTargets

  /** The reading of this round that target `t` is held against, if there is one. */
  function Reading(probes: seq<Probe>, t: TargetConfig): Option<real> {
    var p := Lookup(probes, t.probe);
    if p.None? || p.value.unplugged then None else p.value.temp
  }

  /** This round reads the probe strictly above its target. */
  predicate Crossed(probes: seq<Probe>, t: TargetConfig) {
    var temp := Reading(probes, t);
    temp.Some? && Stand(t, temp.value).Some? && temp.value > Ceiling(t).value
  }

  predicate HasNag(events: seq<Event>, k: Key) {
    exists i | 0 <= i < |events| :: Nags(events[i], k)
  }

  // ---------------------------------------------------------------- one target

  /** Only the last two stages can speak of an excess. */
  lemma StagesNag(a: seq<Event>, b: seq<Event>, c: seq<Event>, d: seq<Event>, e: seq<Event>, k: Key)
    requires !HasNag(a, k) && !HasNag(b, k) && !HasNag(c, k)
    ensures HasNag(a + b + c + d + e, k) <==> HasNag(d, k) || HasNag(e, k)
  {
    NagsConcat(a, b, k);
    NagsConcat(a + b, c, k);
    NagsConcat(a + b + c, d, k);
    NagsConcat(a + b + c + d, e, k);
  }

  lemma AnnouncedNow(f: Flags, k: Key, t: TargetConfig, s: Standing, sensor: string, now: real)
    ensures forall e | e in Announcements(f, k, t, s, sensor, now).events :: e.Alert? && e.key == k && e.at == now && e.sensor == sensor
  {
    var iv := t.reminderInterval;
    var a := Approach(f, k, s, sensor, now, iv);
    var b := ApproachHigh(a.flags, k, t, s, sensor, now, iv);
    var c := Reach(b.flags, k, s, sensor, now, iv);
    var d := Exceed(c.flags, k, s, sensor, now, iv);
    var e := Remind(d.flags, k, s, sensor, now, iv);
    AllOf(a.events, b.events, c.events, d.events, e.events, k, sensor, now);
  }

  lemma AllOf(a: seq<Event>, b: seq<Event>, c: seq<Event>, d: seq<Event>, e: seq<Event>, k: Key, sensor: string, now: real)
    requires forall x | x in a || x in b || x in c || x in d || x in e :: x.Alert? && x.key == k && x.at == now && x.sensor == sensor
    ensures forall x | x in a + b + c + d + e :: x.Alert? && x.key == k && x.at == now && x.sensor == sensor
  {
  }

  lemma Announced(f: Flags, k: Key, t: TargetConfig, s: Standing, sensor: string, now: real)
    ensures var said := Announcements(f, k, t, s, sensor, now);
      && (f.exceeded || s.exceeded ==> said.flags.exceeded)
      && (s.exceeded && t.reminderInterval > 0 && (f.exceeded ==> now - f.lastReminder >= t.reminderInterval as real) ==>
            HasNag(said.events, k))
      && (!HasNag(said.events, k) && said.flags.exceeded ==> f.exceeded && said.flags.lastReminder == f.lastReminder)
      && (HasNag(said.events, k) ==> said.flags.exceeded && said.flags.lastReminder == now)
  {
    var iv := t.reminderInterval;
    var a := Approach(f, k, s, sensor, now, iv);
    var b := ApproachHigh(a.flags, k, t, s, sensor, now, iv);
    var c := Reach(b.flags, k, s, sensor, now, iv);
    var d := Exceed(c.flags, k, s, sensor, now, iv);
    var e := Remind(d.flags, k, s, sensor, now, iv);
    assert c.flags.exceeded == f.exceeded && c.flags.lastReminder == f.lastReminder;
    assert d.events != [] ==> Nags(d.events[0], k);
    assert e.events != [] ==> Nags(e.events[0], k);
    StagesNag(a.events, b.events, c.events, d.events, e.events, k);
  }

  ghost predicate NagNow(events: seq<Event>, k: Key, at: real) {
    exists i :: 0 <= i < |events| && Nags(events[i], k) && events[i].at == at
  }

  /** Probe `k` through a round: the flag stays, and moves only with an event that the reminder clock then shows. */
  ghost predicate Follows(states: States, r: Round, k: Key) {
    && (forall e | e in r.events :: !e.Rearmed?)
    && (k in states && states[k].exceeded ==> k in r.states && r.states[k].exceeded)
    && (!HasNag(r.events, k) && k in r.states && r.states[k].exceeded ==>
          k in states && states[k].exceeded && r.states[k].lastReminder == states[k].lastReminder)
    && (HasNag(r.events, k) ==> k in r.states && r.states[k].exceeded && NagNow(r.events, k, r.states[k].lastReminder))
  }

  lemma FollowsOn(states: States, a: Round, b: Round, k: Key)
    requires Follows(states, a, k) && Follows(a.states, b, k)
    ensures Follows(states, Round(b.states, a.events + b.events), k)
  {
    NagsConcat(a.events, b.events, k);
  }

  lemma NagsConcat(a: seq<Event>, b: seq<Event>, k: Key)
    ensures HasNag(a + b, k) <==> HasNag(a, k) || HasNag(b, k)
    ensures forall at | NagNow(a, k, at) || NagNow(b, k, at) :: NagNow(a + b, k, at)
  {
    var all := a + b;
    assert forall i | 0 <= i < |a| :: all[i] == a[i];
    assert forall i | 0 <= i < |b| :: all[|a| + i] == b[i];
  }

  /** The target's interval has passed since the flag was last announced, or it was not flagged. */
  ghost predicate Overdue(states: States, k: Key, t: TargetConfig, now: real) {
    t.reminderInterval > 0
    && (k in states && states[k].exceeded ==> now - states[k].lastReminder >= t.reminderInterval as real)
  }

  /** What the announcements of one reading are for probe `k`, the probe read being `own`. */
  lemma HeardOf(own: Key, read: Event, said: seq<Event>, now: real, k: Key)
    requires read.Read? && forall e | e in said :: e.Alert? && e.key == own && e.at == now
    ensures var events := [read] + said;
      && (forall e | e in events :: !e.Rearmed?)
      && (HasNag(events, k) <==> k == own && HasNag(said, own))
      && (HasNag(events, k) ==> NagNow(events, k, now))
  {
    NagsConcat([read], said, k);
    assert HasNag(said, k) ==> k == own && NagNow(said, k, now);
  }

  lemma JudgeDelivers(states: States, session: string, t: TargetConfig, probes: seq<Probe>, sensor: string, now: real, k: Key)
    ensures var r := JudgeTarget(states, session, t, probes, sensor, now);
      && Follows(states, r, k)
      && (k == Key(session, t.probe) && Crossed(probes, t) ==> k in r.states && r.states[k].exceeded)
      && (k == Key(session, t.probe) && Crossed(probes, t) && Overdue(states, k, t, now) ==> HasNag(r.events, k))
  {
    var own, temp := Key(session, t.probe), Reading(probes, t);
    if temp.Some? && Stand(t, temp.value).Some? {
      var f := if own in states then states[own] else FRESH;
      var s := Stand(t, temp.value).value;
      Announced(f, own, t, s, sensor, now);
      AnnouncedNow(f, own, t, s, sensor, now);
      HeardOf(own, Read(own, sensor, temp.value, Ceiling(t).value), Announcements(f, own, t, s, sensor, now).events, now, k);
    }
  }

  // ---------------------------------------------------------------- a whole evaluation

  lemma {:induction false} RoundsFollow(states: States, session: string, ts: seq<TargetConfig>, probes: seq<Probe>, sensor: string, now: real, k: Key)
    ensures Follows(states, JudgeAll(states, session, ts, probes, sensor, now), k)
    decreases |ts|
  {
    if ts != [] {
      var before := JudgeAll(states, session, ts[..|ts| - 1], probes, sensor, now);
      RoundsFollow(states, session, ts[..|ts| - 1], probes, sensor, now, k);
      JudgeDelivers(before.states, session, ts[|ts| - 1], probes, sensor, now, k);
      FollowsOn(states, before, JudgeTarget(before.states, session, ts[|ts| - 1], probes, sensor, now), k);
    }
  }

  /** A probe read above one of the targets is flagged after the evaluation, and, if overdue, heard of in it. */
  lemma {:induction false} CrossingCounts(states: States, session: string, ts: seq<TargetConfig>, probes: seq<Probe>, sensor: string, now: real, n: nat)
    requires n < |ts| && Crossed(probes, ts[n])
    ensures var r, k := JudgeAll(states, session, ts, probes, sensor, now), Key(session, ts[n].probe);
      && k in r.states && r.states[k].exceeded
      && (Overdue(states, k, ts[n], now) ==> HasNag(r.events, k))
    decreases |ts|
  {
    var k, init, t := Key(session, ts[n].probe), ts[..|ts| - 1], ts[|ts| - 1];
    var before := JudgeAll(states, session, init, probes, sensor, now);
    var last := JudgeTarget(before.states, session, t, probes, sensor, now);
    RoundsFollow(states, session, init, probes, sensor, now, k);
    JudgeDelivers(before.states, session, t, probes, sensor, now, k);
    NagsConcat(before.events, last.events, k);
    if n < |init| {
      CrossingCounts(states, session, init, probes, sensor, now, n);
    }
  }

  // ---------------------------------------------------------------- whole runs

  ghost predicate NagAt(log: seq<Event>, k: Key, at: real) {
    exists i :: Since(log, i, |log|, k) && Nags(log[i], k) && log[i].at == at
  }

  /** The reminder clock of a flagged probe shows the time of an event heard since its last rearm. */
  ghost predicate Timed(states: States, log: seq<Event>, k: Key) {
    k in states && states[k].exceeded ==> NagAt(log, k, states[k].lastReminder)
  }

  lemma RoundTimed(states: States, log: seq<Event>, r: Round, k: Key)
    requires Timed(states, log, k) && Follows(states, r, k)
    ensures Timed(r.states, log + r.events, k)
  {
    if k in r.states && r.states[k].exceeded {
      var all, at := log + r.events, r.states[k].lastReminder;
      if HasNag(r.events, k) {
        var i :| 0 <= i < |r.events| && Nags(r.events[i], k) && r.events[i].at == at;
        assert all[|log| + i] == r.events[i];
        NoRearmAfter(log, r.events, |log| + i, k);
      } else {
        var i :| Since(log, i, |log|, k) && Nags(log[i], k) && log[i].at == at;
        T.SinceLonger(log, r.events, i, k);
      }
    }
  }

  lemma NoRearmAfter(log: seq<Event>, more: seq<Event>, i: nat, k: Key)
    requires |log| <= i < |log + more| && forall e | e in more :: !e.Rearmed?
    ensures Since(log + more, i, |log + more|, k)
  {
    forall j | i < j < |log + more| ensures !Rearms((log + more)[j], k) {
      assert (log + more)[j] in more;
    }
  }

  lemma RearmTimed(states: States, log: seq<Event>, states': States, keys: set<Key>, k: Key)
    requires Timed(states, log, k)
    requires k !in keys ==> (k in states' <==> k in states) && (k in states ==> states'[k] == states[k])
    requires k in keys && k in states' ==> !states'[k].exceeded
    ensures Timed(states', log + [AlertRules.Rearmed(keys)], k)
  {
    if k in states' && states'[k].exceeded {
      var i :| Since(log, i, |log|, k) && Nags(log[i], k) && log[i].at == states[k].lastReminder;
      T.SinceLonger(log, [AlertRules.Rearmed(keys)], i, k);
    }
  }

  lemma ActTimed(w: World, a: Action, k: Key)
    requires Timed(w.states, w.log, k)
    ensures Timed(Act(w, a).states, Act(w, a).log, k)
  {
    match a
    case SetTargets(session, ts) =>
      var arming := Retarget(w.states, session, TargetsOf(w, session), ts);
      RetargetArmed(w.states, session, TargetsOf(w, session), ts);
      RearmTimed(w.states, w.log, arming.states, arming.rearmed, k);
    case ClearSession(session) =>
      var gone := OfSession(w.states, session);
      RearmTimed(w.states, w.log, w.states - gone, gone, k);
    case Evaluate(session, probes, sensor, now) =>
      RoundsFollow(w.states, session, TargetsOf(w, session), probes, sensor, now, k);
      RoundTimed(w.states, w.log, JudgeAll(w.states, session, TargetsOf(w, session), probes, sensor, now), k);
  }

  lemma {:induction false} AlwaysTimed(actions: seq<Action>, k: Key)
    ensures Timed(Run(actions).states, Run(actions).log, k)
    decreases |actions|
  {
    if actions != [] {
      AlwaysTimed(actions[..|actions| - 1], k);
      ActTimed(Run(actions[..|actions| - 1]), actions[|actions| - 1], k);
    }
  }

  lemma RunOneMore(actions: seq<Action>, a: Action)
    ensures Run(actions + [a]) == Act(Run(actions), a)
  {
    assert (actions + [a])[..|actions|] == actions;
  }

  /** After any run, a reading strictly above a target of its probe leaves an exceeded event of that probe on record
      for the arming, sent in this evaluation or before. It may have been sent for another device, or another target of
      the probe: modules AlertDevices and AlertSharing say exactly when. */
  lemma CrossingIsAnnounced(actions: seq<Action>, session: string, probes: seq<Probe>, sensor: string, now: real, n: nat)
    requires n < |TargetsOf(Run(actions), session)| && Crossed(probes, TargetsOf(Run(actions), session)[n])
    ensures var k := Key(session, TargetsOf(Run(actions), session)[n].probe);
      var after := Run(actions + [Evaluate(session, probes, sensor, now)]);
      ExceededSince(after.log, |after.log|, k)
  {
    var a := Evaluate(session, probes, sensor, now);
    RunOneMore(actions, a);
    AlertsInOrder(actions + [a]);
    CrossingCounts(Run(actions).states, session, TargetsOf(Run(actions), session), probes, sensor, now, n);
  }

  /** And while it stays above, a reminder (or the first announcement) comes in every evaluation for which the
      interval has passed since all that was heard of the probe in that arming. */
  lemma ReminderComesWhenDue(actions: seq<Action>, session: string, probes: seq<Probe>, sensor: string, now: real, n: nat)
    requires n < |TargetsOf(Run(actions), session)| && Crossed(probes, TargetsOf(Run(actions), session)[n])
    requires var w, t := Run(actions), TargetsOf(Run(actions), session)[n];
      var k := Key(session, t.probe);
      && t.reminderInterval > 0
      && forall i | Since(w.log, i, |w.log|, k) && Nags(w.log[i], k) :: w.log[i].at + t.reminderInterval as real <= now
    ensures var k := Key(session, TargetsOf(Run(actions), session)[n].probe);
      HasNag(JudgeAll(Run(actions).states, session, TargetsOf(Run(actions), session), probes, sensor, now).events, k)
  {
    var w, t := Run(actions), TargetsOf(Run(actions), session)[n];
    AlwaysTimed(actions, Key(session, t.probe));
    CrossingCounts(w.states, session, TargetsOf(w, session), probes, sensor, now, n);
  }
}
