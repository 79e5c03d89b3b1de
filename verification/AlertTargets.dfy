/** The exceeded flag against the present target: a raised target is never silently taken as crossed. */
module AlertTargets {
  import opened Options
  import opened AlertRules
  import opened AlertRuns

  // ---------------------------------------------------------------- what justifies the flag

  /** Since its last rearm the probe had a reading strictly above `c`. */
  ghost predicate ReadAbove(log: seq<Event>, k: Key, c: real) {
    exists i :: Since(log, i, |log|, k) && log[i].Read? && log[i].key == k && log[i].temp > c
  }

  /** A target is justified: if its probe is flagged exceeded, a reading was above the target as it is now. */
  ghost predicate JustifiedFor(states: States, log: seq<Event>, session: string, t: TargetConfig) {
    var k := Key(session, t.probe);
    k in states && states[k].exceeded ==> Ceiling(t).Some? && ReadAbove(log, k, Ceiling(t).value)
  }

  ghost predicate Justified(states: States, log: seq<Event>, session: string, ts: seq<TargetConfig>) {
    forall i | 0 <= i < |ts| :: JustifiedFor(states, log, session, ts[i])
  }

  /** Every probe with state has a target. */
  ghost predicate Tracked(states: States, targets: TargetLists) {
    forall k | k in states :: k.session in targets && Targeted(targets[k.session], k.probe)
  }

  ghost predicate ListsJustified(states: States, log: seq<Event>, targets: TargetLists) {
    && Tracked(states, targets)
    && (forall session | session in targets :: Justified(states, log, session, targets[session]))
  }

  ghost predicate AllJustified(w: World) {
    ListsJustified(w.states, w.log, w.targets)
  }

  ghost predicate Distinct(ts: seq<TargetConfig>) {
    forall i, j | 0 <= i < j < |ts| :: ts[i].probe != ts[j].probe
  }

  /** The target can be held against readings. */
  predicate Evaluable(t: TargetConfig) {
    Ceiling(t).Some? && (t.mode == "fixed" || EffectiveLow(t).Some?)
  }

  /** No target of a probe lies above, or is without, the ceiling of an evaluable target of the same probe. */
  ghost predicate Concordant(ts: seq<TargetConfig>) {
    forall i, j | 0 <= i < |ts| && 0 <= j < |ts| && ts[i].probe == ts[j].probe && Evaluable(ts[i]) :: NotAbove(ts[j], ts[i])
  }

  predicate NotAbove(u: TargetConfig, t: TargetConfig)
    requires Evaluable(t)
  {
    Ceiling(u).Some? && Ceiling(u).value <= Ceiling(t).value
  }

  ghost predicate ConcordantLists(targets: TargetLists) {
    forall session | session in targets :: Concordant(targets[session])
  }

  /** Lists that name no probe twice are concordant. */
  lemma DistinctIsConcordant(ts: seq<TargetConfig>)
    requires Distinct(ts)
    ensures Concordant(ts)
  {
  }

  /** So are lists that give each probe one ceiling only, as a start with one list for all devices saves them. */
  lemma OneCeilingIsConcordant(ts: seq<TargetConfig>)
    requires forall i, j | 0 <= i < |ts| && 0 <= j < |ts| && ts[i].probe == ts[j].probe :: Ceiling(ts[i]) == Ceiling(ts[j])
    ensures Concordant(ts)
  {
  }

  // ---------------------------------------------------------------- readings

  lemma SinceLonger(log: seq<Event>, more: seq<Event>, i: int, k: Key)
    requires Since(log, i, |log|, k) && forall e | e in more :: !Rearms(e, k)
    ensures Since(log + more, i, |log + more|, k) && (log + more)[i] == log[i]
  {
    var all := log + more;
    forall j | i < j < |all| ensures !Rearms(all[j], k) {
      if j >= |log| {
        assert all[j] in more;
      } else {
        assert all[j] == log[j];
      }
    }
  }

  lemma ReadAboveLonger(log: seq<Event>, more: seq<Event>, k: Key, c: real)
    requires ReadAbove(log, k, c) && forall e | e in more :: !Rearms(e, k)
    ensures ReadAbove(log + more, k, c)
  {
    var i :| Since(log, i, |log|, k) && log[i].Read? && log[i].key == k && log[i].temp > c;
    SinceLonger(log, more, i, k);
  }

  lemma AnnouncementFacts(f: Flags, k: Key, t: TargetConfig, s: Standing, sensor: string, now: real)
    ensures var said := Announcements(f, k, t, s, sensor, now);
      && (forall e | e in said.events :: e.Alert?)
      && (said.flags.exceeded ==> f.exceeded || s.exceeded)
  {
  }

  lemma StandExceeds(t: TargetConfig, temp: real)
    ensures Stand(t, temp).Some? && Stand(t, temp).value.exceeded ==> Ceiling(t).Some? && temp > Ceiling(t).value
  {
  }

  /** A round over one target logs no rearm, leaves other probes alone, and justifies its own flag. */
  lemma JudgeJustified(states: States, log: seq<Event>, session: string, t: TargetConfig, probes: seq<Probe>, sensor: string, now: real)
    requires JustifiedFor(states, log, session, t)
    ensures var r := JudgeTarget(states, session, t, probes, sensor, now);
      && (forall e | e in r.events :: !e.Rearmed?)
      && (forall k | k != Key(session, t.probe) :: (k in r.states <==> k in states) && (k in states ==> r.states[k] == states[k]))
      && JustifiedFor(r.states, log + r.events, session, t)
  {
    var p := Lookup(probes, t.probe);
    var k := Key(session, t.probe);
    if p.None? || p.value.unplugged || p.value.temp.None? {
      assert log + [] == log;
    } else {
      var temp := p.value.temp.value;
      var f := if k in states then states[k] else FRESH;
      var stand := Stand(t, temp);
      if stand.None? {
        assert log + [] == log;
      } else {
        var said := Announcements(f, k, t, stand.value, sensor, now);
        AnnouncementFacts(f, k, t, stand.value, sensor, now);
        StandExceeds(t, temp);
        var read := Read(k, sensor, temp, Ceiling(t).value);
        var more := [read] + said.events;
        if f.exceeded {
          ReadAboveLonger(log, more, k, Ceiling(t).value);
        } else if said.flags.exceeded {
          assert Since(log + [read], |log|, |log| + 1, k);
          assert (log + [read])[|log|] == read;
          assert ReadAbove(log + [read], k, Ceiling(t).value);
          ReadAboveLonger(log + [read], said.events, k, Ceiling(t).value);
          assert log + more == log + [read] + said.events;
        }
      }
    }
  }

  /** A target whose probe a round does not judge stays justified through it. */
  lemma OtherJustified(states: States, log: seq<Event>, states': States, more: seq<Event>, session: string, t: TargetConfig)
    requires JustifiedFor(states, log, session, t)
    requires var k := Key(session, t.probe); (k in states' <==> k in states) && (k in states ==> states'[k] == states[k])
    requires forall e | e in more :: !e.Rearmed?
    ensures JustifiedFor(states', log + more, session, t)
  {
    var k := Key(session, t.probe);
    if k in states && states[k].exceeded {
      ReadAboveLonger(log, more, k, Ceiling(t).value);
    }
  }

  lemma StandsIfEvaluable(t: TargetConfig, temp: real)
    ensures Stand(t, temp).Some? <==> Evaluable(t)
  {
  }

  /** A second target of the judged probe stays justified too, if it is not above the judged one. */
  lemma SharedJustified(states: States, log: seq<Event>, session: string, t: TargetConfig, u: TargetConfig, probes: seq<Probe>, sensor: string, now: real)
    requires JustifiedFor(states, log, session, t) && JustifiedFor(states, log, session, u) && t.probe == u.probe
    requires Evaluable(t) ==> NotAbove(u, t)
    ensures var r := JudgeTarget(states, session, t, probes, sensor, now); JustifiedFor(r.states, log + r.events, session, u)
  {
    var r, k := JudgeTarget(states, session, t, probes, sensor, now), Key(session, t.probe);
    if Evaluable(t) {
      JudgeJustified(states, log, session, t, probes, sensor, now);
      if k in r.states && r.states[k].exceeded {
        var i :| Since(log + r.events, i, |log + r.events|, k) && (log + r.events)[i].Read? && (log + r.events)[i].key == k
          && (log + r.events)[i].temp > Ceiling(t).value;
      }
    } else {
      UnjudgedIsQuiet(states, session, t, probes, sensor, now);
      assert log + [] == log;
    }
  }

  lemma UnjudgedIsQuiet(states: States, session: string, t: TargetConfig, probes: seq<Probe>, sensor: string, now: real)
    requires !Evaluable(t)
    ensures var r, k := JudgeTarget(states, session, t, probes, sensor, now), Key(session, t.probe);
      r.events == [] && (k in r.states && r.states[k].exceeded ==> k in states && states[k].exceeded)
  {
    var p := Lookup(probes, t.probe);
    if p.Some? && p.value.temp.Some? {
      StandsIfEvaluable(t, p.value.temp.value);
    }
  }

  lemma OneTargetJustified(states: States, log: seq<Event>, targets: TargetLists, session: string, n: nat, probes: seq<Probe>, sensor: string, now: real)
    requires session in targets && n < |targets[session]| && Concordant(targets[session])
    requires ListsJustified(states, log, targets)
    ensures var r := JudgeTarget(states, session, targets[session][n], probes, sensor, now); ListsJustified(r.states, log + r.events, targets)
  {
    var t := targets[session][n];
    var r := JudgeTarget(states, session, t, probes, sensor, now);
    assert Justified(states, log, session, targets[session]);
    JudgeJustified(states, log, session, t, probes, sensor, now);
    forall s, i | s in targets && 0 <= i < |targets[s]| ensures JustifiedFor(r.states, log + r.events, s, targets[s][i]) {
      assert Justified(states, log, s, targets[s]);
      if s == session && targets[s][i].probe == t.probe {
        SharedJustified(states, log, session, t, targets[s][i], probes, sensor, now);
      } else {
        OtherJustified(states, log, r.states, r.events, s, targets[s][i]);
      }
    }
    assert Targeted(targets[session], t.probe);
  }

  /** A whole evaluation of a concordant list: all lists stay justified. */
  lemma {:induction false} JudgeAllJustified(states: States, log: seq<Event>, targets: TargetLists, session: string, n: nat, probes: seq<Probe>, sensor: string, now: real)
    requires session in targets && n <= |targets[session]| && Concordant(targets[session])
    requires ListsJustified(states, log, targets)
    ensures var r := JudgeAll(states, session, targets[session][..n], probes, sensor, now); ListsJustified(r.states, log + r.events, targets)
    decreases n
  {
    var ts := targets[session];
    if n == 0 {
      assert log + [] == log;
    } else {
      JudgeAllJustified(states, log, targets, session, n - 1, probes, sensor, now);
      assert ts[..n][..n - 1] == ts[..n - 1];
      var before := JudgeAll(states, session, ts[..n - 1], probes, sensor, now);
      OneTargetJustified(before.states, log + before.events, targets, session, n - 1, probes, sensor, now);
      var r := JudgeTarget(before.states, session, ts[n - 1], probes, sensor, now);
      assert log + (before.events + r.events) == log + before.events + r.events;
    }
  }

  // ---------------------------------------------------------------- target changes

  lemma {:induction false} ByIndexFinds(ts: seq<TargetConfig>, index: int)
    requires Targeted(ts, index)
    ensures ByIndex(ts, index).Some? && ByIndex(ts, index).value in ts && ByIndex(ts, index).value.probe == index
    decreases |ts|
  {
    if ts[|ts| - 1].probe != index {
      var i :| 0 <= i < |ts| && ts[i].probe == index;
      assert ts[..|ts| - 1][i].probe == index;
      ByIndexFinds(ts[..|ts| - 1], index);
    }
  }

  lemma ArmingGrows(a: Arming, session: string, olds: seq<TargetConfig>, ts: seq<TargetConfig>)
    ensures a.rearmed <= ArmAll(a, session, olds, ts).rearmed
    decreases |ts|
  {
    if ts != [] {
      ArmingGrows(a, session, olds, ts[..|ts| - 1]);
    }
  }

  /** A targeted probe that was not rearmed had a comparable target that was not raised. */
  lemma {:induction false} NotRearmedNotRaised(a: Arming, session: string, olds: seq<TargetConfig>, ts: seq<TargetConfig>, i: nat)
    requires i < |ts| && Key(session, ts[i].probe) !in ArmAll(a, session, olds, ts).rearmed
    ensures var was := ByIndex(olds, ts[i].probe); was.Some? ==> !StartsOver(was.value, ts[i])
    decreases |ts|
  {
    var init := ts[..|ts| - 1];
    if i < |ts| - 1 {
      assert init[i] == ts[i];
      NotRearmedNotRaised(a, session, olds, init, i);
    }
  }

  /** Replacing a session's targets leaves every list justified, the new one included. */
  lemma SetTargetsJustified(w: World, session: string, ts: seq<TargetConfig>)
    requires AllJustified(w)
    ensures AllJustified(Act(w, SetTargets(session, ts)))
  {
    var olds := TargetsOf(w, session);
    var arming := Retarget(w.states, session, olds, ts);
    var w' := Act(w, SetTargets(session, ts));
    RetargetArmed(w.states, session, olds, ts);
    RetargetTracked(w.states, session, olds, ts);
    forall s, i | s in w'.targets && 0 <= i < |w'.targets[s]| ensures JustifiedFor(w'.states, w'.log, s, w'.targets[s][i]) {
      var t := w'.targets[s][i];
      var k := Key(s, t.probe);
      if k in w'.states && w'.states[k].exceeded {
        assert k !in arming.rearmed;
        if s == session {
          assert Targeted(olds, t.probe);
          ByIndexFinds(olds, t.probe);
          NotRearmedNotRaised(Arming(w.states - Stale(w.states, session, ts), Stale(w.states, session, ts)), session, olds, ts, i);
          var was := ByIndex(olds, t.probe).value;
          var j :| 0 <= j < |olds| && olds[j] == was;
          assert JustifiedFor(w.states, w.log, session, olds[j]);
          ReadAboveLonger(w.log, [Rearmed(arming.rearmed)], k, Ceiling(was).value);
        } else {
          assert JustifiedFor(w.states, w.log, s, w.targets[s][i]);
          ReadAboveLonger(w.log, [Rearmed(arming.rearmed)], k, Ceiling(t).value);
        }
      }
    }
  }

  /** After a change of targets, the session's states are those of its targeted probes. */
  lemma RetargetTracked(states: States, session: string, olds: seq<TargetConfig>, ts: seq<TargetConfig>)
    ensures forall k | k in Retarget(states, session, olds, ts).states && k.session == session :: Targeted(ts, k.probe)
  {
    var stale := Stale(states, session, ts);
    ArmAllTargets(Arming(states - stale, stale), session, olds, ts, ts);
  }

  lemma {:induction false} ArmAllTargets(a: Arming, session: string, olds: seq<TargetConfig>, ts: seq<TargetConfig>, all: seq<TargetConfig>)
    requires ts <= all && forall k | k in a.states && k.session == session :: Targeted(all, k.probe)
    ensures forall k | k in ArmAll(a, session, olds, ts).states && k.session == session :: Targeted(all, k.probe)
    decreases |ts|
  {
    if ts != [] {
      ArmAllTargets(a, session, olds, ts[..|ts| - 1], all);
      assert all[|ts| - 1] == ts[|ts| - 1];
    }
  }

  lemma ClearJustified(w: World, session: string)
    requires AllJustified(w)
    ensures AllJustified(Act(w, ClearSession(session)))
  {
    var w' := Act(w, ClearSession(session));
    forall s, i | s in w'.targets && 0 <= i < |w'.targets[s]| ensures JustifiedFor(w'.states, w'.log, s, w'.targets[s][i]) {
      var k := Key(s, w'.targets[s][i].probe);
      if k in w'.states && w'.states[k].exceeded {
        assert JustifiedFor(w.states, w.log, s, w.targets[s][i]);
        ReadAboveLonger(w.log, [Rearmed(OfSession(w.states, session))], k, Ceiling(w'.targets[s][i]).value);
      }
    }
  }

  ghost predicate ConcordantAction(a: Action) {
    a.SetTargets? ==> Concordant(a.ts)
  }

  /** In every run of concordant target lists: whenever a probe is flagged exceeded, a reading since its last
      rearm was strictly above each of its targets as it stands now, in Celsius, through any sequence of edits,
      unit changes and mode changes. So a raised target is never silently taken as crossed. */
  lemma {:induction false} ExceededMeansAbovePresentTarget(actions: seq<Action>)
    requires forall i | 0 <= i < |actions| :: ConcordantAction(actions[i])
    ensures AllJustified(Run(actions)) && ConcordantLists(Run(actions).targets)
    decreases |actions|
  {
    if actions != [] {
      ExceededMeansAbovePresentTarget(actions[..|actions| - 1]);
      var w, a := Run(actions[..|actions| - 1]), actions[|actions| - 1];
      match a
      case SetTargets(session, ts) => SetTargetsJustified(w, session, ts);
      case ClearSession(session) => ClearJustified(w, session);
      case Evaluate(session, probes, sensor, now) => EvaluateJustified(w, session, probes, sensor, now);
    }
  }

  lemma EvaluateJustified(w: World, session: string, probes: seq<Probe>, sensor: string, now: real)
    requires AllJustified(w) && ConcordantLists(w.targets)
    ensures AllJustified(Act(w, Evaluate(session, probes, sensor, now)))
  {
    var ts := TargetsOf(w, session);
    assert ts[..|ts|] == ts;
    if session in w.targets {
      JudgeAllJustified(w.states, w.log, w.targets, session, |ts|, probes, sensor, now);
    } else {
      assert w.log + [] == w.log;
    }
  }
}
