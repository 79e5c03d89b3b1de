/** Targets that name one probe share its flags: for exactly which lists a flag stands for each of them. */
module AlertSharing {
  import opened Options
  import opened AlertRules
  import opened AlertRuns
  import opened AlertTargets
  import opened AlertDelivery
  import opened AlertDevices

  /** A reading of `probe` alone. */
  function Single(probe: int, temp: real): seq<Probe> {
    [Probe(probe, false, Some(temp))]
  }

  /** A reading above target `t` that is not above target `u`. */
  function Between(t: TargetConfig, u: TargetConfig): real
    requires Evaluable(t)
  {
    if Ceiling(u).Some? then Ceiling(u).value else Ceiling(t).value + 1.0
  }

  /** The run, then a fresh start of the session with this list, and one reading between the two targets. */
  function Shared(actions: seq<Action>, session: string, ts: seq<TargetConfig>, i: nat, j: nat, sensor: string, now: real): seq<Action>
    requires i < |ts| && j < |ts| && Evaluable(ts[i])
  {
    Fresh(actions, session, ts) + [Evaluate(session, Single(ts[i].probe, Between(ts[i], ts[j])), sensor, now)]
  }

  function Fresh(actions: seq<Action>, session: string, ts: seq<TargetConfig>): seq<Action> {
    actions + [ClearSession(session)] + [SetTargets(session, ts)]
  }

  lemma {:induction false} ArmedAnew(a: Arming, session: string, olds: seq<TargetConfig>, ts: seq<TargetConfig>, n: nat)
    requires n < |ts| && Key(session, ts[n].probe) !in a.states
    ensures Key(session, ts[n].probe) in ArmAll(a, session, olds, ts).rearmed
    ensures forall k | k in ArmAll(a, session, olds, ts).states && k !in a.states :: k in ArmAll(a, session, olds, ts).rearmed
    decreases |ts|
  {
    var init := ts[..|ts| - 1];
    if n < |init| {
      ArmedAnew(a, session, olds, init, n);
    } else if init != [] {
      ArmedIsNoted(a, session, olds, init);
    }
  }

  lemma {:induction false} ArmedIsNoted(a: Arming, session: string, olds: seq<TargetConfig>, ts: seq<TargetConfig>)
    ensures forall k | k in ArmAll(a, session, olds, ts).states && k !in a.states :: k in ArmAll(a, session, olds, ts).rearmed
    decreases |ts|
  {
    if ts != [] {
      ArmedIsNoted(a, session, olds, ts[..|ts| - 1]);
    }
  }

  /** After a fresh start of the session its targeted probes have just been rearmed. */
  lemma FreshRearms(actions: seq<Action>, session: string, ts: seq<TargetConfig>, n: nat)
    requires n < |ts|
    ensures var w := Run(Fresh(actions, session, ts));
      TargetsOf(w, session) == ts && w.log != [] && Rearms(w.log[|w.log| - 1], Key(session, ts[n].probe))
  {
    RunOneMore(actions, ClearSession(session));
    RunOneMore(actions + [ClearSession(session)], SetTargets(session, ts));
    var w := Run(actions + [ClearSession(session)]);
    assert Key(session, ts[n].probe) !in w.states;
    ArmedAnew(Arming(w.states - Stale(w.states, session, ts), Stale(w.states, session, ts)), session, TargetsOf(w, session), ts, n);
  }

  lemma {:induction false} ReadsAreTheReading(states: States, session: string, ts: seq<TargetConfig>, probe: int, temp: real, sensor: string, now: real)
    ensures forall e | e in JudgeAll(states, session, ts, Single(probe, temp), sensor, now).events :: e.Read? ==> e.temp == temp
    ensures forall e | e in JudgeAll(states, session, ts, Single(probe, temp), sensor, now).events :: !e.Rearmed?
    decreases |ts|
  {
    if ts != [] {
      var before := JudgeAll(states, session, ts[..|ts| - 1], Single(probe, temp), sensor, now);
      ReadsAreTheReading(states, session, ts[..|ts| - 1], probe, temp, sensor, now);
      TargetReads(before.states, session, ts[|ts| - 1], probe, temp, sensor, now);
    }
  }

  lemma TargetReads(states: States, session: string, t: TargetConfig, probe: int, temp: real, sensor: string, now: real)
    ensures forall e | e in JudgeTarget(states, session, t, Single(probe, temp), sensor, now).events :: (e.Read? ==> e.temp == temp) && !e.Rearmed?
  {
    var own := Key(session, t.probe);
    assert Single(probe, temp)[1..] == [];
    assert Lookup(Single(probe, temp), t.probe) == if t.probe == probe then Some(Probe(probe, false, Some(temp))) else None;
    if t.probe == probe && Stand(t, temp).Some? {
      AnnouncedNow(if own in states then states[own] else FRESH, own, t, Stand(t, temp).value, sensor, now);
    }
  }

  /** If one target of a probe lies above another that can be evaluated, or has no value, then whatever happened
      before, one reading between them flags the probe although nothing was read above that target. */
  lemma DiscordIsUnjustified(actions: seq<Action>, session: string, ts: seq<TargetConfig>, i: nat, j: nat, sensor: string, now: real)
    requires i < |ts| && j < |ts| && ts[i].probe == ts[j].probe && Evaluable(ts[i]) && !NotAbove(ts[j], ts[i])
    ensures var w := Run(Shared(actions, session, ts, i, j, sensor, now));
      !JustifiedFor(w.states, w.log, session, ts[j]) && ExceededSince(w.log, |w.log|, Key(session, ts[j].probe))
  {
    var begun, k, temp := Run(Fresh(actions, session, ts)), Key(session, ts[j].probe), Between(ts[i], ts[j]);
    var probes := Single(ts[i].probe, temp);
    FreshRearms(actions, session, ts, i);
    RunOneMore(Fresh(actions, session, ts), Evaluate(session, probes, sensor, now));
    StandsIfEvaluable(ts[i], temp);
    assert Crossed(probes, ts[i]);
    CrossingCounts(begun.states, session, ts, probes, sensor, now, i);
    CrossingIsAnnounced(Fresh(actions, session, ts), session, probes, sensor, now, i);
    ReadsAreTheReading(begun.states, session, ts, ts[i].probe, temp, sensor, now);
    NothingAbove(begun.log, JudgeAll(begun.states, session, ts, probes, sensor, now).events, k, temp);
  }

  lemma NothingAbove(log: seq<Event>, events: seq<Event>, k: Key, temp: real)
    requires log != [] && Rearms(log[|log| - 1], k)
    requires forall e | e in events :: e.Read? ==> e.temp == temp
    ensures !ReadAbove(log + events, k, temp)
  {
    var all := log + events;
    assert Rearms(all[|log| - 1], k) && all[|log| - 1].Rearmed?;
    forall i | Since(all, i, |all|, k) && all[i].Read? ensures all[i].temp == temp {
      assert i >= |log|;
      assert all[i] == events[i - |log|];
    }
  }

  /** And the crossing of the higher target, when it comes, is not announced: nothing that is logged before the next
      rearm of the probe, through any readings and target changes, is an exceeded event of it. */
  lemma HigherCrossingIsSilent(actions: seq<Action>, session: string, ts: seq<TargetConfig>, i: nat, j: nat, sensor: string, now: real, more: seq<Action>)
    requires i < |ts| && j < |ts| && ts[i].probe == ts[j].probe && Evaluable(ts[i]) && !NotAbove(ts[j], ts[i])
    ensures var k, shared := Key(session, ts[j].probe), Shared(actions, session, ts, i, j, sensor, now);
      var log, from := Run(shared + more).log, |Run(shared).log|;
      && from <= |log|
      && forall x | from <= x < |log| && IsExceeded(log[x], k) :: exists m | from <= m < x :: Rearms(log[m], k)
  {
    DiscordIsUnjustified(actions, session, ts, i, j, sensor, now);
    SilentUntilRearmed(Shared(actions, session, ts, i, j, sensor, now), more, Key(session, ts[j].probe));
  }

  /** Concordance is exactly what it takes for flags to be about targets: a list is concordant if and only if,
      started afresh after any run of concordant lists, no evaluation of it leaves a flag without a reading above
      each target it stands for. */
  lemma ConcordantExactly(actions: seq<Action>, session: string, ts: seq<TargetConfig>)
    requires forall i | 0 <= i < |actions| :: ConcordantAction(actions[i])
    ensures Concordant(ts) <==>
      forall probes, sensor, now :: AllJustified(Run(Fresh(actions, session, ts) + [Evaluate(session, probes, sensor, now)]))
  {
    if Concordant(ts) {
      forall probes, sensor, now ensures AllJustified(Run(Fresh(actions, session, ts) + [Evaluate(session, probes, sensor, now)])) {
        ExceededMeansAbovePresentTarget(Fresh(actions, session, ts) + [Evaluate(session, probes, sensor, now)]);
      }
    } else {
      var i, j :| 0 <= i < |ts| && 0 <= j < |ts| && ts[i].probe == ts[j].probe && Evaluable(ts[i]) && !NotAbove(ts[j], ts[i]);
      DiscordIsUnjustified(actions, session, ts, i, j, "", 0.0);
      FreshRearms(actions, session, ts, i);
      RunOneMore(Fresh(actions, session, ts), Evaluate(session, Single(ts[i].probe, Between(ts[i], ts[j])), "", 0.0));
      var w := Run(Shared(actions, session, ts, i, j, "", 0.0));
      assert w.targets[session][j] == ts[j] && !AllJustified(w);
    }
  }
}
