/** Which probes a change of targets starts over, and which keep what has been announced of them, exactly. */
module AlertRearms {
  import opened Options
  import opened AlertRules
  import opened AlertRuns
  import opened AlertTargets

  /** Entry `j` is the last one of the list for `probe`. */
  ghost predicate LastFor(ts: seq<TargetConfig>, probe: int, j: int) {
    0 <= j < |ts| && ts[j].probe == probe && forall i | j < i < |ts| :: ts[i].probe != probe
  }

  /** Both targets have a value, and the new one is not above the old one. */
  predicate NotRaised(was: TargetConfig, now: TargetConfig) {
    Ceiling(was).Some? && Ceiling(now).Some? && Ceiling(now).value <= Ceiling(was).value
  }

  /** No new target of the probe is raised over the last old one, or hard to compare with it. */
  ghost predicate Spared(olds: seq<TargetConfig>, ts: seq<TargetConfig>, probe: int) {
    forall i, j | 0 <= i < |ts| && ts[i].probe == probe && LastFor(olds, probe, j) :: NotRaised(olds[j], ts[i])
  }

  lemma {:induction false} ByIndexIsLast(ts: seq<TargetConfig>, probe: int)
    ensures ByIndex(ts, probe).None? ==> forall j :: !LastFor(ts, probe, j)
    ensures ByIndex(ts, probe).Some? ==> exists j :: LastFor(ts, probe, j) && ts[j] == ByIndex(ts, probe).value
    decreases |ts|
  {
    if ts != [] {
      var init := ts[..|ts| - 1];
      ByIndexIsLast(init, probe);
      if ts[|ts| - 1].probe == probe {
        assert LastFor(ts, probe, |ts| - 1);
      } else {
        forall j ensures LastFor(ts, probe, j) <==> LastFor(init, probe, j) {
          assert 0 <= j < |init| ==> init[j] == ts[j];
        }
        if j :| LastFor(init, probe, j) && init[j] == ByIndex(init, probe).value {
          assert ts[j] == init[j];
        }
      }
    }
  }

  lemma LastIsOne(ts: seq<TargetConfig>, probe: int, i: int, j: int)
    requires LastFor(ts, probe, i) && LastFor(ts, probe, j)
    ensures i == j
  {
  }

  /** One new target spares the probe or starts it over. */
  lemma SparedByLast(olds: seq<TargetConfig>, t: TargetConfig, was: Option<TargetConfig>)
    requires was == ByIndex(olds, t.probe)
    ensures (forall j | LastFor(olds, t.probe, j) :: NotRaised(olds[j], t)) <==> !(was.Some? && StartsOver(was.value, t))
  {
    ByIndexIsLast(olds, t.probe);
    if was.Some? {
      var j :| LastFor(olds, t.probe, j) && olds[j] == was.value;
      forall i | LastFor(olds, t.probe, i) ensures i == j {
        LastIsOne(olds, t.probe, i, j);
      }
    }
  }

  /** What arming with a list does to probe `k` of the session. */
  ghost predicate ArmedExactly(a: Arming, r: Arming, olds: seq<TargetConfig>, ts: seq<TargetConfig>, k: Key) {
    && (k in r.rearmed <==> Targeted(ts, k.probe) && (k !in a.states || !Spared(olds, ts, k.probe)))
    && (k in r.states <==> k in a.states || Targeted(ts, k.probe))
    && (k in r.rearmed ==> r.states[k] == FRESH)
    && (k !in r.rearmed && k in a.states ==> r.states[k] == a.states[k])
  }

  lemma SparedMore(olds: seq<TargetConfig>, ts: seq<TargetConfig>, probe: int)
    requires ts != []
    ensures Spared(olds, ts, probe) <==>
      && Spared(olds, ts[..|ts| - 1], probe)
      && (ts[|ts| - 1].probe == probe ==> forall j | LastFor(olds, probe, j) :: NotRaised(olds[j], ts[|ts| - 1]))
    ensures Targeted(ts, probe) <==> Targeted(ts[..|ts| - 1], probe) || ts[|ts| - 1].probe == probe
  {
    var init := ts[..|ts| - 1];
    assert forall i | 0 <= i < |init| :: init[i] == ts[i];
    if Targeted(ts, probe) {
      var i :| 0 <= i < |ts| && ts[i].probe == probe;
      assert i < |init| ==> init[i].probe == probe;
    }
  }

  lemma {:induction false} ArmAllExactly(a: Arming, session: string, olds: seq<TargetConfig>, ts: seq<TargetConfig>, k: Key)
    requires k.session == session && k !in a.rearmed
    ensures ArmedExactly(a, ArmAll(a, session, olds, ts), olds, ts, k)
    decreases |ts|
  {
    if ts != [] {
      var init, last := ts[..|ts| - 1], ts[|ts| - 1];
      ArmAllExactly(a, session, olds, init, k);
      SparedMore(olds, ts, k.probe);
      SparedByLast(olds, last, ByIndex(olds, last.probe));
    }
  }

  lemma {:induction false} OtherSessionsAlone(a: Arming, session: string, olds: seq<TargetConfig>, ts: seq<TargetConfig>, k: Key)
    requires k.session != session
    ensures var r := ArmAll(a, session, olds, ts);
      (k in r.states <==> k in a.states) && (k in a.states ==> r.states[k] == a.states[k]) && (k in r.rearmed <==> k in a.rearmed)
    decreases |ts|
  {
    if ts != [] {
      OtherSessionsAlone(a, session, olds, ts[..|ts| - 1], k);
    }
  }

  /** In any state: replacing a session's targets logs one rearm and keeps every flag of other sessions. In the
      session, a probe without a new target is forgotten; one with a target starts over exactly if it had no state
      or a new target of it is raised over its last old one, or one of the two has no value; otherwise it keeps
      its flags. */
  lemma RearmedExactlyWhen(w: World, session: string, ts: seq<TargetConfig>, k: Key)
    ensures var w' := Act(w, SetTargets(session, ts));
      && |w'.log| == |w.log| + 1 && w.log <= w'.log && w'.targets == w.targets[session := ts]
      && var started := Rearms(w'.log[|w.log|], k);
        if k.session != session then !started && (k in w'.states <==> k in w.states) && (k in w.states ==> w'.states[k] == w.states[k])
        else if !Targeted(ts, k.probe) then k !in w'.states && (started <==> k in w.states)
        else
          && k in w'.states
          && (started <==> k !in w.states || !Spared(TargetsOf(w, session), ts, k.probe))
          && w'.states[k] == if started then FRESH else w.states[k]
  {
    var olds, stale := TargetsOf(w, session), Stale(w.states, session, ts);
    var a := Arming(w.states - stale, stale);
    if k.session != session {
      OtherSessionsAlone(a, session, olds, ts, k);
    } else if Targeted(ts, k.probe) {
      ArmAllExactly(a, session, olds, ts, k);
    } else {
      NeverArmed(a, session, olds, ts, k);
    }
  }

  lemma {:induction false} NeverArmed(a: Arming, session: string, olds: seq<TargetConfig>, ts: seq<TargetConfig>, k: Key)
    requires !Targeted(ts, k.probe)
    ensures var r := ArmAll(a, session, olds, ts); (k in r.states <==> k in a.states) && (k in r.rearmed <==> k in a.rearmed)
    decreases |ts|
  {
    if ts != [] {
      SparedMore(olds, ts, k.probe);
      NeverArmed(a, session, olds, ts[..|ts| - 1], k);
    }
  }

  /** With lists that name no probe twice: a probe targeted before and after keeps what was announced of it, and is
      not started over, if and only if both targets have a value and the new one is not above the old one. */
  lemma KeptExactlyWhenNotRaised(w: World, session: string, ts: seq<TargetConfig>, i: nat, j: nat)
    requires Distinct(TargetsOf(w, session)) && Distinct(ts)
    requires i < |TargetsOf(w, session)| && j < |ts| && TargetsOf(w, session)[i].probe == ts[j].probe
    requires Key(session, ts[j].probe) in w.states
    ensures var w', k := Act(w, SetTargets(session, ts)), Key(session, ts[j].probe);
      && |w'.log| == |w.log| + 1
      && (!Rearms(w'.log[|w.log|], k) <==> NotRaised(TargetsOf(w, session)[i], ts[j]))
      && k in w'.states && w'.states[k] == if NotRaised(TargetsOf(w, session)[i], ts[j]) then w.states[k] else FRESH
  {
    var olds, k := TargetsOf(w, session), Key(session, ts[j].probe);
    RearmedExactlyWhen(w, session, ts, k);
    assert LastFor(olds, k.probe, i);
    forall x | LastFor(olds, k.probe, x) ensures x == i {
      LastIsOne(olds, k.probe, x, i);
    }
    assert Targeted(ts, k.probe);
  }

  /** The end of a session forgets its probes, and those only. */
  lemma ClearedExactly(w: World, session: string, k: Key)
    ensures var w' := Act(w, ClearSession(session));
      && (forall other :: other in w'.targets <==> other in w.targets && other != session)
      && (forall other | other in w'.targets :: w'.targets[other] == w.targets[other])
      && |w'.log| == |w.log| + 1 && w.log <= w'.log
      && (Rearms(w'.log[|w.log|], k) <==> k in w.states && k.session == session)
      && (k in w'.states <==> k in w.states && k.session != session)
      && (k in w'.states ==> w'.states[k] == w.states[k])
  {
  }
}
