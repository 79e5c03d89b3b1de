/** What a listener hears from the evaluator over a whole run of readings and target changes. */
module AlertRuns {
  import opened Options
  import opened AlertRules

  datatype World = World(states: States, targets: TargetLists, log: seq<Event>)

  datatype Action =
    | SetTargets(session: string, ts: seq<TargetConfig>)
    | ClearSession(session: string)
    | Evaluate(session: string, probes: seq<Probe>, sensor: string, now: real)

  function TargetsOf(w: World, session: string): seq<TargetConfig> {
    if session in w.targets then w.targets[session] else []
  }

  function Act(w: World, a: Action): World {
    match a
    case SetTargets(session, ts) =>
      var arming := Retarget(w.states, session, TargetsOf(w, session), ts);
      World(arming.states, w.targets[session := ts], w.log + [Rearmed(arming.rearmed)])
    case ClearSession(session) =>
      var gone := OfSession(w.states, session);
      World(w.states - gone, w.targets - {session}, w.log + [Rearmed(gone)])
    case Evaluate(session, probes, sensor, now) =>
      var round := JudgeAll(w.states, session, TargetsOf(w, session), probes, sensor, now);
      World(round.states, w.targets, w.log + round.events)
  }

  function Run(actions: seq<Action>): World
    decreases |actions|
  {
    if actions == [] then World(map[], map[], []) else Act(Run(actions[..|actions| - 1]), actions[|actions| - 1])
  }

  // ---------------------------------------------------------------- reading the log

  predicate Rearms(e: Event, k: Key) {
    e.Rearmed? && k in e.keys
  }

  /** Position `i` was logged for `k` after its last rearm before position `n`. */
  ghost predicate Since(log: seq<Event>, i: int, n: int, k: Key) {
    0 <= i < n <= |log| && forall j | i < j < n :: !Rearms(log[j], k)
  }

  /** Approaching, reached, exceeded, in that order; the high-side warning of a range has no place in it. */
  function Rank(kind: Kind): nat {
    match kind
    case Approaching => 1
    case Reached => 2
    case Exceeded => 3
    case _ => 0
  }

  predicate StageFor(e: Event, k: Key) {
    e.Alert? && e.key == k && Rank(e.kind) > 0
  }

  /** Between rearms each stage is announced at most once, and only in the order approaching, reached, exceeded. */
  ghost predicate StagesAscend(log: seq<Event>) {
    forall i, j, k | 0 <= i < j < |log| && StageFor(log[i], k) && StageFor(log[j], k) && Since(log, i, j, k) ::
      Rank(log[i].kind) < Rank(log[j].kind)
  }

  predicate Nags(e: Event, k: Key) {
    e.Alert? && e.key == k && (e.kind == Exceeded || e.kind == Reminder)
  }

  predicate RemindsFor(e: Event, k: Key) {
    e.Alert? && e.key == k && e.kind == Reminder
  }

  ghost predicate ExceededSince(log: seq<Event>, n: int, k: Key) {
    exists i :: Since(log, i, n, k) && log[i].Alert? && log[i].key == k && log[i].kind == Exceeded
  }

  /** Every reminder follows an exceeded event of the same arming. */
  ghost predicate RemindersFollow(log: seq<Event>) {
    forall j | 0 <= j < |log| && log[j].Alert? && log[j].kind == Reminder :: ExceededSince(log, j, log[j].key)
  }

  /** A reminder comes at least its own interval after every earlier exceeded or reminder event of the arming. */
  ghost predicate RemindersSpaced(log: seq<Event>) {
    forall i, j, k | 0 <= i < j < |log| && Nags(log[i], k) && RemindsFor(log[j], k) && Since(log, i, j, k) ::
      log[i].at + log[j].interval as real <= log[j].at
  }

  // ---------------------------------------------------------------- flags against the log

  predicate Sent(f: Flags, rank: nat) {
    (rank >= 1 ==> f.approaching) && (rank >= 2 ==> f.reached) && (rank >= 3 ==> f.exceeded)
  }

  /** A stage announced since the last rearm is still flagged. */
  ghost predicate StagesFlagged(states: States, log: seq<Event>) {
    forall i, k | 0 <= i < |log| && StageFor(log[i], k) && Since(log, i, |log|, k) ::
      k in states && Sent(states[k], Rank(log[i].kind))
  }

  ghost predicate NagsRemembered(states: States, log: seq<Event>) {
    forall i, k | 0 <= i < |log| && Nags(log[i], k) && Since(log, i, |log|, k) ::
      k in states && states[k].exceeded && log[i].at <= states[k].lastReminder
  }

  ghost predicate ExceededLogged(states: States, log: seq<Event>) {
    forall k | k in states && states[k].exceeded :: ExceededSince(log, |log|, k)
  }

  ghost predicate Coherent(states: States, log: seq<Event>) {
    && StagesAscend(log) && RemindersFollow(log) && RemindersSpaced(log)
    && StagesFlagged(states, log) && NagsRemembered(states, log) && ExceededLogged(states, log)
  }

  lemma SinceShorter(log: seq<Event>, e: Event, i: int, n: int, k: Key)
    requires n <= |log|
    ensures Since(log + [e], i, n, k) <==> Since(log, i, n, k)
    ensures Since(log + [e], i, |log| + 1, k) <==> i == |log| || (Since(log, i, |log|, k) && !Rearms(e, k))
  {
    var all := log + [e];
    if Since(log, i, n, k) {
      forall j | i < j < n ensures !Rearms(all[j], k) {
        assert all[j] == log[j];
      }
    }
    if Since(all, i, n, k) {
      forall j | i < j < n ensures !Rearms(log[j], k) {
        assert all[j] == log[j];
      }
    }
    if Since(log, i, |log|, k) && !Rearms(e, k) {
      forall j | i < j < |log| + 1 ensures !Rearms(all[j], k) {
        assert j < |log| ==> all[j] == log[j];
      }
    }
    if Since(all, i, |log| + 1, k) && i != |log| {
      forall j | i < j < |log| ensures !Rearms(log[j], k) {
        assert all[j] == log[j];
      }
      assert all[|log|] == e;
    }
  }

  /** Appending `e` keeps what the log says of its order, if `e` itself fits. */
  lemma LogGrows(log: seq<Event>, e: Event)
    requires StagesAscend(log) && RemindersFollow(log) && RemindersSpaced(log)
    requires forall i, k | 0 <= i < |log| && StageFor(log[i], k) && StageFor(e, k) && Since(log, i, |log|, k) ::
      Rank(log[i].kind) < Rank(e.kind)
    requires e.Alert? && e.kind == Reminder ==> ExceededSince(log, |log|, e.key)
    requires e.Alert? && e.kind == Reminder ==> forall i | 0 <= i < |log| && Nags(log[i], e.key) && Since(log, i, |log|, e.key) ::
      log[i].at + e.interval as real <= e.at
    ensures StagesAscend(log + [e]) && RemindersFollow(log + [e]) && RemindersSpaced(log + [e])
  {
    var all := log + [e];
    forall i, j, k | 0 <= i < j < |all| && StageFor(all[i], k) && StageFor(all[j], k) && Since(all, i, j, k)
      ensures Rank(all[i].kind) < Rank(all[j].kind)
    {
      SinceShorter(log, e, i, j, k);
    }
    forall j | 0 <= j < |all| && all[j].Alert? && all[j].kind == Reminder ensures ExceededSince(all, j, all[j].key) {
      assert ExceededSince(log, j, all[j].key);
      var i :| Since(log, i, j, all[j].key) && log[i].Alert? && log[i].key == all[j].key && log[i].kind == Exceeded;
      SinceShorter(log, e, i, j, all[j].key);
      assert all[i] == log[i];
    }
    forall i, j, k | 0 <= i < j < |all| && Nags(all[i], k) && RemindsFor(all[j], k) && Since(all, i, j, k)
      ensures all[i].at + all[j].interval as real <= all[j].at
    {
      SinceShorter(log, e, i, j, k);
    }
  }

  /** A rearm whose keys lose their flags or start over keeps flags and log coherent. */
  lemma RearmCoherent(states: States, log: seq<Event>, states': States, keys: set<Key>)
    requires Coherent(states, log)
    requires forall k | k in states && k !in keys :: k in states' && states'[k] == states[k]
    requires forall k | k in states' && (k in keys || k !in states) :: states'[k] == FRESH
    ensures Coherent(states', log + [Rearmed(keys)])
  {
    var e := Rearmed(keys);
    LogGrows(log, e);
    FlagsGrow(states, log, states', e);
    var all := log + [e];
    forall k | k in states' && states'[k].exceeded ensures ExceededSince(all, |all|, k) {
      assert ExceededSince(log, |log|, k);
      var i :| Since(log, i, |log|, k) && log[i].Alert? && log[i].key == k && log[i].kind == Exceeded;
      SinceShorter(log, e, i, |log|, k);
      assert all[i] == log[i];
    }
  }

  /** An event that announces nothing, and for whose unrearmed probes no flag is lost. */
  lemma FlagsGrow(states: States, log: seq<Event>, states': States, e: Event)
    requires StagesFlagged(states, log) && NagsRemembered(states, log) && !e.Alert?
    requires forall k | k in states && !Rearms(e, k) :: k in states' && states'[k] == states[k]
    ensures StagesFlagged(states', log + [e]) && NagsRemembered(states', log + [e])
  {
    var all := log + [e];
    forall i, k | 0 <= i < |all| && StageFor(all[i], k) && Since(all, i, |all|, k) ensures k in states' && Sent(states'[k], Rank(all[i].kind)) {
      SinceShorter(log, e, i, |log|, k);
    }
    forall i, k | 0 <= i < |all| && Nags(all[i], k) && Since(all, i, |all|, k)
      ensures k in states' && states'[k].exceeded && all[i].at <= states'[k].lastReminder
    {
      SinceShorter(log, e, i, |log|, k);
    }
  }

  lemma ReadCoherent(states: States, log: seq<Event>, k: Key, sensor: string, temp: real, ceiling: real)
    requires Coherent(states, log)
    ensures Coherent(states, log + [Read(k, sensor, temp, ceiling)])
  {
    var e := Read(k, sensor, temp, ceiling);
    LogGrows(log, e);
    FlagsGrow(states, log, states, e);
    forall key | key in states && states[key].exceeded ensures ExceededSince(log + [e], |log| + 1, key) {
      assert ExceededSince(log, |log|, key);
      var i :| Since(log, i, |log|, key) && log[i].Alert? && log[i].key == key && log[i].kind == Exceeded;
      SinceShorter(log, e, i, |log|, key);
      assert (log + [e])[i] == log[i];
    }
  }

  /** What sending `kind` must do to a probe's flags. */
  predicate Sends(f: Flags, f': Flags, kind: Kind, at: real, interval: int) {
    && (Rank(kind) > 0 ==> !Sent(f, Rank(kind)) && Sent(f', Rank(kind)))
    && (f.approaching ==> f'.approaching) && (f.reached ==> f'.reached)
    && (kind == Exceeded ==> !f.exceeded && f'.lastReminder == at)
    && (kind == Reminder ==> f.exceeded && interval > 0 && f.lastReminder + interval as real <= at && f'.lastReminder == at)
    && (kind != Exceeded && kind != Reminder ==> f'.lastReminder == f.lastReminder)
    && (f'.exceeded <==> f.exceeded || kind == Exceeded)
  }

  /** Sending an alert and setting its flags keeps flags and log coherent. */
  lemma SendCoherent(states: States, log: seq<Event>, k: Key, f': Flags, kind: Kind, sensor: string, at: real, interval: int)
    requires Coherent(states, log) && k in states && Sends(states[k], f', kind, at, interval)
    ensures Coherent(states[k := f'], log + [Alert(k, sensor, kind, at, interval)])
  {
    var e := Alert(k, sensor, kind, at, interval);
    var all := log + [e];
    var states' := states[k := f'];
    forall i, key | 0 <= i < |log| && StageFor(log[i], key) && StageFor(e, key) && Since(log, i, |log|, key)
      ensures Rank(log[i].kind) < Rank(e.kind)
    {
      assert Sent(states[k], Rank(log[i].kind));
    }
    LogGrows(log, e);
    forall i, key | 0 <= i < |all| && StageFor(all[i], key) && Since(all, i, |all|, key)
      ensures key in states' && Sent(states'[key], Rank(all[i].kind))
    {
      SinceShorter(log, e, i, |log|, key);
    }
    forall i, key | 0 <= i < |all| && Nags(all[i], key) && Since(all, i, |all|, key)
      ensures key in states' && states'[key].exceeded && all[i].at <= states'[key].lastReminder
    {
      SinceShorter(log, e, i, |log|, key);
    }
    forall key | key in states' && states'[key].exceeded ensures ExceededSince(all, |all|, key) {
      if key == k && kind == Exceeded {
        SinceShorter(log, e, |log|, |log|, key);
        assert Since(all, |log|, |all|, key) && all[|log|] == e;
      } else {
        var i :| Since(log, i, |log|, key) && log[i].Alert? && log[i].key == key && log[i].kind == Exceeded;
        SinceShorter(log, e, i, |log|, key);
        assert all[i] == log[i];
      }
    }
  }

  // ---------------------------------------------------------------- every action keeps flags and log coherent

  /** A step that announces at most one thing, properly. */
  ghost predicate ProperStep(f: Flags, k: Key, step: Step) {
    || step == Step(f, [])
    || (exists sensor, kind, at, interval :: step.events == [Alert(k, sensor, kind, at, interval)] && Sends(f, step.flags, kind, at, interval))
  }

  lemma StepCoherent(states: States, log: seq<Event>, k: Key, step: Step)
    requires Coherent(states, log) && k in states && ProperStep(states[k], k, step)
    ensures Coherent(states[k := step.flags], log + step.events)
  {
    if step == Step(states[k], []) {
      assert log + step.events == log;
      assert states[k := step.flags] == states;
    } else {
      var sensor, kind, at, interval :| step.events == [Alert(k, sensor, kind, at, interval)] && Sends(states[k], step.flags, kind, at, interval);
      SendCoherent(states, log, k, step.flags, kind, sensor, at, interval);
    }
  }

  lemma StagesAreProper(f: Flags, k: Key, t: TargetConfig, s: Standing, sensor: string, now: real, iv: int)
    ensures ProperStep(f, k, Approach(f, k, s, sensor, now, iv)) && ProperStep(f, k, ApproachHigh(f, k, t, s, sensor, now, iv))
    ensures ProperStep(f, k, Reach(f, k, s, sensor, now, iv)) && ProperStep(f, k, Exceed(f, k, s, sensor, now, iv))
    ensures ProperStep(f, k, Remind(f, k, s, sensor, now, iv))
  {
    assert s.approaching && !f.approaching ==> Sends(f, f.(approaching := true), Approaching, now, iv);
    assert Sends(f, f.(approachingHigh := true), ApproachingHigh, now, iv);
    assert !f.reached ==> Sends(f, f.(reached := true, approaching := true), Reached, now, iv);
    assert !f.exceeded ==> Sends(f, f.(exceeded := true, reached := true, approaching := true, lastReminder := now), Exceeded, now, iv);
    assert f.exceeded && iv > 0 && now - f.lastReminder >= iv as real ==> Sends(f, f.(lastReminder := now), Reminder, now, iv);
  }

  lemma OneStage(states: States, log: seq<Event>, k: Key, f: Flags, step: Step)
    requires k in states && Coherent(states[k := f], log) && ProperStep(f, k, step)
    ensures Coherent(states[k := step.flags], log + step.events)
  {
    StepCoherent(states[k := f], log, k, step);
    assert states[k := f][k := step.flags] == states[k := step.flags];
  }

  lemma TwoStages(states: States, log: seq<Event>, k: Key, f: Flags, x: Step, y: Step)
    requires k in states && Coherent(states[k := f], log) && ProperStep(f, k, x) && ProperStep(x.flags, k, y)
    ensures Coherent(states[k := y.flags], log + x.events + y.events)
  {
    OneStage(states, log, k, f, x);
    OneStage(states, log + x.events, k, x.flags, y);
  }

  lemma AnnounceCoherent(states: States, log: seq<Event>, k: Key, t: TargetConfig, s: Standing, sensor: string, now: real)
    requires Coherent(states, log) && k in states
    ensures var said := Announcements(states[k], k, t, s, sensor, now); Coherent(states[k := said.flags], log + said.events)
  {
    var a, b, c, d, e := AnnouncedInStages(states[k], k, t, s, sensor, now);
    assert states[k := states[k]] == states;
    FiveStages(states, log, k, states[k], a, b, c, d, e);
    AppendFive(log, a.events, b.events, c.events, d.events, e.events);
  }

  lemma AppendFive(log: seq<Event>, a: seq<Event>, b: seq<Event>, c: seq<Event>, d: seq<Event>, e: seq<Event>)
    ensures log + (a + b + c + d + e) == log + a + b + c + d + e
  {
  }

  lemma AnnouncedInStages(f: Flags, k: Key, t: TargetConfig, s: Standing, sensor: string, now: real) returns (a: Step, b: Step, c: Step, d: Step, e: Step)
    ensures ProperStep(f, k, a) && ProperStep(a.flags, k, b) && ProperStep(b.flags, k, c)
    ensures ProperStep(c.flags, k, d) && ProperStep(d.flags, k, e)
    ensures Announcements(f, k, t, s, sensor, now) == Step(e.flags, a.events + b.events + c.events + d.events + e.events)
  {
    var iv := t.reminderInterval;
    a := Approach(f, k, s, sensor, now, iv);
    b := ApproachHigh(a.flags, k, t, s, sensor, now, iv);
    c := Reach(b.flags, k, s, sensor, now, iv);
    d := Exceed(c.flags, k, s, sensor, now, iv);
    e := Remind(d.flags, k, s, sensor, now, iv);
    StagesAreProper(f, k, t, s, sensor, now, iv);
    StagesAreProper(a.flags, k, t, s, sensor, now, iv);
    StagesAreProper(b.flags, k, t, s, sensor, now, iv);
    StagesAreProper(c.flags, k, t, s, sensor, now, iv);
    StagesAreProper(d.flags, k, t, s, sensor, now, iv);
  }

  lemma FiveStages(states: States, log: seq<Event>, k: Key, f: Flags, a: Step, b: Step, c: Step, d: Step, e: Step)
    requires k in states && Coherent(states[k := f], log)
    requires ProperStep(f, k, a) && ProperStep(a.flags, k, b) && ProperStep(b.flags, k, c)
    requires ProperStep(c.flags, k, d) && ProperStep(d.flags, k, e)
    ensures Coherent(states[k := e.flags], log + a.events + b.events + c.events + d.events + e.events)
  {
    TwoStages(states, log, k, f, a, b);
    TwoStages(states, log + a.events + b.events, k, b.flags, c, d);
    OneStage(states, log + a.events + b.events + c.events + d.events, k, d.flags, e);
  }

  lemma FreshCoherent(states: States, log: seq<Event>, k: Key)
    requires Coherent(states, log) && k !in states
    ensures Coherent(states[k := FRESH], log)
  {
  }

  lemma StandingCoherent(states: States, log: seq<Event>, k: Key, t: TargetConfig, temp: real, stand: Standing, sensor: string, now: real)
    requires k in states && Coherent(states, log) && Ceiling(t).Some?
    ensures var said := Announcements(states[k], k, t, stand, sensor, now);
      Coherent(states[k := said.flags], log + ([Read(k, sensor, temp, Ceiling(t).value)] + said.events))
  {
    var read := Read(k, sensor, temp, Ceiling(t).value);
    ReadCoherent(states, log, k, sensor, temp, Ceiling(t).value);
    AnnounceCoherent(states, log + [read], k, t, stand, sensor, now);
    Associative(log, [read], Announcements(states[k], k, t, stand, sensor, now).events);
  }

  lemma JudgeCoherent(states: States, log: seq<Event>, session: string, t: TargetConfig, probes: seq<Probe>, sensor: string, now: real)
    requires Coherent(states, log)
    ensures var r := JudgeTarget(states, session, t, probes, sensor, now); Coherent(r.states, log + r.events)
  {
    var p := Lookup(probes, t.probe);
    var k := Key(session, t.probe);
    if p.None? || p.value.unplugged || p.value.temp.None? {
      assert log + [] == log;
    } else {
      var temp := p.value.temp.value;
      var with := if k in states then states else states[k := FRESH];
      if k !in states {
        FreshCoherent(states, log, k);
      }
      var stand := Stand(t, temp);
      if stand.None? {
        assert log + [] == log;
        assert states[k := with[k]] == with;
      } else {
        StandingCoherent(with, log, k, t, temp, stand.value, sensor, now);
        var said := Announcements(with[k], k, t, stand.value, sensor, now);
        assert states[k := said.flags] == with[k := said.flags];
      }
    }
  }

  lemma JudgeNextCoherent(before: Round, log: seq<Event>, session: string, t: TargetConfig, probes: seq<Probe>, sensor: string, now: real)
    requires Coherent(before.states, log + before.events)
    ensures var last := JudgeTarget(before.states, session, t, probes, sensor, now);
      Coherent(last.states, log + (before.events + last.events))
  {
    JudgeCoherent(before.states, log + before.events, session, t, probes, sensor, now);
    Associative(log, before.events, JudgeTarget(before.states, session, t, probes, sensor, now).events);
  }

  lemma Associative(a: seq<Event>, b: seq<Event>, c: seq<Event>)
    ensures a + (b + c) == a + b + c
  {
  }

  lemma {:induction false} JudgeAllCoherent(states: States, log: seq<Event>, session: string, ts: seq<TargetConfig>, probes: seq<Probe>, sensor: string, now: real)
    requires Coherent(states, log)
    ensures var r := JudgeAll(states, session, ts, probes, sensor, now); Coherent(r.states, log + r.events)
    decreases |ts|
  {
    if ts == [] {
      assert log + [] == log;
    } else {
      JudgeAllCoherent(states, log, session, ts[..|ts| - 1], probes, sensor, now);
      JudgeNextCoherent(JudgeAll(states, session, ts[..|ts| - 1], probes, sensor, now), log, session, ts[|ts| - 1], probes, sensor, now);
    }
  }

  /** Arming keeps unrearmed probes as they were and leaves rearmed ones fresh or gone. */
  ghost predicate Armed(states: States, session: string, a: Arming) {
    && (forall k | k !in a.rearmed :: (k in a.states <==> k in states) && (k in states ==> a.states[k] == states[k]))
    && (forall k | k in a.states && k in a.rearmed :: a.states[k] == FRESH)
    && (forall k | k in a.rearmed :: k.session == session)
  }

  lemma {:induction false} ArmAllArmed(states: States, a: Arming, session: string, olds: seq<TargetConfig>, ts: seq<TargetConfig>)
    requires Armed(states, session, a)
    ensures Armed(states, session, ArmAll(a, session, olds, ts))
    decreases |ts|
  {
    if ts != [] {
      ArmAllArmed(states, a, session, olds, ts[..|ts| - 1]);
    }
  }

  lemma RetargetArmed(states: States, session: string, olds: seq<TargetConfig>, ts: seq<TargetConfig>)
    ensures Armed(states, session, Retarget(states, session, olds, ts))
  {
    var stale := Stale(states, session, ts);
    ArmAllArmed(states, Arming(states - stale, stale), session, olds, ts);
  }

  lemma ActCoherent(w: World, a: Action)
    requires Coherent(w.states, w.log)
    ensures Coherent(Act(w, a).states, Act(w, a).log)
  {
    match a
    case SetTargets(session, ts) =>
      var arming := Retarget(w.states, session, TargetsOf(w, session), ts);
      RetargetArmed(w.states, session, TargetsOf(w, session), ts);
      RearmCoherent(w.states, w.log, arming.states, arming.rearmed);
    case ClearSession(session) =>
      var gone := OfSession(w.states, session);
      RearmCoherent(w.states, w.log, w.states - gone, gone);
    case Evaluate(session, probes, sensor, now) =>
      JudgeAllCoherent(w.states, w.log, session, TargetsOf(w, session), probes, sensor, now);
  }

  /** In every run of readings, target changes and session ends, at whatever times: between rearms of a
      probe each stage is announced at most once and in order, and every reminder follows an exceeded
      event and keeps its interval from all of them. */
  lemma {:induction false} AlertsInOrder(actions: seq<Action>)
    ensures var w := Run(actions); StagesAscend(w.log) && RemindersFollow(w.log) && RemindersSpaced(w.log)
    ensures Coherent(Run(actions).states, Run(actions).log)
    decreases |actions|
  {
    if actions != [] {
      AlertsInOrder(actions[..|actions| - 1]);
      ActCoherent(Run(actions[..|actions| - 1]), actions[|actions| - 1]);
    }
  }
}
