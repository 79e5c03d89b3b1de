/** The browser's timer list as a replica of the server's timer table. */
module TimerReplica {
  import opened Options
  import opened SessionBook
  import opened TimerTable
  import opened TimerSystem
  import opened SessionStore

  /** A row as the server broadcasts it: snake_case column names, null for missing values. */
  function Wire(k: TimerKey, r: Timer): Raw {
    Raw(Some(k.address), Some(r.mode), None, Some(k.session), None, Some(k.probe), None, r.duration,
        None, r.startedAt, None, r.pausedAt, None, Some(r.accumulated), None, r.completedAt)
  }

  function View(k: TimerKey, r: Timer): TimerView {
    TimerView(Some(k.session), k.address, k.probe, Some(r.mode), r.duration, r.startedAt, r.pausedAt, r.accumulated, r.completedAt)
  }

  /** The list holds exactly the table's rows of session `id`, one entry each. */
  ghost predicate Mirrors(timers: seq<TimerView>, t: Table, id: string) {
    && OnePerTimer(timers)
    && (forall k | k in t && k.session == id :: Listed(timers, View(k, t[k])))
    && (forall v | Listed(timers, v) ::
          (var k := TimerKey(id, v.address, v.probeIndex); k in t && v == View(k, t[k])))
  }

  // ---------------------------------------------------------------- what a client is told

  /** A row a client receives: in a broadcast, or in the acknowledgement of its own request. */
  datatype Heard = Heard(isAck: bool, key: TimerKey, row: Timer)

  function MessageOf(h: Heard): Message {
    TimerMessage(h.isAck, None, None, Wire(h.key, h.row))
  }

  function Messages(hs: seq<Heard>): seq<Message>
    decreases |hs|
  {
    if hs == [] then [] else Messages(hs[..|hs| - 1]) + [MessageOf(hs[|hs| - 1])]
  }

  /** The last row told of each timer. */
  function Told(hs: seq<Heard>): Table
    decreases |hs|
  {
    if hs == [] then map[] else Told(hs[..|hs| - 1])[hs[|hs| - 1].key := hs[|hs| - 1].row]
  }

  lemma ToldMore(hs: seq<Heard>, h: Heard)
    ensures Told(hs + [h]) == Told(hs)[h.key := h.row]
  {
    assert (hs + [h])[..|hs|] == hs;
  }

  /** The broadcasts of a log, in order. */
  function Broadcasts(log: seq<Event>): seq<Heard>
    decreases |log|
  {
    if log == [] then []
    else
      var e := log[|log| - 1];
      Broadcasts(log[..|log| - 1]) + (if e.Updated? then [Heard(false, e.key, e.row)] else [])
  }

  function WithoutAcks(hs: seq<Heard>): seq<Heard>
    decreases |hs|
  {
    if hs == [] then []
    else WithoutAcks(hs[..|hs| - 1]) + (if hs[|hs| - 1].isAck then [] else [hs[|hs| - 1]])
  }

  /** The timer messages among those a client received, in order. */
  function TimerMessages(ms: seq<Message>): seq<Message>
    decreases |ms|
  {
    if ms == [] then []
    else
      var m := ms[|ms| - 1];
      TimerMessages(ms[..|ms| - 1]) + (if m.TimerMessage? then [m] else [])
  }

  /** Everything else the client received left its session alone: status messages of the same session, notes, readings, alerts. */
  ghost predicate OthersHarmless(ms: seq<Message>, id: string) {
    forall m | m in ms && !m.TimerMessage? :: m.Elsewhere? || m.TargetAck? || (m.Status? && m.currentSessionId == Some(id))
  }

  ghost predicate Watching(s: State, id: string) {
    s.session.Some? && s.session.value.id == id
  }

  /** Two states of session `id` with one timer list. */
  ghost predicate SameTimers(a: State, b: State, id: string) {
    Watching(a, id) && Watching(b, id) && a.session.value.timers == b.session.value.timers
  }

  lemma TimerMessageActsAlike(a: State, b: State, m: Message, id: string)
    requires SameTimers(a, b, id) && m.TimerMessage?
    ensures SameTimers(Reduce(a, m), Reduce(b, m), id)
  {
  }

  lemma HarmlessKeepsTimers(a: State, b: State, m: Message, id: string)
    requires SameTimers(a, b, id) && (m.Elsewhere? || m.TargetAck? || (m.Status? && m.currentSessionId == Some(id)))
    ensures SameTimers(Reduce(a, m), b, id)
  {
  }

  /** Only the timer messages decide the timer list. */
  lemma {:induction false} OnlyTimerMessagesCount(s: State, ms: seq<Message>, id: string)
    requires Watching(s, id) && OthersHarmless(ms, id)
    ensures SameTimers(ReduceAll(s, ms), ReduceAll(s, TimerMessages(ms)), id)
    decreases |ms|
  {
    if ms != [] {
      var init, m := ms[..|ms| - 1], ms[|ms| - 1];
      OnlyTimerMessagesCount(s, init, id);
      assert m in ms;
      if m.TimerMessage? {
        TimerMessageActsAlike(ReduceAll(s, init), ReduceAll(s, TimerMessages(init)), m, id);
        ReduceAllAppend(s, TimerMessages(init), m);
      } else {
        HarmlessKeepsTimers(ReduceAll(s, init), ReduceAll(s, TimerMessages(init)), m, id);
        assert TimerMessages(init) + [] == TimerMessages(init);
      }
    }
  }

  lemma ReduceAllAppend(s: State, ms: seq<Message>, m: Message)
    ensures ReduceAll(s, ms + [m]) == Reduce(ReduceAll(s, ms), m)
  {
    assert (ms + [m])[..|ms + [m]| - 1] == ms;
  }

  /** Receiving one broadcast does to the list what the operation did to the table. */
  lemma ReceiveMirrors(timers: seq<TimerView>, t: Table, id: string, k: TimerKey, r: Timer)
    requires Mirrors(timers, t, id)
    ensures Mirrors(Receive(id, timers, Wire(k, r)), t[k := r], id)
  {
    assert Normalise(Wire(k, r)) == Some(View(k, r));
    if k.session == id {
      PutIsUpdate(timers, View(k, r));
      var after := Put(timers, View(k, r));
      forall j | j in t[k := r] && j.session == id ensures Listed(after, View(j, t[k := r][j])) {
        if j != k {
          assert !SameTimer(View(j, t[j]), View(k, r));
        }
      }
      forall v | Listed(after, v) ensures var j := TimerKey(id, v.address, v.probeIndex); j in t[k := r] && v == View(j, t[k := r][j]) {
        if !SameTimer(v, View(k, r)) {
          assert Listed(timers, v);
        }
      }
    }
  }

  lemma {:induction false} MessagesMirrorTold(s: State, hs: seq<Heard>, id: string)
    requires Watching(s, id) && s.session.value.timers == []
    ensures var c := ReduceAll(s, Messages(hs)); Watching(c, id) && Mirrors(c.session.value.timers, Told(hs), id)
    decreases |hs|
  {
    if hs != [] {
      var init, h := hs[..|hs| - 1], hs[|hs| - 1];
      MessagesMirrorTold(s, init, id);
      ReduceAllAppend(s, Messages(init), MessageOf(h));
      ReceiveMirrors(ReduceAll(s, Messages(init)).session.value.timers, Told(init), id, h.key, h.row);
    }
  }

  // ---------------------------------------------------------------- a list mirrors one table

  ghost predicate SameRows(t: Table, t': Table, id: string) {
    forall k: TimerKey | k.session == id :: (k in t <==> k in t') && (k in t ==> t[k] == t'[k])
  }

  lemma SameRowsMirrored(timers: seq<TimerView>, t: Table, t': Table, id: string)
    requires Mirrors(timers, t, id) && SameRows(t, t', id)
    ensures Mirrors(timers, t', id)
  {
  }

  lemma MirroredRow(timers: seq<TimerView>, t: Table, t': Table, id: string, k: TimerKey)
    requires Mirrors(timers, t, id) && Mirrors(timers, t', id) && k.session == id && k in t
    ensures k in t' && t'[k] == t[k]
  {
    var v := View(k, t[k]);
    assert Listed(timers, v) && k == TimerKey(id, v.address, v.probeIndex);
  }

  lemma MirrorsOneTable(timers: seq<TimerView>, t: Table, t': Table, id: string)
    requires Mirrors(timers, t, id) && Mirrors(timers, t', id)
    ensures SameRows(t, t', id)
  {
    forall k: TimerKey | k.session == id ensures (k in t <==> k in t') && (k in t ==> t[k] == t'[k]) {
      if k in t {
        MirroredRow(timers, t, t', id, k);
      } else if k in t' {
        MirroredRow(timers, t', t, id, k);
      }
    }
  }

  /** A client that saw its session start while the session had no timers lists exactly the rows of a table if and
      only if the last row it was told of each timer of the session, by broadcast or acknowledgement, is the table's. */
  lemma ListMirrorsExactlyWhen(c: State, ms: seq<Message>, hs: seq<Heard>, t: Table, id: string)
    requires Watching(c, id) && c.session.value.timers == []
    requires TimerMessages(ms) == Messages(hs) && OthersHarmless(ms, id)
    ensures Watching(ReduceAll(c, ms), id)
    ensures Mirrors(ReduceAll(c, ms).session.value.timers, t, id) <==> SameRows(Told(hs), t, id)
  {
    OnlyTimerMessagesCount(c, ms, id);
    MessagesMirrorTold(c, hs, id);
    var timers := ReduceAll(c, ms).session.value.timers;
    if SameRows(Told(hs), t, id) {
      SameRowsMirrored(timers, Told(hs), t, id);
    }
    if Mirrors(timers, t, id) {
      MirrorsOneTable(timers, Told(hs), t, id);
    }
  }

  // ---------------------------------------------------------------- acknowledgements

  /** Every acknowledgement is followed by a broadcast of the same timer: its own, if it comes before that. */
  ghost predicate AcksFollowed(hs: seq<Heard>) {
    forall i | 0 <= i < |hs| && hs[i].isAck :: exists j :: i < j < |hs| && !hs[j].isAck && hs[j].key == hs[i].key
  }

  /** The place of the last row told of timer `k`; the length if there is none. */
  lemma {:induction false} LastAbout(hs: seq<Heard>, k: TimerKey) returns (i: nat)
    ensures i <= |hs| && (i < |hs| ==> hs[i].key == k) && (i < |hs| <==> k in Told(hs))
    ensures forall j | 0 <= j < |hs| && (i < j || i == |hs|) :: hs[j].key != k
    decreases |hs|
  {
    if hs == [] {
      i := 0;
    } else if hs[|hs| - 1].key == k {
      i := |hs| - 1;
    } else {
      i := LastAbout(hs[..|hs| - 1], k);
      if i == |hs| - 1 {
        i := |hs|;
      }
    }
  }

  predicate ToldAlike(hs: seq<Heard>, hs': seq<Heard>, k: TimerKey) {
    (k in Told(hs) <==> k in Told(hs')) && (k in Told(hs) ==> Told(hs)[k] == Told(hs')[k])
  }

  lemma {:induction false} WithoutAcksAlike(hs: seq<Heard>, k: TimerKey, i: nat)
    requires i <= |hs| && (i < |hs| ==> hs[i].key == k && !hs[i].isAck)
    requires forall j | 0 <= j < |hs| && (i < j || i == |hs|) :: hs[j].key != k
    ensures ToldAlike(hs, WithoutAcks(hs), k)
    decreases |hs|
  {
    if hs != [] {
      var init, h := hs[..|hs| - 1], hs[|hs| - 1];
      if i != |init| {
        WithoutAcksAlike(init, k, if i == |hs| then |init| else i);
      }
      ToldMore(WithoutAcks(init), h);
      assert WithoutAcks(init) + [] == WithoutAcks(init);
    }
  }

  lemma AcksAddNothing(hs: seq<Heard>, id: string)
    requires AcksFollowed(hs)
    ensures SameRows(Told(hs), Told(WithoutAcks(hs)), id)
  {
    var t, t' := Told(hs), Told(WithoutAcks(hs));
    forall k: TimerKey | k.session == id ensures (k in t <==> k in t') && (k in t ==> t[k] == t'[k]) {
      var i := LastAbout(hs, k);
      WithoutAcksAlike(hs, k, i);
    }
  }

  // ---------------------------------------------------------------- the broadcasts of a run

  /** Replaying the broadcasts of the log gives the session's rows. */
  ghost predicate InStep(log: seq<Event>, t: Table, id: string) {
    SameRows(Told(Broadcasts(log)), t, id)
  }

  lemma BroadcastsAppend(log: seq<Event>, e: Event)
    ensures Broadcasts(log + [e]) == Broadcasts(log) + (if e.Updated? then [Heard(false, e.key, e.row)] else [])
  {
    assert (log + [e])[..|log + [e]| - 1] == log;
  }

  lemma SilentInStep(log: seq<Event>, e: Event, t: Table, id: string)
    requires InStep(log, t, id) && !e.Updated?
    ensures InStep(log + [e], t, id)
  {
    BroadcastsAppend(log, e);
    assert Broadcasts(log) + [] == Broadcasts(log);
  }

  lemma UpdateInStep(log: seq<Event>, t: Table, id: string, k: TimerKey, row: Timer)
    requires InStep(log, t, id)
    ensures InStep(log + [Updated(k, row)], t[k := row], id)
  {
    BroadcastsAppend(log, Updated(k, row));
    ToldMore(Broadcasts(log), Heard(false, k, row));
  }

  lemma TraceInStep(s: System, k: TimerKey, op: Op, row: Timer, now: int, id: string)
    requires InStep(s.log, s.timers, id)
    ensures InStep(s.log + Trace(s.timers, k, op, row, now), s.timers, id)
  {
    var trace := Trace(s.timers, k, op, row, now);
    if trace == [] {
      assert s.log + trace == s.log;
    } else {
      assert trace == [trace[0]];
      SilentInStep(s.log, trace[0], s.timers, id);
    }
  }

  lemma PerformInStep(s: System, k: TimerKey, op: Op, now: int, id: string)
    requires InStep(s.log, s.timers, id)
    ensures var s' := Perform(s, k, op, now, true); InStep(s'.log, s'.timers, id)
  {
    var a := Answer(s.timers, s.book.current, k, op, now);
    if a.Row? {
      TraceInStep(s, k, op, a.row, now, id);
      UpdateInStep(s.log + Trace(s.timers, k, op, a.row, now), s.timers, id, k, a.row);
    }
  }

  /** Every broadcast of the run went out, and the watched session was not discarded. */
  predicate Delivered(a: Action, id: string) {
    match a
    case Client(_, _, _, published) => published
    case CompleteNext(_, updatePublished, _) => updatePublished
    case DiscardSession(gone) => gone != id
    case _ => true
  }

  lemma ActInStep(s: System, a: Action, id: string)
    requires InStep(s.log, s.timers, id) && Delivered(a, id)
    ensures InStep(Act(s, a).log, Act(s, a).timers, id)
  {
    match a
    case Client(k, op, now, published) =>
      if !op.Complete? {
        PerformInStep(s, k, op, now, id);
      }
    case CompleteNext(now, u, p) =>
      if s.pending != [] {
        var k := s.pending[0];
        var rest := s.(pending := s.pending[1..]);
        PerformInStep(rest, k, Complete, now, id);
        var done := Perform(rest, k, Complete, now, u);
        SilentInStep(done.log, Alerted(k, s.book.current), done.timers, id);
      }
    case DiscardSession(gone) =>
    case _ =>
  }

  lemma {:induction false} RunInStep(s: System, actions: seq<Action>, id: string)
    requires InStep(s.log, s.timers, id) && forall i | 0 <= i < |actions| :: Delivered(actions[i], id)
    ensures InStep(Run(s, actions).log, Run(s, actions).timers, id)
    decreases |actions|
  {
    if actions != [] {
      RunInStep(s, actions[..|actions| - 1], id);
      ActInStep(Run(s, actions[..|actions| - 1]), actions[|actions| - 1], id);
    }
  }

  /** A client that saw its session start while the session had no timers, and then every timer broadcast in
      order, of whatever session, among acknowledgements of its own requests and other harmless messages, lists
      one entry per (address, probe) and exactly the server's rows for the session, once every acknowledgement
      has been followed by a broadcast of its timer. */
  lemma ReplicaEqualsTable(before: State, start: Message, s: System, actions: seq<Action>, ms: seq<Message>, hs: seq<Heard>, id: string)
    requires start.Started? && !(start.isAck && start.ok == Some(false)) && start.sessionId == id != "" && start.timers == []
    requires s.log == [] && forall k | k in s.timers :: k.session != id
    requires forall i | 0 <= i < |actions| :: Delivered(actions[i], id)
    requires TimerMessages(ms) == Messages(hs) && OthersHarmless(ms, id)
    requires WithoutAcks(hs) == Broadcasts(Run(s, actions).log) && AcksFollowed(hs)
    ensures var c := ReduceAll(Reduce(before, start), ms);
      Watching(c, id) && Mirrors(c.session.value.timers, Run(s, actions).timers, id)
  {
    assert InStep(s.log, s.timers, id);
    RunInStep(s, actions, id);
    AcksAddNothing(hs, id);
    ListMirrorsExactlyWhen(Reduce(before, start), ms, hs, Run(s, actions).timers, id);
  }

  /** An acknowledgement that is the last word on its timer, and not the table's row, makes the list wrong. */
  lemma LateAckIsStale(c: State, ms: seq<Message>, hs: seq<Heard>, k: TimerKey, row: Timer, t: Table)
    requires Watching(c, k.session) && c.session.value.timers == []
    requires TimerMessages(ms) == Messages(hs + [Heard(true, k, row)]) && OthersHarmless(ms, k.session)
    requires k in t && t[k] != row
    ensures Watching(ReduceAll(c, ms), k.session) && !Mirrors(ReduceAll(c, ms).session.value.timers, t, k.session)
  {
    ToldMore(hs, Heard(true, k, row));
    ListMirrorsExactlyWhen(c, ms, hs + [Heard(true, k, row)], t, k.session);
  }
}
