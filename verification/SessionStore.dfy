/** The browser's session state: the reducer's session and timer cases. */
module SessionStore {
  import opened Options

  // ---------------------------------------------------------------- messages

  /** A timer row as it arrives: any field may be missing, and may come under either spelling. */
  datatype Raw = Raw(
    address: Option<string>, mode: Option<string>,
    sessionId: Option<string>, session_id: Option<string>,
    probeIndex: Option<int>, probe_index: Option<int>,
    durationSecs: Option<int>, duration_secs: Option<int>,
    startedAt: Option<int>, started_at: Option<int>,
    pausedAt: Option<int>, paused_at: Option<int>,
    accumulatedSecs: Option<int>, accumulated_secs: Option<int>,
    completedAt: Option<int>, completed_at: Option<int>)

  /** Target lists are carried through unread. */
  type Targets = seq<string>

  datatype Message =
    | Status(currentSessionId: Option<string>, name: string, startTs: Option<int>, durationSecs: Option<int>,
             activeTargets: Targets, sessionDevices: Option<seq<string>>)
    | Started(isAck: bool, ok: Option<bool>, sessionId: string, name: string, startTs: Option<int>,
              durationSecs: Option<int>, targets: Targets, timers: seq<TimerView>, devices: seq<string>)
    | Over(isAck: bool, ok: Option<bool>)
    | TargetAck(ok: Option<bool>, newTargets: Option<Targets>)
    | TimerMessage(isAck: bool, ok: Option<bool>, timer: Option<Raw>, own: Raw)
    | Elsewhere                                   // notes, readings, alerts: they leave the session as it is

  // ---------------------------------------------------------------- state

  datatype TimerView = TimerView(
    sessionId: Option<string>, address: string, probeIndex: int, mode: Option<string>, durationSecs: Option<int>,
    startedAt: Option<int>, pausedAt: Option<int>, accumulatedSecs: int, completedAt: Option<int>)

  datatype Active = Active(
    id: string, name: string, startedAt: Option<int>, targetDurationSecs: Option<int>, targets: Targets, timers: seq<TimerView>)

  datatype State = State(isActive: bool, session: Option<Active>, devices: seq<string>)

  function Either<T>(a: Option<T>, b: Option<T>): Option<T> {
    if a.Some? then a else b
  }

  /** The row in the one shape the state holds; none when it does not say whose it is. */
  function Normalise(raw: Raw): Option<TimerView> {
    var probe := Either(raw.probeIndex, raw.probe_index);
    if raw.address.None? || probe.None? then None
    else
      var accumulated := Either(raw.accumulatedSecs, raw.accumulated_secs);
      Some(TimerView(
        Either(raw.sessionId, raw.session_id), raw.address.value, probe.value, raw.mode,
        Either(raw.durationSecs, raw.duration_secs), Either(raw.startedAt, raw.started_at),
        Either(raw.pausedAt, raw.paused_at), if accumulated.Some? then accumulated.value else 0,
        Either(raw.completedAt, raw.completed_at)))
  }

  predicate SameTimer(a: TimerView, b: TimerView) {
    a.address == b.address && a.probeIndex == b.probeIndex
  }

  /** Every entry for the same timer is replaced; with none there the new one goes to the end. */
  function Put(timers: seq<TimerView>, v: TimerView): seq<TimerView> {
    var replaced := seq(|timers|, i requires 0 <= i < |timers| => if SameTimer(timers[i], v) then v else timers[i]);
    if exists i | 0 <= i < |timers| :: SameTimer(timers[i], v) then replaced else replaced + [v]
  }

  /** The timer list after a timer message, for the session `id`. */
  function Receive(id: string, timers: seq<TimerView>, raw: Raw): seq<TimerView> {
    var v := Normalise(raw);
    if v.None? || (v.value.sessionId.Some? && v.value.sessionId.value != id) then timers else Put(timers, v.value)
  }

  function Reduce(s: State, m: Message): State {
    match m
    case Status(id, name, startTs, duration, targets, devices) =>
      State(
        id.Some?,
        if id.None? then None
        else Some(Active(id.value, name, startTs, duration, targets,
                         if s.session.Some? && s.session.value.id == id.value then s.session.value.timers else [])),
        if devices.Some? then devices.value else s.devices)
    case Started(isAck, ok, id, name, startTs, duration, targets, timers, devices) =>
      if isAck && ok == Some(false) then s
      else State(true, if id == "" then None else Some(Active(id, name, startTs, duration, targets, timers)), devices)
    case Over(isAck, ok) =>
      if isAck && ok == Some(false) then s else s.(isActive := false, session := None)
    case TargetAck(ok, targets) =>
      if ok == Some(false) || s.session.None? || targets.None? then s
      else s.(session := Some(s.session.value.(targets := targets.value)))
    case TimerMessage(isAck, ok, timer, own) =>
      if (isAck && ok == Some(false)) || s.session.None? then s
      else
        var raw := if timer.Some? then timer.value else own;
        s.(session := Some(s.session.value.(timers := Receive(s.session.value.id, s.session.value.timers, raw))))
    case Elsewhere => s
  }

  function ReduceAll(s: State, ms: seq<Message>): State
    decreases |ms|
  {
    if ms == [] then s else Reduce(ReduceAll(s, ms[..|ms| - 1]), ms[|ms| - 1])
  }

  // ---------------------------------------------------------------- the list stays a table

  /** One entry per (address, probe). */
  ghost predicate OnePerTimer(timers: seq<TimerView>) {
    forall i, j | 0 <= i < j < |timers| :: !SameTimer(timers[i], timers[j])
  }

  /** `v` is the list's entry for its timer. */
  ghost predicate Listed(timers: seq<TimerView>, v: TimerView) {
    exists i :: 0 <= i < |timers| && timers[i] == v
  }

  /** Putting a row keeps one entry per timer, makes the row that timer's entry and keeps all others. */
  lemma PutIsUpdate(timers: seq<TimerView>, v: TimerView)
    requires OnePerTimer(timers)
    ensures OnePerTimer(Put(timers, v)) && Listed(Put(timers, v), v)
    ensures forall w | !SameTimer(w, v) :: Listed(Put(timers, v), w) <==> Listed(timers, w)
    ensures forall w | SameTimer(w, v) && Listed(Put(timers, v), w) :: w == v
  {
    var after := Put(timers, v);
    if i :| 0 <= i < |timers| && SameTimer(timers[i], v) {
      assert after[i] == v;
    } else {
      assert after[|timers|] == v;
    }
    forall w | !SameTimer(w, v) ensures Listed(after, w) <==> Listed(timers, w) {
      if Listed(timers, w) {
        var i :| 0 <= i < |timers| && timers[i] == w;
        assert after[i] == w;
      }
      if Listed(after, w) {
        var i :| 0 <= i < |after| && after[i] == w;
        assert timers[i] == w;
      }
    }
  }

  // ---------------------------------------------------------------- which session is shown

  /** A refused request: an acknowledgement that says so. */
  predicate Failed(m: Message) {
    match m
    case Started(isAck, ok, _, _, _, _, _, _, _) => isAck && ok == Some(false)
    case Over(isAck, ok) => isAck && ok == Some(false)
    case TimerMessage(isAck, ok, _, _) => isAck && ok == Some(false)
    case TargetAck(ok, _) => ok == Some(false)
    case _ => false
  }

  /** The message says which session is current, or that none is. */
  predicate Decides(m: Message) {
    (m.Status? || m.Started? || m.Over?) && !Failed(m)
  }

  function SessionIn(m: Message): Option<string> {
    match m
    case Status(id, _, _, _, _, _) => id
    case Started(_, _, id, _, _, _, _, _, _) => if id == "" then None else Some(id)
    case _ => None
  }

  function ShownSession(s: State): Option<string> {
    if s.session.Some? then Some(s.session.value.id) else None
  }

  lemma OneWord(s: State, m: Message)
    ensures ShownSession(Reduce(s, m)) == if Decides(m) then SessionIn(m) else ShownSession(s)
    ensures Reduce(s, m).isActive <==> if Decides(m) then m.Started? || SessionIn(m).Some? else s.isActive
  {
  }

  /** Whatever arrives, the session shown is the one the last message that decides it names. */
  lemma {:induction false} LastWordOnSession(s: State, ms: seq<Message>, i: nat)
    requires i < |ms| && Decides(ms[i]) && forall j | i < j < |ms| :: !Decides(ms[j])
    ensures ShownSession(ReduceAll(s, ms)) == SessionIn(ms[i])
    ensures ReduceAll(s, ms).isActive <==> ms[i].Started? || SessionIn(ms[i]).Some?
    decreases |ms|
  {
    var init, m := ms[..|ms| - 1], ms[|ms| - 1];
    OneWord(ReduceAll(s, init), m);
    if i < |init| {
      LastWordOnSession(s, init, i);
    }
  }

  /** A refused request changes nothing, and a message that is not about timers keeps the list of the session shown
      before and after; a session that was not shown before comes with the timers it brings, or with none. */
  lemma TimersStayWithTheirSession(s: State, m: Message)
    ensures Failed(m) ==> Reduce(s, m) == s
    ensures var s' := Reduce(s, m);
      s'.session.Some? && !m.TimerMessage? ==>
        if m.Started? && !Failed(m) then s'.session.value.timers == m.timers
        else s'.session.value.timers == if ShownSession(s) == ShownSession(s') then s.session.value.timers else []
  {
  }

  /** What else a message sets: targets, by an acknowledgement, a status or a start; nothing else of the session does. */
  lemma TargetsAsTold(s: State, m: Message)
    requires Reduce(s, m).session.Some?
    ensures Reduce(s, m).session.value.targets ==
      if Failed(m) then s.session.value.targets
      else if m.Status? then m.activeTargets
      else if m.Started? then m.targets
      else if m.TargetAck? && m.newTargets.Some? then m.newTargets.value
      else s.session.value.targets
  {
  }

  /** A row is read the same under either spelling of its columns; the camelCase one wins. */
  lemma EitherSpelling(a: string, mode: Option<string>, id: Option<string>, probe: int, duration: Option<int>, started: Option<int>,
                       paused: Option<int>, accumulated: Option<int>, completed: Option<int>)
    ensures var camel := Raw(Some(a), mode, id, None, Some(probe), None, duration, None, started, None, paused, None, accumulated, None, completed, None);
      var snake := Raw(Some(a), mode, None, id, None, Some(probe), None, duration, None, started, None, paused, None, accumulated, None, completed);
      && Normalise(camel) == Normalise(snake)
      && Normalise(snake) == Some(TimerView(id, a, probe, mode, duration, started, paused, if accumulated == None then 0 else accumulated.value, completed))
  {
  }

  /** The row of a timer message is the one it carries, or else the message itself. */
  lemma CarriedRowCounts(s: State, isAck: bool, ok: Option<bool>, row: Raw, own: Raw)
    requires s.session.Some? && !(isAck && ok == Some(false))
    ensures Reduce(s, TimerMessage(isAck, ok, Some(row), own)) == Reduce(s, TimerMessage(isAck, ok, None, row))
    ensures var s' := Reduce(s, TimerMessage(isAck, ok, None, own));
      s'.session.Some? && s'.session.value.timers == Receive(s.session.value.id, s.session.value.timers, own)
  {
  }

  /** A row that does not say whose it is, or is of another session, changes nothing; any other is put in the list. */
  lemma ReceivesOwnRows(id: string, timers: seq<TimerView>, raw: Raw)
    ensures var v := Normalise(raw);
      && (v.None? <==> raw.address.None? || (raw.probeIndex.None? && raw.probe_index.None?))
      && Receive(id, timers, raw) ==
         if v.Some? && (v.value.sessionId.None? || v.value.sessionId == Some(id)) then Put(timers, v.value) else timers
  {
  }
}
