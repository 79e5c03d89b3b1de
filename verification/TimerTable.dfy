/** One row of session_timers, and what each timer operation does to the table. */
module TimerTable {
  import opened Options

  const SECOND: int := 1_000_000

  /** Instants are in microseconds, accumulated time and durations in whole seconds. */
  datatype Timer = Timer(
    mode: string, duration: Option<int>, startedAt: Option<int>, pausedAt: Option<int>,
    accumulated: int, completedAt: Option<int>)

  datatype TimerKey = TimerKey(session: string, address: string, probe: int)

  type Table = map<TimerKey, Timer>

  datatype Op =
    | Upsert(mode: string, duration: Option<int>, sessionExists: bool)
    | Start
    | Pause
    | Resume
    | Reset
    | Complete

  datatype Refusal = BadMode | SessionNotActive | NoSuchSession | TimerNotFound | TimerCompleted

  datatype Outcome = Row(row: Timer) | Refused(why: Refusal)

  predicate Running(r: Timer) {
    r.startedAt.Some? && r.pausedAt.None?
  }

  /** Whole seconds since `started`, never negative. */
  function Elapsed(started: int, now: int): nat {
    if now <= started then 0 else (now - started) / SECOND
  }

  function Fresh(mode: string, duration: Option<int>): Timer {
    Timer(mode, duration, None, None, 0, None)
  }

  function Paused(r: Timer, now: int): Timer
    requires Running(r)
  {
    r.(startedAt := None, pausedAt := Some(now), accumulated := r.accumulated + Elapsed(r.startedAt.value, now))
  }

  function Completed(r: Timer, now: int): Timer {
    var at := Some(if r.completedAt.Some? then r.completedAt.value else now);
    if Running(r) then Paused(r, now).(completedAt := at)
    else if r.pausedAt.Some? then r.(completedAt := at)
    else r.(completedAt := at, pausedAt := Some(now))
  }

  /** What `op` makes of an existing row. */
  function OnRow(r: Timer, op: Op, now: int): Outcome {
    match op
    case Upsert(mode, duration, _) => Row(Fresh(mode, duration))
    case Reset => Row(Fresh(r.mode, r.duration))
    case Start =>
      if r.completedAt.Some? then Refused(TimerCompleted)
      else if Running(r) then Row(r)
      else Row(r.(startedAt := Some(now), pausedAt := None))
    case Resume =>
      if r.completedAt.Some? then Refused(TimerCompleted)
      else if r.pausedAt.None? then Row(r)
      else Row(r.(startedAt := Some(now), pausedAt := None))
    case Pause => Row(if Running(r) then Paused(r, now) else r)
    case Complete => Row(Completed(r, now))
  }

  /** What an operation answers, given the current session. */
  function Answer(t: Table, current: Option<string>, k: TimerKey, op: Op, now: int): Outcome {
    if op.Upsert? && op.mode != "count_up" && op.mode != "count_down" then Refused(BadMode)
    else if current != Some(k.session) then Refused(SessionNotActive)
    else if op.Upsert? then (if op.sessionExists then Row(Fresh(op.mode, op.duration)) else Refused(NoSuchSession))
    else if k !in t then Refused(TimerNotFound)
    else OnRow(t[k], op, now)
  }

  function After(t: Table, current: Option<string>, k: TimerKey, op: Op, now: int): Table {
    var a := Answer(t, current, k, op, now);
    if a.Row? then t[k := a.row] else t
  }

  predicate Rearms(op: Op) {
    op.Upsert? || op.Reset?
  }

  /** Expired as the completer's scan sees it. */
  predicate Expired(r: Timer, now: int) {
    && r.mode == "count_down" && Running(r) && r.completedAt.None? && r.duration.Some?
    && r.accumulated + Elapsed(r.startedAt.value, now) >= r.duration.value
  }

  // ---------------------------------------------------------------- facts about single rows

  /** A row never runs and rests at once, and a completed row rests. */
  ghost predicate WellFormed(r: Timer) {
    && !(r.startedAt.Some? && r.pausedAt.Some?)
    && (r.completedAt.Some? ==> r.pausedAt.Some? && r.startedAt.None?)
  }

  ghost predicate AllWellFormed(t: Table) {
    forall k | k in t :: WellFormed(t[k])
  }

  lemma OperationsKeepForm(t: Table, current: Option<string>, k: TimerKey, op: Op, now: int)
    requires AllWellFormed(t)
    ensures AllWellFormed(After(t, current, k, op, now))
  {
  }

  /** A completed row is terminal: start and resume are refused, pause and completing again leave it
      exactly as it was, and only an upsert or a reset gets it out of that state. */
  lemma CompletedIsTerminal(t: Table, current: Option<string>, k: TimerKey, op: Op, now: int)
    requires AllWellFormed(t) && k in t && t[k].completedAt.Some? && !Rearms(op)
    ensures After(t, current, k, op, now) == t
    ensures current == Some(k.session) && (op.Start? || op.Resume?) ==>
      Answer(t, current, k, op, now) == Refused(TimerCompleted)
    ensures current == Some(k.session) && (op.Pause? || op.Complete?) ==>
      Answer(t, current, k, op, now) == Row(t[k])
  {
    if op.Complete? {
      assert Completed(t[k], now) == t[k];
    }
  }

  /** A completed countdown that was running when it expired and was not disturbed has run its duration. */
  lemma CompletedRanItsDuration(r: Timer, scanned: int, now: int)
    requires Expired(r, scanned) && scanned <= now
    ensures Completed(r, now).accumulated >= r.duration.value
  {
    ElapsedGrows(r.startedAt.value, scanned, now);
  }

  lemma ElapsedGrows(started: int, a: int, b: int)
    requires a <= b
    ensures Elapsed(started, a) <= Elapsed(started, b)
  {
  }
}
