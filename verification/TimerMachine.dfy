/** A timer as a machine of four states, read off its columns: what every operation does, and when it is refused. */
module TimerMachine {
  import opened Options
  import opened TimerTable

  datatype State =
    | Idle
    | Going(since: int)
    | Resting(at: int)
    | Done(at: int, rested: int)

  /** How a state shows in the columns. */
  predicate Shows(r: Timer, s: State) {
    match s
    case Idle => r.startedAt.None? && r.pausedAt.None? && r.completedAt.None?
    case Going(since) => r.startedAt == Some(since) && r.pausedAt.None? && r.completedAt.None?
    case Resting(at) => r.startedAt.None? && r.pausedAt == Some(at) && r.completedAt.None?
    case Done(at, rested) => r.startedAt.None? && r.pausedAt == Some(rested) && r.completedAt == Some(at)
  }

  lemma EveryRowHasAState(r: Timer)
    requires WellFormed(r)
    ensures exists s :: Shows(r, s)
  {
    var s :=
      if r.completedAt.Some? then Done(r.completedAt.value, r.pausedAt.value)
      else if r.startedAt.Some? then Going(r.startedAt.value)
      else if r.pausedAt.Some? then Resting(r.pausedAt.value) else Idle;
    assert Shows(r, s);
  }

  function Next(s: State, op: Op, now: int): State {
    match op
    case Upsert(_, _, _) => Idle
    case Reset => Idle
    case Start => if s.Idle? || s.Resting? then Going(now) else s
    case Resume => if s.Resting? then Going(now) else s
    case Pause => if s.Going? then Resting(now) else s
    case Complete => (match s
                      case Done(_, _) => s
                      case Resting(at) => Done(now, at)
                      case _ => Done(now, now))
  }

  /** `gain` is the whole seconds from `since` to `now`, none when the clock went back. */
  predicate WholeSeconds(since: int, now: int, gain: int) {
    if now <= since then gain == 0 else gain * 1_000_000 <= now - since < gain * 1_000_000 + 1_000_000
  }

  /** The seconds on the row: none after a rearm, the whole seconds run more when it stops running, else as before. */
  predicate SecondsMove(s: State, op: Op, now: int, before: int, after: int) {
    if op.Upsert? || op.Reset? then after == 0
    else if s.Going? && (op.Pause? || op.Complete?) then WholeSeconds(s.since, now, after - before)
    else after == before
  }

  /** An operation on a row of the current session is refused exactly when it would start or resume a completed
      timer; otherwise the row moves to the next state, and keeps mode and duration unless they are given anew. */
  lemma OperationsAreTheMachine(t: Table, current: Option<string>, k: TimerKey, op: Op, now: int, s: State)
    requires k in t && Shows(t[k], s) && current == Some(k.session)
    requires op.Upsert? ==> (op.mode == "count_up" || op.mode == "count_down") && op.sessionExists
    ensures var a := Answer(t, current, k, op, now);
      && (a.Refused? <==> s.Done? && (op.Start? || op.Resume?))
      && (a.Refused? ==> a.why == TimerCompleted && After(t, current, k, op, now) == t)
      && (a.Row? ==>
           && After(t, current, k, op, now) == t[k := a.row]
           && Shows(a.row, Next(s, op, now))
           && SecondsMove(s, op, now, t[k].accumulated, a.row.accumulated)
           && (if op.Upsert? then a.row.mode == op.mode && a.row.duration == op.duration
               else a.row.mode == t[k].mode && a.row.duration == t[k].duration))
  {
  }

  /** Refusals, in their order, when there is no such row or it is not to be touched. */
  lemma RefusedOtherwise(t: Table, current: Option<string>, k: TimerKey, op: Op, now: int)
    ensures var a := Answer(t, current, k, op, now);
      && (op.Upsert? && op.mode != "count_up" && op.mode != "count_down" <==> a == Refused(BadMode))
      && (a == Refused(SessionNotActive) <==> a != Refused(BadMode) && current != Some(k.session))
      && (current == Some(k.session) && a != Refused(BadMode) ==>
           && (op.Upsert? ==> (a == Refused(NoSuchSession) <==> !op.sessionExists))
           && (op.Upsert? && op.sessionExists ==> a == Row(Timer(op.mode, op.duration, None, None, 0, None)))
           && (!op.Upsert? ==> (a == Refused(TimerNotFound) <==> k !in t)))
      && (a.Refused? ==> After(t, current, k, op, now) == t)
  {
  }

  // ---------------------------------------------------------------- runs of operations

  datatype Request = Request(op: Op, now: int)

  function Served(t: Table, current: Option<string>, k: TimerKey, rs: seq<Request>): Table
    decreases |rs|
  {
    if rs == [] then t
    else After(Served(t, current, k, rs[..|rs| - 1]), current, k, rs[|rs| - 1].op, rs[|rs| - 1].now)
  }

  function Walk(s: State, rs: seq<Request>): State
    decreases |rs|
  {
    if rs == [] then s else Next(Walk(s, rs[..|rs| - 1]), rs[|rs| - 1].op, rs[|rs| - 1].now)
  }

  predicate Valid(op: Op) {
    op.Upsert? ==> (op.mode == "count_up" || op.mode == "count_down") && op.sessionExists
  }

  /** Through any operations at any times the row of a current session walks the machine, and no other row moves. */
  lemma {:induction false} RowWalksTheMachine(t: Table, current: Option<string>, k: TimerKey, s: State, rs: seq<Request>)
    requires k in t && Shows(t[k], s) && current == Some(k.session) && forall i | 0 <= i < |rs| :: Valid(rs[i].op)
    ensures var t' := Served(t, current, k, rs);
      && t'.Keys == t.Keys && Shows(t'[k], Walk(s, rs))
      && forall other | other in t && other != k :: t'[other] == t[other]
    decreases |rs|
  {
    if rs != [] {
      var init, last := rs[..|rs| - 1], rs[|rs| - 1];
      RowWalksTheMachine(t, current, k, s, init);
      OperationsAreTheMachine(Served(t, current, k, init), current, k, last.op, last.now, Walk(s, init));
    }
  }

  // ---------------------------------------------------------------- countdowns that ran out

  /** A running countdown whose seconds, with the whole ones since it was started, make up its duration. */
  predicate RanOut(r: Timer, now: int) {
    && r.mode == "count_down"
    && r.startedAt.Some? && r.pausedAt.None? && r.completedAt.None? && r.duration.Some?
    && (r.accumulated >= r.duration.value || now - r.startedAt.value >= (r.duration.value - r.accumulated) * 1_000_000)
  }

  lemma ExpiredIsRanOut(r: Timer, now: int)
    ensures Expired(r, now) <==> RanOut(r, now)
  {
    if r.startedAt.Some? && r.duration.Some? && now > r.startedAt.value {
      var run, need := now - r.startedAt.value, r.duration.value - r.accumulated;
      assert run / SECOND * SECOND <= run < run / SECOND * SECOND + SECOND;
    }
  }
}
