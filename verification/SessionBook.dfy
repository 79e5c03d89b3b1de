/**
 Session lifecycle: the sessions table, the three in-memory pointers, and what is left of
 them when the process dies between a commit and the pointer updates that follow it.
 */
module SessionBook {
  import opened Options

  datatype SessionRow = SessionRow(startedAt: int, endedAt: Option<int>, endReason: Option<string>)

  type Sessions = map<string, SessionRow>

  /** The committed rows and the in-memory pointers. */
  datatype Book = Book(rows: Sessions, current: Option<string>, currentStart: Option<int>, last: Option<string>)

  function OpenIn(rows: Sessions): set<string> {
    set id | id in rows && rows[id].endedAt.None?
  }

  function Ended(row: SessionRow, now: int, reason: string): SessionRow {
    row.(endedAt := Some(now), endReason := Some(reason))
  }

  /** UPDATE sessions SET ended_at: no effect when the row is missing. */
  function EndRow(rows: Sessions, id: string, now: int, reason: string): Sessions {
    if id in rows then rows[id := Ended(rows[id], now, reason)] else rows
  }

  // ---------------------------------------------------------------- whole operations

  function EndCurrent(b: Book, now: int, reason: string): Book {
    match b.current
    case None => b
    case Some(id) => Book(EndRow(b.rows, id, now, reason), None, None, Some(id))
  }

  /** Ends the current session if there is one, then opens `id`; the insert fails if `id` is taken. */
  function Open(b: Book, id: string, now: int, reason: string): Book {
    var c := EndCurrent(b, now, reason);
    if id in c.rows then c else Book(c.rows[id := SessionRow(now, None, None)], Some(id), Some(now), c.last)
  }

  function Forget(b: Book, id: string): Book {
    Book(b.rows - {id},
         if b.current == Some(id) then None else b.current,
         if b.current == Some(id) then None else b.currentStart,
         if b.last == Some(id) then None else b.last)
  }

  /** A fresh process over the same rows. */
  function Reboot(b: Book): Book {
    Book(b.rows, None, None, None)
  }

  /** An open row that no other open row started after. */
  predicate Newest(rows: Sessions, id: string) {
    id in OpenIn(rows) && forall other | other in OpenIn(rows) :: rows[other].startedAt <= rows[id].startedAt
  }

  function EndOthers(rows: Sessions, keep: string, now: int): Sessions {
    map id | id in rows :: if id != keep && rows[id].endedAt.None?
                           then Ended(rows[id], now, "server_restart_duplicate") else rows[id]
  }

  /** Recovery resumes `keep`, which must be a newest open row; with none open it does nothing. */
  function Recover(b: Book, keep: string, now: int): Book {
    if keep in b.rows then Book(EndOthers(b.rows, keep, now), Some(keep), Some(b.rows[keep].startedAt), b.last) else b
  }

  // ---------------------------------------------------------------- the invariant

  ghost predicate AtMostOneOpen(rows: Sessions) {
    forall i, j | i in OpenIn(rows) && j in OpenIn(rows) :: i == j
  }

  /** The pointers of a process between operations agree with the committed rows. */
  ghost predicate Settled(b: Book) {
    && OpenIn(b.rows) == (if b.current.Some? then {b.current.value} else {})
    && (b.current.Some? ==> b.currentStart == Some(b.rows[b.current.value].startedAt))
    && (b.current.None? ==> b.currentStart.None?)
    && LastEnded(b)
  }

  // ---------------------------------------------------------------- single commits

  /** Where an operation stands between its commits. */
  datatype Phase =
    | Idle
    | EndCommitted(opening: Option<string>)      // ended_at is committed, pointers not yet moved
    | InsertDue(id: string)                      // pointers moved, the insert is next
    | InsertCommitted(id: string, startedAt: int)
    | DeleteCommitted(id: string)
    | Down                                       // no process
    | PointerResumed(keep: string)               // recovery set the pointer, duplicates still open

  datatype Process = Process(book: Book, phase: Phase)

  datatype Move =
    | BeginEnd(now: int, reason: string)
    | BeginOpen(id: string, now: int, reason: string)
    | BeginForget(id: string)
    | Proceed(now: int)                          // the running operation does its next step
    | Crash
    | BeginRecovery(keep: string)

  function Insert(b: Book, id: string, now: int): Process {
    if id in b.rows then Process(b, Idle)
    else Process(b.(rows := b.rows[id := SessionRow(now, None, None)]), InsertCommitted(id, now))
  }

  function MovePointers(b: Book): Book {
    Book(b.rows, None, None, b.current)
  }

  function ForgetPointers(b: Book, id: string): Book {
    Forget(b, id).(rows := b.rows)
  }

  /** One step: a commit, or the pointer updates after one, or a crash. Moves that do not apply do nothing. */
  function Step(s: Process, m: Move): Process {
    var b := s.book;
    match m
    case Crash => Process(Reboot(b), Down)
    case BeginEnd(now, reason) =>
      if s.phase.Idle? && b.current.Some?
      then Process(b.(rows := EndRow(b.rows, b.current.value, now, reason)), EndCommitted(None)) else s
    case BeginOpen(id, now, reason) =>
      if !s.phase.Idle? then s
      else if b.current.Some? then Process(b.(rows := EndRow(b.rows, b.current.value, now, reason)), EndCommitted(Some(id)))
      else Insert(b, id, now)
    case BeginForget(id) =>
      if s.phase.Idle? then Process(b.(rows := b.rows - {id}), DeleteCommitted(id)) else s
    case Proceed(now) =>
      (match s.phase
       case EndCommitted(opening) =>
         Process(MovePointers(b), if opening.Some? then InsertDue(opening.value) else Idle)
       case InsertDue(id) => Insert(b, id, now)
       case InsertCommitted(id, startedAt) => Process(b.(current := Some(id), currentStart := Some(startedAt)), Idle)
       case DeleteCommitted(id) => Process(ForgetPointers(b, id), Idle)
       case PointerResumed(keep) => Process(b.(rows := EndOthers(b.rows, keep, now)), Idle)
       case _ => s)
    case BeginRecovery(keep) =>
      if !s.phase.Down? then s
      else if OpenIn(b.rows) == {} then Process(b, Idle)
      else if Newest(b.rows, keep)
      then Process(b.(current := Some(keep), currentStart := Some(b.rows[keep].startedAt)), PointerResumed(keep)) else s
  }

  function Play(s: Process, moves: seq<Move>): Process
    decreases |moves|
  {
    if moves == [] then s else Step(Play(s, moves[..|moves| - 1]), moves[|moves| - 1])
  }

  /** What holds at every commit boundary, whatever the running operation still has to do. */
  ghost predicate Sound(s: Process) {
    var b := s.book;
    && AtMostOneOpen(b.rows)
    && (match s.phase
        case Idle => Settled(b)
        case EndCommitted(_) => OpenIn(b.rows) == {} && b.current.Some? && b.current.value in b.rows
        case InsertDue(_) => Settled(b) && b.current.None?
        case InsertCommitted(id, startedAt) =>
          b.current.None? && id in b.rows && b.rows[id].startedAt == startedAt && OpenIn(b.rows) == {id} && LastEnded(b)
        case DeleteCommitted(id) => id !in b.rows && ForgetsTo(b, id)
        case Down => b.current.None? && b.currentStart.None? && b.last.None?
        case PointerResumed(keep) =>
          OpenIn(b.rows) == {keep} && b.current == Some(keep) && b.currentStart == Some(b.rows[keep].startedAt) && b.last.None?)
  }

  ghost predicate LastEnded(b: Book) {
    b.last.Some? ==> b.last.value in b.rows && b.rows[b.last.value].endedAt.Some?
  }

  /** The rows are already without `id`, and dropping it from the pointers settles the book. */
  ghost predicate ForgetsTo(b: Book, id: string) {
    Settled(ForgetPointers(b, id))
  }

  lemma OpenAfterEnd(rows: Sessions, id: string, now: int, reason: string)
    ensures OpenIn(EndRow(rows, id, now, reason)) == OpenIn(rows) - {id}
  {
  }

  lemma OpenAfterInsert(rows: Sessions, id: string, now: int)
    requires id !in rows
    ensures OpenIn(rows[id := SessionRow(now, None, None)]) == OpenIn(rows) + {id}
  {
  }

  lemma OpenAfterEndOthers(rows: Sessions, keep: string, now: int)
    ensures OpenIn(EndOthers(rows, keep, now)) == OpenIn(rows) * {keep}
  {
  }

  lemma StepSound(s: Process, m: Move)
    requires Sound(s)
    ensures Sound(Step(s, m))
  {
    var b := s.book;
    match m
    case BeginEnd(now, reason) =>
      if b.current.Some? { OpenAfterEnd(b.rows, b.current.value, now, reason); }
    case BeginOpen(id, now, reason) =>
      if b.current.Some? { OpenAfterEnd(b.rows, b.current.value, now, reason); }
      if id !in b.rows { OpenAfterInsert(b.rows, id, now); }
    case BeginForget(id) =>
      assert OpenIn(b.rows - {id}) == OpenIn(b.rows) - {id};
    case Proceed(now) =>
      if s.phase.InsertDue? && s.phase.id !in b.rows { OpenAfterInsert(b.rows, s.phase.id, now); }
      if s.phase.EndCommitted? { assert b.current.value !in OpenIn(b.rows); }
      if s.phase.PointerResumed? { OpenAfterEndOthers(b.rows, s.phase.keep, now); }
    case BeginRecovery(keep) =>
    case Crash =>
  }

  /** At every commit boundary of every run, crashes included, at most one session row is open; and
      between operations the open row is exactly the current one and last names an ended one. */
  lemma {:induction false} AlwaysSound(s: Process, moves: seq<Move>)
    requires Sound(s)
    ensures Sound(Play(s, moves))
    ensures Play(s, moves).phase.Idle? ==> Settled(Play(s, moves).book)
    decreases |moves|
  {
    if moves != [] {
      AlwaysSound(s, moves[..|moves| - 1]);
      StepSound(Play(s, moves[..|moves| - 1]), moves[|moves| - 1]);
    }
  }

  // ---------------------------------------------------------------- recovery from anything

  /** After a crash anywhere, with any number of open rows, an uninterrupted recovery leaves the newest
      open and every other ended, and the pointers in agreement. */
  lemma RecoveryRepairs(b: Book, keep: string, now: int)
    requires OpenIn(b.rows) == {} || Newest(b.rows, keep)
    ensures var s := Step(Step(Process(Reboot(b), Down), BeginRecovery(keep)), Proceed(now));
      && s.phase.Idle? && Settled(s.book)
      && OpenIn(s.book.rows) == (if OpenIn(b.rows) == {} then {} else {keep})
      && s.book.rows.Keys == b.rows.Keys
      && (forall id | id in b.rows && (id == keep || b.rows[id].endedAt.Some?) :: s.book.rows[id] == b.rows[id])
      && (forall id | id in OpenIn(b.rows) && id != keep ::
            EndedAs(b.rows[id], s.book.rows[id], now, "server_restart_duplicate"))
  {
    if OpenIn(b.rows) != {} {
      OpenAfterEndOthers(b.rows, keep, now);
      assert OpenIn(b.rows) * {keep} == {keep};
    }
  }

  /** Recovery interrupted by a crash before it ended the duplicates can simply be run again. */
  lemma InterruptedRecovery(b: Book, keep: string, keep2: string, now: int)
    requires Newest(b.rows, keep) && Newest(b.rows, keep2)
    ensures var s := Step(Step(Process(Reboot(b), Down), BeginRecovery(keep)), Crash);
      s == Process(Reboot(b), Down)
    ensures b.rows[keep].startedAt == b.rows[keep2].startedAt
  {
  }

  // ---------------------------------------------------------------- whole operations are runs of single steps

  lemma EndIsSteps(b: Book, now: int, reason: string)
    requires b.current.Some?
    ensures Step(Step(Process(b, Idle), BeginEnd(now, reason)), Proceed(now)) == Process(EndCurrent(b, now, reason), Idle)
  {
  }

  lemma OpenIsSteps(b: Book, id: string, now: int, reason: string)
    ensures var one := Step(Process(b, Idle), BeginOpen(id, now, reason));
      var done := if b.current.None? then (if id in b.rows then one else Step(one, Proceed(now)))
                  else (var two := Step(Step(one, Proceed(now)), Proceed(now));
                        if id in b.rows then two else Step(two, Proceed(now)));
      Settled(b) ==> done == Process(Open(b, id, now, reason), Idle)
  {
  }

  lemma ForgetIsSteps(b: Book, id: string, now: int)
    ensures Step(Step(Process(b, Idle), BeginForget(id)), Proceed(now)) == Process(Forget(b, id), Idle)
  {
  }

  /** So every whole operation keeps the pointers and the rows in agreement. */
  lemma OperationsStaySettled(b: Book, id: string, now: int, reason: string)
    requires Settled(b)
    ensures Settled(EndCurrent(b, now, reason)) && Settled(Open(b, id, now, reason)) && Settled(Forget(b, id))
    ensures id !in b.rows ==> Open(b, id, now, reason).current == Some(id)
  {
    if b.current.Some? {
      OpenAfterEnd(b.rows, b.current.value, now, reason);
    }
    var c := EndCurrent(b, now, reason);
    if id !in c.rows {
      OpenAfterInsert(c.rows, id, now);
    }
    assert OpenIn(b.rows - {id}) == OpenIn(b.rows) - {id};
  }

  // ---------------------------------------------------------------- the columns

  /** The row is the same session's, ended at `now` for `reason`. */
  predicate EndedAs(was: SessionRow, row: SessionRow, now: int, reason: string) {
    row.startedAt == was.startedAt && row.endedAt == Some(now) && row.endReason == Some(reason)
  }

  /** `after` is `rows` with session `id` ended, if it is there. */
  ghost predicate EndsOnly(rows: Sessions, after: Sessions, id: string, now: int, reason: string) {
    && after.Keys == rows.Keys
    && (id in rows ==> EndedAs(rows[id], after[id], now, reason))
    && (forall other | other in rows && other != id :: after[other] == rows[other])
  }

  /** Ending gives the current session's row the time and the reason of the end, and touches no other row. */
  lemma EndColumns(b: Book, id: string, now: int, reason: string)
    requires b.current == Some(id)
    ensures var c := EndCurrent(b, now, reason);
      EndsOnly(b.rows, c.rows, id, now, reason) && c.current.None? && c.currentStart.None? && c.last == Some(id)
    ensures EndsOnly(b.rows, Step(Process(b, Idle), BeginEnd(now, reason)).book.rows, id, now, reason)
    ensures forall opening ::
      EndsOnly(b.rows, Step(Process(b, Idle), BeginOpen(opening, now, reason)).book.rows, id, now, reason)
  {
  }

  /** Starting gives the new row its time and points at it, and does to the other rows what ending does. */
  lemma OpenColumns(b: Book, id: string, now: int, reason: string)
    requires id !in b.rows
    ensures var c := Open(b, id, now, reason);
      && id in c.rows && c.rows[id] == SessionRow(now, None, None) && c.current == Some(id) && c.currentStart == Some(now)
      && (b.current.None? ==> c.rows - {id} == b.rows && c.last == b.last)
      && (b.current.Some? ==> EndsOnly(b.rows, c.rows - {id}, b.current.value, now, reason) && c.last == b.current)
  {
    var e := EndCurrent(b, now, reason);
    assert Open(b, id, now, reason).rows - {id} == e.rows;
  }

  /** Discarding takes out one row, and the pointers to it. */
  lemma ForgetColumns(b: Book, id: string)
    ensures var c := Forget(b, id);
      && (forall other :: other in c.rows <==> other in b.rows && other != id)
      && (forall other | other in c.rows :: c.rows[other] == b.rows[other])
      && (b.current == Some(id) ==> c.current.None? && c.currentStart.None?)
      && (b.current != Some(id) ==> c.current == b.current && c.currentStart == b.currentStart)
      && c.last == if b.last == Some(id) then None else b.last
  {
  }

  /** Recovery ends every other open row now, leaves every ended one, and points at the one it keeps. */
  lemma RecoverColumns(b: Book, keep: string, now: int)
    requires keep in b.rows
    ensures var c := Recover(b, keep, now);
      && c.rows.Keys == b.rows.Keys && c.rows[keep] == b.rows[keep]
      && c.current == Some(keep) && c.currentStart == Some(b.rows[keep].startedAt) && c.last == b.last
      && (forall id | id in b.rows && id != keep ::
            if b.rows[id].endedAt.None? then EndedAs(b.rows[id], c.rows[id], now, "server_restart_duplicate")
            else c.rows[id] == b.rows[id])
  {
  }
}
