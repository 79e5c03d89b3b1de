/**
 Session starts that fail between the insert of the row and the commit: nothing is rolled back, so the
 row stays in the connection's transaction and the next commit of any operation makes it permanent.
 */
module StartFaults {
  import opened Options
  import opened SessionBook

  /** What is durable, and what the process sees: its transaction's rows and its pointers. */
  datatype Ledger = Ledger(committed: Sessions, book: Book)

  datatype Fault = NoFault | AtInsert | AfterInsert

  datatype Act =
    | Start(id: string, now: int, reason: string, fault: Fault)
    | End(now: int, reason: string)
    | Discard(id: string)
    | OtherCommit                                // of a reading, a timer, a note, ...
    | Restart(keep: string, now: int)

  /** Ending the current session commits; with none there is nothing to commit. */
  function EndFirst(l: Ledger, now: int, reason: string): Ledger {
    var b := EndCurrent(l.book, now, reason);
    Ledger(if l.book.current.Some? then b.rows else l.committed, b)
  }

  /** The row is in, and neither committed nor current. */
  function InsertOnly(b: Book, id: string, now: int): Book {
    b.(rows := b.rows[id := SessionRow(now, None, None)])
  }

  function Do(l: Ledger, a: Act): Ledger {
    match a
    case Start(id, now, reason, fault) =>
      var e := EndFirst(l, now, reason);
      if id in e.book.rows || fault.AtInsert? then e
      else if fault.AfterInsert? then Ledger(e.committed, InsertOnly(e.book, id, now))
      else
        var b := Open(l.book, id, now, reason);
        Ledger(b.rows, b)
    case End(now, reason) => EndFirst(l, now, reason)
    case Discard(id) => Ledger(Forget(l.book, id).rows, Forget(l.book, id))
    case OtherCommit => Ledger(l.book.rows, l.book)
    case Restart(keep, now) =>
      var b := Recover(Book(l.committed, None, None, None), keep, now);
      if OpenIn(l.committed) == {} then Ledger(l.committed, Book(l.committed, None, None, None)) else Ledger(b.rows, b)
  }

  function DoAll(l: Ledger, acts: seq<Act>): Ledger
    decreases |acts|
  {
    if acts == [] then l else Do(DoAll(l, acts[..|acts| - 1]), acts[|acts| - 1])
  }

  /** A restart resumes a newest row among those left open. */
  ghost predicate CanDo(l: Ledger, a: Act) {
    a.Restart? ==> OpenIn(l.committed) == {} || Newest(l.committed, a.keep)
  }

  ghost predicate CanDoAll(l: Ledger, acts: seq<Act>)
    decreases |acts|
  {
    acts == [] || (CanDoAll(l, acts[..|acts| - 1]) && CanDo(DoAll(l, acts[..|acts| - 1]), acts[|acts| - 1]))
  }

  /** The start goes as far as its insert and no further. */
  predicate Leaks(l: Ledger, a: Act) {
    a.Start? && a.fault.AfterInsert? && a.id !in l.book.rows
  }

  /** The sessions left behind by failed starts, until they are discarded or the process restarts. */
  function Leaked(l: Ledger, acts: seq<Act>): set<string>
    decreases |acts|
  {
    if acts == [] then {}
    else
      var before, a := Leaked(l, acts[..|acts| - 1]), acts[|acts| - 1];
      if Leaks(DoAll(l, acts[..|acts| - 1]), a) then before + {a.id}
      else if a.Discard? then before - {a.id}
      else if a.Restart? then {}
      else before
  }

  /** Pointers and rows agree but for the open rows `leaked`. */
  ghost predicate SettledBut(b: Book, leaked: set<string>) {
    && OpenIn(b.rows) == leaked + (if b.current.Some? then {b.current.value} else {})
    && (b.current.Some? ==> b.current.value !in leaked && b.currentStart == Some(b.rows[b.current.value].startedAt))
    && (b.current.None? ==> b.currentStart.None?)
    && LastEnded(b)
  }

  lemma SettledIfNothingLeaked(b: Book, leaked: set<string>)
    requires SettledBut(b, leaked)
    ensures Settled(b) <==> leaked == {}
  {
    if leaked != {} {
      var id :| id in leaked;
      assert id in OpenIn(b.rows);
    }
  }

  lemma EndSettledBut(b: Book, leaked: set<string>, now: int, reason: string)
    requires SettledBut(b, leaked)
    ensures SettledBut(EndCurrent(b, now, reason), leaked) && EndCurrent(b, now, reason).current.None?
    ensures EndCurrent(b, now, reason).rows.Keys == b.rows.Keys
  {
    if b.current.Some? {
      assert b.current.value in OpenIn(b.rows);
      OpenAfterEnd(b.rows, b.current.value, now, reason);
    }
  }

  lemma InsertSettledBut(b: Book, leaked: set<string>, id: string, now: int)
    requires SettledBut(b, leaked) && b.current.None? && id !in b.rows
    ensures SettledBut(InsertOnly(b, id, now), leaked + {id})
    ensures SettledBut(Book(InsertOnly(b, id, now).rows, Some(id), Some(now), b.last), leaked)
  {
    OpenAfterInsert(b.rows, id, now);
    assert id !in OpenIn(b.rows);
  }

  lemma DiscardSettledBut(b: Book, leaked: set<string>, id: string)
    requires SettledBut(b, leaked)
    ensures SettledBut(Forget(b, id), leaked - {id})
  {
    assert OpenIn(b.rows - {id}) == OpenIn(b.rows) - {id};
  }

  lemma RestartSettled(l: Ledger, keep: string, now: int)
    requires CanDo(l, Restart(keep, now))
    ensures SettledBut(Do(l, Restart(keep, now)).book, {})
  {
    RecoveryRepairs(Book(l.committed, None, None, None), keep, now);
  }

  lemma DoSettledBut(l: Ledger, leaked: set<string>, a: Act)
    requires SettledBut(l.book, leaked) && CanDo(l, a)
    ensures SettledBut(Do(l, a).book,
              if Leaks(l, a) then leaked + {a.id} else if a.Discard? then leaked - {a.id} else if a.Restart? then {} else leaked)
  {
    match a
    case Start(id, now, reason, fault) =>
      EndSettledBut(l.book, leaked, now, reason);
      if id !in l.book.rows {
        InsertSettledBut(EndCurrent(l.book, now, reason), leaked, id, now);
      }
    case End(now, reason) => EndSettledBut(l.book, leaked, now, reason);
    case Discard(id) => DiscardSettledBut(l.book, leaked, id);
    case OtherCommit =>
    case Restart(keep, now) => RestartSettled(l, keep, now);
  }

  lemma {:induction false} AllSettledBut(l: Ledger, acts: seq<Act>)
    requires Settled(l.book) && CanDoAll(l, acts)
    ensures SettledBut(DoAll(l, acts).book, Leaked(l, acts))
    decreases |acts|
  {
    if acts != [] {
      AllSettledBut(l, acts[..|acts| - 1]);
      DoSettledBut(DoAll(l, acts[..|acts| - 1]), Leaked(l, acts[..|acts| - 1]), acts[|acts| - 1]);
    }
  }

  /** After any run of starts, failed or not, ends, discards, other commits and restarts, the pointers and the rows
      agree if and only if nothing is left behind by a start that failed after its insert; and the open rows are
      those left behind and the current one. */
  lemma {:induction false} SettledExactlyWhenNothingLeaked(l: Ledger, acts: seq<Act>)
    requires Settled(l.book) && CanDoAll(l, acts)
    ensures var b := DoAll(l, acts).book;
      && (Settled(b) <==> Leaked(l, acts) == {})
      && OpenIn(b.rows) == Leaked(l, acts) + (if b.current.Some? then {b.current.value} else {})
  {
    AllSettledBut(l, acts);
    SettledIfNothingLeaked(DoAll(l, acts).book, Leaked(l, acts));
  }

  /** One failed start: its row is open under no pointer, and durable only from the next commit on; a start that
      then succeeds leaves two sessions open. */
  lemma FailedStartLeavesOpenRow(l: Ledger, id: string, now: int, reason: string, other: string, later: int)
    requires Settled(l.book) && id !in l.book.rows && id !in l.committed && other !in l.book.rows && other != id
    ensures var failed := Do(l, Start(id, now, reason, AfterInsert));
      var kept, again := Do(failed, OtherCommit), Do(failed, Start(other, later, reason, NoFault));
      && failed.book.current.None? && OpenIn(failed.book.rows) == {id} && id !in failed.committed
      && kept.book.current.None? && id in OpenIn(kept.committed)
      && OpenIn(again.committed) == {id, other} && !AtMostOneOpen(again.book.rows)
  {
    var failed := Do(l, Start(id, now, reason, AfterInsert));
    DoSettledBut(l, {}, Start(id, now, reason, AfterInsert));
    assert failed.book.rows.Keys == l.book.rows.Keys + {id};
    assert id in OpenIn(failed.book.rows);
    DoSettledBut(failed, {id}, Start(other, later, reason, NoFault));
    var again := Do(failed, Start(other, later, reason, NoFault));
    assert again.book.current == Some(other);
    assert id in OpenIn(again.book.rows) && other in OpenIn(again.book.rows);
  }
}
