/**
 The timer table among its users: client operations, session changes, restarts, and the
 completer, whose scan and completions are separate steps that anything can come between.
 */
module TimerSystem {
  import opened Options
  import opened SessionBook
  import opened TimerTable

  // ---------------------------------------------------------------- the system

  /** What an observer of a run sees. */
  datatype Event =
    | Rearmed(key: TimerKey)                              // an upsert or a reset took effect
    | Opened(key: TimerKey, at: int)                      // the timer went from resting to running
    | Closed(key: TimerKey, at: int)                      // and back
    | Updated(key: TimerKey, row: Timer)                  // probe_timer_update was published
    | Alerted(key: TimerKey, current: Option<string>)     // timer_complete was published

  /** `pending` is what the completer's tick has found and not yet completed. */
  datatype System = System(book: Book, timers: Table, pending: seq<TimerKey>, log: seq<Event>)

  datatype Action =
    | Client(key: TimerKey, op: Op, now: int, published: bool)
    | OpenSession(id: string, now: int)
    | EndSession(now: int)
    | DiscardSession(id: string)
    | Restart(keep: string, now: int)
    | Scan(found: seq<TimerKey>, now: int)
    | CompleteNext(now: int, updatePublished: bool, alertPublished: bool)

  function ExpiredKeys(t: Table, now: int): set<TimerKey> {
    set k | k in t && Expired(t[k], now)
  }

  ghost predicate Enumerates(keys: seq<TimerKey>, s: set<TimerKey>) {
    NoRepeats(keys) && forall k :: k in keys <==> k in s
  }

  ghost predicate NoRepeats(keys: seq<TimerKey>) {
    forall i, j | 0 <= i < j < |keys| :: keys[i] != keys[j]
  }

  /** What an operation that took effect adds to the log. */
  function Trace(before: Table, k: TimerKey, op: Op, row: Timer, now: int): seq<Event> {
    var wasOpen := k in before && before[k].startedAt.Some?;
    if Rearms(op) then [Rearmed(k)]
    else if wasOpen && row.startedAt.None? then [Closed(k, now)]
    else if !wasOpen && row.startedAt.Some? then [Opened(k, now)]
    else []
  }

  function Perform(s: System, k: TimerKey, op: Op, now: int, published: bool): System {
    var a := Answer(s.timers, s.book.current, k, op, now);
    if a.Refused? then s
    else s.(timers := After(s.timers, s.book.current, k, op, now),
            log := s.log + Trace(s.timers, k, op, a.row, now) + (if published then [Updated(k, a.row)] else []))
  }

  function WithoutSession(t: Table, id: string): Table {
    map k | k in t && k.session != id :: t[k]
  }

  /** The completer's next completion; its alert goes out only after its update did. */
  function Completion(s: System, now: int, updatePublished: bool, alertPublished: bool): System
    requires s.pending != []
  {
    var k := s.pending[0];
    var rest := s.(pending := s.pending[1..]);
    if Answer(s.timers, s.book.current, k, Complete, now).Refused? then rest
    else
      var done := Perform(rest, k, Complete, now, updatePublished);
      if updatePublished && alertPublished then done.(log := done.log + [Alerted(k, s.book.current)]) else done
  }

  /** Actions that cannot happen as described leave the system unchanged. */
  ghost function Act(s: System, a: Action): System {
    match a
    case Client(k, op, now, published) => if op.Complete? then s else Perform(s, k, op, now, published)
    case OpenSession(id, now) => s.(book := Open(s.book, id, now, "user"))
    case EndSession(now) => s.(book := EndCurrent(s.book, now, "user"))
    case DiscardSession(id) => s.(book := Forget(s.book, id), timers := WithoutSession(s.timers, id))
    case Restart(keep, now) =>
      if OpenIn(s.book.rows) == {} || Newest(s.book.rows, keep)
      then s.(book := if OpenIn(s.book.rows) == {} then Reboot(s.book) else Recover(Reboot(s.book), keep, now), pending := [])
      else s
    case Scan(found, now) =>
      if s.pending == [] && Enumerates(found, ExpiredKeys(s.timers, now)) then s.(pending := found) else s
    case CompleteNext(now, u, p) => if s.pending == [] then s else Completion(s, now, u, p)
  }

  ghost function Run(s: System, actions: seq<Action>): System
    decreases |actions|
  {
    if actions == [] then s else Act(Run(s, actions[..|actions| - 1]), actions[|actions| - 1])
  }

  /** A client's request does what the operation does, and publishes the row if it can; only the completer completes. */
  lemma ClientActs(s: System, k: TimerKey, op: Op, now: int, published: bool)
    requires !op.Complete?
    ensures var s' := Act(s, Client(k, op, now, published));
      && s'.timers == After(s.timers, s.book.current, k, op, now) && s'.book == s.book && s'.pending == s.pending && s.log <= s'.log
      && var a := Answer(s.timers, s.book.current, k, op, now);
        (a.Row? && published ==> |s'.log| > |s.log| && s'.log[|s'.log| - 1] == Updated(k, a.row)) && (a.Refused? ==> s'.log == s.log)
  {
  }

  /** A discarded session's timers are gone, and no others; starts, ends and restarts leave all timers. */
  lemma SessionsAct(s: System, a: Action, k: TimerKey)
    requires a.OpenSession? || a.EndSession? || a.DiscardSession? || a.Restart? || a.Scan?
    ensures var s' := Act(s, a);
      && s'.log == s.log
      && (k in s'.timers <==> k in s.timers && !(a.DiscardSession? && a.id == k.session))
      && (k in s'.timers ==> s'.timers[k] == s.timers[k])
  {
  }

  // ---------------------------------------------------------------- at most one alert per arming

  /** No rearm of `k` in the log from position `i` on. */
  ghost predicate NotRearmedSince(log: seq<Event>, i: int, k: TimerKey) {
    forall j | 0 <= i <= j < |log| :: log[j] != Rearmed(k)
  }

  /** Between two alerts for a timer there is a rearm of it. */
  ghost predicate AlertsSeparated(log: seq<Event>) {
    forall i, j | 0 <= i < j < |log| && log[i].Alerted? && log[j].Alerted? && log[i].key == log[j].key ::
      exists m :: i < m < j && log[m] == Rearmed(log[i].key)
  }

  ghost predicate AlertsCurrent(log: seq<Event>) {
    forall i | 0 <= i < |log| && log[i].Alerted? :: log[i].current == Some(log[i].key.session)
  }

  /** A timer that has alerted since it was last armed is completed, and not awaiting completion. */
  ghost predicate AlertedAreDone(s: System) {
    forall i | 0 <= i < |s.log| && s.log[i].Alerted? && NotRearmedSince(s.log, i, s.log[i].key) ::
      var k := s.log[i].key; k !in s.pending && (k in s.timers ==> s.timers[k].completedAt.Some?)
  }

  ghost predicate PendingNotDone(s: System) {
    NoRepeats(s.pending) && forall k | k in s.pending && k in s.timers :: s.timers[k].completedAt.None?
  }

  ghost predicate Orderly(s: System) {
    AlertsSeparated(s.log) && AlertsCurrent(s.log) && AlertedAreDone(s) && PendingNotDone(s)
  }

  /** Adding events other than alerts keeps what the log says about alerts. */
  lemma QuietLog(log: seq<Event>, more: seq<Event>)
    requires AlertsSeparated(log) && AlertsCurrent(log)
    requires forall e | e in more :: !e.Alerted?
    ensures AlertsSeparated(log + more) && AlertsCurrent(log + more)
  {
    var all := log + more;
    forall i, j | 0 <= i < j < |all| && all[i].Alerted? && all[j].Alerted? && all[i].key == all[j].key
      ensures exists m :: i < m < j && all[m] == Rearmed(all[i].key)
    {
      assert j < |log|;
      var m :| i < m < j && log[m] == Rearmed(log[i].key);
      assert all[m] == log[m];
    }
  }

  /** A log position not rearmed in a longer log was not rearmed in the shorter one. */
  lemma NotRearmedShorter(log: seq<Event>, more: seq<Event>, i: nat, k: TimerKey)
    requires i < |log| && NotRearmedSince(log + more, i, k)
    ensures NotRearmedSince(log, i, k) && Rearmed(k) !in more
  {
    forall j | i <= j < |log| ensures log[j] != Rearmed(k) {
      assert (log + more)[j] == log[j];
    }
    forall e | e in more ensures e != Rearmed(k) {
      var j :| 0 <= j < |more| && more[j] == e;
      assert (log + more)[|log| + j] == e;
    }
  }

  /** An operation other than completing keeps the system orderly. */
  lemma ClientKeepsOrder(s: System, k: TimerKey, op: Op, now: int, published: bool)
    requires Orderly(s) && AllWellFormed(s.timers) && !op.Complete?
    ensures Orderly(Perform(s, k, op, now, published))
  {
    var s' := Perform(s, k, op, now, published);
    var a := Answer(s.timers, s.book.current, k, op, now);
    if a.Row? {
      var more := Trace(s.timers, k, op, a.row, now) + (if published then [Updated(k, a.row)] else []);
      assert s'.log == s.log + more;
      QuietLog(s.log, more);
      forall i | 0 <= i < |s'.log| && s'.log[i].Alerted? && NotRearmedSince(s'.log, i, s'.log[i].key)
        ensures var key := s'.log[i].key; key !in s'.pending && (key in s'.timers ==> s'.timers[key].completedAt.Some?)
      {
        assert i < |s.log|;
        var key := s.log[i].key;
        NotRearmedShorter(s.log, more, i, key);
        if key == k {
          assert !Rearms(op);
          CompletedIsTerminal(s.timers, s.book.current, k, op, now);
        }
      }
    }
  }

  /** What a completion that is not refused adds to the log: what happened to the row, then the alert. */
  function CompletionTrace(s: System, now: int, u: bool): seq<Event>
    requires s.pending != [] && Answer(s.timers, s.book.current, s.pending[0], Complete, now).Row?
  {
    var k := s.pending[0];
    var row := Answer(s.timers, s.book.current, k, Complete, now).row;
    Trace(s.timers, k, Complete, row, now) + (if u then [Updated(k, row)] else [])
  }

  lemma CompletionParts(s: System, now: int, u: bool, p: bool)
    requires s.pending != []
    ensures var s', k, a := Completion(s, now, u, p), s.pending[0], Answer(s.timers, s.book.current, s.pending[0], Complete, now);
      && s'.pending == s.pending[1..]
      && (a.Refused? ==> s'.log == s.log && s'.timers == s.timers)
      && (a.Row? ==>
           && s'.timers == s.timers[k := a.row] && a.row.completedAt.Some? && s.book.current == Some(k.session)
           && s'.log == s.log + CompletionTrace(s, now, u) + (if u && p then [Alerted(k, s.book.current)] else [])
           && forall e | e in CompletionTrace(s, now, u) :: !e.Alerted?)
  {
  }

  lemma CompletionKeepsOrder(s: System, now: int, u: bool, p: bool)
    requires Orderly(s) && AllWellFormed(s.timers) && s.pending != []
    ensures Orderly(Completion(s, now, u, p))
  {
    CompletionParts(s, now, u, p);
    var k, a := s.pending[0], Answer(s.timers, s.book.current, s.pending[0], Complete, now);
    if a.Row? {
      CompletedInOrder(s, Completion(s, now, u, p), k, a.row, CompletionTrace(s, now, u),
                       if u && p then [Alerted(k, s.book.current)] else []);
    } else {
      RefusedInOrder(s, Completion(s, now, u, p));
    }
  }

  lemma RefusedInOrder(s: System, s': System)
    requires Orderly(s) && s.pending != [] && s'.pending == s.pending[1..] && s'.log == s.log && s'.timers == s.timers
    ensures Orderly(s')
  {
  }

  lemma CompletedInOrder(s: System, s': System, k: TimerKey, row: Timer, trace: seq<Event>, alerts: seq<Event>)
    requires Orderly(s) && s.pending != [] && k == s.pending[0] && s'.pending == s.pending[1..]
    requires s'.timers == s.timers[k := row] && row.completedAt.Some? && s.book.current == Some(k.session)
    requires s'.log == s.log + trace + alerts && forall e | e in trace :: !e.Alerted?
    requires alerts == [] || alerts == [Alerted(k, s.book.current)]
    ensures Orderly(s')
  {
    QuietLog(s.log, trace);
    AlertOnce(s, k, s.log + trace, alerts, |s.log|);
    assert s.log + trace + alerts == s.log + (trace + alerts);
    DoneAfterCompletion(s, s', k, row, trace + alerts);
    assert NoRepeats(s'.pending) && k !in s'.pending;
  }

  lemma DoneAfterCompletion(s: System, s': System, k: TimerKey, row: Timer, more: seq<Event>)
    requires Orderly(s) && s.pending != [] && k == s.pending[0] && s'.pending == s.pending[1..]
    requires s'.timers == s.timers[k := row] && row.completedAt.Some?
    requires s'.log == s.log + more && forall e | e in more && e.Alerted? :: e.key == k
    ensures AlertedAreDone(s')
  {
    forall i | 0 <= i < |s'.log| && s'.log[i].Alerted? && NotRearmedSince(s'.log, i, s'.log[i].key)
      ensures var key := s'.log[i].key; key !in s'.pending && (key in s'.timers ==> s'.timers[key].completedAt.Some?)
    {
      if i < |s.log| {
        NotRearmedShorter(s.log, more, i, s.log[i].key);
      } else {
        assert s'.log[i] in more;
      }
    }
  }

  /** An alert for a timer that was awaiting completion is the first since it was armed. */
  lemma AlertOnce(s: System, k: TimerKey, log: seq<Event>, alerts: seq<Event>, n: nat)
    requires Orderly(s) && k in s.pending && s.book.current == Some(k.session)
    requires n == |s.log| <= |log| && log[..n] == s.log && forall i | n <= i < |log| :: !log[i].Alerted?
    requires AlertsSeparated(log) && AlertsCurrent(log)
    requires alerts == [] || alerts == [Alerted(k, s.book.current)]
    ensures AlertsSeparated(log + alerts) && AlertsCurrent(log + alerts)
  {
    var all := log + alerts;
    forall i, j | 0 <= i < j < |all| && all[i].Alerted? && all[j].Alerted? && all[i].key == all[j].key
      ensures exists m :: i < m < j && all[m] == Rearmed(all[i].key)
    {
      if j == |log| {
        assert i < n && s.log[i] == log[i];
        var m :| i <= m < |s.log| && s.log[m] == Rearmed(k);
        assert all[m] == log[m] == s.log[m];
      } else {
        var m :| i < m < j && log[m] == Rearmed(log[i].key);
        assert all[m] == log[m];
      }
    }
  }

  lemma ActKeepsOrder(s: System, a: Action)
    requires Orderly(s) && AllWellFormed(s.timers)
    ensures Orderly(Act(s, a)) && AllWellFormed(Act(s, a).timers)
  {
    match a
    case Client(k, op, now, published) =>
      if !op.Complete? {
        ClientKeepsOrder(s, k, op, now, published);
        OperationsKeepForm(s.timers, s.book.current, k, op, now);
      }
    case CompleteNext(now, u, p) =>
      if s.pending != [] {
        CompletionKeepsOrder(s, now, u, p);
        OperationsKeepForm(s.timers, s.book.current, s.pending[0], Complete, now);
      }
    case Scan(found, now) =>
    case _ =>
  }

  /** In every run, under every interleaving, restarts included: between two alerts for a timer it was
      rearmed, and every alert is for the session current when the timer was completed. */
  lemma {:induction false} AlertsOncePerArming(s: System, actions: seq<Action>)
    requires s.log == [] && s.pending == [] && AllWellFormed(s.timers)
    ensures AlertsSeparated(Run(s, actions).log) && AlertsCurrent(Run(s, actions).log)
    ensures AllWellFormed(Run(s, actions).timers) && Orderly(Run(s, actions))
    decreases |actions|
  {
    if actions != [] {
      AlertsOncePerArming(s, actions[..|actions| - 1]);
      ActKeepsOrder(Run(s, actions[..|actions| - 1]), actions[|actions| - 1]);
    }
  }
}
