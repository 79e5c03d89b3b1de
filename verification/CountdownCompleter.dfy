/** The background task that completes expired countdowns: one scan, then one completion per row found. */
module CountdownCompleter {
  import opened Options
  import opened TimerTable
  import opened TimerMachine
  import opened TimerSystem
  import H = HistoryStore

  /** The system after the first `n` completions of a tick; position `i` has its own clock reading and faults. */
  function Ticked(s: System, n: nat, clock: nat -> int, updateOk: nat -> bool, alertOk: nat -> bool): (r: System)
    requires n <= |s.pending|
    ensures r.pending == s.pending[n..] && r.book == s.book
  {
    if n == 0 then s
    else Completion(Ticked(s, n - 1, clock, updateOk, alertOk), clock(n - 1), updateOk(n - 1), alertOk(n - 1))
  }

  /** How many of them count: the row was completed and its update went out. */
  function Counted(s: System, n: nat, clock: nat -> int, updateOk: nat -> bool, alertOk: nat -> bool): nat
    requires n <= |s.pending|
  {
    if n == 0 then 0
    else
      var before := Ticked(s, n - 1, clock, updateOk, alertOk);
      Counted(s, n - 1, clock, updateOk, alertOk) +
      if Answer(before.timers, s.book.current, s.pending[n - 1], Complete, clock(n - 1)).Row? && updateOk(n - 1) then 1 else 0
  }

  /** What of a log goes out to clients. */
  function Published(log: seq<Event>): seq<Event> {
    if log == [] then []
    else Published(log[..|log| - 1]) + if log[|log| - 1].Updated? || log[|log| - 1].Alerted? then [log[|log| - 1]] else []
  }

  lemma {:induction false} PublishedConcat(a: seq<Event>, b: seq<Event>)
    ensures Published(a + b) == Published(a) + Published(b)
    decreases |b|
  {
    if b == [] {
      assert a + b == a;
    } else {
      PublishedConcat(a, b[..|b| - 1]);
      assert (a + b)[..|a + b| - 1] == a + b[..|b| - 1];
    }
  }

  class Completer {
    const store: H.Store
    var events: seq<Event>
    ghost var log: seq<Event>

    constructor (store: H.Store)
      ensures this.store == store && events == [] && log == []
    {
      this.store := store;
      events := [];
      log := [];
    }

    ghost function State(pending: seq<TimerKey>): System
      reads this, store
    {
      System(store.Pointers(), store.timers, pending, log)
    }

    /** Completes one found row and publishes that; the alert goes out only after the update did. */
    method CompleteOne(k: TimerKey, ghost rest: seq<TimerKey>, now: int, updateOk: bool, alertOk: bool) returns (counted: bool)
      requires events == Published(log)
      modifies this, store`timers
      ensures State(rest) == Completion(old(State([k] + rest)), now, updateOk, alertOk)
      ensures counted <==> Answer(old(store.timers), store.current, k, Complete, now).Row? && updateOk
      ensures events == Published(log)
    {
      ghost var before := store.timers;
      assert ([k] + rest)[1..] == rest;
      var a := store.CompleteTimer(k, now);
      if a.Refused? {
        return false;
      }
      ghost var trace := Trace(before, k, Complete, a.row, now);
      ghost var update := if updateOk then [Updated(k, a.row)] else [];
      ghost var alert := if updateOk && alertOk then [Alerted(k, store.current)] else [];
      PublishedMore(log, trace, update, alert);
      log := log + (trace + update) + alert;
      CompletionLog(old(log), trace, update, alert);
      CompletedBy(old(State([k] + rest)), k, rest, now, updateOk, alertOk, State(rest), trace, update, alert);
      if !updateOk {
        return false;
      }
      events := events + [Updated(k, a.row)];
      if alertOk {
        events := events + [Alerted(k, Some(k.session))];
      }
      return true;
    }

    method Tick(scanAt: int, clock: nat -> int, updateOk: nat -> bool, alertOk: nat -> bool)
        returns (count: nat, ghost found: seq<TimerKey>)
      requires events == Published(log)
      modifies this, store`timers
      ensures Enumerates(found, ExpiredKeys(old(store.timers), scanAt))
      ensures State([]) == Ticked(old(State(found)), |found|, clock, updateOk, alertOk)
      ensures count == Counted(old(State(found)), |found|, clock, updateOk, alertOk)
      ensures events == Published(log)
    {
      var expired := store.FindExpiredRunningCountdowns(scanAt);
      found, count := expired, 0;
      ghost var s := State(expired);
      for i := 0 to |expired|
        invariant State(expired[i..]) == Ticked(s, i, clock, updateOk, alertOk)
        invariant count == Counted(s, i, clock, updateOk, alertOk)
        invariant events == Published(log)
      {
        assert expired[i..] == [expired[i]] + expired[i + 1..];
        var counted := CompleteOne(expired[i], expired[i + 1..], clock(i), updateOk(i), alertOk(i));
        if counted {
          count := count + 1;
        }
      }
    }
  }

  /** A table with the row completed and a log with what was done and published is the specified completion. */
  lemma CompletedBy(s: System, k: TimerKey, rest: seq<TimerKey>, now: int, u: bool, p: bool, s': System,
                    trace: seq<Event>, update: seq<Event>, alert: seq<Event>)
    requires s.pending == [k] + rest && Answer(s.timers, s.book.current, k, Complete, now).Row?
    requires trace == Trace(s.timers, k, Complete, Answer(s.timers, s.book.current, k, Complete, now).row, now)
    requires update == if u then [Updated(k, Answer(s.timers, s.book.current, k, Complete, now).row)] else []
    requires alert == if u && p then [Alerted(k, s.book.current)] else []
    requires s' == System(s.book, After(s.timers, s.book.current, k, Complete, now), rest, s.log + trace + update + alert)
    ensures s' == Completion(s, now, u, p)
  {
    assert s.pending[1..] == rest;
    assert s.log + trace + update + [] == s.log + trace + update;
  }

  lemma CompletionLog(log: seq<Event>, trace: seq<Event>, update: seq<Event>, alert: seq<Event>)
    ensures log + (trace + update) + alert == log + trace + update + alert
  {
  }

  lemma Loud(one: seq<Event>)
    requires |one| <= 1 && forall e | e in one :: e.Updated? || e.Alerted?
    ensures Published(one) == one
  {
    assert one == [] || one == [one[0]];
  }

  lemma Quiet(one: seq<Event>)
    requires |one| <= 1 && forall e | e in one :: !(e.Updated? || e.Alerted?)
    ensures Published(one) == []
  {
    assert one == [] || one == [one[0]];
  }

  lemma PublishedMore(log: seq<Event>, trace: seq<Event>, update: seq<Event>, alert: seq<Event>)
    requires |trace| <= 1 && (forall e | e in trace :: !(e.Updated? || e.Alerted?))
    requires |update| <= 1 && (forall e | e in update :: e.Updated?)
    requires |alert| <= 1 && (forall e | e in alert :: e.Alerted?)
    ensures Published(log + (trace + update) + alert) == Published(log) + update + alert
  {
    PublishedConcat(log + (trace + update), alert);
    PublishedConcat(log, trace + update);
    PublishedConcat(trace, update);
    Quiet(trace);
    Loud(update);
    Loud(alert);
    assert [] + update == update;
  }

  // ---------------------------------------------------------------- what a tick achieves

  lemma CompletionEffect(s: System, now: int, u: bool, p: bool, k: TimerKey)
    requires s.pending != []
    ensures var r := Completion(s, now, u, p);
      && s.log <= r.log
      && (k != s.pending[0] || s.book.current != Some(k.session) ==> (k in r.timers <==> k in s.timers) && (k in s.timers ==> r.timers[k] == s.timers[k]))
      && (k == s.pending[0] && k in s.timers && s.book.current == Some(k.session) ==>
            k in r.timers && r.timers[k] == Completed(s.timers[k], now) && (u && p ==> Alerted(k, s.book.current) in r.log))
  {
  }

  lemma {:induction false} TickLeaves(s: System, n: nat, clock: nat -> int, updateOk: nat -> bool, alertOk: nat -> bool, k: TimerKey)
    requires n <= |s.pending| && (s.book.current != Some(k.session) || forall i | 0 <= i < n :: s.pending[i] != k)
    ensures var r := Ticked(s, n, clock, updateOk, alertOk);
      s.log <= r.log && (k in r.timers <==> k in s.timers) && (k in s.timers ==> r.timers[k] == s.timers[k])
    decreases n
  {
    if n > 0 {
      TickLeaves(s, n - 1, clock, updateOk, alertOk, k);
      CompletionEffect(Ticked(s, n - 1, clock, updateOk, alertOk), clock(n - 1), updateOk(n - 1), alertOk(n - 1), k);
    }
  }

  lemma {:induction false} TickCompletes(s: System, n: nat, i: nat, clock: nat -> int, updateOk: nat -> bool, alertOk: nat -> bool)
    requires i < n <= |s.pending| && NoRepeats(s.pending)
    requires s.pending[i] in s.timers && s.book.current == Some(s.pending[i].session)
    ensures var r, k := Ticked(s, n, clock, updateOk, alertOk), s.pending[i];
      && k in r.timers && r.timers[k] == Completed(s.timers[k], clock(i))
      && (updateOk(i) && alertOk(i) ==> Alerted(k, s.book.current) in r.log)
    decreases n
  {
    var k, before := s.pending[i], Ticked(s, n - 1, clock, updateOk, alertOk);
    if i == n - 1 {
      TickLeaves(s, n - 1, clock, updateOk, alertOk, k);
    } else {
      TickCompletes(s, n - 1, i, clock, updateOk, alertOk);
    }
    CompletionEffect(before, clock(n - 1), updateOk(n - 1), alertOk(n - 1), k);
  }

  /** A scan finds exactly the running countdowns that ran out. */
  lemma ScanFindsExactly(s: System, scanAt: int, k: TimerKey)
    requires Enumerates(s.pending, ExpiredKeys(s.timers, scanAt))
    ensures k in s.pending <==> k in s.timers && RanOut(s.timers[k], scanAt)
  {
    if k in s.timers {
      ExpiredIsRanOut(s.timers[k], scanAt);
    }
  }

  /** A tick nothing comes between, with a clock that does not go back, completes every countdown of the current
      session that had run out at the scan, each with at least its duration on it, and leaves every other timer as
      it is: also those of other sessions, which the scan finds as well. */
  lemma UndisturbedTickIsExact(s: System, scanAt: int, clock: nat -> int, updateOk: nat -> bool, alertOk: nat -> bool, k: TimerKey)
    requires Enumerates(s.pending, ExpiredKeys(s.timers, scanAt)) && k in s.timers
    requires forall i | 0 <= i < |s.pending| :: scanAt <= clock(i)
    ensures var r := Ticked(s, |s.pending|, clock, updateOk, alertOk);
      && k in r.timers
      && if RanOut(s.timers[k], scanAt) && s.book.current == Some(k.session)
         then r.timers[k].completedAt.Some? && r.timers[k].accumulated >= s.timers[k].duration.value
         else r.timers[k] == s.timers[k]
  {
    ScanFindsExactly(s, scanAt, k);
    ExpiredIsRanOut(s.timers[k], scanAt);
    if RanOut(s.timers[k], scanAt) && s.book.current == Some(k.session) {
      var i :| 0 <= i < |s.pending| && s.pending[i] == k;
      TickCompletes(s, |s.pending|, i, clock, updateOk, alertOk);
      CompletedRanItsDuration(s.timers[k], scanAt, clock(i));
    } else {
      TickLeaves(s, |s.pending|, clock, updateOk, alertOk, k);
    }
  }

  /** Something from position `n` on alerts for `k`. */
  predicate AlertedFrom(log: seq<Event>, n: nat, k: TimerKey) {
    exists j | n <= j < |log| :: log[j].Alerted? && log[j].key == k
  }

  lemma AlertedMore(log: seq<Event>, more: seq<Event>, n: nat, k: TimerKey)
    requires n <= |log|
    ensures AlertedFrom(log + more, n, k) <==> AlertedFrom(log, n, k) || AlertedFrom(more, 0, k)
  {
    var all := log + more;
    assert forall j | 0 <= j < |log| :: all[j] == log[j];
    assert forall j | 0 <= j < |more| :: all[|log| + j] == more[j];
  }

  lemma CompletionAlerts(s: System, now: int, n: nat, k: TimerKey)
    requires s.pending != [] && n <= |s.log|
    ensures var r := Completion(s, now, true, true);
      AlertedFrom(r.log, n, k) <==> AlertedFrom(s.log, n, k) || (k == s.pending[0] && k in s.timers && s.book.current == Some(k.session))
  {
    CompletionParts(s, now, true, true);
    if Answer(s.timers, s.book.current, s.pending[0], Complete, now).Row? {
      var trace, alert := CompletionTrace(s, now, true), [Alerted(s.pending[0], s.book.current)];
      assert alert[0].Alerted?;
      AlertedMore(s.log + trace, alert, n, k);
      AlertedMore(s.log, trace, n, k);
      assert Completion(s, now, true, true).log == s.log + trace + alert;
    }
  }

  lemma {:induction false} TickAlerts(s: System, n: nat, clock: nat -> int, updateOk: nat -> bool, alertOk: nat -> bool, k: TimerKey)
    requires n <= |s.pending| && NoRepeats(s.pending) && forall i | 0 <= i < n :: updateOk(i) && alertOk(i)
    ensures var r := Ticked(s, n, clock, updateOk, alertOk);
      && s.log <= r.log
      && (AlertedFrom(r.log, |s.log|, k) <==> k in s.pending[..n] && k in s.timers && s.book.current == Some(k.session))
    decreases n
  {
    if n > 0 {
      var before, next := Ticked(s, n - 1, clock, updateOk, alertOk), s.pending[n - 1];
      TickAlerts(s, n - 1, clock, updateOk, alertOk, k);
      assert s.pending[..n] == s.pending[..n - 1] + [next];
      TickLeaves(s, n - 1, clock, updateOk, alertOk, next);
      CompletionAlerts(before, clock(n - 1), |s.log|, k);
      CompletionEffect(before, clock(n - 1), true, true, k);
    }
  }

  lemma {:induction false} PublishedHas(log: seq<Event>, e: Event)
    ensures e in Published(log) <==> e in log && (e.Updated? || e.Alerted?)
    decreases |log|
  {
    if log != [] {
      PublishedHas(log[..|log| - 1], e);
      assert log == log[..|log| - 1] + [log[|log| - 1]];
    }
  }

  /** And with working publishing it publishes an alert for exactly these. */
  lemma UndisturbedTickAlertsExactly(s: System, scanAt: int, clock: nat -> int, updateOk: nat -> bool, alertOk: nat -> bool, k: TimerKey)
    requires Enumerates(s.pending, ExpiredKeys(s.timers, scanAt)) && forall i | 0 <= i < |s.pending| :: updateOk(i) && alertOk(i)
    ensures var r := Ticked(s, |s.pending|, clock, updateOk, alertOk);
      && Published(s.log) <= Published(r.log)
      && (AlertedFrom(Published(r.log), |Published(s.log)|, k) <==>
            k in s.timers && RanOut(s.timers[k], scanAt) && s.book.current == Some(k.session))
  {
    var r := Ticked(s, |s.pending|, clock, updateOk, alertOk);
    TickAlerts(s, |s.pending|, clock, updateOk, alertOk, k);
    ScanFindsExactly(s, scanAt, k);
    assert s.pending[..|s.pending|] == s.pending;
    AlertsArePublished(s.log, r.log, k);
  }

  lemma AlertsArePublished(log: seq<Event>, log': seq<Event>, k: TimerKey)
    requires log <= log'
    ensures Published(log) <= Published(log')
    ensures AlertedFrom(Published(log'), |Published(log)|, k) <==> AlertedFrom(log', |log|, k)
  {
    var more := log'[|log|..];
    assert log' == log + more;
    PublishedConcat(log, more);
    AlertedMore(log, more, |log|, k);
    AlertedMore(Published(log), Published(more), |Published(log)|, k);
    if j :| 0 <= j < |more| && more[j].Alerted? && more[j].key == k {
      PublishedHas(more, more[j]);
    }
    if j :| 0 <= j < |Published(more)| && Published(more)[j].Alerted? && Published(more)[j].key == k {
      PublishedHas(more, Published(more)[j]);
    }
  }

  /** The positions whose row is completed, and its update published, among the first `n`. */
  function Completions(s: System, n: nat, updateOk: nat -> bool): set<nat>
    requires n <= |s.pending|
  {
    set i | 0 <= i < n && Completes(s, i) && updateOk(i)
  }

  predicate Completes(s: System, i: nat)
    requires i < |s.pending|
  {
    s.pending[i] in s.timers && s.book.current == Some(s.pending[i].session)
  }

  lemma CompletionsMore(s: System, n: nat, updateOk: nat -> bool)
    requires 0 < n <= |s.pending|
    ensures |Completions(s, n, updateOk)| == |Completions(s, n - 1, updateOk)| + if Completes(s, n - 1) && updateOk(n - 1) then 1 else 0
  {
    var before, last := Completions(s, n - 1, updateOk), n - 1;
    assert Completions(s, n, updateOk) == if Completes(s, last) && updateOk(last) then before + {last} else before;
  }

  /** The tick's count is the number of found rows of the current session whose update went out. */
  lemma {:induction false} CountIsOfCompletions(s: System, n: nat, clock: nat -> int, updateOk: nat -> bool, alertOk: nat -> bool)
    requires n <= |s.pending| && NoRepeats(s.pending)
    ensures Counted(s, n, clock, updateOk, alertOk) == |Completions(s, n, updateOk)|
    decreases n
  {
    if n > 0 {
      CountIsOfCompletions(s, n - 1, clock, updateOk, alertOk);
      TickLeaves(s, n - 1, clock, updateOk, alertOk, s.pending[n - 1]);
      CompletionsMore(s, n, updateOk);
    }
  }

  // ---------------------------------------------------------------- a tick is one of the runs

  function TickActions(found: seq<TimerKey>, scanAt: int, n: nat, clock: nat -> int, updateOk: nat -> bool, alertOk: nat -> bool):
    (actions: seq<Action>)
  {
    if n == 0 then [Scan(found, scanAt)]
    else TickActions(found, scanAt, n - 1, clock, updateOk, alertOk) + [CompleteNext(clock(n - 1), updateOk(n - 1), alertOk(n - 1))]
  }

  lemma NextCompletes(s: System, now: int, updateOk: bool, alertOk: bool)
    requires s.pending != []
    ensures Act(s, CompleteNext(now, updateOk, alertOk)) == Completion(s, now, updateOk, alertOk)
  {
  }

  /** An uninterrupted tick is a scan followed by completions, so all that holds of every run holds of ticks. */
  lemma {:induction false} TickIsARun(s: System, found: seq<TimerKey>, scanAt: int, n: nat,
                                      clock: nat -> int, updateOk: nat -> bool, alertOk: nat -> bool)
    requires s.pending == [] && Enumerates(found, ExpiredKeys(s.timers, scanAt)) && n <= |found|
    ensures Run(s, TickActions(found, scanAt, n, clock, updateOk, alertOk)) ==
            Ticked(s.(pending := found), n, clock, updateOk, alertOk)
    decreases n
  {
    var actions := TickActions(found, scanAt, n, clock, updateOk, alertOk);
    if n == 0 {
      assert actions[..0] == [];
    } else {
      TickIsARun(s, found, scanAt, n - 1, clock, updateOk, alertOk);
      assert actions[..|actions| - 1] == TickActions(found, scanAt, n - 1, clock, updateOk, alertOk);
      NextCompletes(Ticked(s.(pending := found), n - 1, clock, updateOk, alertOk), clock(n - 1), updateOk(n - 1), alertOk(n - 1));
    }
  }
}
