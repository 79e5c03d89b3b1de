/** Accumulated time against the time a timer really ran, over whole runs. */
module TimerAccounting {
  import opened Options
  import opened SessionBook
  import opened TimerTable
  import opened TimerSystem

  /** Since the last rearm: when the timer was opened if it is open, the true length of the closed
      intervals in microseconds, and how many there were. */
  datatype Account = Account(open: Option<int>, total: int, intervals: nat)

  function Tally(log: seq<Event>, k: TimerKey): Option<Account>
    decreases |log|
  {
    if log == [] then None
    else
      var before := Tally(log[..|log| - 1], k);
      match log[|log| - 1]
      case Rearmed(key) => if key == k then Some(Account(None, 0, 0)) else before
      case Opened(key, at) =>
        if key == k && before.Some? then Some(before.value.(open := Some(at))) else before
      case Closed(key, at) =>
        if key == k && before.Some? && before.value.open.Some?
        then Some(Account(None, before.value.total + (at - before.value.open.value), before.value.intervals + 1)) else before
      case _ => before
  }

  predicate Quiet(e: Event, k: TimerKey) {
    e.Updated? || e.Alerted? || e.key != k
  }

  lemma {:induction false} TallyQuiet(log: seq<Event>, more: seq<Event>, k: TimerKey)
    requires forall e | e in more :: Quiet(e, k)
    ensures Tally(log + more, k) == Tally(log, k)
    decreases |more|
  {
    if more == [] {
      assert log + more == log;
    } else {
      var init := more[..|more| - 1];
      assert (log + more)[..|log + more| - 1] == log + init;
      TallyQuiet(log, init, k);
      assert more[|more| - 1] in more;
    }
  }

  // ---------------------------------------------------------------- the accounting invariant

  /** Row and account tell the same story: open since the same instant, and the whole seconds
      accumulated fall short of the true time by less than one second per closed interval. */
  ghost predicate Balanced(r: Timer, c: Account) {
    && c.open == r.startedAt
    && var short := c.total - r.accumulated * SECOND;
       0 <= short && (if c.intervals == 0 then short == 0 else short < c.intervals * SECOND)
  }

  ghost predicate Accounted(t: Table, log: seq<Event>) {
    forall k | k in t && Tally(log, k).Some? :: Balanced(t[k], Tally(log, k).value)
  }

  ghost predicate StartedBy(t: Table, clock: int) {
    forall k | k in t && t[k].startedAt.Some? :: t[k].startedAt.value <= clock
  }

  lemma CloseBalances(r: Timer, c: Account, now: int)
    requires Running(r) && Balanced(r, c) && r.startedAt.value <= now
    ensures Balanced(Paused(r, now), Account(None, c.total + (now - c.open.value), c.intervals + 1))
  {
    var run := now - r.startedAt.value;
    assert 0 <= run - (run / SECOND) * SECOND < SECOND;
  }

  /** One operation keeps the books, given a clock that has not gone back. */
  lemma PerformAccounted(s: System, k: TimerKey, op: Op, now: int, published: bool)
    requires AllWellFormed(s.timers) && Accounted(s.timers, s.log) && StartedBy(s.timers, now)
    ensures var s' := Perform(s, k, op, now, published); Accounted(s'.timers, s'.log) && StartedBy(s'.timers, now)
  {
    var s' := Perform(s, k, op, now, published);
    var a := Answer(s.timers, s.book.current, k, op, now);
    if a.Row? {
      var trace := Trace(s.timers, k, op, a.row, now);
      var more := if published then [Updated(k, a.row)] else [];
      assert s'.log == s.log + trace + more;
      forall key | key in s'.timers && Tally(s'.log, key).Some? ensures Balanced(s'.timers[key], Tally(s'.log, key).value) {
        TallyQuiet(s.log + trace, more, key);
        if key != k {
          TallyQuiet(s.log, trace, key);
        } else {
          RowAccounted(s, k, op, now, a.row);
        }
      }
    }
  }

  lemma RowAccounted(s: System, k: TimerKey, op: Op, now: int, row: Timer)
    requires AllWellFormed(s.timers) && Accounted(s.timers, s.log) && StartedBy(s.timers, now)
    requires Answer(s.timers, s.book.current, k, op, now) == Row(row)
    ensures var c := Tally(s.log + Trace(s.timers, k, op, row, now), k); c.Some? ==> Balanced(row, c.value)
  {
    var trace := Trace(s.timers, k, op, row, now);
    if trace == [] {
      assert s.log + trace == s.log;
    } else {
      assert (s.log + trace)[..|s.log + trace| - 1] == s.log;
      assert (s.log + trace)[|s.log + trace| - 1] == trace[0];
      if trace[0].Closed? && Tally(s.log, k).Some? {
        CloseBalances(s.timers[k], Tally(s.log, k).value, now);
      }
    }
  }

  // ---------------------------------------------------------------- runs with a monotone clock

  function TimeOf(a: Action): Option<int> {
    match a
    case Client(_, _, now, _) => Some(now)
    case OpenSession(_, now) => Some(now)
    case EndSession(now) => Some(now)
    case DiscardSession(_) => None
    case Restart(_, now) => Some(now)
    case Scan(_, now) => Some(now)
    case CompleteNext(now, _, _) => Some(now)
  }

  ghost predicate ClockMonotone(actions: seq<Action>) {
    forall i, j | 0 <= i < j < |actions| && TimeOf(actions[i]).Some? && TimeOf(actions[j]).Some? ::
      TimeOf(actions[i]).value <= TimeOf(actions[j]).value
  }

  /** All times in the run lie in [from, to]. */
  ghost predicate TimesWithin(actions: seq<Action>, from: int, to: int) {
    from <= to && forall i | 0 <= i < |actions| && TimeOf(actions[i]).Some? :: from <= TimeOf(actions[i]).value <= to
  }

  lemma ActAccounted(s: System, a: Action, clock: int)
    requires AllWellFormed(s.timers) && Accounted(s.timers, s.log) && StartedBy(s.timers, clock)
    requires TimeOf(a).Some? ==> TimeOf(a).value == clock
    ensures var s' := Act(s, a); Accounted(s'.timers, s'.log) && StartedBy(s'.timers, clock)
  {
    match a
    case Client(k, op, now, published) =>
      if !op.Complete? {
        PerformAccounted(s, k, op, now, published);
      }
    case CompleteNext(now, u, p) =>
      if s.pending != [] {
        var k := s.pending[0];
        var rest := s.(pending := s.pending[1..]);
        PerformAccounted(rest, k, Complete, now, u);
        var done := Perform(rest, k, Complete, now, u);
        forall key ensures Tally(done.log + [Alerted(k, s.book.current)], key) == Tally(done.log, key) {
          TallyQuiet(done.log, [Alerted(k, s.book.current)], key);
        }
      }
    case _ =>
  }

  /** In every run with a monotone clock, from any well-formed table: since a timer was last armed, its
      accumulated seconds never exceed the true running time of its closed intervals and fall short of it
      by less than one second for each. */
  lemma {:induction false} AccumulatedIsTrueTime(s: System, actions: seq<Action>, from: int, to: int)
    requires s.log == [] && s.pending == [] && AllWellFormed(s.timers) && StartedBy(s.timers, from)
    requires ClockMonotone(actions) && TimesWithin(actions, from, to)
    ensures var s' := Run(s, actions); Accounted(s'.timers, s'.log) && StartedBy(s'.timers, to)
    decreases |actions|
  {
    if actions != [] {
      var init, last := actions[..|actions| - 1], actions[|actions| - 1];
      var upto := if TimeOf(last).Some? then TimeOf(last).value else to;
      AccumulatedIsTrueTime(s, init, from, upto);
      AlertsOncePerArming(s, init);
      ActAccounted(Run(s, init), last, upto);
    }
  }

  // ---------------------------------------------------------------- any clock

  lemma ActExtendsLog(s: System, a: Action)
    ensures s.log <= Act(s, a).log
  {
  }

  lemma ActGrows(s: System, a: Action, k: TimerKey)
    requires NotRearmedSince(Act(s, a).log, |s.log|, k)
    ensures k in Act(s, a).timers ==> k in s.timers && s.timers[k].accumulated <= Act(s, a).timers[k].accumulated
  {
    match a
    case Client(key, op, now, published) =>
      if !op.Complete? {
        PerformGrows(s, key, op, now, published, k);
      }
    case CompleteNext(now, u, p) =>
      if s.pending != [] {
        PerformGrows(s.(pending := s.pending[1..]), s.pending[0], Complete, now, u, k);
      }
    case _ =>
  }

  lemma PerformGrows(s: System, key: TimerKey, op: Op, now: int, published: bool, k: TimerKey)
    ensures var s' := Perform(s, key, op, now, published);
      (Answer(s.timers, s.book.current, key, op, now).Row? && Rearms(op) && key == k) ==> |s'.log| > |s.log| && s'.log[|s.log|] == Rearmed(k)
    ensures var s' := Perform(s, key, op, now, published);
      k in s'.timers && !(Rearms(op) && key == k) ==> k in s.timers && s.timers[k].accumulated <= s'.timers[k].accumulated
  {
  }

  /** With any clock, forwards or backwards: accumulated time never shrinks while a timer is not rearmed. */
  lemma {:induction false} AccumulatedNeverShrinks(s: System, actions: seq<Action>, k: TimerKey)
    requires NotRearmedSince(Run(s, actions).log, |s.log|, k)
    ensures s.log <= Run(s, actions).log
    ensures k in Run(s, actions).timers ==> k in s.timers && s.timers[k].accumulated <= Run(s, actions).timers[k].accumulated
    decreases |actions|
  {
    if actions != [] {
      var mid := Run(s, actions[..|actions| - 1]);
      var a := actions[|actions| - 1];
      ActExtendsLog(mid, a);
      RunExtendsLog(s, actions[..|actions| - 1]);
      assert NotRearmedSince(mid.log, |s.log|, k);
      AccumulatedNeverShrinks(s, actions[..|actions| - 1], k);
      ActGrows(mid, a, k);
    }
  }

  lemma {:induction false} RunExtendsLog(s: System, actions: seq<Action>)
    ensures s.log <= Run(s, actions).log
    decreases |actions|
  {
    if actions != [] {
      RunExtendsLog(s, actions[..|actions| - 1]);
      ActExtendsLog(Run(s, actions[..|actions| - 1]), actions[|actions| - 1]);
    }
  }
}
