/**
 The store behind the server: its tables and in-memory pointers, updated in place. Every
 method is one hold of the store's lock, and is proved to do what the specification in
 SessionBook, TimerTable, TargetCache or SeqCounter says.
 */
module HistoryStore {
  import opened Options
  import opened Sets
  import opened AlertRules
  import opened ReadingTables
  import opened SessionBook
  import T = TimerTable
  import M = TimerMachine
  import Y = TimerSystem
  import G = TargetCache
  import Q = SeqCounter

  datatype ProbeRow = ProbeRow(at: int, temp: Option<real>)

  datatype CycleProbe = CycleProbe(index: int, temp: Option<real>)

  datatype EndEvent = EndEvent(session: string, endedAt: int, reason: string, duration: Option<int>)

  /** Whole seconds from `start` to `end`, towards zero. */
  function WholeSeconds(start: int, end: int): int {
    if end >= start then (end - start) / T.SECOND else -((start - end) / T.SECOND)
  }

  /** `d` is the whole seconds from `start` to `end`; part of a second does not count, in either direction. */
  predicate CutToSeconds(start: int, end: int, d: int) {
    if end >= start then d * 1_000_000 <= end - start < d * 1_000_000 + 1_000_000
    else -d * 1_000_000 <= start - end < -d * 1_000_000 + 1_000_000
  }

  lemma WholeSecondsAreCut(start: int, end: int)
    ensures CutToSeconds(start, end, WholeSeconds(start, end))
  {
    var run := if end >= start then end - start else start - end;
    assert run / T.SECOND * T.SECOND <= run < run / T.SECOND * T.SECOND + T.SECOND;
  }

  ghost predicate NewestFirst(rows: Sessions, ids: seq<string>) {
    && (forall id | id in ids :: id in rows)
    && (forall i, j | 0 <= i < j < |ids| :: ids[i] != ids[j] && rows[ids[i]].startedAt >= rows[ids[j]].startedAt)
  }

  function WithoutProbes(t: map<ProbeKey, ProbeRow>, session: string): map<ProbeKey, ProbeRow> {
    map k | k in t && k.session != session :: t[k]
  }

  function WithoutDevices(t: DeviceTable, session: string): DeviceTable {
    map k | k in t && k.session != session :: t[k]
  }

  class Store {
    var sessions: Sessions
    var current: Option<string>
    var currentStart: Option<int>
    var last: Option<string>
    var timers: T.Table
    var targets: G.TargetTable
    var probes: map<ProbeKey, ProbeRow>
    var devices: DeviceTable

    function Pointers(): Book
      reads this
    {
      Book(sessions, current, currentStart, last)
    }

    // -------------------------------------------------------------- sessions

    method EndSession(now: int, reason: string) returns (ended: Option<EndEvent>)
      modifies this`sessions, this`current, this`currentStart, this`last
      ensures Pointers() == EndCurrent(old(Pointers()), now, reason)
      ensures ended.Some? <==> old(current).Some?
      ensures old(current).Some? ==> EndsOnly(old(sessions), sessions, old(current).value, now, reason)
      ensures ended.Some? ==>
        && ended.value.session == old(current).value && ended.value.endedAt == now && ended.value.reason == reason
        && (ended.value.duration.Some? <==> old(currentStart).Some?)
        && (old(currentStart).Some? ==> CutToSeconds(old(currentStart).value, now, ended.value.duration.value))
    {
      if current.None? {
        return None;
      }
      if currentStart.Some? {
        WholeSecondsAreCut(currentStart.value, now);
      }
      var id := current.value;
      var duration := if currentStart.Some? then Some(WholeSeconds(currentStart.value, now)) else None;
      if id in sessions {
        sessions := sessions[id := Ended(sessions[id], now, reason)];
      }
      last, current, currentStart := Some(id), None, None;
      return Some(EndEvent(id, now, reason, duration));
    }

    /** `id` is the new session's random name. */
    method StartSession(id: string, now: int, reason: string) returns (ended: Option<EndEvent>, ok: bool)
      modifies this`sessions, this`current, this`currentStart, this`last
      ensures Pointers() == Open(old(Pointers()), id, now, reason)
      ensures ok <==> id !in old(sessions)
      ensures ended.Some? <==> old(current).Some?
      ensures ended.Some? ==> ended.value.session == old(current).value && ended.value.endedAt == now && ended.value.reason == reason
      ensures ok ==> id in sessions && sessions[id] == SessionRow(now, None, None) && current == Some(id) && currentStart == Some(now)
      ensures old(current).Some? ==> EndsOnly(old(sessions), sessions - if ok then {id} else {}, old(current).value, now, reason)
      ensures old(current).None? ==> sessions - (if ok then {id} else {}) == old(sessions)
    {
      ended := None;
      if current.Some? {
        ended := EndSession(now, reason);
      }
      ok := id !in sessions;
      if ok {
        sessions := sessions[id := SessionRow(now, None, None)];
        current, currentStart := Some(id), Some(now);
      }
    }

    method DiscardSession(id: string) returns (deleted: bool)
      modifies this
      ensures Pointers() == Forget(old(Pointers()), id)
      ensures timers == Y.WithoutSession(old(timers), id) && targets == G.WithoutTargets(old(targets), id)
      ensures probes == WithoutProbes(old(probes), id) && devices == WithoutDevices(old(devices), id)
      ensures (forall k :: k in sessions <==> k in old(sessions) && k != id) && (forall k | k in sessions :: sessions[k] == old(sessions)[k])
      ensures (forall k :: k in timers <==> k in old(timers) && k.session != id) && (forall k | k in timers :: timers[k] == old(timers)[k])
      ensures (forall k :: k in targets <==> k in old(targets) && k.session != id) && (forall k | k in targets :: targets[k] == old(targets)[k])
      ensures (forall k :: k in probes <==> k in old(probes) && k.session != id) && (forall k | k in probes :: probes[k] == old(probes)[k])
      ensures (forall k :: k in devices <==> k in old(devices) && k.session != id) && (forall k | k in devices :: devices[k] == old(devices)[k])
      ensures deleted <==> id in old(sessions)
    {
      var wasCurrent, wasLast := current == Some(id), last == Some(id);
      probes := WithoutProbes(probes, id);
      devices := WithoutDevices(devices, id);
      targets := G.WithoutTargets(targets, id);
      timers := Y.WithoutSession(timers, id);
      deleted := id in sessions;
      sessions := sessions - {id};
      if wasCurrent {
        current, currentStart := None, None;
      }
      if wasLast {
        last := None;
      }
    }

    /** Reads the current session and deletes it in one hold of the lock. */
    method DiscardCurrentSession() returns (discarded: Option<string>)
      modifies this
      ensures old(current).None? ==> discarded.None? && Pointers() == old(Pointers())
      ensures old(current).None? ==> targets == old(targets) && timers == old(timers) && probes == old(probes) && devices == old(devices)
      ensures old(current).Some? ==>
        && Pointers() == Forget(old(Pointers()), old(current).value)
        && timers == Y.WithoutSession(old(timers), old(current).value)
        && targets == G.WithoutTargets(old(targets), old(current).value)
        && probes == WithoutProbes(old(probes), old(current).value) && devices == WithoutDevices(old(devices), old(current).value)
        && discarded == if old(current).value in old(sessions) then old(current) else None
    {
      if current.None? {
        return None;
      }
      var id := current.value;
      var deleted := DiscardSession(id);
      if !deleted {
        current, currentStart := None, None;
        return None;
      }
      return Some(id);
    }

    /** The open sessions, newest first. */
    method Orphans() returns (ids: seq<string>)
      ensures forall id :: id in ids <==> id in OpenIn(sessions)
      ensures NewestFirst(sessions, ids)
    {
      ids := [];
      var left := set id | id in sessions && sessions[id].endedAt.None?;
      while left != {}
        invariant left <= OpenIn(sessions)
        invariant forall id :: id in ids || id in left <==> id in OpenIn(sessions)
        invariant forall id | id in ids :: id !in left
        invariant NewestFirst(sessions, ids)
        invariant forall id, x | id in ids && x in left :: sessions[id].startedAt >= sessions[x].startedAt
        decreases |left|
      {
        var id := NewestOf(left);
        ids := ids + [id];
        left := left - {id};
      }
    }

    method NewestOf(ids: set<string>) returns (newest: string)
      requires ids != {} && ids <= sessions.Keys
      ensures newest in ids && forall x | x in ids :: sessions[newest].startedAt >= sessions[x].startedAt
    {
      newest := Pick(ids);
      var left := ids - {newest};
      while left != {}
        invariant left <= ids && newest in ids
        invariant forall x | x in ids && x !in left :: sessions[newest].startedAt >= sessions[x].startedAt
        decreases |left|
      {
        var x := Pick(left);
        if sessions[x].startedAt > sessions[newest].startedAt {
          newest := x;
        }
        left := left - {x};
      }
    }

    /** At startup: the newest open session is resumed and every other one is ended. */
    method RecoverOrphanedSessions(now: int) returns (resumed: Option<string>)
      modifies this`sessions, this`current, this`currentStart
      ensures resumed.None? ==> OpenIn(old(sessions)) == {} && Pointers() == old(Pointers())
      ensures resumed.Some? ==>
        Newest(old(sessions), resumed.value) && Pointers() == Recover(old(Pointers()), resumed.value, now)
      ensures resumed.Some? ==>
        forall id | id in OpenIn(old(sessions)) && id != resumed.value :: id in sessions && EndedAs(old(sessions)[id], sessions[id], now, "server_restart_duplicate")
    {
      var orphans := Orphans();
      if orphans == [] {
        assert forall id :: id !in OpenIn(sessions);
        return None;
      }
      var primary := orphans[0];
      current, currentStart := Some(primary), Some(sessions[primary].startedAt);
      EndEach(orphans[1..], now);
      OthersAreTheRest(old(sessions), orphans, now);
      return Some(primary);
    }

    method EndEach(ids: seq<string>, now: int)
      requires forall id | id in ids :: id in sessions
      requires forall i, j | 0 <= i < j < |ids| :: ids[i] != ids[j]
      modifies this`sessions
      ensures sessions == EndAll(old(sessions), ids, now)
    {
      for i := 0 to |ids|
        invariant sessions == EndAll(old(sessions), ids[..i], now)
      {
        var id := ids[i];
        assert ids[..i + 1] == ids[..i] + [id];
        assert id !in ids[..i];
        sessions := sessions[id := Ended(sessions[id], now, "server_restart_duplicate")];
      }
      assert ids[..|ids|] == ids;
    }

    // -------------------------------------------------------------- timers

    method UpsertTimer(k: T.TimerKey, mode: string, duration: Option<int>, now: int) returns (a: T.Outcome)
      modifies this`timers
      ensures var op := T.Upsert(mode, duration, k.session in sessions);
        a == T.Answer(old(timers), current, k, op, now) && timers == T.After(old(timers), current, k, op, now)
    {
      if mode != "count_up" && mode != "count_down" {
        return T.Refused(T.BadMode);
      }
      if current != Some(k.session) {
        return T.Refused(T.SessionNotActive);
      }
      if k.session !in sessions {
        return T.Refused(T.NoSuchSession);
      }
      timers := timers[k := T.Timer(mode, duration, None, None, 0, None)];
      return T.Row(timers[k]);
    }

    /** The checks every other operation begins with. */
    method Fetch(k: T.TimerKey) returns (a: T.Outcome)
      ensures a == if current != Some(k.session) then T.Refused(T.SessionNotActive)
                   else if k !in timers then T.Refused(T.TimerNotFound) else T.Row(timers[k])
    {
      if current != Some(k.session) {
        return T.Refused(T.SessionNotActive);
      }
      return if k in timers then T.Row(timers[k]) else T.Refused(T.TimerNotFound);
    }

    method StartTimer(k: T.TimerKey, now: int) returns (a: T.Outcome)
      modifies this`timers
      ensures a == T.Answer(old(timers), current, k, T.Start, now) && timers == T.After(old(timers), current, k, T.Start, now)
    {
      a := Fetch(k);
      if a.Refused? {
        return;
      }
      if a.row.completedAt.Some? {
        return T.Refused(T.TimerCompleted);
      }
      if a.row.startedAt.Some? && a.row.pausedAt.None? {
        assert timers == timers[k := a.row];
        return;
      }
      timers := timers[k := timers[k].(startedAt := Some(now), pausedAt := None)];
      return T.Row(timers[k]);
    }

    method PauseTimer(k: T.TimerKey, now: int) returns (a: T.Outcome)
      modifies this`timers
      ensures a == T.Answer(old(timers), current, k, T.Pause, now) && timers == T.After(old(timers), current, k, T.Pause, now)
    {
      a := Fetch(k);
      if a.Refused? {
        return;
      }
      var row := a.row;
      if row.startedAt.None? || row.pausedAt.Some? {
        assert timers == timers[k := row];
        return;
      }
      var accumulated := row.accumulated + T.Elapsed(row.startedAt.value, now);
      timers := timers[k := row.(pausedAt := Some(now), startedAt := None, accumulated := accumulated)];
      return T.Row(timers[k]);
    }

    method ResumeTimer(k: T.TimerKey, now: int) returns (a: T.Outcome)
      modifies this`timers
      ensures a == T.Answer(old(timers), current, k, T.Resume, now) && timers == T.After(old(timers), current, k, T.Resume, now)
    {
      a := Fetch(k);
      if a.Refused? {
        return;
      }
      if a.row.completedAt.Some? {
        return T.Refused(T.TimerCompleted);
      }
      if a.row.pausedAt.None? {
        assert timers == timers[k := a.row];
        return;
      }
      timers := timers[k := timers[k].(startedAt := Some(now), pausedAt := None)];
      return T.Row(timers[k]);
    }

    method ResetTimer(k: T.TimerKey, now: int) returns (a: T.Outcome)
      modifies this`timers
      ensures a == T.Answer(old(timers), current, k, T.Reset, now) && timers == T.After(old(timers), current, k, T.Reset, now)
    {
      a := Fetch(k);
      if a.Refused? {
        return;
      }
      timers := timers[k := timers[k].(startedAt := None, pausedAt := None, accumulated := 0, completedAt := None)];
      return T.Row(timers[k]);
    }

    method CompleteTimer(k: T.TimerKey, now: int) returns (a: T.Outcome)
      modifies this`timers
      ensures a == T.Answer(old(timers), current, k, T.Complete, now) && timers == T.After(old(timers), current, k, T.Complete, now)
    {
      a := Fetch(k);
      if a.Refused? {
        return;
      }
      var row := a.row;
      var at := Some(if row.completedAt.Some? then row.completedAt.value else now);
      if row.startedAt.Some? && row.pausedAt.None? {
        var accumulated := row.accumulated + T.Elapsed(row.startedAt.value, now);
        row := row.(completedAt := at, pausedAt := Some(now), startedAt := None, accumulated := accumulated);
      } else if row.pausedAt.Some? {
        row := row.(completedAt := at);
      } else {
        row := row.(completedAt := at, pausedAt := Some(now));
      }
      timers := timers[k := row];
      return T.Row(timers[k]);
    }

    method FindExpiredRunningCountdowns(now: int) returns (expired: seq<T.TimerKey>)
      ensures Y.Enumerates(expired, Y.ExpiredKeys(timers, now))
      ensures forall k :: k in expired <==> k in timers && M.RanOut(timers[k], now)
    {
      expired := [];
      var left := timers.Keys;
      while left != {}
        invariant left <= timers.Keys && Y.NoRepeats(expired)
        invariant forall k :: k in expired <==> k in timers && k !in left && T.Expired(timers[k], now)
        decreases |left|
      {
        var k := Pick(left);
        var r := timers[k];
        left := left - {k};
        if r.mode == "count_down" && r.startedAt.Some? && r.pausedAt.None? && r.completedAt.None? && r.duration.Some? {
          if r.accumulated + T.Elapsed(r.startedAt.value, now) >= r.duration.value {
            expired := expired + [k];
          }
        }
      }
      forall k | k in timers ensures T.Expired(timers[k], now) <==> M.RanOut(timers[k], now) {
        M.ExpiredIsRanOut(timers[k], now);
      }
    }

    // -------------------------------------------------------------- targets

    method SaveTargets(session: string, address: string, ts: seq<TargetConfig>)
      modifies this`targets
      ensures targets == G.SaveTargets(old(targets), session, address, ts)
    {
      for i := 0 to |ts|
        invariant targets == G.SaveTargets(old(targets), session, address, ts[..i])
      {
        assert ts[..i + 1][..i] == ts[..i];
        targets := targets[G.TargetKey(session, address, ts[i].probe) := ts[i]];
      }
      assert ts[..|ts|] == ts;
    }

    /** Fails at the first probe named twice. */
    method UpdateTargets(session: string, address: string, ts: seq<TargetConfig>) returns (ok: bool)
      modifies this`targets
      ensures G.Inserted(targets, ok) == G.UpdateTargets(old(targets), session, address, ts)
    {
      targets := map k | k in targets && !(k.session == session && k.address == address) :: targets[k];
      ghost var start := targets;
      for i := 0 to |ts|
        invariant G.InsertTargets(start, session, address, ts[..i]) == G.Inserted(targets, true)
      {
        assert ts[..i + 1][..i] == ts[..i];
        var k := G.TargetKey(session, address, ts[i].probe);
        if k in targets {
          InsertStopped(start, session, address, ts, i + 1);
          return false;
        }
        targets := targets[k := ts[i]];
      }
      assert ts[..|ts|] == ts;
      return true;
    }

    method GetTargets(session: string) returns (list: seq<TargetConfig>)
      ensures G.ListsRows(targets, session, list)
    {
      list := [];
      ghost var keys := [];
      var left := set k | k in targets && k.session == session;
      while left != {}
        invariant left <= G.RowsOf(targets, session) && |keys| == |list|
        invariant forall i, j | 0 <= i < j < |keys| :: keys[i] != keys[j]
        invariant forall i | 0 <= i < |keys| :: keys[i] in G.RowsOf(targets, session) && keys[i] !in left && list[i] == targets[keys[i]]
        invariant forall k | k in G.RowsOf(targets, session) :: k in keys || k in left
        decreases |left|
      {
        var k := Pick(left);
        list, keys := list + [targets[k]], keys + [k];
        left := left - {k};
      }
      assert G.ListsKeys(targets, session, list, keys);
    }

    // -------------------------------------------------------------- readings

    /** Rows already there are kept; a missing session fails the first insert. */
    method RecordReading(session: string, address: string, q: int, cycle: seq<CycleProbe>, row: DeviceReading) returns (ok: bool)
      modifies this`probes, this`devices
      ensures ok <==> session in sessions
      ensures !ok ==> probes == old(probes) && devices == old(devices)
      ensures ok ==> devices == (if DeviceKey(session, address, q) in old(devices) then old(devices)
                                 else old(devices)[DeviceKey(session, address, q) := row])
      ensures ok ==> probes == Recorded(old(probes), session, address, q, row.at, cycle)
    {
      if session !in sessions {
        return false;
      }
      if DeviceKey(session, address, q) !in devices {
        devices := devices[DeviceKey(session, address, q) := row];
      }
      for i := 0 to |cycle|
        invariant probes == Recorded(old(probes), session, address, q, row.at, cycle[..i])
        invariant devices == if DeviceKey(session, address, q) in old(devices) then old(devices)
                             else old(devices)[DeviceKey(session, address, q) := row]
      {
        assert cycle[..i + 1][..i] == cycle[..i];
        var k := ProbeKey(session, address, q, cycle[i].index);
        if k !in probes {
          probes := probes[k := ProbeRow(row.at, cycle[i].temp)];
        }
      }
      assert cycle[..|cycle|] == cycle;
      return true;
    }

    method GetMaxSeq(session: string, address: string) returns (q: int)
      ensures Q.Highest(probes.Keys, session, address, q)
    {
      var left := set k | k in probes && k.session == session && k.address == address;
      ghost var all := left;
      assert forall k | k in probes.Keys && k.session == session && k.address == address :: k in all;
      if left == {} {
        return 0;
      }
      var top := Pick(left);
      left := left - {top};
      while left != {}
        invariant left <= all && top in all
        invariant forall k | k in all && k !in left :: k.seqNo <= top.seqNo
        decreases |left|
      {
        var k := Pick(left);
        if k.seqNo > top.seqNo {
          top := k;
        }
        left := left - {k};
      }
      assert top in probes.Keys && top.seqNo == top.seqNo;
      return top.seqNo;
    }
  }

  /** INSERT OR IGNORE of one row per probe. */
  function Recorded(t: map<ProbeKey, ProbeRow>, session: string, address: string, q: int, at: int, cycle: seq<CycleProbe>):
    map<ProbeKey, ProbeRow>
    decreases |cycle|
  {
    if cycle == [] then t
    else
      var before, p := Recorded(t, session, address, q, at, cycle[..|cycle| - 1]), cycle[|cycle| - 1];
      var k := ProbeKey(session, address, q, p.index);
      if k in before then before else before[k := ProbeRow(at, p.temp)]
  }

  function EndAll(rows: Sessions, ids: seq<string>, now: int): Sessions {
    map id | id in rows :: if id in ids then Ended(rows[id], now, "server_restart_duplicate") else rows[id]
  }

  /** Of the open sessions, newest first, all but the first are exactly the others. */
  lemma OthersAreTheRest(rows: Sessions, orphans: seq<string>, now: int)
    requires orphans != [] && NewestFirst(rows, orphans)
    requires forall id :: id in orphans <==> id in OpenIn(rows)
    ensures Newest(rows, orphans[0])
    ensures EndAll(rows, orphans[1..], now) == EndOthers(rows, orphans[0], now)
  {
    forall id | id in OpenIn(rows) ensures rows[id].startedAt <= rows[orphans[0]].startedAt {
      var i :| 0 <= i < |orphans| && orphans[i] == id;
    }
    assert orphans == [orphans[0]] + orphans[1..];
    forall id | id in orphans[1..] ensures id != orphans[0] {
      var i :| 0 <= i < |orphans[1..]| && orphans[1..][i] == id;
      assert orphans[i + 1] == id;
    }
  }

  /** After the first failed insert nothing more happens. */
  lemma {:induction false} InsertStopped(t: G.TargetTable, session: string, address: string, ts: seq<TargetConfig>, n: nat)
    requires 0 < n <= |ts|
    requires var before := G.InsertTargets(t, session, address, ts[..n - 1]);
      before.ok && G.TargetKey(session, address, ts[n - 1].probe) in before.table
    ensures G.InsertTargets(t, session, address, ts) ==
      G.Inserted(G.InsertTargets(t, session, address, ts[..n - 1]).table, false)
    decreases |ts|
  {
    if n == |ts| {
      assert ts[..n - 1] == ts[..|ts| - 1];
    } else {
      var init := ts[..|ts| - 1];
      assert init[..n - 1] == ts[..n - 1] && init[n - 1] == ts[n - 1];
      InsertStopped(t, session, address, init, n);
    }
  }

  function CycleKeys(session: string, address: string, q: int, cycle: seq<CycleProbe>): set<ProbeKey> {
    set i | 0 <= i < |cycle| :: ProbeKey(session, address, q, cycle[i].index)
  }

  lemma StoredKeys(keys: set<ProbeKey>, session: string, address: string, q: int, cycle: seq<CycleProbe>)
    requires cycle != []
    ensures keys + CycleKeys(session, address, q, cycle) ==
      keys + CycleKeys(session, address, q, cycle[..|cycle| - 1]) + {ProbeKey(session, address, q, cycle[|cycle| - 1].index)}
  {
    var init := cycle[..|cycle| - 1];
    assert forall i | 0 <= i < |init| :: init[i] == cycle[i];
    forall k | k in CycleKeys(session, address, q, cycle)
      ensures k in CycleKeys(session, address, q, init) || k == ProbeKey(session, address, q, cycle[|cycle| - 1].index)
    {
      var i :| 0 <= i < |cycle| && k == ProbeKey(session, address, q, cycle[i].index);
      assert i < |init| ==> k == ProbeKey(session, address, q, init[i].index);
    }
    forall k | k in CycleKeys(session, address, q, init) ensures k in CycleKeys(session, address, q, cycle) {
      var i :| 0 <= i < |init| && k == ProbeKey(session, address, q, init[i].index);
      assert k == ProbeKey(session, address, q, cycle[i].index);
    }
    assert ProbeKey(session, address, q, cycle[|cycle| - 1].index) in CycleKeys(session, address, q, cycle);
  }

  /** What was read of one probe is new in the table, as it was read. */
  ghost predicate Kept(t: map<ProbeKey, ProbeRow>, r: map<ProbeKey, ProbeRow>,
                       session: string, address: string, q: int, at: int, p: CycleProbe) {
    var k := ProbeKey(session, address, q, p.index);
    k !in t && k in r && r[k] == ProbeRow(at, p.temp)
  }

  lemma {:induction false} RecordedKeys(t: map<ProbeKey, ProbeRow>, session: string, address: string, q: int, at: int, cycle: seq<CycleProbe>)
    ensures Recorded(t, session, address, q, at, cycle).Keys == t.Keys + CycleKeys(session, address, q, cycle)
    decreases |cycle|
  {
    if cycle != [] {
      RecordedKeys(t, session, address, q, at, cycle[..|cycle| - 1]);
      StoredKeys(t.Keys, session, address, q, cycle);
    }
  }

  /** With fresh keys and no probe read twice, every row of the cycle is stored as read and none is lost. */
  lemma {:induction false} CycleIsStored(t: map<ProbeKey, ProbeRow>, session: string, address: string, q: int, at: int, cycle: seq<CycleProbe>)
    requires Q.Covers(t.Keys, session, address, q - 1)
    requires forall i, j | 0 <= i < j < |cycle| :: cycle[i].index != cycle[j].index
    ensures var r := Recorded(t, session, address, q, at, cycle);
      && (forall k | k in t :: k in r && r[k] == t[k])
      && (forall i | 0 <= i < |cycle| :: Kept(t, r, session, address, q, at, cycle[i]))
    decreases |cycle|
  {
    if cycle != [] {
      var init, p := cycle[..|cycle| - 1], cycle[|cycle| - 1];
      CycleIsStored(t, session, address, q, at, init);
      RecordedKeys(t, session, address, q, at, init);
      var before, k := Recorded(t, session, address, q, at, init), ProbeKey(session, address, q, p.index);
      assert forall i | 0 <= i < |init| :: init[i] == cycle[i];
      assert k !in t && k !in CycleKeys(session, address, q, init);
    }
  }

  /** Rows already there are kept whatever was read, and of two readings of a probe in one cycle the first counts. */
  lemma {:induction false} RecordedIsFirst(t: map<ProbeKey, ProbeRow>, session: string, address: string, q: int, at: int, cycle: seq<CycleProbe>)
    ensures var r := Recorded(t, session, address, q, at, cycle);
      && (forall k | k in t :: k in r && r[k] == t[k])
      && (forall i | 0 <= i < |cycle| && FirstOf(cycle, i) && ProbeKey(session, address, q, cycle[i].index) !in t ::
            ProbeKey(session, address, q, cycle[i].index) in r && r[ProbeKey(session, address, q, cycle[i].index)] == ProbeRow(at, cycle[i].temp))
    decreases |cycle|
  {
    if cycle != [] {
      var init, p := cycle[..|cycle| - 1], cycle[|cycle| - 1];
      RecordedIsFirst(t, session, address, q, at, init);
      RecordedKeys(t, session, address, q, at, init);
      forall i | 0 <= i < |init| && FirstOf(cycle, i) ensures FirstOf(init, i) && init[i] == cycle[i] {
        assert forall j | 0 <= j < i :: init[j] == cycle[j];
      }
      if FirstOf(cycle, |init|) {
        NotYetRecorded(session, address, q, init, cycle);
      }
    }
  }

  ghost predicate FirstOf(cycle: seq<CycleProbe>, i: int)
    requires 0 <= i < |cycle|
  {
    forall j | 0 <= j < i :: cycle[j].index != cycle[i].index
  }

  lemma NotYetRecorded(session: string, address: string, q: int, init: seq<CycleProbe>, cycle: seq<CycleProbe>)
    requires cycle != [] && init == cycle[..|cycle| - 1] && FirstOf(cycle, |init|)
    ensures ProbeKey(session, address, q, cycle[|init|].index) !in CycleKeys(session, address, q, init)
  {
    assert forall j | 0 <= j < |init| :: init[j] == cycle[j];
  }
}
