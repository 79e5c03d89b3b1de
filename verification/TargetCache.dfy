/** Saved targets, and the evaluator's copy of them, over runs of the session and target requests. */
module TargetCache {
  import opened Options
  import opened SessionBook
  import opened AlertRules
  import opened AlertTargets

  /** The primary key of session_targets. */
  datatype TargetKey = TargetKey(session: string, address: string, probe: int)

  type TargetTable = map<TargetKey, TargetConfig>

  /** INSERT OR REPLACE, one configuration after the other. */
  function SaveTargets(t: TargetTable, session: string, address: string, ts: seq<TargetConfig>): TargetTable
    decreases |ts|
  {
    if ts == [] then t
    else
      var last := ts[|ts| - 1];
      SaveTargets(t, session, address, ts[..|ts| - 1])[TargetKey(session, address, last.probe) := last]
  }

  function SaveForAll(t: TargetTable, session: string, addresses: seq<string>, ts: seq<TargetConfig>): TargetTable
    decreases |addresses|
  {
    if addresses == [] then t
    else SaveTargets(SaveForAll(t, session, addresses[..|addresses| - 1], ts), session, addresses[|addresses| - 1], ts)
  }

  datatype Inserted = Inserted(table: TargetTable, ok: bool)

  /** INSERT, stopping at the first key already taken; what was inserted before stays. */
  function InsertTargets(t: TargetTable, session: string, address: string, ts: seq<TargetConfig>): Inserted
    decreases |ts|
  {
    if ts == [] then Inserted(t, true)
    else
      var before := InsertTargets(t, session, address, ts[..|ts| - 1]);
      var last := ts[|ts| - 1];
      var k := TargetKey(session, address, last.probe);
      if !before.ok || k in before.table then Inserted(before.table, false) else Inserted(before.table[k := last], true)
  }

  function WithoutDevice(t: TargetTable, session: string, address: string): TargetTable {
    map k | k in t && !(k.session == session && k.address == address) :: t[k]
  }

  function WithoutTargets(t: TargetTable, session: string): TargetTable {
    map k | k in t && k.session != session :: t[k]
  }

  function UpdateTargets(t: TargetTable, session: string, address: string, ts: seq<TargetConfig>): Inserted {
    InsertTargets(WithoutDevice(t, session, address), session, address, ts)
  }

  function RowsOf(t: TargetTable, session: string): set<TargetKey> {
    set k | k in t && k.session == session
  }

  /** `list` is the session's rows, each once, in some order. */
  ghost predicate ListsRows(t: TargetTable, session: string, list: seq<TargetConfig>) {
    exists keys: seq<TargetKey> :: ListsKeys(t, session, list, keys)
  }

  ghost predicate ListsKeys(t: TargetTable, session: string, list: seq<TargetConfig>, keys: seq<TargetKey>) {
    && |keys| == |list|
    && (forall i, j | 0 <= i < j < |keys| :: keys[i] != keys[j])
    && (forall i | 0 <= i < |keys| :: keys[i] in RowsOf(t, session) && list[i] == t[keys[i]])
    && (forall k | k in RowsOf(t, session) :: k in keys)
  }

  // ---------------------------------------------------------------- an update of one device

  /** The device's rows in `table` are exactly the given configurations, and every other row is as in `t`. */
  ghost predicate Inserts(t: TargetTable, table: TargetTable, session: string, address: string, ts: seq<TargetConfig>) {
    && (forall i | 0 <= i < |ts| :: TargetKey(session, address, ts[i].probe) in table && table[TargetKey(session, address, ts[i].probe)] == ts[i])
    && (forall k | k in table :: k in t || (k.session == session && k.address == address && Targeted(ts, k.probe)))
    && (forall k | k in t :: k in table && table[k] == t[k])
  }

  /** An insert that goes through leaves exactly the given configurations; it does unless a probe is repeated. */
  lemma {:induction false} InsertIsExact(t: TargetTable, session: string, address: string, ts: seq<TargetConfig>)
    requires forall k | k in t :: !(k.session == session && k.address == address)
    ensures var r := InsertTargets(t, session, address, ts);
      (r.ok <==> Distinct(ts)) && (r.ok ==> Inserts(t, r.table, session, address, ts))
    decreases |ts|
  {
    if ts != [] {
      var init, last := ts[..|ts| - 1], ts[|ts| - 1];
      InsertIsExact(t, session, address, init);
      var before := InsertTargets(t, session, address, init);
      DistinctMore(ts);
      if before.ok {
        TakenIfTargeted(t, before.table, session, address, init, last.probe);
        if TargetKey(session, address, last.probe) !in before.table {
          InsertOneMore(t, before.table, session, address, ts);
        }
      }
    }
  }

  lemma DistinctMore(ts: seq<TargetConfig>)
    requires ts != []
    ensures Distinct(ts) <==> Distinct(ts[..|ts| - 1]) && !Targeted(ts[..|ts| - 1], ts[|ts| - 1].probe)
  {
    var init, last := ts[..|ts| - 1], ts[|ts| - 1];
    assert forall i | 0 <= i < |init| :: init[i] == ts[i];
  }

  lemma TakenIfTargeted(t: TargetTable, table: TargetTable, session: string, address: string, ts: seq<TargetConfig>, probe: int)
    requires Inserts(t, table, session, address, ts) && forall k | k in t :: !(k.session == session && k.address == address)
    ensures TargetKey(session, address, probe) in table <==> Targeted(ts, probe)
  {
  }

  lemma InsertOneMore(t: TargetTable, table: TargetTable, session: string, address: string, ts: seq<TargetConfig>)
    requires ts != [] && Inserts(t, table, session, address, ts[..|ts| - 1])
    requires TargetKey(session, address, ts[|ts| - 1].probe) !in table
    ensures Inserts(t, table[TargetKey(session, address, ts[|ts| - 1].probe) := ts[|ts| - 1]], session, address, ts)
  {
    var init := ts[..|ts| - 1];
    forall i | 0 <= i < |init| ensures ts[i] == init[i] {
    }
    forall p | Targeted(init, p) ensures Targeted(ts, p) {
      var i :| 0 <= i < |init| && init[i].probe == p;
      assert ts[i].probe == p;
    }
    assert Targeted(ts, ts[|ts| - 1].probe);
  }

  // ---------------------------------------------------------------- requests

  /** Sessions, saved targets, and the lists the evaluator holds. */
  datatype Cache = Cache(book: Book, table: TargetTable, held: TargetLists)

  /** `listing` is what the request read back from the table; requests are served one at a time. */
  datatype Request =
    | StartRequest(id: string, addresses: seq<string>, ts: seq<TargetConfig>, now: int, listing: seq<TargetConfig>)
    | EndRequest(now: int)
    | DiscardRequest
    | UpdateRequest(address: string, ts: seq<TargetConfig>, listing: seq<TargetConfig>)
    | Restarted(keep: string, now: int, listing: seq<TargetConfig>)

  function Drop(held: TargetLists, session: Option<string>): TargetLists {
    if session.Some? then held - {session.value} else held
  }

  function Start(c: Cache, id: string, addresses: seq<string>, ts: seq<TargetConfig>, now: int, listing: seq<TargetConfig>): Cache {
    Cache(Open(c.book, id, now, "user"),
          if ts == [] then c.table else SaveForAll(c.table, id, addresses, ts),
          Drop(if ts == [] then c.held else c.held[id := listing], c.book.current))
  }

  function End(c: Cache, now: int): Cache {
    Cache(EndCurrent(c.book, now, "user"), c.table, Drop(c.held, c.book.current))
  }

  function Discard(c: Cache): Cache {
    match c.book.current
    case None => c
    case Some(id) => Cache(Forget(c.book, id), WithoutTargets(c.table, id), c.held - {id})
  }

  function Update(c: Cache, address: string, ts: seq<TargetConfig>, listing: seq<TargetConfig>): Cache {
    match c.book.current
    case None => c
    case Some(id) =>
      var r := UpdateTargets(c.table, id, address, ts);
      Cache(c.book, r.table, if r.ok then c.held[id := listing] else c.held)
  }

  function Restart(c: Cache, keep: string, now: int, listing: seq<TargetConfig>): Cache {
    if OpenIn(c.book.rows) == {} then Cache(Reboot(c.book), c.table, map[])
    else Cache(Recover(Reboot(c.book), keep, now), c.table, if listing != [] then map[keep := listing] else map[])
  }

  /** The request can be served as described: the new id is fresh, devices are named, and what is read
      back is what the table then holds. */
  ghost predicate Served(c: Cache, r: Request) {
    match r
    case StartRequest(id, addresses, ts, now, listing) =>
      id !in c.book.rows && (ts != [] ==> ListsRows(SaveForAll(c.table, id, addresses, ts), id, listing))
    case UpdateRequest(address, ts, listing) =>
      c.book.current.Some? && Distinct(ts) ==>
        ListsRows(UpdateTargets(c.table, c.book.current.value, address, ts).table, c.book.current.value, listing)
    case Restarted(keep, now, listing) =>
      OpenIn(c.book.rows) != {} ==> Newest(c.book.rows, keep) && ListsRows(c.table, keep, listing)
    case _ => true
  }

  function Serve(c: Cache, r: Request): Cache {
    match r
    case StartRequest(id, addresses, ts, now, listing) => Start(c, id, addresses, ts, now, listing)
    case EndRequest(now) => End(c, now)
    case DiscardRequest => Discard(c)
    case UpdateRequest(address, ts, listing) => Update(c, address, ts, listing)
    case Restarted(keep, now, listing) => Restart(c, keep, now, listing)
  }

  ghost predicate ServedAll(c: Cache, rs: seq<Request>)
    decreases |rs|
  {
    rs == [] || (ServedAll(c, rs[..|rs| - 1]) && Served(ServeAll(c, rs[..|rs| - 1]), rs[|rs| - 1]))
  }

  function ServeAll(c: Cache, rs: seq<Request>): Cache
    decreases |rs|
  {
    if rs == [] then c else Serve(ServeAll(c, rs[..|rs| - 1]), rs[|rs| - 1])
  }

  // ---------------------------------------------------------------- the copy is exact

  function Held(c: Cache, session: string): seq<TargetConfig> {
    if session in c.held then c.held[session] else []
  }

  /** The evaluator holds exactly the current session's saved targets, and nothing for any other session. */
  ghost predicate Exact(c: Cache) {
    && Settled(c.book)
    && (forall k | k in c.table :: k.session in c.book.rows)
    && (forall session | session in c.held :: c.book.current == Some(session))
    && (c.book.current.Some? ==> ListsRows(c.table, c.book.current.value, Held(c, c.book.current.value)))
  }

  lemma NoRowsListed(t: TargetTable, session: string)
    requires RowsOf(t, session) == {}
    ensures ListsRows(t, session, [])
  {
    assert ListsKeys(t, session, [], []);
  }

  lemma {:induction false} SavedSessions(t: TargetTable, session: string, address: string, ts: seq<TargetConfig>)
    ensures forall k | k in SaveTargets(t, session, address, ts) :: k in t || k.session == session
    decreases |ts|
  {
    if ts != [] {
      SavedSessions(t, session, address, ts[..|ts| - 1]);
    }
  }

  lemma {:induction false} SavedForAllSessions(t: TargetTable, session: string, addresses: seq<string>, ts: seq<TargetConfig>)
    ensures forall k | k in SaveForAll(t, session, addresses, ts) :: k in t || k.session == session
    decreases |addresses|
  {
    if addresses != [] {
      SavedForAllSessions(t, session, addresses[..|addresses| - 1], ts);
      SavedSessions(SaveForAll(t, session, addresses[..|addresses| - 1], ts), session, addresses[|addresses| - 1], ts);
    }
  }

  lemma {:induction false} InsertedSessions(t: TargetTable, session: string, address: string, ts: seq<TargetConfig>)
    ensures forall k | k in InsertTargets(t, session, address, ts).table :: k in t || k.session == session
    decreases |ts|
  {
    if ts != [] {
      InsertedSessions(t, session, address, ts[..|ts| - 1]);
    }
  }

  lemma StartExact(c: Cache, id: string, addresses: seq<string>, ts: seq<TargetConfig>, now: int, listing: seq<TargetConfig>)
    requires Exact(c) && Served(c, StartRequest(id, addresses, ts, now, listing))
    ensures Exact(Start(c, id, addresses, ts, now, listing))
  {
    OperationsStaySettled(c.book, id, now, "user");
    if ts == [] {
      assert RowsOf(c.table, id) == {};
      NoRowsListed(c.table, id);
    } else {
      SavedForAllSessions(c.table, id, addresses, ts);
    }
  }

  lemma UpdateExact(c: Cache, address: string, ts: seq<TargetConfig>, listing: seq<TargetConfig>)
    requires Exact(c) && Served(c, UpdateRequest(address, ts, listing)) && Distinct(ts)
    ensures Exact(Update(c, address, ts, listing))
  {
    if c.book.current.Some? {
      var id := c.book.current.value;
      assert id in OpenIn(c.book.rows);
      InsertedSessions(WithoutDevice(c.table, id, address), id, address, ts);
      InsertIsExact(WithoutDevice(c.table, id, address), id, address, ts);
    }
  }

  lemma RestartExact(c: Cache, keep: string, now: int, listing: seq<TargetConfig>)
    requires Exact(c) && Served(c, Restarted(keep, now, listing))
    ensures Exact(Restart(c, keep, now, listing))
  {
    RecoveryRepairs(c.book, keep, now);
  }

  lemma ServeExact(c: Cache, r: Request)
    requires Exact(c) && Served(c, r) && (r.UpdateRequest? ==> Distinct(r.ts))
    ensures Exact(Serve(c, r))
  {
    match r
    case StartRequest(id, addresses, ts, now, listing) => StartExact(c, id, addresses, ts, now, listing);
    case EndRequest(now) => OperationsStaySettled(c.book, "", now, "user");
    case DiscardRequest =>
      if c.book.current.Some? {
        OperationsStaySettled(c.book, c.book.current.value, 0, "user");
      }
    case UpdateRequest(address, ts, listing) => UpdateExact(c, address, ts, listing);
    case Restarted(keep, now, listing) => RestartExact(c, keep, now, listing);
  }

  /** An update that names a probe twice fails, and then the evaluator keeps its old list. */
  lemma UpdateFailsIfAndOnlyIfProbeRepeated(c: Cache, address: string, ts: seq<TargetConfig>, listing: seq<TargetConfig>)
    requires c.book.current.Some?
    ensures UpdateTargets(c.table, c.book.current.value, address, ts).ok <==> Distinct(ts)
    ensures !Distinct(ts) ==> Update(c, address, ts, listing).held == c.held
  {
    InsertIsExact(WithoutDevice(c.table, c.book.current.value, address), c.book.current.value, address, ts);
  }

  // ---------------------------------------------------------------- one list for all devices

  /** Saving a list leaves each probe it names with the list's last configuration of it, and every other row alone. */
  lemma {:induction false} SavedIsLast(t: TargetTable, session: string, address: string, ts: seq<TargetConfig>, k: TargetKey)
    ensures var r := SaveTargets(t, session, address, ts);
      if k.session == session && k.address == address && ByIndex(ts, k.probe).Some?
      then k in r && r[k] == ByIndex(ts, k.probe).value
      else (k in r <==> k in t) && (k in t ==> r[k] == t[k])
    decreases |ts|
  {
    if ts != [] {
      SavedIsLast(t, session, address, ts[..|ts| - 1], k);
    }
  }

  lemma {:induction false} SavedForAllIsLast(t: TargetTable, session: string, addresses: seq<string>, ts: seq<TargetConfig>, k: TargetKey)
    requires k.session == session && k !in t
    ensures var r := SaveForAll(t, session, addresses, ts); k in r ==> ByIndex(ts, k.probe) == Some(r[k])
    decreases |addresses|
  {
    if addresses != [] {
      SavedForAllIsLast(t, session, addresses[..|addresses| - 1], ts, k);
      SavedIsLast(SaveForAll(t, session, addresses[..|addresses| - 1], ts), session, addresses[|addresses| - 1], ts, k);
    }
  }

  lemma ByIndexHasIndex(ts: seq<TargetConfig>, index: int)
    ensures ByIndex(ts, index).Some? ==> ByIndex(ts, index).value.probe == index
    decreases |ts|
  {
    if ts != [] {
      ByIndexHasIndex(ts[..|ts| - 1], index);
    }
  }

  /** A session started with one list for several devices names probes more than once, but with one configuration
      each, so the evaluator is given a concordant list. */
  lemma StartIsConcordant(t: TargetTable, session: string, addresses: seq<string>, ts: seq<TargetConfig>, listing: seq<TargetConfig>)
    requires RowsOf(t, session) == {}
    requires ListsRows(SaveForAll(t, session, addresses, ts), session, listing)
    ensures Concordant(listing)
  {
    var r := SaveForAll(t, session, addresses, ts);
    var keys: seq<TargetKey> :| ListsKeys(r, session, listing, keys);
    forall i | 0 <= i < |listing| ensures ByIndex(ts, listing[i].probe) == Some(listing[i]) {
      assert keys[i] in RowsOf(r, session) && keys[i] !in RowsOf(t, session);
      SavedForAllIsLast(t, session, addresses, ts, keys[i]);
      ByIndexHasIndex(ts, keys[i].probe);
    }
    OneCeilingIsConcordant(listing);
  }
}
