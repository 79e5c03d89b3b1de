/**
 Updates that name a probe twice: what they leave behind, and exactly when the evaluator's
 copy of the targets survives them.
 */
module TargetFailures {
  import opened Options
  import opened SessionBook
  import opened AlertRules
  import opened AlertTargets
  import opened TargetCache

  // ---------------------------------------------------------------- what a failed update leaves

  /** The device's rows are then the part of the list before the first repeated probe. */
  lemma {:induction false} FailedInsertLeaves(t: TargetTable, session: string, address: string, ts: seq<TargetConfig>) returns (n: nat)
    requires forall k | k in t :: !(k.session == session && k.address == address)
    requires !Distinct(ts)
    ensures n < |ts| && Distinct(ts[..n]) && Targeted(ts[..n], ts[n].probe)
    ensures Inserts(t, InsertTargets(t, session, address, ts).table, session, address, ts[..n])
    decreases |ts|
  {
    DistinctMore(ts);
    var init := ts[..|ts| - 1];
    InsertIsExact(t, session, address, init);
    if Distinct(init) {
      n := |ts| - 1;
      TakenIfTargeted(t, InsertTargets(t, session, address, init).table, session, address, init, ts[n].probe);
    } else {
      n := FailedInsertLeaves(t, session, address, init);
      assert init[..n] == ts[..n] && init[n] == ts[n];
    }
  }

  ghost predicate RowsAre(t: TargetTable, session: string, address: string, ts: seq<TargetConfig>) {
    Inserts(WithoutDevice(t, session, address), t, session, address, ts)
  }

  lemma InsertsOneTable(t: TargetTable, a: TargetTable, b: TargetTable, session: string, address: string, ts: seq<TargetConfig>)
    requires Inserts(t, a, session, address, ts) && Inserts(t, b, session, address, ts)
    ensures forall k | k in a :: k in b && b[k] == a[k]
  {
    forall k | k in a ensures k in b && b[k] == a[k] {
      if k !in t {
        var i :| 0 <= i < |ts| && ts[i].probe == k.probe;
        assert k == TargetKey(session, address, ts[i].probe);
      }
    }
  }

  /** A failed update leaves the part of the list before the first repeated probe, and so changes nothing exactly
      when the device's rows were that already. */
  lemma FailedUpdateLeaves(t: TargetTable, session: string, address: string, ts: seq<TargetConfig>) returns (n: nat)
    requires !Distinct(ts)
    ensures n < |ts| && Distinct(ts[..n]) && Targeted(ts[..n], ts[n].probe)
    ensures Inserts(WithoutDevice(t, session, address), UpdateTargets(t, session, address, ts).table, session, address, ts[..n])
    ensures UpdateTargets(t, session, address, ts).table == t <==> RowsAre(t, session, address, ts[..n])
  {
    var rest, after := WithoutDevice(t, session, address), UpdateTargets(t, session, address, ts).table;
    n := FailedInsertLeaves(rest, session, address, ts);
    if RowsAre(t, session, address, ts[..n]) {
      InsertsOneTable(rest, t, after, session, address, ts[..n]);
      InsertsOneTable(rest, after, t, session, address, ts[..n]);
      assert after == t;
    }
  }

  predicate OfDevice(k: TargetKey, session: string, address: string) {
    k.session == session && k.address == address
  }

  lemma {:induction false} InsertKeepsOthers(t: TargetTable, session: string, address: string, ts: seq<TargetConfig>)
    ensures var r := InsertTargets(t, session, address, ts).table;
      forall k | !OfDevice(k, session, address) :: (k in r <==> k in t) && (k in t ==> r[k] == t[k])
    decreases |ts|
  {
    if ts != [] {
      InsertKeepsOthers(t, session, address, ts[..|ts| - 1]);
    }
  }

  /** Tables that agree on everything but one device's rows. */
  ghost predicate SameElsewhere(t: TargetTable, t': TargetTable, session: string, address: string) {
    forall k | !OfDevice(k, session, address) :: (k in t <==> k in t') && (k in t ==> t[k] == t'[k])
  }

  lemma UpdateKeepsOthers(t: TargetTable, session: string, address: string, ts: seq<TargetConfig>)
    ensures SameElsewhere(t, UpdateTargets(t, session, address, ts).table, session, address)
  {
    InsertKeepsOthers(WithoutDevice(t, session, address), session, address, ts);
  }

  // ---------------------------------------------------------------- rows under their own probe

  /** Every row is filed under the probe its configuration names. */
  ghost predicate Filed(t: TargetTable) {
    forall k | k in t :: t[k].probe == k.probe
  }

  lemma {:induction false} InsertFiled(t: TargetTable, session: string, address: string, ts: seq<TargetConfig>)
    requires Filed(t)
    ensures Filed(InsertTargets(t, session, address, ts).table)
    decreases |ts|
  {
    if ts != [] {
      InsertFiled(t, session, address, ts[..|ts| - 1]);
    }
  }

  lemma {:induction false} SaveFiled(t: TargetTable, session: string, address: string, ts: seq<TargetConfig>)
    requires Filed(t)
    ensures Filed(SaveTargets(t, session, address, ts))
    decreases |ts|
  {
    if ts != [] {
      SaveFiled(t, session, address, ts[..|ts| - 1]);
    }
  }

  lemma {:induction false} SaveForAllFiled(t: TargetTable, session: string, addresses: seq<string>, ts: seq<TargetConfig>)
    requires Filed(t)
    ensures Filed(SaveForAll(t, session, addresses, ts))
    decreases |addresses|
  {
    if addresses != [] {
      SaveForAllFiled(t, session, addresses[..|addresses| - 1], ts);
      SaveFiled(SaveForAll(t, session, addresses[..|addresses| - 1], ts), session, addresses[|addresses| - 1], ts);
    }
  }

  lemma ServeFiled(c: Cache, r: Request)
    requires Filed(c.table)
    ensures Filed(Serve(c, r).table)
  {
    match r
    case StartRequest(id, addresses, ts, now, listing) => SaveForAllFiled(c.table, id, addresses, ts);
    case UpdateRequest(address, ts, listing) =>
      if c.book.current.Some? {
        InsertFiled(WithoutDevice(c.table, c.book.current.value, address), c.book.current.value, address, ts);
      }
    case _ =>
  }

  // ---------------------------------------------------------------- a list tells its table

  /** The session's rows that hold configuration `v`. */
  ghost function Holding(t: TargetTable, session: string, v: TargetConfig): set<TargetKey> {
    set k | k in RowsOf(t, session) && t[k] == v
  }

  /** The keys among `keys` whose rows hold `v`. */
  ghost function Holders(t: TargetTable, keys: seq<TargetKey>, v: TargetConfig): set<TargetKey> {
    set k | k in keys && k in t && t[k] == v
  }

  lemma HoldersOneMore(t: TargetTable, keys: seq<TargetKey>, k: TargetKey, v: TargetConfig)
    requires k !in keys && k in t
    ensures |Holders(t, keys + [k], v)| == |Holders(t, keys, v)| + if t[k] == v then 1 else 0
  {
    assert Holders(t, keys + [k], v) == if t[k] == v then Holders(t, keys, v) + {k} else Holders(t, keys, v);
  }

  lemma CountOneMore(list: seq<TargetConfig>, x: TargetConfig, v: TargetConfig)
    ensures multiset(list + [x])[v] == multiset(list)[v] + if x == v then 1 else 0
  {
  }

  /** `list` reads the rows of `keys`, which are distinct. */
  ghost predicate Reads(t: TargetTable, list: seq<TargetConfig>, keys: seq<TargetKey>) {
    && |keys| == |list|
    && (forall i, j | 0 <= i < j < |keys| :: keys[i] != keys[j])
    && (forall i | 0 <= i < |keys| :: keys[i] in t && list[i] == t[keys[i]])
  }

  lemma ReadsLess(t: TargetTable, list: seq<TargetConfig>, keys: seq<TargetKey>)
    requires Reads(t, list, keys) && keys != []
    ensures Reads(t, list[..|list| - 1], keys[..|keys| - 1]) && keys[|keys| - 1] !in keys[..|keys| - 1]
  {
  }

  lemma {:induction false} HoldersCounted(t: TargetTable, list: seq<TargetConfig>, keys: seq<TargetKey>, v: TargetConfig)
    requires Reads(t, list, keys)
    ensures |Holders(t, keys, v)| == multiset(list)[v]
    decreases |keys|
  {
    if keys == [] {
      assert Holders(t, keys, v) == {};
    } else {
      var front, k, init := keys[..|keys| - 1], keys[|keys| - 1], list[..|list| - 1];
      ReadsLess(t, list, keys);
      HoldersCounted(t, init, front, v);
      HoldersOneMore(t, front, k, v);
      CountOneMore(init, t[k], v);
      assert keys == front + [k] && list == init + [t[k]];
    }
  }

  lemma ListedHolders(t: TargetTable, session: string, list: seq<TargetConfig>, keys: seq<TargetKey>, v: TargetConfig)
    requires ListsKeys(t, session, list, keys)
    ensures Holders(t, keys, v) == Holding(t, session, v)
  {
    forall k: TargetKey ensures k in Holders(t, keys, v) <==> k in Holding(t, session, v) {
    }
  }

  lemma ListCounts(t: TargetTable, session: string, list: seq<TargetConfig>, v: TargetConfig)
    requires ListsRows(t, session, list)
    ensures |Holding(t, session, v)| == multiset(list)[v]
  {
    var keys: seq<TargetKey> :| ListsKeys(t, session, list, keys);
    HoldersCounted(t, list, keys, v);
    ListedHolders(t, session, list, keys, v);
  }

  /** Rows of other devices of the session that hold `v`. */
  ghost function HeldElsewhere(t: TargetTable, session: string, address: string, v: TargetConfig): set<TargetKey> {
    set k | k in Holding(t, session, v) && k.address != address
  }

  lemma OneHolder(t: TargetTable, session: string, address: string, k: TargetKey, v: TargetConfig)
    requires Filed(t) && OfDevice(k, session, address) && k.probe == v.probe
    ensures |Holding(t, session, v)| == |HeldElsewhere(t, session, address, v)| + if k in t && t[k] == v then 1 else 0
  {
    assert Holding(t, session, v) ==
      if k in t && t[k] == v then HeldElsewhere(t, session, address, v) + {k} else HeldElsewhere(t, session, address, v);
  }

  /** How often a list of the session's rows has `v`. */
  lemma CountedByDevice(t: TargetTable, session: string, address: string, list: seq<TargetConfig>, k: TargetKey, v: TargetConfig)
    requires Filed(t) && ListsRows(t, session, list) && OfDevice(k, session, address) && k.probe == v.probe
    ensures multiset(list)[v] == |HeldElsewhere(t, session, address, v)| + if k in t && t[k] == v then 1 else 0
  {
    ListCounts(t, session, list, v);
    OneHolder(t, session, address, k, v);
  }

  lemma HeldElsewhereSame(t: TargetTable, t': TargetTable, session: string, address: string, v: TargetConfig)
    requires SameElsewhere(t, t', session, address)
    ensures HeldElsewhere(t, session, address, v) == HeldElsewhere(t', session, address, v)
  {
    forall k: TargetKey | k.session == session && k.address != address
      ensures k in HeldElsewhere(t, session, address, v) <==> k in HeldElsewhere(t', session, address, v)
    {
      assert !OfDevice(k, session, address);
    }
  }

  /** Two tables that one list lists, and that agree outside a device, agree on the device. */
  lemma ListTellsRow(t: TargetTable, t': TargetTable, session: string, address: string, list: seq<TargetConfig>, k: TargetKey)
    requires Filed(t) && Filed(t') && SameElsewhere(t, t', session, address)
    requires ListsRows(t, session, list) && ListsRows(t', session, list)
    requires k in t && OfDevice(k, session, address)
    ensures k in t' && t'[k] == t[k]
  {
    var v := t[k];
    CountedByDevice(t, session, address, list, k, v);
    CountedByDevice(t', session, address, list, k, v);
    HeldElsewhereSame(t, t', session, address, v);
  }

  ghost predicate Within(t: TargetTable, t': TargetTable) {
    forall k | k in t :: k in t' && t'[k] == t[k]
  }

  lemma ListTellsRows(t: TargetTable, t': TargetTable, session: string, address: string, list: seq<TargetConfig>)
    requires Filed(t) && Filed(t') && SameElsewhere(t, t', session, address)
    requires ListsRows(t, session, list) && ListsRows(t', session, list)
    ensures Within(t, t')
  {
    forall k | k in t ensures k in t' && t'[k] == t[k] {
      if OfDevice(k, session, address) {
        ListTellsRow(t, t', session, address, list, k);
      }
    }
  }

  lemma ListTellsTable(t: TargetTable, t': TargetTable, session: string, address: string, list: seq<TargetConfig>)
    requires Filed(t) && Filed(t') && SameElsewhere(t, t', session, address)
    requires ListsRows(t, session, list) && ListsRows(t', session, list)
    ensures t == t'
  {
    ListTellsRows(t, t', session, address, list);
    ListTellsRows(t', t, session, address, list);
    WithinEachOther(t, t');
  }

  lemma WithinEachOther(t: TargetTable, t': TargetTable)
    requires Within(t, t') && Within(t', t)
    ensures t == t'
  {
  }

  // ---------------------------------------------------------------- exactly when the copy survives

  /** The update goes through, or fails without having changed anything. */
  ghost predicate Harmless(c: Cache, r: Request) {
    r.UpdateRequest? && c.book.current.Some? ==>
      Distinct(r.ts) || UpdateTargets(c.table, c.book.current.value, r.address, r.ts).table == c.table
  }

  /** A copy that is exact stays so through an update exactly when no probe is repeated or the rows written before
      the first repeat are those that were there. */
  lemma UpdateKeepsTheCopyExactlyWhen(c: Cache, address: string, ts: seq<TargetConfig>, listing: seq<TargetConfig>)
    requires Exact(c) && Filed(c.table) && Served(c, UpdateRequest(address, ts, listing))
    ensures Exact(Update(c, address, ts, listing)) <==> Harmless(c, UpdateRequest(address, ts, listing))
  {
    if Distinct(ts) {
      UpdateExact(c, address, ts, listing);
    } else if c.book.current.Some? {
      var id := c.book.current.value;
      var after := UpdateTargets(c.table, id, address, ts);
      UpdateFailsIfAndOnlyIfProbeRepeated(c, address, ts, listing);
      assert Update(c, address, ts, listing) == Cache(c.book, after.table, c.held);
      UpdateKeepsOthers(c.table, id, address, ts);
      InsertFiled(WithoutDevice(c.table, id, address), id, address, ts);
      if Exact(Update(c, address, ts, listing)) {
        ListTellsTable(c.table, after.table, id, address, Held(c, id));
      }
    }
  }

  /** So it is for every request: only a harmful update breaks the copy. */
  lemma ServeKeepsTheCopyExactlyWhen(c: Cache, r: Request)
    requires Exact(c) && Filed(c.table) && Served(c, r)
    ensures Exact(Serve(c, r)) <==> Harmless(c, r)
  {
    if r.UpdateRequest? {
      UpdateKeepsTheCopyExactlyWhen(c, r.address, r.ts, r.listing);
    } else {
      ServeExact(c, r);
    }
  }

  ghost predicate ExactThroughout(c: Cache, rs: seq<Request>)
    decreases |rs|
  {
    Exact(ServeAll(c, rs)) && (rs == [] || ExactThroughout(c, rs[..|rs| - 1]))
  }

  ghost predicate HarmlessThroughout(c: Cache, rs: seq<Request>)
    decreases |rs|
  {
    rs == [] || (HarmlessThroughout(c, rs[..|rs| - 1]) && Harmless(ServeAll(c, rs[..|rs| - 1]), rs[|rs| - 1]))
  }

  lemma {:induction false} ServeAllFiled(c: Cache, rs: seq<Request>)
    requires Filed(c.table)
    ensures Filed(ServeAll(c, rs).table)
    decreases |rs|
  {
    if rs != [] {
      ServeAllFiled(c, rs[..|rs| - 1]);
      ServeFiled(ServeAll(c, rs[..|rs| - 1]), rs[|rs| - 1]);
    }
  }

  /** Through a sequence of starts, target updates, ends, discards and restarts, served one at a time, the evaluator
      holds exactly the current session's saved targets after each of them if and only if every update is harmless. */
  lemma {:induction false} EvaluatorHoldsSavedTargets(c: Cache, rs: seq<Request>)
    requires Exact(c) && Filed(c.table) && ServedAll(c, rs)
    ensures ExactThroughout(c, rs) <==> HarmlessThroughout(c, rs)
    decreases |rs|
  {
    if rs != [] {
      var before := rs[..|rs| - 1];
      EvaluatorHoldsSavedTargets(c, before);
      ServeAllFiled(c, before);
      if ExactThroughout(c, before) {
        ServeKeepsTheCopyExactlyWhen(ServeAll(c, before), rs[|rs| - 1]);
      }
    }
  }

  /** The plainest harmful update: two configurations of one probe for a device that has none. */
  lemma RepeatedProbeBreaksTheCopy(c: Cache, address: string, t: TargetConfig, u: TargetConfig, listing: seq<TargetConfig>)
    requires Exact(c) && Filed(c.table) && c.book.current.Some? && t.probe == u.probe
    requires forall k | k in c.table :: !OfDevice(k, c.book.current.value, address)
    ensures Served(c, UpdateRequest(address, [t, u], listing)) && !Exact(Update(c, address, [t, u], listing))
  {
    var id, ts := c.book.current.value, [t, u];
    assert ts[0].probe == ts[1].probe && !Distinct(ts);
    var n := FailedUpdateLeaves(c.table, id, address, ts);
    assert n == 1;
    assert ts[..n][0] == t;
    assert TargetKey(id, address, t.probe) in UpdateTargets(c.table, id, address, ts).table;
    UpdateKeepsTheCopyExactlyWhen(c, address, ts, listing);
  }
}
