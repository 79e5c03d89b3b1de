/**
 The post-session downsampler as it runs: statements against two tables inside one
 transaction, any of which may fail, with a rollback when one does.
 */
module Downsampler {
  import opened Options
  import opened ReadingTables
  import opened Bucketing
  import opened Sets
  import opened TextOrder

  datatype Snapshot = Snapshot(probes: ProbeTable, nextId: nat, devices: DeviceTable)

  // ---------------------------------------------------------------- the dictionary of collapsed sequence numbers

  ghost predicate Ordered(c: Collapsed) {
    && (forall i, j | 0 <= i < j < |c.order| :: c.order[i] != c.order[j])
    && (forall k :: k in c.order <==> k in c.seqs)
  }

  ghost predicate Tracks(p: Pass, t: ProbeTable, now: ProbeTable, made: map<Group, nat>, c: Collapsed)
    requires p.width > 0
  {
    && (forall k | k in c.seqs :: k.kept in c.seqs[k])
    && ListedAreKept(p, t, now, made, c)
    && KeptAreListed(p, t, now, made, c)
  }

  lemma NoteOrdered(c: Collapsed, k: EntryKey, seqs: set<int>)
    requires Ordered(c)
    ensures Ordered(Note(c, k, seqs))
  {
    var c' := Note(c, k, seqs);
    forall h ensures h in c'.order <==> h in c'.seqs {
    }
  }

  /** After one more group, a row is kept as before or under the new row's number. */
  lemma KeptAsStep(p: Pass, t: ProbeTable, now: ProbeTable, made: map<Group, nat>, g: Group, row: ProbeReading, newId: nat, id: nat, q: int)
    requires p.width > 0 && NewIds(p, t, now, made)
    requires g !in made && newId !in t && newId !in now
    ensures KeptAs(p, t, (now - Members(p, t, g))[newId := row], made[g := newId], id, q)
      <==> KeptAs(p, t, now, made, id, q) || (id in Members(p, t, g) && q == row.seqNo)
  {
    var now' := (now - Members(p, t, g))[newId := row];
    if id in t && InRange(p, t[id]) && GroupOf(p, t[id]) in made {
      var h := GroupOf(p, t[id]);
      assert made[h] !in t && made[h] in now && made[h] != newId;
      assert now'[made[h]] == now[made[h]];
    }
  }

  /** Every listed sequence number belongs to a row kept under that entry's number. */
  ghost predicate ListedAreKept(p: Pass, t: ProbeTable, now: ProbeTable, made: map<Group, nat>, c: Collapsed)
    requires p.width > 0
  {
    forall k, q | k in c.seqs && q in c.seqs[k] ::
      exists id :: KeptAs(p, t, now, made, id, k.kept) && t[id].address == k.address && t[id].seqNo == q
  }

  ghost predicate KeptAreListed(p: Pass, t: ProbeTable, now: ProbeTable, made: map<Group, nat>, c: Collapsed)
    requires p.width > 0
  {
    forall id, q | KeptAs(p, t, now, made, id, q) ::
      EntryKey(t[id].address, q) in c.seqs && t[id].seqNo in c.seqs[EntryKey(t[id].address, q)]
  }

  lemma ListedStep(p: Pass, t: ProbeTable, now: ProbeTable, made: map<Group, nat>, c: Collapsed, g: Group, row: ProbeReading, newId: nat)
    requires p.width > 0 && NewIds(p, t, now, made) && ListedAreKept(p, t, now, made, c)
    requires g !in made && newId !in t && newId !in now
    ensures ListedAreKept(p, t, (now - Members(p, t, g))[newId := row], made[g := newId],
                          Note(c, EntryKey(g.address, row.seqNo), SeqsOf(t, Members(p, t, g))))
  {
    var ms := Members(p, t, g);
    var now' := (now - ms)[newId := row];
    var made' := made[g := newId];
    var key := EntryKey(g.address, row.seqNo);
    var c' := Note(c, key, SeqsOf(t, ms));
    forall k, q | k in c'.seqs && q in c'.seqs[k]
      ensures exists id :: KeptAs(p, t, now', made', id, k.kept) && t[id].address == k.address && t[id].seqNo == q
    {
      var id: nat;
      if k == key && q in SeqsOf(t, ms) {
        id :| id in ms && t[id].seqNo == q;
      } else {
        id :| KeptAs(p, t, now, made, id, k.kept) && t[id].address == k.address && t[id].seqNo == q;
      }
      KeptAsStep(p, t, now, made, g, row, newId, id, k.kept);
    }
  }

  lemma KeptStep(p: Pass, t: ProbeTable, now: ProbeTable, made: map<Group, nat>, c: Collapsed, g: Group, row: ProbeReading, newId: nat)
    requires p.width > 0 && NewIds(p, t, now, made) && KeptAreListed(p, t, now, made, c)
    requires g !in made && newId !in t && newId !in now
    ensures KeptAreListed(p, t, (now - Members(p, t, g))[newId := row], made[g := newId],
                          Note(c, EntryKey(g.address, row.seqNo), SeqsOf(t, Members(p, t, g))))
  {
    var now' := (now - Members(p, t, g))[newId := row];
    var made' := made[g := newId];
    var c' := Note(c, EntryKey(g.address, row.seqNo), SeqsOf(t, Members(p, t, g)));
    forall id, q | KeptAs(p, t, now', made', id, q)
      ensures EntryKey(t[id].address, q) in c'.seqs && t[id].seqNo in c'.seqs[EntryKey(t[id].address, q)]
    {
      KeptAsStep(p, t, now, made, g, row, newId, id, q);
    }
  }

  lemma TracksStep(p: Pass, t: ProbeTable, now: ProbeTable, made: map<Group, nat>, c: Collapsed, g: Group, row: ProbeReading, newId: nat)
    requires p.width > 0 && NewIds(p, t, now, made) && Tracks(p, t, now, made, c)
    requires g !in made && CollapsedFrom(t, Members(p, t, g), row)
    requires newId !in t && newId !in now
    ensures Tracks(p, t, (now - Members(p, t, g))[newId := row], made[g := newId],
                   Note(c, EntryKey(g.address, row.seqNo), SeqsOf(t, Members(p, t, g))))
  {
    ListedStep(p, t, now, made, c, g, row, newId);
    KeptStep(p, t, now, made, c, g, row, newId);
    var least :| least in Members(p, t, g) && t[least].seqNo == row.seqNo;
    assert row.seqNo in SeqsOf(t, Members(p, t, g));
  }

  lemma TrackedEntriesMatch(p: Pass, t: ProbeTable, now: ProbeTable, made: map<Group, nat>, c: Collapsed)
    requires p.width > 0 && KeepsTrack(p, t, now, made, c)
    ensures EntriesMatch(p, t, now, made, EntriesOf(c))
  {
    var es := EntriesOf(c);
    forall i, j | 0 <= i < j < |es| ensures (es[i].address, es[i].kept) != (es[j].address, es[j].kept) {
      assert c.order[i] != c.order[j];
    }
    forall id, q | KeptAs(p, t, now, made, id, q)
      ensures exists i :: 0 <= i < |es| && es[i].address == t[id].address && es[i].kept == q && t[id].seqNo in es[i].seqs
    {
      var k := EntryKey(t[id].address, q);
      assert k in c.order;
      var i :| 0 <= i < |c.order| && c.order[i] == k;
      assert es[i].kept == q;
    }
  }

  lemma NotedFollow(p: Pass, t: ProbeTable, order: seq<Group>, c: Collapsed)
    requires p.width > 0 && SortedGroups(p, t, order) && c == Noted(p, t, order, |order|)
    ensures EntriesFollow(p, t, order, EntriesOf(c))
  {
  }

  method LeastOf(s: set<int>) returns (least: int)
    requires s != {}
    ensures least in s && forall q | q in s :: least <= q
  {
    least := Pick(s);
    var left := s - {least};
    while left != {}
      invariant left <= s && least in s
      invariant forall q | q in s && q !in left :: least <= q
      decreases |left|
    {
      var q := Pick(left);
      least := if q < least then q else least;
      left := left - {q};
    }
  }

  /** `rows` are the device rows of entry `e` except those numbered `todo`, which all come later. */
  ghost predicate ListsBefore(session: string, e: Entry, d: DeviceTable, rows: seq<FetchedDevice>, todo: set<int>) {
    && todo <= Sources(session, e, d)
    && (forall i | 0 <= i < |rows| ::
          rows[i].seqNo in Sources(session, e, d) && rows[i].row == d[DeviceKey(session, e.address, rows[i].seqNo)])
    && (forall i, j | 0 <= i < j < |rows| :: rows[i].seqNo < rows[j].seqNo)
    && (forall i, q | 0 <= i < |rows| && q in todo :: rows[i].seqNo < q)
    && (forall q | q in Sources(session, e, d) && q !in todo :: exists i :: 0 <= i < |rows| && rows[i].seqNo == q)
  }

  lemma ListsBeforeStep(session: string, e: Entry, d: DeviceTable, rows: seq<FetchedDevice>, todo: set<int>, q: int)
    requires ListsBefore(session, e, d, rows, todo)
    requires q in todo && forall r | r in todo :: q <= r
    ensures ListsBefore(session, e, d, rows + [FetchedDevice(q, d[DeviceKey(session, e.address, q)])], todo - {q})
  {
    var rows' := rows + [FetchedDevice(q, d[DeviceKey(session, e.address, q)])];
    forall r | r in Sources(session, e, d) && r !in todo - {q} ensures exists i :: 0 <= i < |rows'| && rows'[i].seqNo == r {
      if r == q {
        assert rows'[|rows|].seqNo == r;
      } else {
        var i :| 0 <= i < |rows| && rows[i].seqNo == r;
        assert rows'[i].seqNo == r;
      }
    }
  }

  /** The rows `ids`, sorted by taking the first of those left. */
  method SortRows(t: ProbeTable, ids: set<nat>) returns (rows: seq<Fetched>)
    requires ids <= t.Keys
    ensures Lists(t, rows, ids) && InOrder(rows)
  {
    rows := [];
    var left := ids;
    while left != {}
      invariant left <= ids && Lists(t, rows, ids - left)
      invariant InOrder(rows) && AllBefore(t, rows, left)
      decreases |left|
    {
      var id := FirstOf(t, left);
      ListsAppend(t, rows, ids - left, id);
      assert ids - left + {id} == ids - (left - {id});
      InOrderAppend(t, rows, left, id);
      rows := rows + [Fetched(id, t[id])];
      left := left - {id};
    }
    assert ids - left == ids;
  }

  method FirstOf(t: ProbeTable, ids: set<nat>) returns (first: nat)
    requires ids != {} && ids <= t.Keys
    ensures first in ids && forall id | id in ids :: !RowBefore(t[id], t[first])
  {
    first := Pick(ids);
    NotBeforeItself(t[first]);
    var left := ids - {first};
    while left != {}
      invariant left <= ids && first in ids
      invariant forall id | id in ids && id !in left :: !RowBefore(t[id], t[first])
      decreases |left|
    {
      var id := Pick(left);
      left := left - {id};
      if RowBefore(t[id], t[first]) {
        BeforeAllOf(t, ids - left - {id}, id, first);
        first := id;
      }
    }
  }

  lemma NotBeforeItself(r: ProbeReading)
    ensures !RowBefore(r, r)
  {
    BelowIsStrict(r.address);
  }

  lemma BeforeAllOf(t: ProbeTable, ids: set<nat>, id: nat, first: nat)
    requires ids <= t.Keys && id in t && first in t && RowBefore(t[id], t[first])
    requires forall x | x in ids :: !RowBefore(t[x], t[first])
    ensures forall x | x in ids + {id} :: !RowBefore(t[x], t[id])
  {
    NotBeforeItself(t[id]);
    forall x | x in ids ensures !RowBefore(t[x], t[id]) {
      if RowBefore(t[x], t[id]) {
        RowBeforeTrans(t[x], t[id], t[first]);
      }
    }
  }

  ghost predicate AllBefore(t: ProbeTable, rows: seq<Fetched>, left: set<nat>)
    requires left <= t.Keys
  {
    forall i, id | 0 <= i < |rows| && id in left :: !RowBefore(t[id], rows[i].row)
  }

  lemma InOrderAppend(t: ProbeTable, rows: seq<Fetched>, left: set<nat>, id: nat)
    requires left <= t.Keys && InOrder(rows) && AllBefore(t, rows, left)
    requires id in left && forall x | x in left :: !RowBefore(t[x], t[id])
    ensures InOrder(rows + [Fetched(id, t[id])]) && AllBefore(t, rows + [Fetched(id, t[id])], left - {id})
  {
    assert (rows + [Fetched(id, t[id])])[..|rows|] == rows;
  }

  /** Where the collapse loop stands: `made` and `c` describe what was done to `t` so far. */
  ghost predicate Midway(p: Pass, t: ProbeTable, now: ProbeTable, nextId: nat, made: map<Group, nat>, c: Collapsed)
    requires p.width > 0
  {
    Numbered(t, now, nextId) && Partway(p, t, now, made) && KeepsTrack(p, t, now, made, c)
  }

  ghost predicate Numbered(t: ProbeTable, now: ProbeTable, nextId: nat) {
    (forall id | id in t :: id < nextId) && (forall id | id in now :: id < nextId)
  }

  /** Rows added to `t` carry ids that were not given out before. */
  ghost predicate NumbersFrom(t: ProbeTable, now: ProbeTable, first: nat, nextId: nat) {
    first <= nextId && forall id | id in now && id !in t :: first <= id
  }

  lemma ReplacedNumbersFrom(t: ProbeTable, gone: set<nat>, row: ProbeReading, nextId: nat)
    ensures NumbersFrom(t, (t - gone)[nextId := row], nextId, nextId + 1)
  {
  }

  lemma NumberedStep(t: ProbeTable, now: ProbeTable, nextId: nat, gone: set<nat>, row: ProbeReading)
    requires Numbered(t, now, nextId)
    ensures Numbered(t, (now - gone)[nextId := row], nextId + 1) && nextId !in t && nextId !in now
  {
  }

  /** The dictionary is in order and holds what was collapsed. */
  ghost predicate KeepsTrack(p: Pass, t: ProbeTable, now: ProbeTable, made: map<Group, nat>, c: Collapsed)
    requires p.width > 0
  {
    Ordered(c) && Tracks(p, t, now, made, c)
  }

  lemma KeepsTrackStep(p: Pass, t: ProbeTable, now: ProbeTable, made: map<Group, nat>, c: Collapsed, g: Group, row: ProbeReading, newId: nat)
    requires p.width > 0 && NewIds(p, t, now, made) && KeepsTrack(p, t, now, made, c)
    requires g !in made && CollapsedFrom(t, Members(p, t, g), row) && newId !in t && newId !in now
    ensures KeepsTrack(p, t, (now - Members(p, t, g))[newId := row], made[g := newId],
                       Note(c, EntryKey(g.address, row.seqNo), SeqsOf(t, Members(p, t, g))))
  {
    TracksStep(p, t, now, made, c, g, row, newId);
    NoteOrdered(c, EntryKey(g.address, row.seqNo), SeqsOf(t, Members(p, t, g)));
  }

  lemma MidwayStep(p: Pass, t: ProbeTable, now: ProbeTable, nextId: nat, made: map<Group, nat>, c: Collapsed, g: Group, row: ProbeReading)
    requires p.width > 0 && Midway(p, t, now, nextId, made, c)
    requires g !in made && Crowded(p, t, g) && CollapsedFrom(t, Members(p, t, g), row)
    ensures Midway(p, t, (now - Members(p, t, g))[nextId := row], nextId + 1, made[g := nextId],
                   Note(c, EntryKey(g.address, row.seqNo), SeqsOf(t, Members(p, t, g))))
  {
    NumberedStep(t, now, nextId, Members(p, t, g), row);
    PartwayStep(p, t, now, made, g, row, nextId);
    KeepsTrackStep(p, t, now, made, c, g, row, nextId);
  }

  lemma AllInsertsFree(p: Pass, t: ProbeTable, now: ProbeTable, made: map<Group, nat>, g: Group, row: ProbeReading)
    requires p.width > 0 && Unique(t) && Partway(p, t, now, made)
    requires g !in made && CollapsedFrom(t, Members(p, t, g), row)
    ensures forall id | id in now - Members(p, t, g) :: KeyOf(now[id]) != KeyOf(row)
  {
    forall id | id in now - Members(p, t, g) ensures KeyOf(now[id]) != KeyOf(row) {
      InsertIsFree(p, t, now, made, g, row, id);
    }
  }

  // ---------------------------------------------------------------- the database

  /** The connection: both tables, the open transaction if any, and the statements that are going to fail. */
  class Database {
    var probes: ProbeTable
    var nextId: nat
    var devices: DeviceTable
    var saved: Option<Snapshot>
    var executed: nat
    const faults: set<nat>

    constructor (faults: set<nat>)
      ensures Valid() && saved.None? && probes == map[] && devices == map[] && this.faults == faults
    {
      probes, nextId, devices, saved, executed := map[], 0, map[], None, 0;
      this.faults := faults;
    }

    ghost predicate Valid()
      reads this
    {
      Unique(probes) && forall id | id in probes :: id < nextId
    }

    /** No statement executed since number `from` was one of those that fail. */
    ghost predicate Calm(from: nat)
      reads this`executed
    {
      forall n | from <= n < executed :: n !in faults
    }

    method Execute() returns (ok: bool)
      modifies this`executed
      ensures executed == old(executed) + 1 && ok == (old(executed) !in faults)
    {
      ok := executed !in faults;
      executed := executed + 1;
    }

    method Begin() returns (ok: bool)
      requires saved.None?
      modifies this`executed, this`saved
      ensures executed == old(executed) + 1 && ok == (old(executed) !in faults)
      ensures saved == if ok then Some(Snapshot(probes, nextId, devices)) else None
    {
      ok := Execute();
      if ok {
        saved := Some(Snapshot(probes, nextId, devices));
      }
    }

    method Commit() returns (ok: bool)
      modifies this`executed, this`saved
      ensures executed == old(executed) + 1 && ok == (old(executed) !in faults)
      ensures saved == if ok then None else old(saved)
    {
      ok := Execute();
      if ok {
        saved := None;
      }
    }

    method Rollback()
      modifies this
      ensures saved.None? && executed == old(executed)
      ensures old(saved).Some? ==> Snapshot(probes, nextId, devices) == old(saved).value
      ensures old(saved).None? ==> probes == old(probes) && nextId == old(nextId) && devices == old(devices)
    {
      if saved.Some? {
        probes, nextId, devices := saved.value.probes, saved.value.nextId, saved.value.devices;
      }
      saved := None;
    }

    /** The rows of a pass, by address, probe and time. */
    method SelectProbes(p: Pass) returns (ok: bool, rows: seq<Fetched>)
      modifies this`executed
      ensures executed == old(executed) + 1 && ok == (old(executed) !in faults)
      ensures ok ==> Lists(probes, rows, set id | id in probes && InRange(p, probes[id])) && InOrder(rows)
    {
      rows := [];
      ok := Execute();
      if ok {
        rows := SortRows(probes, set id | id in probes && InRange(p, probes[id]));
      }
    }

    method DeleteProbes(ids: set<nat>) returns (ok: bool)
      modifies this`executed, this`probes
      ensures executed == old(executed) + 1 && ok == (old(executed) !in faults)
      ensures probes == if ok then old(probes) - ids else old(probes)
    {
      ok := Execute();
      if ok {
        probes := probes - ids;
      }
    }

    /** Fails on a fault, and when the row's key is already taken. */
    method InsertProbe(row: ProbeReading) returns (ok: bool)
      modifies this`executed, this`probes, this`nextId
      ensures executed == old(executed) + 1
      ensures ok == (old(executed) !in faults && forall id | id in old(probes) :: KeyOf(old(probes)[id]) != KeyOf(row))
      ensures ok ==> probes == old(probes)[old(nextId) := row] && nextId == old(nextId) + 1
      ensures !ok ==> probes == old(probes) && nextId == old(nextId)
    {
      ok := Execute();
      if ok && exists id | id in probes :: KeyOf(probes[id]) == KeyOf(row) {
        ok := false;
      }
      if ok {
        probes, nextId := probes[nextId := row], nextId + 1;
      }
    }

    /** The device rows of an entry, in ascending sequence order. */
    method SelectDevices(session: string, e: Entry) returns (ok: bool, rows: seq<FetchedDevice>)
      modifies this`executed
      ensures executed == old(executed) + 1 && ok == (old(executed) !in faults)
      ensures ok ==> ListsDevices(session, e, devices, rows)
    {
      rows := [];
      ok := Execute();
      if !ok {
        return;
      }
      var todo := set q | q in e.seqs && DeviceKey(session, e.address, q) in devices;
      while todo != {}
        invariant executed == old(executed) + 1
        invariant ListsBefore(session, e, devices, rows, todo)
        decreases |todo|
      {
        var q := LeastOf(todo);
        ListsBeforeStep(session, e, devices, rows, todo, q);
        rows := rows + [FetchedDevice(q, devices[DeviceKey(session, e.address, q)])];
        todo := todo - {q};
      }
    }

    method DeleteDevices(session: string, e: Entry) returns (ok: bool)
      modifies this`executed, this`devices
      ensures executed == old(executed) + 1 && ok == (old(executed) !in faults)
      ensures devices == if ok then Cleared(session, e, old(devices)) else old(devices)
    {
      ok := Execute();
      if ok {
        devices := Cleared(session, e, devices);
      }
    }

    /** Fails on a fault, and when the primary key is already taken. */
    method InsertDevice(key: DeviceKey, row: DeviceReading) returns (ok: bool)
      modifies this`executed, this`devices
      ensures executed == old(executed) + 1
      ensures ok == (old(executed) !in faults && key !in old(devices))
      ensures devices == if ok then old(devices)[key := row] else old(devices)
    {
      ok := Execute();
      ok := ok && key !in devices;
      if ok {
        devices := devices[key := row];
      }
    }

    // -------------------------------------------------------------- the pass

    /** Deletes rows `ids` and inserts `row`. */
    method Replace(ids: set<nat>, row: ProbeReading) returns (ok: bool)
      requires forall id | id in probes - ids :: KeyOf(probes[id]) != KeyOf(row)
      modifies this`executed, this`probes, this`nextId
      ensures executed > old(executed) && (ok <==> Calm(old(executed)))
      ensures ok ==> probes == (old(probes) - ids)[old(nextId) := row] && nextId == old(nextId) + 1
      ensures ok ==> NumbersFrom(old(probes), probes, old(nextId), nextId)
    {
      ReplacedNumbersFrom(probes, ids, row, nextId);
      ok := DeleteProbes(ids);
      if ok {
        ok := InsertProbe(row);
      }
    }

    /** Replaces one bucket's rows by their average. */
    method CollapseOne(p: Pass, g: Group, readings: seq<Fetched>, c: Collapsed, ghost t: ProbeTable, ghost made: map<Group, nat>)
      returns (ok: bool, c': Collapsed, ghost made': map<Group, nat>)
      requires p.width > 0 && Unique(t) && Midway(p, t, probes, nextId, made, c)
      requires g !in made && Crowded(p, t, g) && Lists(t, readings, Members(p, t, g)) && |readings| > 1
      modifies this`executed, this`probes, this`nextId
      ensures executed > old(executed) && (ok <==> Calm(old(executed)))
      ensures ok ==> Midway(p, t, probes, nextId, made', c') && made' == made[g := old(nextId)]
      ensures ok ==> NumbersFrom(old(probes), probes, old(nextId), nextId)
      ensures ok ==> c' == Note(c, EntryKey(g.address, Least(p, t, g)), Numbers(p, t, g))
    {
      var ids, row, seqs := Average(p, g, readings, t);
      LeastIs(p, t, g, row.seqNo);
      AllInsertsFree(p, t, probes, made, g, row);
      MidwayStep(p, t, probes, nextId, made, c, g, row);
      c', made' := Note(c, EntryKey(g.address, row.seqNo), seqs), made[g := nextId];
      ok := Replace(ids, row);
    }

    /** The turn of a crowded bucket. */
    method TakeTurn(p: Pass, order: seq<Group>, i: nat, readings: seq<Fetched>, c: Collapsed, ghost t: ProbeTable, ghost made: map<Group, nat>)
      returns (ok: bool, c': Collapsed, ghost made': map<Group, nat>)
      requires p.width > 0 && Unique(t) && i < |order| && Unrepeated(order)
      requires Midway(p, t, probes, nextId, made, c) && Reached(p, t, order, i, made) && c == Noted(p, t, order, i)
      requires order[i] !in made && Crowded(p, t, order[i]) && Lists(t, readings, Members(p, t, order[i])) && |readings| > 1
      modifies this`executed, this`probes, this`nextId
      ensures executed >= old(executed) && (ok <==> Calm(old(executed)))
      ensures ok ==> Turns(p, t, probes, nextId, order, i + 1, made', c')
      ensures ok ==> NumbersFrom(old(probes), probes, old(nextId), nextId)
    {
      ghost var id := nextId;
      ok, c', made' := CollapseOne(p, order[i], readings, c, t, made);
      if ok {
        TurnTaken(p, t, probes, nextId, order, i, made, made', id, c, c');
      }
    }

    /** One turn of the collapse loop. */
    method CollapseNext(p: Pass, order: seq<Group>, i: nat, readings: seq<Fetched>, c: Collapsed, ghost t: ProbeTable, ghost made: map<Group, nat>)
      returns (ok: bool, c': Collapsed, ghost made': map<Group, nat>)
      requires p.width > 0 && Unique(t) && i < |order| && Unrepeated(order)
      requires Lists(t, readings, Members(p, t, order[i])) && (|readings| > 1 <==> Crowded(p, t, order[i]))
      requires Turns(p, t, probes, nextId, order, i, made, c)
      modifies this`executed, this`probes, this`nextId
      ensures executed >= old(executed) && (ok <==> Calm(old(executed)))
      ensures ok ==> Turns(p, t, probes, nextId, order, i + 1, made', c')
      ensures ok ==> NumbersFrom(old(probes), probes, old(nextId), nextId)
    {
      if |readings| > 1 {
        ok, c', made' := TakeTurn(p, order, i, readings, c, t, made);
      } else {
        TurnSkipped(p, t, probes, nextId, order, i, made, c);
        ok, c', made' := true, c, made;
      }
    }

    /** Collapses every bucket of two or more rows; stops at the first failing statement. */
    method CollapseBuckets(p: Pass, b: Buckets) returns (ok: bool, c: Collapsed, ghost made: map<Group, nat>)
      requires Valid() && p.width > 0
      requires Sorts(p, probes, b, set id | id in probes && InRange(p, probes[id]))
      modifies this`executed, this`probes, this`nextId
      ensures executed >= old(executed) && (ok <==> Calm(old(executed)))
      ensures ok ==> Valid() && Downsampled(p, old(probes), probes, made)
      ensures ok ==> NumbersFrom(old(probes), probes, old(nextId), nextId)
      ensures ok ==> KeepsTrack(p, old(probes), probes, made, c) && c == Noted(p, old(probes), b.order, |b.order|)
    {
      ghost var t := probes;
      made, c := map[], Collapsed([], map[]);
      TurnsStart(p, t, nextId, b.order);
      for i := 0 to |b.order|
        invariant executed >= old(executed) && Calm(old(executed))
        invariant Turns(p, t, probes, nextId, b.order, i, made, c)
        invariant NumbersFrom(t, probes, old(nextId), nextId)
      {
        MembersListed(p, t, b, b.order[i]);
        ok, c, made := CollapseNext(p, b.order, i, b.rows[b.order[i]], c, t, made);
        if !ok {
          return;
        }
      }
      ok := true;
      TurnsEnd(p, t, probes, nextId, b, made, c);
    }

    /** Fetches an entry's device rows and averages them, if there are any. */
    method PlanEntry(session: string, e: Entry) returns (ok: bool, row: Option<DeviceReading>)
      modifies this`executed
      ensures executed > old(executed) && (ok <==> Calm(old(executed)))
      ensures ok ==> Planned(session, e, devices, row)
    {
      row := None;
      var rows;
      ok, rows := SelectDevices(session, e);
      if ok {
        row := PlanRow(session, e, rows, devices);
      }
    }

    /** One turn of the device rewriting loop. */
    method RewriteOne(session: string, e: Entry) returns (ok: bool)
      requires e.kept in e.seqs
      modifies this`executed, this`devices
      ensures executed >= old(executed) && (ok <==> Calm(old(executed)))
      ensures ok ==> Rewritten(session, e, old(devices), devices)
    {
      var row;
      ok, row := PlanEntry(session, e);
      if ok && row.Some? {
        ok := ReplaceDevices(session, e, row.value);
      }
    }

    method ReplaceDevices(session: string, e: Entry, row: DeviceReading) returns (ok: bool)
      requires e.kept in e.seqs
      modifies this`executed, this`devices
      ensures executed >= old(executed) && (ok <==> Calm(old(executed)))
      ensures ok ==> devices == Cleared(session, e, old(devices))[DeviceKey(session, e.address, e.kept) := row]
    {
      ok := DeleteDevices(session, e);
      if ok {
        ok := InsertDevice(DeviceKey(session, e.address, e.kept), row);
      }
    }

    method RewriteDevices(session: string, entries: seq<Entry>) returns (ok: bool, ghost tables: seq<DeviceTable>)
      requires forall i | 0 <= i < |entries| :: entries[i].kept in entries[i].seqs
      modifies this`executed, this`devices
      ensures executed >= old(executed) && (ok <==> Calm(old(executed)))
      ensures ok ==> RewriteRun(session, entries, tables) && tables[0] == old(devices) && tables[|entries|] == devices
    {
      tables := [devices];
      for i := 0 to |entries|
        invariant executed >= old(executed) && Calm(old(executed))
        invariant RewriteRun(session, entries[..i], tables) && tables[0] == old(devices) && tables[i] == devices
      {
        ok := RewriteOne(session, entries[i]);
        if !ok {
          return;
        }
        tables := tables + [devices];
      }
      ok := true;
      assert entries[..|entries|] == entries;
    }

    /** Collapses the probe rows and lists the device rows to rewrite. */
    method CollapseProbes(p: Pass, b: Buckets) returns (ok: bool, entries: seq<Entry>, ghost made: map<Group, nat>)
      requires Valid() && p.width > 0
      requires Sorts(p, probes, b, set id | id in probes && InRange(p, probes[id])) && SortedGroups(p, probes, b.order)
      modifies this`executed, this`probes, this`nextId
      ensures executed >= old(executed) && (ok <==> Calm(old(executed)))
      ensures ok ==> Valid() && Downsampled(p, old(probes), probes, made)
      ensures ok ==> NumbersFrom(old(probes), probes, old(nextId), nextId)
      ensures ok ==> EntriesMatch(p, old(probes), probes, made, entries) && EntriesFollow(p, old(probes), b.order, entries)
    {
      entries := [];
      var c;
      ok, c, made := CollapseBuckets(p, b);
      if ok {
        TrackedEntriesMatch(p, old(probes), probes, made, c);
        NotedFollow(p, old(probes), b.order, c);
        entries := EntriesOf(c);
      }
    }

    /** What runs between BEGIN and COMMIT. */
    method Collapse(p: Pass, b: Buckets) returns (ok: bool, ghost rec: Record)
      requires Valid() && p.width > 0
      requires Sorts(p, probes, b, set id | id in probes && InRange(p, probes[id])) && SortedGroups(p, probes, b.order)
      modifies this`executed, this`probes, this`nextId, this`devices
      ensures executed >= old(executed) && (ok <==> Calm(old(executed)))
      ensures ok ==> Valid() && PassDone(p, old(probes), old(devices), probes, devices, rec)
      ensures ok ==> NumbersFrom(old(probes), probes, old(nextId), nextId)
    {
      rec := Record(map[], [], [], []);
      ghost var made, tables;
      var entries;
      ok, entries, made := CollapseProbes(p, b);
      if ok {
        ok, tables := RewriteDevices(p.session, entries);
        rec := Record(made, b.order, entries, tables);
      }
    }

    /** The transaction of a pass: committed as a whole, or rolled back at the first failing statement. */
    method Transact(p: Pass, b: Buckets) returns (ok: bool, ghost rec: Record)
      requires Valid() && saved.None? && p.width > 0
      requires Sorts(p, probes, b, set id | id in probes && InRange(p, probes[id])) && SortedGroups(p, probes, b.order)
      modifies this
      ensures Valid() && saved.None?
      ensures executed >= old(executed) && (ok <==> Calm(old(executed)))
      ensures ok ==> PassDone(p, old(probes), old(devices), probes, devices, rec)
      ensures ok ==> NumbersFrom(old(probes), probes, old(nextId), nextId)
      ensures !ok ==> probes == old(probes) && nextId == old(nextId) && devices == old(devices)
    {
      rec := Record(map[], [], [], []);
      ok := Begin();
      if ok {
        ok, rec := Collapse(p, b);
      }
      if ok {
        ok := Commit();
      }
      if !ok {
        Rollback();
      }
    }

    method PassOver(p: Pass, rows: seq<Fetched>) returns (ok: bool, ghost rec: Record)
      requires Valid() && saved.None? && p.width > 0
      requires Lists(probes, rows, set id | id in probes && InRange(p, probes[id])) && InOrder(rows)
      modifies this
      ensures Valid() && saved.None?
      ensures executed >= old(executed) && (ok <==> Calm(old(executed)))
      ensures ok ==> PassDone(p, old(probes), old(devices), probes, devices, rec)
      ensures ok ==> NumbersFrom(old(probes), probes, old(nextId), nextId)
      ensures !ok ==> probes == old(probes) && nextId == old(nextId) && devices == old(devices)
    {
      var b := FillBuckets(p, rows, probes);
      ok, rec := Transact(p, b);
    }

    /**
     One pass. It fails exactly when some statement it executed is one that fails of itself:
     no statement of a pass ever violates UNIQUE or the device primary key. On failure both
     tables, and the id counter, are what they were.
     */
    method DownsampleRange(p: Pass) returns (ok: bool, ghost rec: Record)
      requires Valid() && saved.None? && p.width > 0
      modifies this
      ensures Valid() && saved.None?
      ensures executed >= old(executed) && (ok <==> Calm(old(executed)))
      ensures ok ==> PassDone(p, old(probes), old(devices), probes, devices, rec)
      ensures ok ==> NumbersFrom(old(probes), probes, old(nextId), nextId)
      ensures !ok ==> probes == old(probes) && nextId == old(nextId) && devices == old(devices)
    {
      rec := Record(map[], [], [], [devices]);
      var rows;
      ok, rows := SelectProbes(p);
      if !ok {
        return;
      }
      if rows == [] {
        NothingInRange(p, probes, devices, rows);
        return;
      }
      ok, rec := PassOver(p, rows);
    }

    /** Both tiers, oldest first; a failure in the first keeps the second from running. */
    method DownsampleSession(session: string, now: int) returns (ok: bool, ghost first: Record, ghost second: Record, ghost midway: (ProbeTable, DeviceTable))
      requires Valid() && saved.None?
      modifies this
      ensures Valid() && saved.None?
      ensures executed >= old(executed) && (ok <==> Calm(old(executed)))
      ensures ok ==> PassDone(WeekOld(session, now), old(probes), old(devices), midway.0, midway.1, first)
      ensures ok ==> PassDone(DayOld(session, now), midway.0, midway.1, probes, devices, second)
      ensures ok ==> forall id | id in probes && id !in midway.0 :: id !in old(probes)
      ensures !ok ==>
        || (probes == old(probes) && devices == old(devices))
        || PassDone(WeekOld(session, now), old(probes), old(devices), probes, devices, first)
    {
      second := Record(map[], [], [], []);
      ok, first := DownsampleRange(WeekOld(session, now));
      midway := (probes, devices);
      if ok {
        ok, second := DownsampleRange(DayOld(session, now));
      }
    }
  }

  const SECOND: int := 1_000_000
  const DAY: int := 86_400 * SECOND

  /** Readings over 7 days old, in 5-minute buckets. */
  function WeekOld(session: string, now: int): Pass {
    Pass(session, now - 7 * DAY, None, 300 * SECOND)
  }

  /** Readings from 1 to 7 days old, in 1-minute buckets. */
  function DayOld(session: string, now: int): Pass {
    Pass(session, now - DAY, Some(now - 7 * DAY), 60 * SECOND)
  }

  lemma NothingInRange(p: Pass, t: ProbeTable, d: DeviceTable, rows: seq<Fetched>)
    requires p.width > 0 && Lists(t, rows, set id | id in t && InRange(p, t[id])) && rows == []
    ensures PassDone(p, t, d, t, d, Record(map[], [], [], [d]))
  {
    var ids := set id | id in t && InRange(p, t[id]);
    assert ids == {};
    forall g ensures Members(p, t, g) == {} {
      assert Members(p, t, g) <= ids;
    }
    assert SortedGroups(p, t, []) && EntriesOf(Noted(p, t, [], 0)) == [];
    forall g ensures !Crowded(p, t, g) {
      assert Members(p, t, g) <= ids;
    }
  }

  lemma NoSources(session: string, e: Entry, d: DeviceTable, rows: seq<FetchedDevice>)
    requires ListsDevices(session, e, d, rows) && rows == []
    ensures Rewritten(session, e, d, d)
  {
    assert Sources(session, e, d) == {};
  }

  /** Carrying out the plan rewrites the entry; without a row there is nothing to do. */
  ghost predicate Planned(session: string, e: Entry, d: DeviceTable, row: Option<DeviceReading>) {
    Rewritten(session, e, d,
      if row.Some? then Cleared(session, e, d)[DeviceKey(session, e.address, e.kept) := row.value] else d)
  }

  /** The row to insert for an entry whose device rows are `rows`, if there are any. */
  method PlanRow(session: string, e: Entry, rows: seq<FetchedDevice>, ghost d: DeviceTable) returns (row: Option<DeviceReading>)
    requires ListsDevices(session, e, d, rows)
    ensures Planned(session, e, d, row)
  {
    if rows == [] {
      NoSources(session, e, d, rows);
      return None;
    }
    var r := MergeDevices(session, e, rows, d);
    RewrittenBy(session, e, d, rows[0].seqNo, r);
    return Some(r);
  }

  lemma RewrittenBy(session: string, e: Entry, d: DeviceTable, q: int, row: DeviceReading)
    requires q in Sources(session, e, d) && MergedFrom(session, e, d, row)
    ensures Rewritten(session, e, d, Cleared(session, e, d)[DeviceKey(session, e.address, e.kept) := row])
  {
  }

  lemma MidwayStart(p: Pass, t: ProbeTable, nextId: nat)
    requires p.width > 0 && forall id | id in t :: id < nextId
    ensures Midway(p, t, t, nextId, map[], Collapsed([], map[]))
  {
  }

  /** The collapse loop has dealt with the first `i` groups. */
  ghost predicate Reached(p: Pass, t: ProbeTable, order: seq<Group>, i: nat, made: map<Group, nat>)
    requires p.width > 0 && i <= |order|
  {
    && (forall k | i <= k < |order| :: order[k] !in made)
    && (forall k | 0 <= k < i && Crowded(p, t, order[k]) :: order[k] in made)
  }

  /** Where the collapse loop stands after `i` turns. */
  ghost predicate Turns(p: Pass, t: ProbeTable, now: ProbeTable, nextId: nat, order: seq<Group>, i: nat, made: map<Group, nat>, c: Collapsed)
    requires p.width > 0 && i <= |order|
  {
    Midway(p, t, now, nextId, made, c) && Reached(p, t, order, i, made) && c == Noted(p, t, order, i)
  }

  lemma TurnSkipped(p: Pass, t: ProbeTable, now: ProbeTable, nextId: nat, order: seq<Group>, i: nat, made: map<Group, nat>, c: Collapsed)
    requires p.width > 0 && i < |order| && Turns(p, t, now, nextId, order, i, made, c) && !Crowded(p, t, order[i])
    requires Unrepeated(order)
    ensures Turns(p, t, now, nextId, order, i + 1, made, c)
  {
    ReachedStep(p, t, order, i, made, made);
  }

  lemma TurnTaken(p: Pass, t: ProbeTable, now: ProbeTable, nextId: nat, order: seq<Group>, i: nat,
                  made: map<Group, nat>, made': map<Group, nat>, id: nat, c: Collapsed, c': Collapsed)
    requires p.width > 0 && i < |order| && Reached(p, t, order, i, made) && c == Noted(p, t, order, i)
    requires Unrepeated(order)
    requires Crowded(p, t, order[i]) && Midway(p, t, now, nextId, made', c') && made' == made[order[i] := id]
    requires c' == Note(c, EntryKey(order[i].address, Least(p, t, order[i])), Numbers(p, t, order[i]))
    ensures Turns(p, t, now, nextId, order, i + 1, made', c')
  {
    ReachedAfter(p, t, order, i, made, id);
    NotedNext(p, t, order, i);
  }

  lemma ReachedAfter(p: Pass, t: ProbeTable, order: seq<Group>, i: nat, made: map<Group, nat>, id: nat)
    requires p.width > 0 && i < |order| && Reached(p, t, order, i, made) && Unrepeated(order)
    ensures Reached(p, t, order, i + 1, made[order[i] := id])
  {
  }

  lemma NotedNext(p: Pass, t: ProbeTable, order: seq<Group>, i: nat)
    requires p.width > 0 && i < |order| && Crowded(p, t, order[i])
    ensures Noted(p, t, order, i + 1) ==
      Note(Noted(p, t, order, i), EntryKey(order[i].address, Least(p, t, order[i])), Numbers(p, t, order[i]))
  {
  }

  lemma TurnsStart(p: Pass, t: ProbeTable, nextId: nat, order: seq<Group>)
    requires p.width > 0 && forall id | id in t :: id < nextId
    ensures Turns(p, t, t, nextId, order, 0, map[], Collapsed([], map[]))
  {
    MidwayStart(p, t, nextId);
  }

  lemma TurnsEnd(p: Pass, t: ProbeTable, now: ProbeTable, nextId: nat, b: Buckets, made: map<Group, nat>, c: Collapsed)
    requires p.width > 0 && Unique(t) && Turns(p, t, now, nextId, b.order, |b.order|, made, c)
    requires Sorts(p, t, b, set id | id in t && InRange(p, t[id]))
    ensures Unique(now) && Numbered(t, now, nextId) && Downsampled(p, t, now, made)
    ensures KeepsTrack(p, t, now, made, c) && c == Noted(p, t, b.order, |b.order|)
  {
    AllCrowdedDone(p, t, b, made);
    PartwayUnique(p, t, now, made);
  }

  ghost predicate Unrepeated(order: seq<Group>) {
    forall j, k | 0 <= j < k < |order| :: order[j] != order[k]
  }

  lemma ReachedStep(p: Pass, t: ProbeTable, order: seq<Group>, i: nat, made: map<Group, nat>, made': map<Group, nat>)
    requires p.width > 0 && i < |order| && Reached(p, t, order, i, made)
    requires Unrepeated(order)
    requires made'.Keys == if Crowded(p, t, order[i]) then made.Keys + {order[i]} else made.Keys
    ensures Reached(p, t, order, i + 1, made')
  {
  }

  lemma MembersListed(p: Pass, t: ProbeTable, b: Buckets, g: Group)
    requires p.width > 0 && Sorts(p, t, b, set id | id in t && InRange(p, t[id])) && g in b.order
    ensures g in b.rows && Lists(t, b.rows[g], Members(p, t, g))
    ensures |b.rows[g]| > 1 <==> Crowded(p, t, g)
  {
    assert (set id | id in t && InRange(p, t[id])) * Members(p, t, g) == Members(p, t, g);
    ListsSize(t, b.rows[g], Members(p, t, g));
  }

  /** The ids to delete, the row to insert and the sequence numbers to note for a bucket. */
  method Average(p: Pass, g: Group, readings: seq<Fetched>, ghost t: ProbeTable)
    returns (ids: set<nat>, row: ProbeReading, seqs: set<int>)
    requires p.width > 0 && Lists(t, readings, Members(p, t, g)) && |readings| > 1
    ensures ids == Members(p, t, g) && CollapsedFrom(t, ids, row) && seqs == SeqsOf(t, ids)
  {
    ghost var ms := Members(p, t, g);
    row := Summarise(readings, t, ms);
    ids := set k | 0 <= k < |readings| :: readings[k].id;
    ListsAll(t, readings, ms);
    assert ids == ms;
    seqs := set k | 0 <= k < |readings| :: readings[k].row.seqNo;
    SeqsListed(t, readings, ms);
  }

  lemma SeqsListed(t: ProbeTable, rows: seq<Fetched>, ids: set<nat>)
    requires Lists(t, rows, ids) && ids <= t.Keys
    ensures (set k | 0 <= k < |rows| :: rows[k].row.seqNo) == SeqsOf(t, ids)
  {
    forall q | q in SeqsOf(t, ids) ensures q in set k | 0 <= k < |rows| :: rows[k].row.seqNo {
      var id :| id in ids && t[id].seqNo == q;
      var k :| 0 <= k < |rows| && rows[k].id == id;
    }
  }

  lemma AllCrowdedDone(p: Pass, t: ProbeTable, b: Buckets, made: map<Group, nat>)
    requires p.width > 0 && Sorts(p, t, b, set id | id in t && InRange(p, t[id]))
    requires Reached(p, t, b.order, |b.order|, made)
    ensures forall g | Crowded(p, t, g) :: g in made
  {
    forall g | Crowded(p, t, g) ensures g in made {
      var id := CrowdedHasMember(p, t, g);
      assert g in b.order;
    }
  }
}
