/**
 Exactly which probe rows still join a device row after a pass, told from the two tables as
 they are before it: the table of readings determines the entries and their order, and the
 entries determine which numbers keep a device row.
 */
module DownsampleExact {
  import opened Options
  import opened TextOrder
  import opened ReadingTables
  import opened DownsampleTheorems

  // ---------------------------------------------------------------- the condition

  /** Number `q` of `address` has a device row once the first `n` entries are rewritten. */
  predicate HasDevice(session: string, d: DeviceTable, es: seq<Entry>, n: nat, address: string, q: int)
    requires n <= |es|
    decreases n
  {
    if n == 0 then DeviceKey(session, address, q) in d
    else
      var e := es[n - 1];
      if e.address == address && q in e.seqs
        then q == e.kept && exists s | s in e.seqs :: HasDevice(session, d, es, n - 1, address, s)
        else HasDevice(session, d, es, n - 1, address, q)
  }

  /** The same of a whole pass, whose groups come in the order `order`. */
  ghost predicate WillJoin(p: Pass, t: ProbeTable, d: DeviceTable, order: seq<Group>, address: string, q: int)
    requires p.width > 0
  {
    var es := EntriesOf(Noted(p, t, order, |order|));
    HasDevice(p.session, d, es, |es|, address, q)
  }

  predicate Lists(e: Entry, address: string, q: int) {
    e.address == address && q in e.seqs
  }

  /** The last entry that lists a number decides: it must keep it, and have found some device row at its turn. */
  lemma {:induction false} LastEntryDecides(session: string, d: DeviceTable, es: seq<Entry>, n: nat, address: string, q: int, i: nat)
    requires i < n <= |es| && Lists(es[i], address, q)
    requires forall j | i < j < n :: !Lists(es[j], address, q)
    ensures HasDevice(session, d, es, n, address, q) <==>
      q == es[i].kept && exists s | s in es[i].seqs :: HasDevice(session, d, es, i, address, s)
    decreases n
  {
    if i < n - 1 {
      assert !Lists(es[n - 1], address, q);
      LastEntryDecides(session, d, es, n - 1, address, q, i);
    }
  }

  lemma {:induction false} UnlistedIsAsBefore(session: string, d: DeviceTable, es: seq<Entry>, n: nat, address: string, q: int)
    requires n <= |es| && forall j | 0 <= j < n :: !Lists(es[j], address, q)
    ensures HasDevice(session, d, es, n, address, q) <==> DeviceKey(session, address, q) in d
    decreases n
  {
    if n > 0 {
      assert !Lists(es[n - 1], address, q);
      UnlistedIsAsBefore(session, d, es, n - 1, address, q);
    }
  }

  // ---------------------------------------------------------------- the order is the table's

  lemma {:induction false} RisingPairs(order: seq<Group>, i: nat)
    requires Rising(order) && i < |order| - 1
    ensures GroupBefore(order[i], order[|order| - 1])
    decreases |order|
  {
    var front := order[..|order| - 1];
    if i < |front| - 1 {
      RisingPairs(front, i);
      GroupBeforeTrans(order[i], order[|order| - 2], order[|order| - 1]);
    }
  }

  lemma RisingLast(order: seq<Group>, g: Group)
    requires Rising(order) && order != [] && g in order && g != order[|order| - 1]
    ensures GroupBefore(g, order[|order| - 1])
  {
    var i :| 0 <= i < |order| && order[i] == g;
    RisingPairs(order, i);
  }

  lemma RisingFront(order: seq<Group>, g: Group)
    requires Rising(order) && order != []
    ensures g in order[..|order| - 1] <==> g in order && g != order[|order| - 1]
  {
    var front, last := order[..|order| - 1], order[|order| - 1];
    assert order == front + [last];
    if g in front {
      var i :| 0 <= i < |front| && front[i] == g;
      RisingPairs(order, i);
      GroupBeforeStrict(g, last);
    }
  }

  lemma {:induction false} RisingIsUnique(a: seq<Group>, b: seq<Group>)
    requires Rising(a) && Rising(b) && forall g :: g in a <==> g in b
    ensures a == b
    decreases |a|
  {
    if a == [] || b == [] {
      BothEmpty(a, b);
    } else {
      SameLast(a, b);
      var front, front' := a[..|a| - 1], b[..|b| - 1];
      forall g ensures g in front <==> g in front' {
        RisingFront(a, g);
        RisingFront(b, g);
      }
      RisingIsUnique(front, front');
      assert a == front + [a[|a| - 1]] && b == front' + [b[|b| - 1]];
    }
  }

  lemma SomethingIn(a: seq<Group>)
    requires a != []
    ensures exists g :: g in a
  {
    assert a[0] in a;
  }

  lemma BothEmpty(a: seq<Group>, b: seq<Group>)
    requires (a == [] || b == []) && forall g :: g in a <==> g in b
    ensures a == b
  {
    if a != [] {
      SomethingIn(a);
    } else if b != [] {
      SomethingIn(b);
    }
  }

  lemma SameLast(a: seq<Group>, b: seq<Group>)
    requires Rising(a) && Rising(b) && a != [] && b != [] && forall g :: g in a <==> g in b
    ensures a[|a| - 1] == b[|b| - 1]
  {
    var x, y := a[|a| - 1], b[|b| - 1];
    assert x in a && y in b;
    if x != y {
      RisingLast(b, x);
      RisingLast(a, y);
      GroupBeforeTrans(x, y, x);
      GroupBeforeStrict(x, x);
    }
  }

  // ---------------------------------------------------------------- the pass meets the condition

  lemma TurnExactly(session: string, e: Entry, d: DeviceTable, d': DeviceTable, k: DeviceKey)
    requires Rewritten(session, e, d, d') && e.kept in e.seqs
    ensures k.session == session && Lists(e, k.address, k.seqNo) ==> (k in d' <==> k.seqNo == e.kept && Sources(session, e, d) != {})
    ensures !(k.session == session && Lists(e, k.address, k.seqNo)) ==> (k in d' <==> k in d)
  {
    if k in d && k.session == session && Lists(e, k.address, k.seqNo) {
      assert k.seqNo in Sources(session, e, d);
    }
  }

  lemma {:induction false} RunExactly(session: string, es: seq<Entry>, tables: seq<DeviceTable>, n: nat, address: string, q: int)
    requires RewriteRun(session, es, tables) && n <= |es| && forall i | 0 <= i < |es| :: es[i].kept in es[i].seqs
    ensures DeviceKey(session, address, q) in tables[n] <==> HasDevice(session, tables[0], es, n, address, q)
    decreases n
  {
    if n > 0 {
      var e, before := es[n - 1], tables[n - 1];
      TurnExactly(session, e, before, tables[n], DeviceKey(session, address, q));
      if Lists(e, address, q) {
        forall s | s in e.seqs ensures s in Sources(session, e, before) <==> HasDevice(session, tables[0], es, n - 1, address, s) {
          RunExactly(session, es, tables, n - 1, address, s);
        }
      } else {
        RunExactly(session, es, tables, n - 1, address, q);
      }
    }
  }

  /** A surviving row of the session joins a device row afterwards if and only if, told from the tables before
      the pass, the last entry listing its number keeps it and has a device row left to merge at its turn (or no
      entry lists it and it had one). */
  lemma RowJoinsExactly(p: Pass, t: ProbeTable, d: DeviceTable, t': ProbeTable, d': DeviceTable, rec: Record, order: seq<Group>, id: nat)
    requires p.width > 0 && PassDone(p, t, d, t', d', rec) && SortedGroups(p, t, order)
    requires id in t' && t'[id].session == p.session
    ensures Joins(t'[id], d') <==> WillJoin(p, t, d, order, t'[id].address, t'[id].seqNo)
  {
    RisingIsUnique(order, rec.order);
    RunExactly(p.session, rec.entries, rec.tables, |rec.entries|, t'[id].address, t'[id].seqNo);
  }

  lemma {:induction false} OtherSessionsKeepTheirs(session: string, es: seq<Entry>, tables: seq<DeviceTable>, n: nat, k: DeviceKey)
    requires RewriteRun(session, es, tables) && n <= |es| && k.session != session && forall i | 0 <= i < |es| :: es[i].kept in es[i].seqs
    ensures k in tables[n] <==> k in tables[0]
    decreases n
  {
    if n > 0 {
      OtherSessionsKeepTheirs(session, es, tables, n - 1, k);
      TurnExactly(session, es[n - 1], tables[n - 1], tables[n], k);
    }
  }

  /** Rows of other sessions join as they did. */
  lemma OtherRowsJoinAsBefore(p: Pass, t: ProbeTable, d: DeviceTable, t': ProbeTable, d': DeviceTable, rec: Record, id: nat)
    requires p.width > 0 && PassDone(p, t, d, t', d', rec) && id in t' && t'[id].session != p.session
    ensures Joins(t'[id], d') <==> Joins(t'[id], d)
  {
    OtherSessionsKeepTheirs(p.session, rec.entries, rec.tables, |rec.entries|, DeviceKeyOf(t'[id]));
  }

  // ---------------------------------------------------------------- all rows together

  /** Some row of the session keeps number `q`: one that is not collapsed, or the collapsed row of a bucket. */
  ghost predicate Remains(p: Pass, t: ProbeTable, address: string, q: int)
    requires p.width > 0
  {
    || (exists id :: id in t && DeviceKeyOf(t[id]) == DeviceKey(p.session, address, q)
                     && !(InRange(p, t[id]) && Crowded(p, t, GroupOf(p, t[id]))))
    || (exists g :: Crowded(p, t, g) && g.address == address && Least(p, t, g) == q)
  }

  lemma RemainingRows(p: Pass, t: ProbeTable, t': ProbeTable, made: map<Group, nat>, address: string, q: int)
    requires p.width > 0 && Downsampled(p, t, t', made)
    ensures Remains(p, t, address, q) <==> Backs(t', DeviceKey(p.session, address, q))
  {
    if Remains(p, t, address, q) {
      RemainingHasRow(p, t, t', made, address, q);
    }
    if id :| id in t' && DeviceKeyOf(t'[id]) == DeviceKey(p.session, address, q) {
      RowRemains(p, t, t', made, id);
    }
  }

  lemma RemainingHasRow(p: Pass, t: ProbeTable, t': ProbeTable, made: map<Group, nat>, address: string, q: int)
    requires p.width > 0 && Downsampled(p, t, t', made) && Remains(p, t, address, q)
    ensures Backs(t', DeviceKey(p.session, address, q))
  {
    if id :| id in t && DeviceKeyOf(t[id]) == DeviceKey(p.session, address, q) && !(InRange(p, t[id]) && Crowded(p, t, GroupOf(p, t[id]))) {
      assert id in t' && t'[id] == t[id];
    } else {
      var g :| Crowded(p, t, g) && g.address == address && Least(p, t, g) == q;
      CollapsedNumber(p, t, t', made, g);
      assert DeviceKeyOf(t'[made[g]]) == DeviceKey(p.session, address, q);
    }
  }

  lemma CollapsedNumber(p: Pass, t: ProbeTable, t': ProbeTable, made: map<Group, nat>, g: Group)
    requires p.width > 0 && Partway(p, t, t', made) && g in made
    ensures made[g] in t' && DeviceKeyOf(t'[made[g]]) == DeviceKey(p.session, g.address, Least(p, t, g))
  {
    var m := CollapsedKey(p, t, g, t'[made[g]]);
    LeastIs(p, t, g, t'[made[g]].seqNo);
  }

  lemma RowRemains(p: Pass, t: ProbeTable, t': ProbeTable, made: map<Group, nat>, id: nat)
    requires p.width > 0 && Downsampled(p, t, t', made) && id in t' && t'[id].session == p.session
    ensures Remains(p, t, t'[id].address, t'[id].seqNo)
  {
    if id in t {
      assert !(InRange(p, t[id]) && Crowded(p, t, GroupOf(p, t[id])));
    } else {
      var g := NewRowGroup(p, t, t', made, id);
      CollapsedNumber(p, t, t', made, g);
    }
  }

  /** Every surviving row of the session joins if and only if every number that remains will. */
  lemma EveryRowJoinsExactlyWhen(p: Pass, t: ProbeTable, d: DeviceTable, t': ProbeTable, d': DeviceTable, rec: Record, order: seq<Group>)
    requires p.width > 0 && PassDone(p, t, d, t', d', rec) && SortedGroups(p, t, order)
    ensures (forall id | id in t' && t'[id].session == p.session :: Joins(t'[id], d')) <==>
            (forall address, q | Remains(p, t, address, q) :: WillJoin(p, t, d, order, address, q))
  {
    forall id | id in t' && t'[id].session == p.session
      ensures Remains(p, t, t'[id].address, t'[id].seqNo)
      ensures Joins(t'[id], d') <==> WillJoin(p, t, d, order, t'[id].address, t'[id].seqNo)
    {
      RowRemains(p, t, t', rec.made, id);
      RowJoinsExactly(p, t, d, t', d', rec, order, id);
    }
    forall address, q | Remains(p, t, address, q) ensures Backs(t', DeviceKey(p.session, address, q)) {
      RemainingRows(p, t, t', rec.made, address, q);
    }
  }

  // ---------------------------------------------------------------- the order decides

  lemma EntryOrderDecides(session: string, d: DeviceTable, address: string, lo: int, mid: int, hi: int)
    requires lo < mid < hi && DeviceKey(session, address, hi) in d
    ensures var early, late := Entry(address, lo, {lo, mid}), Entry(address, mid, {mid, hi});
      HasDevice(session, d, [early, late], 2, address, mid) && !HasDevice(session, d, [late, early], 2, address, mid)
  {
    var early, late := Entry(address, lo, {lo, mid}), Entry(address, mid, {mid, hi});
    assert hi !in early.seqs;
    assert HasDevice(session, d, [early, late], 0, address, hi);
    assert HasDevice(session, d, [early, late], 1, address, hi);
    assert hi in late.seqs;
  }

  function Row(probe: int, n: int): ProbeReading {
    ProbeReading("s", "a", n, n, probe, None)
  }

  /** Probe 1 read in cycles `i` and `j`, probe 2 in cycles `k` and `l`, all in one bucket. */
  function FourRows(i: int, j: int, k: int, l: int): ProbeTable {
    map[1 := Row(1, i), 2 := Row(1, j), 3 := Row(2, k), 4 := Row(2, l)]
  }

  predicate InBucket(p: Pass, i: int, j: int) {
    p == Pass("s", 10, None, 10) && 0 <= i < j < 10
  }

  lemma FourMembers(p: Pass, t: ProbeTable, g: Group, i: int, j: int, k: int, l: int)
    requires InBucket(p, i, j) && InBucket(p, k, l) && t == FourRows(i, j, k, l)
    ensures Members(p, t, g) == if g == Group("a", 1, 0) then {1, 2} else if g == Group("a", 2, 0) then {3, 4} else {}
  {
    forall id | id in t ensures InRange(p, t[id]) && GroupOf(p, t[id]) == Group("a", if id <= 2 then 1 else 2, 0) {
    }
  }

  lemma FourSorted(p: Pass, t: ProbeTable, order: seq<Group>, i: int, j: int, k: int, l: int)
    requires InBucket(p, i, j) && InBucket(p, k, l) && t == FourRows(i, j, k, l)
    requires order == [Group("a", 1, 0), Group("a", 2, 0)]
    ensures SortedGroups(p, t, order)
  {
    var first, second := Group("a", 1, 0), Group("a", 2, 0);
    assert GroupBefore(first, second) && order[..1] == [first] && Rising([first]);
    assert Rising(order);
    forall g ensures g in order <==> Members(p, t, g) != {} {
      FourMembers(p, t, g, i, j, k, l);
    }
  }

  /** A group of two rows, as it is noted. */
  lemma PairNoted(p: Pass, t: ProbeTable, g: Group, a: nat, b: nat)
    requires p.width > 0 && a in t && b in t && Members(p, t, g) == {a, b} && t[a].seqNo < t[b].seqNo
    ensures Crowded(p, t, g) && Least(p, t, g) == t[a].seqNo && Numbers(p, t, g) == {t[a].seqNo, t[b].seqNo}
  {
    assert a in Members(p, t, g) && b in Members(p, t, g);
    LeastIs(p, t, g, t[a].seqNo);
  }

  lemma TwoNoted(p: Pass, t: ProbeTable, order: seq<Group>, first: Entry, second: Entry)
    requires p.width > 0 && |order| == 2 && first.address == order[0].address && second.address == order[1].address
    requires Crowded(p, t, order[0]) && first.kept == Least(p, t, order[0]) && first.seqs == Numbers(p, t, order[0])
    requires Crowded(p, t, order[1]) && second.kept == Least(p, t, order[1]) && second.seqs == Numbers(p, t, order[1])
    requires first.kept != second.kept
    ensures EntriesOf(Noted(p, t, order, 2)) == [first, second]
  {
    assert Noted(p, t, order, 0) == Collapsed([], map[]);
    var one := Noted(p, t, order, 1);
    assert one == Collapsed([EntryKey(first.address, first.kept)], map[EntryKey(first.address, first.kept) := first.seqs]);
  }

  lemma FourEntries(p: Pass, t: ProbeTable, order: seq<Group>, i: int, j: int, k: int, l: int)
    requires InBucket(p, i, j) && InBucket(p, k, l) && i != k && t == FourRows(i, j, k, l)
    requires order == [Group("a", 1, 0), Group("a", 2, 0)]
    ensures EntriesOf(Noted(p, t, order, 2)) == [Entry("a", i, {i, j}), Entry("a", k, {k, l})]
  {
    FourMembers(p, t, order[0], i, j, k, l);
    FourMembers(p, t, order[1], i, j, k, l);
    PairNoted(p, t, order[0], 1, 2);
    PairNoted(p, t, order[1], 3, 4);
    TwoNoted(p, t, order, Entry("a", i, {i, j}), Entry("a", k, {k, l}));
  }

  /** The order of two buckets decides. One probe has the cycles lo and mid, the other mid and hi. If the one with
      the later cycles sorts last, its collapsed row, numbered mid, keeps a device row; with the probes exchanged
      it does not, whatever device rows there are besides that of hi. */
  lemma OrderDecides(p: Pass, d: DeviceTable, order: seq<Group>, lo: int, mid: int, hi: int)
    requires InBucket(p, lo, mid) && InBucket(p, mid, hi) && DeviceKey("s", "a", hi) in d
    requires order == [Group("a", 1, 0), Group("a", 2, 0)]
    ensures var t := FourRows(lo, mid, mid, hi); SortedGroups(p, t, order) && WillJoin(p, t, d, order, "a", mid)
    ensures var t := FourRows(mid, hi, lo, mid); SortedGroups(p, t, order) && !WillJoin(p, t, d, order, "a", mid)
  {
    EntryOrderDecides("s", d, "a", lo, mid, hi);
    FourSorted(p, FourRows(lo, mid, mid, hi), order, lo, mid, mid, hi);
    FourEntries(p, FourRows(lo, mid, mid, hi), order, lo, mid, mid, hi);
    FourSorted(p, FourRows(mid, hi, lo, mid), order, mid, hi, lo, mid);
    FourEntries(p, FourRows(mid, hi, lo, mid), order, mid, hi, lo, mid);
  }
}
