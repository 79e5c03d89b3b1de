/**
 What a completed downsampling pass means for the readings: nothing is invented or lost
 silently, a second pass finds nothing to do, the order of a series survives, and when
 the join between the two tables survives.
 */
module DownsampleTheorems {
  import opened Options
  import opened Averages
  import opened ReadingTables

  // ---------------------------------------------------------------- where a collapsed row lies

  /** The group that new row `id` came from. */
  lemma NewRowGroup(p: Pass, t: ProbeTable, t': ProbeTable, made: map<Group, nat>, id: nat) returns (g: Group)
    requires p.width > 0 && Partway(p, t, t', made) && id in t' && id !in t
    ensures g in made && made[g] == id && CollapsedFrom(t, Members(p, t, g), t'[id])
  {
    g :| g in made && made[g] == id;
  }

  lemma EarlierBucket(x: int, y: int, width: int)
    requires width > 0
    ensures x / width < y / width ==> x < y
  {
    if y <= x {
      DivMonotone(y, x, width);
    }
  }

  /** A collapsed row stays in its group, in range, with its temperature between the bucket's extremes. */
  lemma CollapsedStaysPut(p: Pass, t: ProbeTable, g: Group, row: ProbeReading)
    requires p.width > 0 && CollapsedFrom(t, Members(p, t, g), row)
    ensures InRange(p, row) && GroupOf(p, row) == g
    ensures exists a, b | a in Members(p, t, g) && b in Members(p, t, g) :: t[a].at <= row.at <= t[b].at
  {
    var ms := Members(p, t, g);
    var lo, hi :| Spans(t, ms, lo, hi) && row.at == Midpoint(lo, hi);
    var a :| a in ms && t[a].at == lo;
    var b :| b in ms && t[b].at == hi;
    MidpointBounds(lo, hi);
    DivMonotone(lo, row.at, p.width);
    DivMonotone(row.at, hi, p.width);
  }

  /** The temperature is null exactly when all were, and otherwise lies between the coldest and the hottest. */
  lemma CollapsedTemperature(p: Pass, t: ProbeTable, g: Group, row: ProbeReading, coldest: real, hottest: real)
    requires p.width > 0 && CollapsedFrom(t, Members(p, t, g), row)
    requires forall id | id in Members(p, t, g) && t[id].temp.Some? :: coldest <= t[id].temp.value <= hottest
    ensures row.temp.None? <==> forall id | id in Members(p, t, g) :: t[id].temp.None?
    ensures row.temp.Some? ==> coldest <= row.temp.value <= hottest
  {
    var m := Temps(t, Members(p, t, g));
    forall id | id in Members(p, t, g) ensures id in m <==> t[id].temp.Some? {
    }
    if m != map[] {
      var id :| id in m;
      MeanBounds(m, coldest, hottest);
    }
  }

  // ---------------------------------------------------------------- the simple specification

  /** What is left of a group after a pass: nothing more than one row. */
  lemma GroupsAreSingle(p: Pass, t: ProbeTable, t': ProbeTable, made: map<Group, nat>, g: Group)
    requires p.width > 0 && Downsampled(p, t, t', made)
    ensures g in made ==> Members(p, t', g) == {made[g]}
    ensures g !in made ==> Members(p, t', g) == Members(p, t, g)
  {
    if g in made {
      CollapsedStaysPut(p, t, g, t'[made[g]]);
    }
    forall id ensures id in Members(p, t', g) <==> if g in made then id == made[g] else id in Members(p, t, g) {
      if id in t' && id !in t {
        var h := NewRowGroup(p, t, t', made, id);
        CollapsedStaysPut(p, t, h, t'[id]);
      }
    }
  }

  /** Rows of other sessions, rows out of range and rows alone in their bucket are untouched. */
  lemma OthersUntouched(p: Pass, t: ProbeTable, t': ProbeTable, made: map<Group, nat>, id: nat)
    requires p.width > 0 && Downsampled(p, t, t', made) && id in t
    requires InRange(p, t[id]) ==> Members(p, t, GroupOf(p, t[id])) == {id}
    ensures id in t' && t'[id] == t[id]
  {
    assert InRange(p, t[id]) ==> !Crowded(p, t, GroupOf(p, t[id]));
  }

  /** A bucket of several rows becomes exactly one new row, the one its members average to. */
  lemma BucketBecomesOneRow(p: Pass, t: ProbeTable, t': ProbeTable, made: map<Group, nat>, g: Group)
    requires p.width > 0 && Downsampled(p, t, t', made) && Crowded(p, t, g)
    ensures exists id :: Members(p, t', g) == {id} && id !in t && CollapsedFrom(t, Members(p, t, g), t'[id])
  {
    GroupsAreSingle(p, t, t', made, g);
    var id := made[g];
    assert Members(p, t', g) == {id};
  }

  /** Nothing else is there: a row that is out of range or not in a collapsed bucket was there before. */
  lemma NothingInvented(p: Pass, t: ProbeTable, t': ProbeTable, made: map<Group, nat>, id: nat)
    requires p.width > 0 && Downsampled(p, t, t', made) && id in t'
    requires InRange(p, t'[id]) ==> !Crowded(p, t, GroupOf(p, t'[id]))
    ensures id in t && t[id] == t'[id]
  {
    if id !in t {
      var g :| g in made && made[g] == id;
      CollapsedStaysPut(p, t, g, t'[id]);
    }
  }

  lemma QuietPassKeepsProbes(p: Pass, t: ProbeTable, t': ProbeTable, made: map<Group, nat>)
    requires p.width > 0 && Downsampled(p, t, t', made) && forall g :: !Crowded(p, t, g)
    ensures made == map[] && t' == t
  {
    assert forall g | g in made :: Crowded(p, t, g);
    assert made.Keys == {};
    forall id ensures id in t' <==> id in t {
    }
  }

  lemma QuietPassHasNoEntries(p: Pass, t: ProbeTable, t': ProbeTable, entries: seq<Entry>)
    requires p.width > 0 && EntriesMatch(p, t, t', map[], entries)
    ensures entries == []
  {
    assert |entries| > 0 ==> Mentions(entries[0], entries[0].kept);
  }

  /** A second identical pass changes neither table. */
  lemma SecondPassChangesNothing(p: Pass, t: ProbeTable, d: DeviceTable, t': ProbeTable, d': DeviceTable, rec: Record,
                                 t'': ProbeTable, d'': DeviceTable, rec': Record)
    requires p.width > 0 && PassDone(p, t, d, t', d', rec) && PassDone(p, t', d', t'', d'', rec')
    ensures t'' == t' && d'' == d'
  {
    forall g ensures !Crowded(p, t', g) {
      GroupsAreSingle(p, t, t', rec.made, g);
    }
    QuietPassKeepsProbes(p, t', t'', rec'.made);
    QuietPassHasNoEntries(p, t', t'', rec'.entries);
  }

  /** A pass introduces no row key that was not there, and keeps UNIQUE. */
  lemma KeysOnlyShrink(p: Pass, t: ProbeTable, t': ProbeTable, made: map<Group, nat>)
    requires p.width > 0 && Unique(t) && Downsampled(p, t, t', made)
    ensures Unique(t')
    ensures forall id | id in t' :: exists src :: src in t && KeyOf(t[src]) == KeyOf(t'[id])
  {
    PartwayUnique(p, t, t', made);
    forall id | id in t' ensures exists src :: src in t && KeyOf(t[src]) == KeyOf(t'[id]) {
      var src := PartwayOrigin(p, t, t', made, id);
    }
  }

  // ---------------------------------------------------------------- order of a series

  /** Within a series, a smaller sequence number never has a later time. */
  ghost predicate InOrder(t: ProbeTable) {
    forall i, j | i in t && j in t && SameSeries(t[i], t[j]) && t[i].seqNo < t[j].seqNo :: t[i].at <= t[j].at
  }

  predicate SameSeries(a: ProbeReading, b: ProbeReading) {
    a.session == b.session && a.address == b.address && a.probe == b.probe
  }

  /** For a row after the pass: the original row that gave it its number, and bounds on its time. */
  lemma TimeNearSource(p: Pass, t: ProbeTable, t': ProbeTable, made: map<Group, nat>, id: nat) returns (src: nat)
    requires p.width > 0 && Partway(p, t, t', made) && id in t'
    ensures src in t && KeyOf(t[src]) == KeyOf(t'[id])
    ensures id in t ==> src == id && t'[id] == t[id]
    ensures id !in t ==> InRange(p, t[src]) && InRange(p, t'[id]) && GroupOf(p, t[src]) == GroupOf(p, t'[id])
    ensures id !in t ==> GroupOf(p, t[src]) in made && made[GroupOf(p, t[src])] == id
  {
    src := PartwayOrigin(p, t, t', made, id);
    if id !in t {
      CollapsedStaysPut(p, t, GroupOf(p, t[src]), t'[id]);
    }
  }

  /** Times a and b are ordered as their sources are: they move only within their bucket. */
  lemma MovedTimesOrdered(p: Pass, a: ProbeReading, b: ProbeReading, a': ProbeReading, b': ProbeReading)
    requires p.width > 0 && a.at <= b.at && a.session == b.session
    requires a' == a || (InRange(p, a) && InRange(p, a') && GroupOf(p, a) == GroupOf(p, a') && a'.session == a.session)
    requires b' == b || (InRange(p, b) && InRange(p, b') && GroupOf(p, b) == GroupOf(p, b') && b'.session == b.session)
    requires InRange(p, a) && InRange(p, b) ==> a.at / p.width != b.at / p.width || (a' == a && b' == b)
    ensures a'.at <= b'.at
  {
    if InRange(p, a) && InRange(p, b) && !(a' == a && b' == b) {
      DivMonotone(a.at, b.at, p.width);
      EarlierBucket(a'.at, b'.at, p.width);
    }
  }

  /** Two rows whose sources share a collapsed bucket are the same row. */
  lemma SameBucketSameRow(p: Pass, t: ProbeTable, t': ProbeTable, made: map<Group, nat>, i: nat, j: nat, a: nat, b: nat)
    requires p.width > 0 && Partway(p, t, t', made) && i in t' && j in t' && a in t && b in t
    requires i in t ==> a == i
    requires j in t ==> b == j
    requires i !in t ==> Replaced(p, t, made, a) && made[GroupOf(p, t[a])] == i
    requires j !in t ==> Replaced(p, t, made, b) && made[GroupOf(p, t[b])] == j
    requires InRange(p, t[a]) && InRange(p, t[b]) && GroupOf(p, t[a]) == GroupOf(p, t[b])
    ensures i == j || (i in t && j in t)
  {
  }

  /** Sequence order and time order still agree after a pass, over collapsed and untouched rows alike. */
  lemma OrderSurvives(p: Pass, t: ProbeTable, t': ProbeTable, made: map<Group, nat>)
    requires p.width > 0 && Unique(t) && Downsampled(p, t, t', made) && InOrder(t)
    ensures InOrder(t')
  {
    forall i, j | i in t' && j in t' && SameSeries(t'[i], t'[j]) && t'[i].seqNo < t'[j].seqNo ensures t'[i].at <= t'[j].at {
      var a := TimeNearSource(p, t, t', made, i);
      var b := TimeNearSource(p, t, t', made, j);
      if InRange(p, t[a]) && InRange(p, t[b]) && t[a].at / p.width == t[b].at / p.width {
        SameBucketSameRow(p, t, t', made, i, j, a, b);
      }
      MovedTimesOrdered(p, t[a], t[b], t'[i], t'[j]);
    }
  }

  // ---------------------------------------------------------------- the join

  /** The probe row has a device row to join. */
  predicate Joins(r: ProbeReading, d: DeviceTable) {
    DeviceKeyOf(r) in d
  }

  /** Some collapsed bucket of `address` holds number `q` and is kept under another one. */
  ghost predicate Swallowed(p: Pass, t: ProbeTable, address: string, q: int)
    requires p.width > 0
  {
    exists g :: Crowded(p, t, g) && g.address == address && q in Numbers(p, t, g) && Least(p, t, g) != q
  }

  /** One turn keeps a device row whose number is kept or not mentioned. */
  lemma TurnKeeps(session: string, e: Entry, d: DeviceTable, d': DeviceTable, k: DeviceKey)
    requires Rewritten(session, e, d, d') && k in d
    requires k.session == session && k.address == e.address && k.seqNo in e.seqs ==> k.seqNo == e.kept
    ensures k in d'
  {
    if k.session == session && k.address == e.address && k.seqNo in e.seqs {
      assert k.seqNo in Sources(session, e, d);
    }
  }

  lemma {:induction false} RunKeeps(session: string, entries: seq<Entry>, tables: seq<DeviceTable>, n: nat, k: DeviceKey)
    requires RewriteRun(session, entries, tables) && n <= |entries| && k in tables[0]
    requires forall i | 0 <= i < |entries| && k.session == session && k.address == entries[i].address && k.seqNo in entries[i].seqs ::
      k.seqNo == entries[i].kept
    ensures k in tables[n]
  {
    if n > 0 {
      RunKeeps(session, entries, tables, n - 1, k);
      TurnKeeps(session, entries[n - 1], tables[n - 1], tables[n], k);
    }
  }

  /** What a row is kept under is the least number of its bucket, which the table determines. */
  lemma KeptIsLeast(p: Pass, t: ProbeTable, t': ProbeTable, made: map<Group, nat>, id: nat, q: int)
    requires p.width > 0 && Partway(p, t, t', made) && KeptAs(p, t, t', made, id, q)
    ensures var g := GroupOf(p, t[id]);
      Crowded(p, t, g) && g.address == t[id].address && t[id].seqNo in Numbers(p, t, g) && Least(p, t, g) == q
  {
    var g := GroupOf(p, t[id]);
    assert CollapsedFrom(t, Members(p, t, g), t'[made[g]]);
    assert id in Members(p, t, g);
    LeastIs(p, t, g, q);
  }

  /** A number that is not swallowed is, in every entry that lists it, the one kept. */
  lemma UnswallowedIsKept(p: Pass, t: ProbeTable, t': ProbeTable, made: map<Group, nat>, entries: seq<Entry>, i: nat, q: int)
    requires p.width > 0 && Partway(p, t, t', made) && EntriesMatch(p, t, t', made, entries)
    requires i < |entries| && Mentions(entries[i], q)
    requires !Swallowed(p, t, entries[i].address, q)
    ensures q == entries[i].kept
  {
    var id :| KeptAs(p, t, t', made, id, entries[i].kept) && t[id].address == entries[i].address && t[id].seqNo == q;
    KeptIsLeast(p, t, t', made, id, entries[i].kept);
  }

  /** A row that remains joins a device row if its number had one and was not swallowed. */
  lemma JoinSurvives(p: Pass, t: ProbeTable, d: DeviceTable, t': ProbeTable, d': DeviceTable, rec: Record, id: nat)
    requires p.width > 0 && PassDone(p, t, d, t', d', rec)
    requires id in t' && Joins(t'[id], d)
    requires t'[id].session == p.session ==> !Swallowed(p, t, t'[id].address, t'[id].seqNo)
    ensures Joins(t'[id], d')
  {
    var k := DeviceKeyOf(t'[id]);
    forall i | 0 <= i < |rec.entries| && k.session == p.session && k.address == rec.entries[i].address && k.seqNo in rec.entries[i].seqs
      ensures k.seqNo == rec.entries[i].kept
    {
      assert Mentions(rec.entries[i], k.seqNo);
      UnswallowedIsKept(p, t, t', rec.made, rec.entries, i, k.seqNo);
    }
    RunKeeps(p.session, rec.entries, rec.tables, |rec.entries|, k);
  }

  /** What one turn does to key `k` when it is not the key the turn inserts. */
  ghost predicate Loses(e: Entry, d: DeviceTable, d': DeviceTable, k: DeviceKey) {
    (k !in d ==> k !in d') && (k.address == e.address && k.seqNo in e.seqs ==> k !in d')
  }

  lemma TurnLoses(session: string, e: Entry, d: DeviceTable, d': DeviceTable, k: DeviceKey)
    requires Rewritten(session, e, d, d') && k.session == session && !(k.address == e.address && k.seqNo == e.kept)
    ensures Loses(e, d, d', k)
  {
    if k in d && k.address == e.address && k.seqNo in e.seqs {
      assert k.seqNo in Sources(session, e, d);
    }
  }

  lemma {:induction false} StaysLost(entries: seq<Entry>, tables: seq<DeviceTable>, n: nat, i: nat, k: DeviceKey)
    requires |tables| == |entries| + 1 && i < n <= |entries|
    requires forall j | 0 <= j < |entries| :: Loses(entries[j], tables[j], tables[j + 1], k)
    requires k.address == entries[i].address && k.seqNo in entries[i].seqs
    ensures k !in tables[n]
    decreases n
  {
    assert Loses(entries[n - 1], tables[n - 1], tables[n], k);
    if n != i + 1 {
      StaysLost(entries, tables, n - 1, i, k);
    }
  }

  lemma RunLoses(session: string, entries: seq<Entry>, tables: seq<DeviceTable>, i: nat, k: DeviceKey)
    requires RewriteRun(session, entries, tables) && i < |entries| && k.session == session
    requires k.address == entries[i].address && k.seqNo in entries[i].seqs
    requires forall j | 0 <= j < |entries| :: !(k.address == entries[j].address && k.seqNo == entries[j].kept)
    ensures k !in tables[|entries|]
  {
    forall j | 0 <= j < |entries| ensures Loses(entries[j], tables[j], tables[j + 1], k) {
      TurnLoses(session, entries[j], tables[j], tables[j + 1], k);
    }
    StaysLost(entries, tables, |entries|, i, k);
  }

  // ---------------------------------------------------------------- device rows without probe rows

  /** The device row of key `k` has a probe row that joins it. */
  ghost predicate Backs(t: ProbeTable, k: DeviceKey) {
    exists id :: id in t && DeviceKeyOf(t[id]) == k
  }

  /** One turn adds no key but the one it keeps. */
  lemma TurnAdds(session: string, e: Entry, d: DeviceTable, d': DeviceTable, k: DeviceKey)
    requires Rewritten(session, e, d, d') && k != DeviceKey(session, e.address, e.kept) && k !in d
    ensures k !in d'
  {
  }

  lemma {:induction false} StaysAbsent(tables: seq<DeviceTable>, n: nat, k: DeviceKey)
    requires n < |tables| && k !in tables[0]
    requires forall j | 0 <= j < |tables| - 1 && k !in tables[j] :: k !in tables[j + 1]
    ensures k !in tables[n]
  {
    if n > 0 {
      StaysAbsent(tables, n - 1, k);
    }
  }

  /** A device row there at the end with a number no entry keeps was there at the start. */
  lemma RunAddsNothing(session: string, entries: seq<Entry>, tables: seq<DeviceTable>, k: DeviceKey)
    requires RewriteRun(session, entries, tables)
    requires forall i | 0 <= i < |entries| :: k != DeviceKey(session, entries[i].address, entries[i].kept)
    ensures k in tables[|entries|] ==> k in tables[0]
  {
    forall j | 0 <= j < |tables| - 1 && k !in tables[j] ensures k !in tables[j + 1] {
      TurnAdds(session, entries[j], tables[j], tables[j + 1], k);
    }
    if k !in tables[0] {
      StaysAbsent(tables, |entries|, k);
    }
  }

  lemma KeptIsBacked(p: Pass, t: ProbeTable, t': ProbeTable, made: map<Group, nat>, entries: seq<Entry>, i: nat)
    requires p.width > 0 && Partway(p, t, t', made) && EntriesMatch(p, t, t', made, entries) && i < |entries|
    ensures Backs(t', DeviceKey(p.session, entries[i].address, entries[i].kept))
  {
    assert Mentions(entries[i], entries[i].kept);
    var id :| KeptAs(p, t, t', made, id, entries[i].kept) && t[id].address == entries[i].address && t[id].seqNo == entries[i].kept;
    var g := GroupOf(p, t[id]);
    assert CollapsedFrom(t, Members(p, t, g), t'[made[g]]);
    assert id in Members(p, t, g);
    assert DeviceKeyOf(t'[made[g]]) == DeviceKey(p.session, entries[i].address, entries[i].kept);
  }

  /** A pass leaves no device row without probe rows, if there was none before: the two tables are
      cleaned up together. */
  lemma NoDeviceRowOrphaned(p: Pass, t: ProbeTable, d: DeviceTable, t': ProbeTable, d': DeviceTable, rec: Record, k: DeviceKey)
    requires p.width > 0 && PassDone(p, t, d, t', d', rec)
    requires forall key | key in d :: Backs(t, key)
    requires k in d'
    ensures Backs(t', k)
  {
    if i :| 0 <= i < |rec.entries| && k == DeviceKey(p.session, rec.entries[i].address, rec.entries[i].kept) {
      KeptIsBacked(p, t, t', rec.made, rec.entries, i);
    } else {
      RunAddsNothing(p.session, rec.entries, rec.tables, k);
      var id :| id in t && DeviceKeyOf(t[id]) == k;
      UnkeptKeepsRows(p, t, d, t', d', rec, id);
    }
  }

  /** A probe row whose device row outlived the pass without being kept was not collapsed. */
  lemma UnkeptKeepsRows(p: Pass, t: ProbeTable, d: DeviceTable, t': ProbeTable, d': DeviceTable, rec: Record, id: nat)
    requires p.width > 0 && PassDone(p, t, d, t', d', rec) && id in t && DeviceKeyOf(t[id]) in d'
    requires forall i | 0 <= i < |rec.entries| :: DeviceKeyOf(t[id]) != DeviceKey(p.session, rec.entries[i].address, rec.entries[i].kept)
    ensures id in t' && t'[id] == t[id]
  {
    var k := DeviceKeyOf(t[id]);
    forall i | 0 <= i < |rec.entries| && k.session == p.session && k.address == rec.entries[i].address
      ensures k.seqNo !in rec.entries[i].seqs
    {
      if k.seqNo in rec.entries[i].seqs {
        RunLoses(p.session, rec.entries, rec.tables, i, k);
      }
    }
    ReplacedIsListed(p, t, t', rec.made, rec.entries, id);
  }

  lemma ReplacedIsListed(p: Pass, t: ProbeTable, t': ProbeTable, made: map<Group, nat>, entries: seq<Entry>, id: nat)
    requires p.width > 0 && Partway(p, t, t', made) && EntriesMatch(p, t, t', made, entries)
    ensures Replaced(p, t, made, id) ==> exists i :: 0 <= i < |entries| && entries[i].address == t[id].address && t[id].seqNo in entries[i].seqs
  {
    if Replaced(p, t, made, id) {
      var q := t'[made[GroupOf(p, t[id])]].seqNo;
      assert KeptAs(p, t, t', made, id, q);
    }
  }
}
