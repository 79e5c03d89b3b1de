/**
 The two averaging steps of the downsampler: sorting fetched probe rows into time
 buckets and averaging a bucket, and averaging the device rows of a bucket.
 */
module Bucketing {
  import opened Options
  import opened Averages
  import opened ReadingTables

  /** A fetched row of probe_readings together with its id. */
  datatype Fetched = Fetched(id: nat, row: ProbeReading)

  /** A fetched row of device_readings together with its sequence number. */
  datatype FetchedDevice = FetchedDevice(seqNo: int, row: DeviceReading)

  // ---------------------------------------------------------------- row lists

  /** `rows` are the rows `ids` of `t`, each once. */
  ghost predicate Lists(t: ProbeTable, rows: seq<Fetched>, ids: set<nat>) {
    && (forall i | 0 <= i < |rows| :: rows[i].id in ids && rows[i].id in t && rows[i].row == t[rows[i].id])
    && (forall i, j | 0 <= i < j < |rows| :: rows[i].id != rows[j].id)
    && (forall id | id in ids :: exists i :: 0 <= i < |rows| && rows[i].id == id)
  }

  lemma ListsAppend(t: ProbeTable, rows: seq<Fetched>, ids: set<nat>, id: nat)
    requires Lists(t, rows, ids) && id in t && id !in ids
    ensures Lists(t, rows + [Fetched(id, t[id])], ids + {id})
  {
    var rows' := rows + [Fetched(id, t[id])];
    forall k | k in ids + {id} ensures exists i :: 0 <= i < |rows'| && rows'[i].id == k {
      if k == id {
        assert rows'[|rows|].id == k;
      } else {
        var i :| 0 <= i < |rows| && rows[i].id == k;
        assert rows'[i].id == k;
      }
    }
  }

  lemma {:induction false} ListsSize(t: ProbeTable, rows: seq<Fetched>, ids: set<nat>)
    requires Lists(t, rows, ids)
    ensures |rows| == |ids| && ids <= t.Keys
    decreases |rows|
  {
    if rows == [] {
      assert ids == {};
    } else {
      var last := |rows| - 1;
      var rest := ids - {rows[last].id};
      forall id | id in rest ensures exists i :: 0 <= i < last && rows[..last][i].id == id {
        var i :| 0 <= i < |rows| && rows[i].id == id;
        assert rows[..last][i].id == id;
      }
      ListsSize(t, rows[..last], rest);
    }
  }

  /** The ids among the first `i` rows. */
  ghost function IdsOf(rows: seq<Fetched>, i: nat): set<nat>
    requires i <= |rows|
  {
    set k | 0 <= k < i :: rows[k].id
  }

  lemma ListsAll(t: ProbeTable, rows: seq<Fetched>, ids: set<nat>)
    requires Lists(t, rows, ids)
    ensures IdsOf(rows, |rows|) == ids
  {
  }

  // ---------------------------------------------------------------- bucketing

  /** The bucket dictionary: insertion order and contents. */
  datatype Buckets = Buckets(order: seq<Group>, rows: map<Group, seq<Fetched>>)

  /** `b` sorts the rows `seen` into their groups. */
  ghost predicate Sorts(p: Pass, t: ProbeTable, b: Buckets, seen: set<nat>)
    requires p.width > 0
  {
    && (forall i, j | 0 <= i < j < |b.order| :: b.order[i] != b.order[j])
    && (forall g :: g in b.order <==> g in b.rows)
    && (forall g | g in b.rows :: b.rows[g] != [] && Lists(t, b.rows[g], seen * Members(p, t, g)))
    && (forall id | id in seen :: id in t && GroupOf(p, t[id]) in b.rows)
  }

  /** The dictionary with one more row appended to its bucket, which is created if needed. */
  function File(p: Pass, b: Buckets, f: Fetched): Buckets
    requires p.width > 0
  {
    var key := GroupOf(p, f.row);
    if key in b.rows
      then b.(rows := b.rows[key := b.rows[key] + [f]])
      else Buckets(b.order + [key], b.rows[key := [f]])
  }

  method FillBuckets(p: Pass, rows: seq<Fetched>, ghost t: ProbeTable) returns (b: Buckets)
    requires p.width > 0
    requires Lists(t, rows, set id | id in t && InRange(p, t[id])) && InOrder(rows)
    ensures Sorts(p, t, b, set id | id in t && InRange(p, t[id])) && SortedGroups(p, t, b.order)
  {
    b := Buckets([], map[]);
    for i := 0 to |rows|
      invariant Sorts(p, t, b, IdsOf(rows, i))
      invariant Rising(b.order) && UpTo(p, b.order, rows, i)
    {
      IdsStep(rows, i);
      FileStep(p, t, b, IdsOf(rows, i), rows[i]);
      FileRises(p, b, rows, i);
      b := File(p, b, rows[i]);
    }
    ListsAll(t, rows, set id | id in t && InRange(p, t[id]));
    BucketsAreGroups(p, t, b);
  }

  predicate InOrder(rows: seq<Fetched>) {
    |rows| <= 1 || (InOrder(rows[..|rows| - 1]) && !RowBefore(rows[|rows| - 1].row, rows[|rows| - 2].row))
  }

  lemma {:induction false} InOrderAt(rows: seq<Fetched>, i: nat)
    requires InOrder(rows) && 0 < i < |rows|
    ensures !RowBefore(rows[i].row, rows[i - 1].row)
    decreases |rows|
  {
    if i < |rows| - 1 {
      InOrderAt(rows[..|rows| - 1], i);
    }
  }

  lemma IdsStep(rows: seq<Fetched>, i: nat)
    requires i < |rows|
    ensures IdsOf(rows, i + 1) == IdsOf(rows, i) + {rows[i].id}
  {
  }

  /** No group lies after that of the row filed last. */
  ghost predicate UpTo(p: Pass, order: seq<Group>, rows: seq<Fetched>, i: nat)
    requires p.width > 0 && i <= |rows|
  {
    forall g | g in order :: i > 0 && (g == GroupOf(p, rows[i - 1].row) || GroupBefore(g, GroupOf(p, rows[i - 1].row)))
  }

  /** The group of the next row is the last one so far or a later one. */
  lemma NextGroup(p: Pass, order: seq<Group>, rows: seq<Fetched>, i: nat, g: Group)
    requires p.width > 0 && i < |rows| && InOrder(rows) && UpTo(p, order, rows, i) && g in order
    ensures g == GroupOf(p, rows[i].row) || GroupBefore(g, GroupOf(p, rows[i].row))
  {
    var last, key := GroupOf(p, rows[i - 1].row), GroupOf(p, rows[i].row);
    InOrderAt(rows, i);
    GroupsFollowRows(p, rows[i - 1].row, rows[i].row);
    if g != last && last != key {
      GroupBeforeTrans(g, last, key);
    }
  }

  lemma RisingAppend(order: seq<Group>, key: Group)
    requires Rising(order) && forall g | g in order :: GroupBefore(g, key)
    ensures Rising(order + [key])
  {
    assert (order + [key])[..|order|] == order;
  }

  lemma FileRises(p: Pass, b: Buckets, rows: seq<Fetched>, i: nat)
    requires p.width > 0 && i < |rows| && InOrder(rows)
    requires Rising(b.order) && UpTo(p, b.order, rows, i) && forall g :: g in b.order <==> g in b.rows
    ensures Rising(File(p, b, rows[i]).order) && UpTo(p, File(p, b, rows[i]).order, rows, i + 1)
  {
    var key := GroupOf(p, rows[i].row);
    forall g | g in b.order ensures g == key || GroupBefore(g, key) {
      NextGroup(p, b.order, rows, i, g);
    }
    if key !in b.rows {
      RisingAppend(b.order, key);
    }
  }

  lemma BucketsAreGroups(p: Pass, t: ProbeTable, b: Buckets)
    requires p.width > 0 && Sorts(p, t, b, set id | id in t && InRange(p, t[id]))
    ensures forall g :: g in b.order <==> Members(p, t, g) != {}
  {
    forall g ensures g in b.order <==> Members(p, t, g) != {} {
      if g in b.rows {
        assert b.rows[g][0].id in Members(p, t, g);
      }
      if id :| id in Members(p, t, g) {
        assert g in b.rows;
      }
    }
  }

  lemma FileStep(p: Pass, t: ProbeTable, b: Buckets, seen: set<nat>, f: Fetched)
    requires p.width > 0 && Sorts(p, t, b, seen)
    requires f.id in t && f.id !in seen && InRange(p, t[f.id]) && f.row == t[f.id]
    ensures Sorts(p, t, File(p, b, f), seen + {f.id})
  {
    var g := GroupOf(p, f.row);
    var had := if g in b.rows then b.rows[g] else [];
    HadListed(p, t, b, seen, g, had);
    ListsAppend(t, had, seen * Members(p, t, g), f.id);
    SortsStep(p, t, b, File(p, b, f), seen, f.id);
  }

  lemma HadListed(p: Pass, t: ProbeTable, b: Buckets, seen: set<nat>, g: Group, had: seq<Fetched>)
    requires p.width > 0 && Sorts(p, t, b, seen) && had == if g in b.rows then b.rows[g] else []
    ensures Lists(t, had, seen * Members(p, t, g))
  {
    if g !in b.rows {
      assert seen * Members(p, t, g) == {};
    }
  }

  /** `b'` differs from `b` in bucket `g` only, which is appended if it is new. */
  ghost predicate FiledIn(b: Buckets, b': Buckets, g: Group) {
    && g in b'.rows && b'.rows - {g} == b.rows - {g}
    && b'.order == if g in b.rows then b.order else b.order + [g]
  }

  lemma OtherBucketsStay(b: Buckets, b': Buckets, g: Group, h: Group)
    requires FiledIn(b, b', g) && h != g
    ensures h in b'.rows <==> h in b.rows
    ensures h in b.rows ==> b'.rows[h] == b.rows[h]
  {
    assert h in b'.rows <==> h in b'.rows - {g};
    assert h in b.rows <==> h in b.rows - {g};
    assert h in b.rows ==> (b'.rows - {g})[h] == (b.rows - {g})[h];
  }

  lemma OrderStep(b: Buckets, b': Buckets, g: Group)
    requires FiledIn(b, b', g) && (forall h :: h in b.order <==> h in b.rows)
    requires forall i, j | 0 <= i < j < |b.order| :: b.order[i] != b.order[j]
    ensures (forall h :: h in b'.order <==> h in b'.rows)
    ensures forall i, j | 0 <= i < j < |b'.order| :: b'.order[i] != b'.order[j]
  {
    forall h ensures h in b'.order <==> h in b'.rows {
      if h != g {
        OtherBucketsStay(b, b', g, h);
      }
    }
  }

  lemma SortsStep(p: Pass, t: ProbeTable, b: Buckets, b': Buckets, seen: set<nat>, id: nat)
    requires p.width > 0 && Sorts(p, t, b, seen)
    requires id in t && InRange(p, t[id])
    requires var g := GroupOf(p, t[id]);
      FiledIn(b, b', g) && b'.rows[g] != [] && Lists(t, b'.rows[g], seen * Members(p, t, g) + {id})
    ensures Sorts(p, t, b', seen + {id})
  {
    var g := GroupOf(p, t[id]);
    OrderStep(b, b', g);
    forall h | h in b'.rows ensures b'.rows[h] != [] && Lists(t, b'.rows[h], (seen + {id}) * Members(p, t, h)) {
      if h == g {
        assert (seen + {id}) * Members(p, t, h) == seen * Members(p, t, h) + {id};
      } else {
        OtherBucketsStay(b, b', g, h);
        assert (seen + {id}) * Members(p, t, h) == seen * Members(p, t, h);
      }
    }
    forall k | k in seen + {id} ensures k in t && GroupOf(p, t[k]) in b'.rows {
      if GroupOf(p, t[k]) != g {
        OtherBucketsStay(b, b', g, GroupOf(p, t[k]));
      }
    }
  }

  // ---------------------------------------------------------------- one collapsed row

  lemma TempsStep(t: ProbeTable, ids: set<nat>, id: nat)
    requires ids <= t.Keys && id in t && id !in ids
    ensures t[id].temp.None? ==> Temps(t, ids + {id}) == Temps(t, ids)
    ensures t[id].temp.Some? ==>
      && |Temps(t, ids + {id})| == |Temps(t, ids)| + 1
      && Total(Temps(t, ids + {id})) == Total(Temps(t, ids)) + t[id].temp.value
  {
    var m := Temps(t, ids);
    var m' := Temps(t, ids + {id});
    if t[id].temp.Some? {
      assert m'.Keys == m.Keys + {id};
      assert m' - {id} == m;
      TotalRemove(m', id);
    }
  }

  /** The running figures of the averaging loop. */
  datatype Tally = Tally(sum: real, count: nat, lo: int, hi: int, minSeq: int)

  ghost predicate Tallies(t: ProbeTable, ids: set<nat>, y: Tally)
    requires ids <= t.Keys
  {
    && y.sum == Total(Temps(t, ids)) && y.count == |Temps(t, ids)|
    && LeastSeq(t, ids, y.minSeq) && Spans(t, ids, y.lo, y.hi)
  }

  function TallyOne(r: ProbeReading): Tally {
    Tally(if r.temp.Some? then r.temp.value else 0.0, if r.temp.Some? then 1 else 0, r.at, r.at, r.seqNo)
  }

  function TallyMore(y: Tally, r: ProbeReading): Tally {
    Tally(if r.temp.Some? then y.sum + r.temp.value else y.sum,
          if r.temp.Some? then y.count + 1 else y.count,
          if r.at < y.lo then r.at else y.lo,
          if r.at > y.hi then r.at else y.hi,
          if r.seqNo < y.minSeq then r.seqNo else y.minSeq)
  }

  lemma TallyFirst(t: ProbeTable, id: nat)
    requires id in t
    ensures Tallies(t, {id}, TallyOne(t[id]))
  {
    TempsStep(t, {}, id);
    assert {} + {id} == {id};
    assert id in {id};
  }

  lemma TallyStep(t: ProbeTable, ids: set<nat>, y: Tally, id: nat)
    requires ids <= t.Keys && id in t && id !in ids && Tallies(t, ids, y)
    ensures Tallies(t, ids + {id}, TallyMore(y, t[id]))
  {
    TempsStep(t, ids, id);
    var a :| a in ids && t[a].at == y.lo;
    var b :| b in ids && t[b].at == y.hi;
    var c :| c in ids && t[c].seqNo == y.minSeq;
    assert {a, b, c, id} <= ids + {id};
  }

  method TallyAll(readings: seq<Fetched>, ghost t: ProbeTable, ghost ids: set<nat>) returns (y: Tally)
    requires |readings| > 0 && Lists(t, readings, ids) && ids <= t.Keys
    ensures Tallies(t, ids, y)
  {
    y := TallyOne(readings[0].row);
    TallyFirst(t, readings[0].id);
    assert IdsOf(readings, 1) == {readings[0].id};
    for i := 1 to |readings|
      invariant TalliesUpto(t, readings, i, y)
    {
      TallyNext(t, readings, ids, i, y);
      y := TallyMore(y, readings[i].row);
    }
    ListsAll(t, readings, ids);
  }

  ghost predicate TalliesUpto(t: ProbeTable, readings: seq<Fetched>, i: nat, y: Tally)
    requires i <= |readings|
  {
    IdsOf(readings, i) <= t.Keys && Tallies(t, IdsOf(readings, i), y)
  }

  lemma TallyNext(t: ProbeTable, readings: seq<Fetched>, ids: set<nat>, i: nat, y: Tally)
    requires Lists(t, readings, ids) && i < |readings| && TalliesUpto(t, readings, i, y)
    ensures TalliesUpto(t, readings, i + 1, TallyMore(y, readings[i].row))
  {
    IdsStep(readings, i);
    assert readings[i].id !in IdsOf(readings, i);
    TallyStep(t, IdsOf(readings, i), y, readings[i].id);
  }

  function TallyRow(first: ProbeReading, y: Tally): ProbeReading {
    ProbeReading(first.session, first.address, Midpoint(y.lo, y.hi), y.minSeq, first.probe,
                 if y.count > 0 then Some(y.sum / y.count as real) else None)
  }

  lemma TallyCollapses(t: ProbeTable, ids: set<nat>, first: ProbeReading, y: Tally)
    requires ids <= t.Keys && Tallies(t, ids, y)
    requires forall id | id in ids ::
      t[id].session == first.session && t[id].address == first.address && t[id].probe == first.probe
    ensures CollapsedFrom(t, ids, TallyRow(first, y))
  {
    var m := Temps(t, ids);
    assert m == map[] <==> |m| == 0;
  }

  /** The averaged row of a bucket's readings. */
  method Summarise(readings: seq<Fetched>, ghost t: ProbeTable, ghost ids: set<nat>) returns (row: ProbeReading)
    requires |readings| > 0 && Lists(t, readings, ids) && ids <= t.Keys
    requires forall id | id in ids ::
      (var r := readings[0].row; t[id].session == r.session && t[id].address == r.address && t[id].probe == r.probe)
    ensures CollapsedFrom(t, ids, row)
  {
    var y := TallyAll(readings, t, ids);
    row := TallyRow(readings[0].row, y);
    TallyCollapses(t, ids, readings[0].row, y);
  }

  // ---------------------------------------------------------------- one merged device row

  /** `rows` are the device rows of entry `e`, in ascending sequence order. */
  ghost predicate ListsDevices(session: string, e: Entry, d: DeviceTable, rows: seq<FetchedDevice>) {
    && (forall i | 0 <= i < |rows| ::
          rows[i].seqNo in Sources(session, e, d) && rows[i].row == d[DeviceKey(session, e.address, rows[i].seqNo)])
    && (forall i, j | 0 <= i < j < |rows| :: rows[i].seqNo < rows[j].seqNo)
    && (forall q | q in Sources(session, e, d) :: exists i :: 0 <= i < |rows| && rows[i].seqNo == q)
  }

  /** Entry `e` cut down to the first `i` of its fetched rows. */
  ghost function Upto(e: Entry, rows: seq<FetchedDevice>, i: nat): Entry
    requires i <= |rows|
  {
    e.(seqs := set k | 0 <= k < i :: rows[k].seqNo)
  }

  lemma UptoAll(session: string, e: Entry, d: DeviceTable, rows: seq<FetchedDevice>)
    requires ListsDevices(session, e, d, rows)
    ensures Batteries(session, Upto(e, rows, |rows|), d) == Batteries(session, e, d)
    ensures Propanes(session, Upto(e, rows, |rows|), d) == Propanes(session, e, d)
  {
    assert Sources(session, Upto(e, rows, |rows|), d) == Sources(session, e, d);
  }

  datatype Gauge = Gauge(sum: real, count: nat)

  ghost predicate Gauges(m: map<int, real>, g: Gauge) {
    g.sum == Total(m) && g.count == |m|
  }

  function GaugeMore(g: Gauge, v: Option<real>): Gauge {
    if v.Some? then Gauge(g.sum + v.value, g.count + 1) else g
  }

  lemma GaugeStep(m: map<int, real>, m': map<int, real>, g: Gauge, q: int, v: Option<real>)
    requires Gauges(m, g) && q !in m
    requires m' == if v.Some? then m[q := v.value] else m
    ensures Gauges(m', GaugeMore(g, v))
  {
    if v.Some? {
      assert m' - {q} == m;
      assert m'.Keys == m.Keys + {q};
      TotalRemove(m', q);
    }
  }

  function RealOf(v: Option<int>): Option<real> {
    if v.Some? then Some(v.value as real) else None
  }

  /** What one more sequence number adds to the readings of an entry. */
  lemma EntryGrows(session: string, e: Entry, d: DeviceTable, q: int)
    requires q !in e.seqs && DeviceKey(session, e.address, q) in d
    ensures var e' := e.(seqs := e.seqs + {q});
      var row := d[DeviceKey(session, e.address, q)];
      && Batteries(session, e', d) == (var m := Batteries(session, e, d); if row.battery.Some? then m[q := row.battery.value as real] else m)
      && Propanes(session, e', d) == (var m := Propanes(session, e, d); if row.propane.Some? then m[q := row.propane.value] else m)
  {
    assert Sources(session, e.(seqs := e.seqs + {q}), d) == Sources(session, e, d) + {q};
  }

  lemma UptoNext(session: string, e: Entry, d: DeviceTable, rows: seq<FetchedDevice>, i: nat)
    requires ListsDevices(session, e, d, rows) && i < |rows|
    ensures var u, q := Upto(e, rows, i), rows[i].seqNo;
      && q !in u.seqs && Upto(e, rows, i + 1) == u.(seqs := u.seqs + {q})
      && DeviceKey(session, e.address, q) in d && d[DeviceKey(session, e.address, q)] == rows[i].row
  {
  }

  lemma BatteryStep(session: string, e: Entry, d: DeviceTable, rows: seq<FetchedDevice>, i: nat, b: Gauge)
    requires ListsDevices(session, e, d, rows) && i < |rows| && Gauges(Batteries(session, Upto(e, rows, i), d), b)
    ensures Gauges(Batteries(session, Upto(e, rows, i + 1), d), GaugeMore(b, RealOf(rows[i].row.battery)))
  {
    var u, q := Upto(e, rows, i), rows[i].seqNo;
    UptoNext(session, e, d, rows, i);
    EntryGrows(session, u, d, q);
    GaugeStep(Batteries(session, u, d), Batteries(session, Upto(e, rows, i + 1), d), b, q, RealOf(rows[i].row.battery));
  }

  lemma PropaneStep(session: string, e: Entry, d: DeviceTable, rows: seq<FetchedDevice>, i: nat, p: Gauge)
    requires ListsDevices(session, e, d, rows) && i < |rows| && Gauges(Propanes(session, Upto(e, rows, i), d), p)
    ensures Gauges(Propanes(session, Upto(e, rows, i + 1), d), GaugeMore(p, rows[i].row.propane))
  {
    var u, q := Upto(e, rows, i), rows[i].seqNo;
    UptoNext(session, e, d, rows, i);
    EntryGrows(session, u, d, q);
    GaugeStep(Propanes(session, u, d), Propanes(session, Upto(e, rows, i + 1), d), p, q, rows[i].row.propane);
  }

  method GaugeAll(session: string, e: Entry, rows: seq<FetchedDevice>, ghost d: DeviceTable) returns (b: Gauge, p: Gauge)
    requires ListsDevices(session, e, d, rows)
    ensures Gauges(Batteries(session, e, d), b) && Gauges(Propanes(session, e, d), p)
  {
    b, p := Gauge(0.0, 0), Gauge(0.0, 0);
    for i := 0 to |rows|
      invariant Gauges(Batteries(session, Upto(e, rows, i), d), b) && Gauges(Propanes(session, Upto(e, rows, i), d), p)
    {
      BatteryStep(session, e, d, rows, i, b);
      PropaneStep(session, e, d, rows, i, p);
      b, p := GaugeMore(b, RealOf(rows[i].row.battery)), GaugeMore(p, rows[i].row.propane);
    }
    UptoAll(session, e, d, rows);
  }

  /** The timestamp of the kept row if it was fetched, else of the earliest fetched row. */
  method PickTime(session: string, e: Entry, rows: seq<FetchedDevice>, ghost d: DeviceTable) returns (at: int)
    requires |rows| > 0 && ListsDevices(session, e, d, rows)
    ensures CanonicalTime(session, e, d, at)
  {
    for i := 0 to |rows|
      invariant forall k | 0 <= k < i :: rows[k].seqNo != e.kept
    {
      if rows[i].seqNo == e.kept {
        return rows[i].row.at;
      }
    }
    assert rows[0].seqNo in Sources(session, e, d);
    return rows[0].row.at;
  }

  lemma LastIsLatest(session: string, e: Entry, d: DeviceTable, rows: seq<FetchedDevice>)
    requires |rows| > 0 && ListsDevices(session, e, d, rows)
    ensures LatestHeating(session, e, d, rows[|rows| - 1].row.heating)
  {
    var last := rows[|rows| - 1].seqNo;
    assert last in Sources(session, e, d);
    forall q | q in Sources(session, e, d) ensures q <= last {
      var i :| 0 <= i < |rows| && rows[i].seqNo == q;
    }
  }

  /** The single row that replaces the fetched device rows of an entry. */
  method MergeDevices(session: string, e: Entry, rows: seq<FetchedDevice>, ghost d: DeviceTable) returns (row: DeviceReading)
    requires |rows| > 0 && ListsDevices(session, e, d, rows)
    ensures MergedFrom(session, e, d, row)
  {
    var b, p := GaugeAll(session, e, rows, d);
    var at := PickTime(session, e, rows, d);
    LastIsLatest(session, e, d, rows);
    row := DeviceReading(at, BatteryFrom(b), PropaneFrom(p), rows[|rows| - 1].row.heating);
    GaugeMeans(Batteries(session, e, d), b);
    GaugeMeans(Propanes(session, e, d), p);
  }

  function BatteryFrom(g: Gauge): Option<int> {
    if g.count > 0 then Some(RoundHalfEven(g.sum / g.count as real)) else None
  }

  function PropaneFrom(g: Gauge): Option<real> {
    if g.count > 0 then Some(g.sum / g.count as real) else None
  }

  lemma GaugeMeans(m: map<int, real>, g: Gauge)
    requires Gauges(m, g)
    ensures BatteryFrom(g) == MeanBattery(m) && PropaneFrom(g) == MeanOrNull(m)
  {
    assert m == map[] <==> |m| == 0;
  }
}
