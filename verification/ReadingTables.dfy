/**
 The two reading tables and what one downsampling pass is meant to do to them.

 Nothing here executes: the relations below are the specification that the pass
 in module Downsampler is proved against, and that the theorems in module
 DownsampleTheorems are about.
 */
module ReadingTables {
  import opened Options
  import opened Averages
  import opened TextOrder

  // ---------------------------------------------------------------- tables

  datatype ProbeReading = ProbeReading(
    session: string, address: string, at: int, seqNo: int, probe: int, temp: Option<real>)

  /** The columns of UNIQUE(session_id, address, seq, probe_index). */
  datatype ProbeKey = ProbeKey(session: string, address: string, seqNo: int, probe: int)

  /** Rows by their AUTOINCREMENT id. */
  type ProbeTable = map<nat, ProbeReading>

  function KeyOf(r: ProbeReading): ProbeKey {
    ProbeKey(r.session, r.address, r.seqNo, r.probe)
  }

  ghost predicate Unique(t: ProbeTable) {
    forall i, j | i in t && j in t && KeyOf(t[i]) == KeyOf(t[j]) :: i == j
  }

  /** The primary key of device_readings. */
  datatype DeviceKey = DeviceKey(session: string, address: string, seqNo: int)

  datatype DeviceReading = DeviceReading(
    at: int, battery: Option<int>, propane: Option<real>, heating: Option<string>)

  type DeviceTable = map<DeviceKey, DeviceReading>

  function DeviceKeyOf(r: ProbeReading): DeviceKey {
    DeviceKey(r.session, r.address, r.seqNo)
  }

  // ---------------------------------------------------------------- grouping

  /** One call of the downsampler: instants and the bucket width are in microseconds. */
  datatype Pass = Pass(session: string, olderThan: int, newerThan: Option<int>, width: int)

  predicate InRange(p: Pass, r: ProbeReading) {
    && r.session == p.session
    && r.at < p.olderThan
    && (p.newerThan.Some? ==> p.newerThan.value <= r.at)
  }

  datatype Group = Group(address: string, probe: int, bucket: int)

  function GroupOf(p: Pass, r: ProbeReading): Group
    requires p.width > 0
  {
    Group(r.address, r.probe, r.at / p.width)
  }

  /** The ids of the in-range rows of group `g`. */
  ghost function Members(p: Pass, t: ProbeTable, g: Group): set<nat>
    requires p.width > 0
  {
    set id | id in t && InRange(p, t[id]) && GroupOf(p, t[id]) == g
  }

  ghost predicate Crowded(p: Pass, t: ProbeTable, g: Group)
    requires p.width > 0
  {
    |Members(p, t, g)| > 1
  }

  ghost function SeqsOf(t: ProbeTable, ids: set<nat>): set<int>
    requires ids <= t.Keys
  {
    set id | id in ids :: t[id].seqNo
  }

  /** The sequence numbers of a group's rows. */
  ghost function Numbers(p: Pass, t: ProbeTable, g: Group): set<int>
    requires p.width > 0
  {
    SeqsOf(t, Members(p, t, g))
  }

  // ---------------------------------------------------------------- the order of the rows

  /** ORDER BY address, probe_index, recorded_at */
  predicate RowBefore(r: ProbeReading, s: ProbeReading) {
    Below(r.address, s.address)
    || (r.address == s.address && (r.probe < s.probe || (r.probe == s.probe && r.at < s.at)))
  }

  predicate GroupBefore(g: Group, h: Group) {
    Below(g.address, h.address)
    || (g.address == h.address && (g.probe < h.probe || (g.probe == h.probe && g.bucket < h.bucket)))
  }

  predicate Rising(order: seq<Group>) {
    |order| <= 1 || (Rising(order[..|order| - 1]) && GroupBefore(order[|order| - 2], order[|order| - 1]))
  }

  /** The groups that have rows, in the order of their rows. */
  ghost predicate SortedGroups(p: Pass, t: ProbeTable, order: seq<Group>)
    requires p.width > 0
  {
    Rising(order) && forall g :: g in order <==> Members(p, t, g) != {}
  }

  lemma RowBeforeTrans(a: ProbeReading, b: ProbeReading, c: ProbeReading)
    requires RowBefore(a, b) && RowBefore(b, c)
    ensures RowBefore(a, c)
  {
    if Below(a.address, b.address) && Below(b.address, c.address) {
      BelowTrans(a.address, b.address, c.address);
    }
  }

  /** Rows in order have their groups in order. */
  lemma GroupsFollowRows(p: Pass, r: ProbeReading, s: ProbeReading)
    requires p.width > 0 && !RowBefore(s, r)
    ensures GroupOf(p, r) == GroupOf(p, s) || GroupBefore(GroupOf(p, r), GroupOf(p, s))
  {
    BelowTotal(r.address, s.address);
    if r.at <= s.at {
      DivMonotone(r.at, s.at, p.width);
    }
  }

  lemma GroupBeforeTrans(f: Group, g: Group, h: Group)
    requires GroupBefore(f, g) && GroupBefore(g, h)
    ensures GroupBefore(f, h)
  {
    if Below(f.address, g.address) && Below(g.address, h.address) {
      BelowTrans(f.address, g.address, h.address);
    }
  }

  lemma GroupBeforeStrict(g: Group, h: Group)
    requires GroupBefore(g, h)
    ensures g != h
  {
    BelowIsStrict(g.address);
  }

  // ---------------------------------------------------------------- collapsing probe rows

  ghost predicate LeastSeq(t: ProbeTable, ids: set<nat>, q: int)
    requires ids <= t.Keys
  {
    && (exists id | id in ids :: t[id].seqNo == q)
    && (forall id | id in ids :: q <= t[id].seqNo)
  }

  /** The rows of `ids` run from instant `lo` to instant `hi`. */
  ghost predicate Spans(t: ProbeTable, ids: set<nat>, lo: int, hi: int)
    requires ids <= t.Keys
  {
    && (exists id | id in ids :: t[id].at == lo)
    && (exists id | id in ids :: t[id].at == hi)
    && (forall id | id in ids :: lo <= t[id].at <= hi)
  }

  ghost function Temps(t: ProbeTable, ids: set<nat>): map<nat, real>
    requires ids <= t.Keys
  {
    map id | id in ids && t[id].temp.Some? :: t[id].temp.value
  }

  ghost function MeanOrNull<K>(m: map<K, real>): Option<real> {
    if m == map[] then None else Some(Mean(m))
  }

  /** `row` is what the rows `ids` of one group collapse into. */
  ghost predicate CollapsedFrom(t: ProbeTable, ids: set<nat>, row: ProbeReading)
    requires ids <= t.Keys
  {
    && (forall id | id in ids :: t[id].session == row.session && t[id].address == row.address && t[id].probe == row.probe)
    && LeastSeq(t, ids, row.seqNo)
    && (exists lo, hi :: Spans(t, ids, lo, hi) && row.at == Midpoint(lo, hi))
    && row.temp == MeanOrNull(Temps(t, ids))
  }

  /** Row `id` of `t` is replaced by a collapsed row, given the groups collapsed so far. */
  ghost predicate Replaced(p: Pass, t: ProbeTable, made: map<Group, nat>, id: nat)
    requires p.width > 0
  {
    id in t && InRange(p, t[id]) && GroupOf(p, t[id]) in made
  }

  /** Every collapsed group had several rows and has one new row of its own. */
  ghost predicate NewIds(p: Pass, t: ProbeTable, now: ProbeTable, made: map<Group, nat>)
    requires p.width > 0
  {
    && (forall g | g in made :: Crowded(p, t, g) && made[g] !in t && made[g] in now)
    && (forall g, h | g in made && h in made && made[g] == made[h] :: g == h)
  }

  /** An original row is still there, unchanged, exactly when its group was not collapsed. */
  ghost predicate OldRows(p: Pass, t: ProbeTable, now: ProbeTable, made: map<Group, nat>)
    requires p.width > 0
  {
    forall id | id in t :: (id in now <==> !Replaced(p, t, made, id)) && (id in now ==> now[id] == t[id])
  }

  ghost predicate MadeBy(made: map<Group, nat>, id: nat) {
    exists g :: g in made && made[g] == id
  }

  /** A row that was not there before is some group's collapsed row. */
  ghost predicate NewRows(p: Pass, t: ProbeTable, now: ProbeTable, made: map<Group, nat>)
    requires p.width > 0
  {
    && (forall id | id in now && id !in t :: MadeBy(made, id))
    && (forall g | g in made && made[g] in now :: CollapsedFrom(t, Members(p, t, g), now[made[g]]))
  }

  /** `now` is `t` after the groups in `made` were collapsed; `made` gives the new ids. */
  ghost predicate Partway(p: Pass, t: ProbeTable, now: ProbeTable, made: map<Group, nat>)
    requires p.width > 0
  {
    NewIds(p, t, now, made) && OldRows(p, t, now, made) && NewRows(p, t, now, made)
  }

  /** The whole pass: exactly the groups of two or more rows have been collapsed. */
  ghost predicate Downsampled(p: Pass, t: ProbeTable, now: ProbeTable, made: map<Group, nat>)
    requires p.width > 0
  {
    && Partway(p, t, now, made)
    && (forall g | Crowded(p, t, g) :: g in made)
  }

  // ---------------------------------------------------------------- rewriting device rows

  /** The device rows of `address` with a sequence number in `seqs` become one, numbered `kept`. */
  datatype Entry = Entry(address: string, kept: int, seqs: set<int>)

  ghost function Sources(session: string, e: Entry, d: DeviceTable): set<int> {
    set q | q in e.seqs && DeviceKey(session, e.address, q) in d
  }

  ghost function Batteries(session: string, e: Entry, d: DeviceTable): map<int, real> {
    map q | q in Sources(session, e, d) && d[DeviceKey(session, e.address, q)].battery.Some?
      :: d[DeviceKey(session, e.address, q)].battery.value as real
  }

  ghost function Propanes(session: string, e: Entry, d: DeviceTable): map<int, real> {
    map q | q in Sources(session, e, d) && d[DeviceKey(session, e.address, q)].propane.Some?
      :: d[DeviceKey(session, e.address, q)].propane.value
  }

  /** The heating snapshot of the source row with the highest sequence number. */
  ghost predicate LatestHeating(session: string, e: Entry, d: DeviceTable, heating: Option<string>) {
    exists last | last in Sources(session, e, d) ::
      && (forall q | q in Sources(session, e, d) :: q <= last)
      && heating == d[DeviceKey(session, e.address, last)].heating
  }

  /** The time of the source row that is kept, or of the earliest source row when that one is missing. */
  ghost predicate CanonicalTime(session: string, e: Entry, d: DeviceTable, at: int) {
    exists first | first in Sources(session, e, d) ::
      && (if e.kept in Sources(session, e, d) then first == e.kept
          else forall q | q in Sources(session, e, d) :: first <= q)
      && at == d[DeviceKey(session, e.address, first)].at
  }

  ghost function MeanBattery(m: map<int, real>): Option<int> {
    if m == map[] then None else Some(RoundHalfEven(Mean(m)))
  }

  /** `row` is what the device rows of entry `e` are averaged into. */
  ghost predicate MergedFrom(session: string, e: Entry, d: DeviceTable, row: DeviceReading) {
    && LatestHeating(session, e, d, row.heating)
    && CanonicalTime(session, e, d, row.at)
    && row.battery == MeanBattery(Batteries(session, e, d))
    && row.propane == MeanOrNull(Propanes(session, e, d))
  }

  /** The device table without the rows of an entry. */
  function Cleared(session: string, e: Entry, d: DeviceTable): DeviceTable {
    map k | k in d && !(k.session == session && k.address == e.address && k.seqNo in e.seqs) :: d[k]
  }

  /** One turn of the rewriting loop. */
  ghost predicate Rewritten(session: string, e: Entry, d: DeviceTable, d': DeviceTable) {
    if Sources(session, e, d) == {} then d' == d
    else
      var home := DeviceKey(session, e.address, e.kept);
      && home in d'
      && MergedFrom(session, e, d, d'[home])
      && d' == Cleared(session, e, d)[home := d'[home]]
  }

  /** The tables seen between the turns, first to last. */
  ghost predicate RewriteRun(session: string, entries: seq<Entry>, tables: seq<DeviceTable>) {
    && |tables| == |entries| + 1
    && (forall i | 0 <= i < |entries| :: Rewritten(session, entries[i], tables[i], tables[i + 1]))
  }

  // ---------------------------------------------------------------- the entries a pass will rewrite

  datatype EntryKey = EntryKey(address: string, kept: int)

  /** The bucket_seqs dictionary: insertion order and contents. */
  datatype Collapsed = Collapsed(order: seq<EntryKey>, seqs: map<EntryKey, set<int>>)

  function Note(c: Collapsed, k: EntryKey, seqs: set<int>): Collapsed {
    if k in c.seqs
      then c.(seqs := c.seqs[k := c.seqs[k] + seqs])
      else Collapsed(c.order + [k], c.seqs[k := seqs])
  }

  function EntriesOf(c: Collapsed): (es: seq<Entry>)
    ensures |es| == |c.order|
    ensures forall i | 0 <= i < |es| && c.order[i] in c.seqs :: es[i] == Entry(c.order[i].address, c.order[i].kept, c.seqs[c.order[i]])
  {
    seq(|c.order|, i requires 0 <= i < |c.order| =>
      Entry(c.order[i].address, c.order[i].kept, if c.order[i] in c.seqs then c.seqs[c.order[i]] else {}))
  }

  /** The smallest sequence number of a group that has rows. */
  ghost function Least(p: Pass, t: ProbeTable, g: Group): int
    requires p.width > 0
  {
    if exists q :: LeastSeq(t, Members(p, t, g), q) then (var q :| LeastSeq(t, Members(p, t, g), q); q) else 0
  }

  /** What collapsing the crowded ones of the first `n` groups notes down: a matter of the table alone. */
  ghost function Noted(p: Pass, t: ProbeTable, order: seq<Group>, n: nat): Collapsed
    requires p.width > 0 && n <= |order|
  {
    if n == 0 then Collapsed([], map[])
    else
      var before, g := Noted(p, t, order, n - 1), order[n - 1];
      if Crowded(p, t, g) then Note(before, EntryKey(g.address, Least(p, t, g)), Numbers(p, t, g)) else before
  }

  /** The entries are those that follow from the table, its groups being `order`. */
  ghost predicate EntriesFollow(p: Pass, t: ProbeTable, order: seq<Group>, entries: seq<Entry>)
    requires p.width > 0
  {
    SortedGroups(p, t, order) && entries == EntriesOf(Noted(p, t, order, |order|))
  }

  lemma LeastIs(p: Pass, t: ProbeTable, g: Group, q: int)
    requires p.width > 0 && LeastSeq(t, Members(p, t, g), q)
    ensures Least(p, t, g) == q
  {
  }

  /** `now` keeps sequence number `q` of row `id` under the number of its collapsed row. */
  ghost predicate KeptAs(p: Pass, t: ProbeTable, now: ProbeTable, made: map<Group, nat>, id: nat, q: int)
    requires p.width > 0
  {
    Replaced(p, t, made, id) && (var g := GroupOf(p, t[id]); made[g] in now && now[made[g]].seqNo == q)
  }

  predicate Mentions(e: Entry, q: int) {
    q in e.seqs
  }

  /** The entries list, per kept number, exactly the sequence numbers collapsed into it. */
  ghost predicate EntriesMatch(p: Pass, t: ProbeTable, now: ProbeTable, made: map<Group, nat>, entries: seq<Entry>)
    requires p.width > 0
  {
    && (forall i, j | 0 <= i < j < |entries| :: (entries[i].address, entries[i].kept) != (entries[j].address, entries[j].kept))
    && (forall i | 0 <= i < |entries| :: entries[i].kept in entries[i].seqs)
    && (forall i, q {:trigger Mentions(entries[i], q)} | 0 <= i < |entries| && Mentions(entries[i], q) ::
          exists id :: KeptAs(p, t, now, made, id, entries[i].kept) && t[id].address == entries[i].address && t[id].seqNo == q)
    && (forall id, q | KeptAs(p, t, now, made, id, q) ::
          exists i :: 0 <= i < |entries| && entries[i].address == t[id].address && entries[i].kept == q && t[id].seqNo in entries[i].seqs)
  }

  /** What a pass did, recorded for the proofs: new row ids, groups, entries, and the device tables between turns. */
  datatype Record = Record(made: map<Group, nat>, order: seq<Group>, entries: seq<Entry>, tables: seq<DeviceTable>)

  /** Both tables after a completed pass. */
  ghost predicate PassDone(p: Pass, t: ProbeTable, d: DeviceTable, t': ProbeTable, d': DeviceTable, rec: Record)
    requires p.width > 0
  {
    && Downsampled(p, t, t', rec.made)
    && EntriesMatch(p, t, t', rec.made, rec.entries)
    && EntriesFollow(p, t, rec.order, rec.entries)
    && RewriteRun(p.session, rec.entries, rec.tables)
    && rec.tables[0] == d
    && rec.tables[|rec.entries|] == d'
  }

  // ---------------------------------------------------------------- facts used by the loop

  lemma CrowdedHasMember(p: Pass, t: ProbeTable, g: Group) returns (id: nat)
    requires p.width > 0 && Crowded(p, t, g)
    ensures id in Members(p, t, g)
  {
    id :| id in Members(p, t, g);
  }

  /** The row a collapsed row takes its sequence number, and so its whole key, from. */
  lemma CollapsedKey(p: Pass, t: ProbeTable, g: Group, row: ProbeReading) returns (id: nat)
    requires p.width > 0
    requires CollapsedFrom(t, Members(p, t, g), row)
    ensures id in Members(p, t, g) && KeyOf(t[id]) == KeyOf(row)
  {
    id :| id in Members(p, t, g) && t[id].seqNo == row.seqNo;
  }

  /** Every row present partway has the key of an original row: itself, or one collapsed into it. */
  lemma PartwayOrigin(p: Pass, t: ProbeTable, now: ProbeTable, made: map<Group, nat>, id: nat) returns (src: nat)
    requires p.width > 0 && Partway(p, t, now, made) && id in now
    ensures src in t && KeyOf(t[src]) == KeyOf(now[id])
    ensures id in t ==> src == id
    ensures id !in t ==> Replaced(p, t, made, src) && made[GroupOf(p, t[src])] == id
  {
    if id in t {
      src := id;
    } else {
      var g :| g in made && made[g] == id;
      src := CollapsedKey(p, t, g, now[id]);
    }
  }

  /** UNIQUE survives every intermediate table. */
  lemma PartwayUnique(p: Pass, t: ProbeTable, now: ProbeTable, made: map<Group, nat>)
    requires p.width > 0 && Unique(t) && Partway(p, t, now, made)
    ensures Unique(now)
  {
    forall i, j | i in now && j in now && KeyOf(now[i]) == KeyOf(now[j]) ensures i == j {
      var a := PartwayOrigin(p, t, now, made, i);
      var b := PartwayOrigin(p, t, now, made, j);
      assert a == b;
    }
  }

  /** Once a group's rows are deleted, its collapsed row can be inserted without a clash. */
  lemma InsertIsFree(p: Pass, t: ProbeTable, now: ProbeTable, made: map<Group, nat>, g: Group, row: ProbeReading, id: nat)
    requires p.width > 0 && Unique(t) && Partway(p, t, now, made)
    requires g !in made && CollapsedFrom(t, Members(p, t, g), row)
    requires id in now && id !in Members(p, t, g)
    ensures KeyOf(now[id]) != KeyOf(row)
  {
    var src := PartwayOrigin(p, t, now, made, id);
    var from := CollapsedKey(p, t, g, row);
  }

  /** Deleting a group's rows and inserting its collapsed row is one more step of the pass. */
  lemma PartwayStep(p: Pass, t: ProbeTable, now: ProbeTable, made: map<Group, nat>, g: Group, row: ProbeReading, newId: nat)
    requires p.width > 0 && Partway(p, t, now, made)
    requires g !in made && Crowded(p, t, g) && CollapsedFrom(t, Members(p, t, g), row)
    requires newId !in t && newId !in now
    ensures Partway(p, t, (now - Members(p, t, g))[newId := row], made[g := newId])
  {
    NewIdsStep(p, t, now, made, g, row, newId);
    OldRowsStep(p, t, now, made, g, row, newId);
    NewRowsStep(p, t, now, made, g, row, newId);
  }

  lemma NewIdsStep(p: Pass, t: ProbeTable, now: ProbeTable, made: map<Group, nat>, g: Group, row: ProbeReading, newId: nat)
    requires p.width > 0 && NewIds(p, t, now, made) && g !in made && Crowded(p, t, g)
    requires newId !in t && newId !in now
    ensures NewIds(p, t, (now - Members(p, t, g))[newId := row], made[g := newId])
  {
    var now' := (now - Members(p, t, g))[newId := row];
    var made' := made[g := newId];
    forall h | h in made' ensures Crowded(p, t, h) && made'[h] !in t && made'[h] in now' {
      if h != g {
        assert made[h] !in Members(p, t, g);
      }
    }
  }

  lemma OldRowsStep(p: Pass, t: ProbeTable, now: ProbeTable, made: map<Group, nat>, g: Group, row: ProbeReading, newId: nat)
    requires p.width > 0 && OldRows(p, t, now, made) && newId !in t
    ensures OldRows(p, t, (now - Members(p, t, g))[newId := row], made[g := newId])
  {
    var made' := made[g := newId];
    forall id | id in t ensures Replaced(p, t, made', id) <==> Replaced(p, t, made, id) || id in Members(p, t, g) {
    }
  }

  lemma NewRowsStep(p: Pass, t: ProbeTable, now: ProbeTable, made: map<Group, nat>, g: Group, row: ProbeReading, newId: nat)
    requires p.width > 0 && NewIds(p, t, now, made) && NewRows(p, t, now, made)
    requires g !in made && CollapsedFrom(t, Members(p, t, g), row)
    requires newId !in t && newId !in now
    ensures NewRows(p, t, (now - Members(p, t, g))[newId := row], made[g := newId])
  {
    NewRowsMade(p, t, now, made, g, row, newId);
    NewRowsAveraged(p, t, now, made, g, row, newId);
  }

  lemma NewRowsMade(p: Pass, t: ProbeTable, now: ProbeTable, made: map<Group, nat>, g: Group, row: ProbeReading, newId: nat)
    requires p.width > 0 && g !in made && forall id | id in now && id !in t :: MadeBy(made, id)
    ensures forall id | id in (now - Members(p, t, g))[newId := row] && id !in t :: MadeBy(made[g := newId], id)
  {
    var made' := made[g := newId];
    forall id | id in (now - Members(p, t, g))[newId := row] && id !in t ensures MadeBy(made', id) {
      if id == newId {
        assert made'[g] == id;
      } else {
        var h :| h in made && made[h] == id;
        assert made'[h] == id;
      }
    }
  }

  lemma NewRowsAveraged(p: Pass, t: ProbeTable, now: ProbeTable, made: map<Group, nat>, g: Group, row: ProbeReading, newId: nat)
    requires p.width > 0 && NewIds(p, t, now, made) && g !in made && newId !in now
    requires forall h | h in made && made[h] in now :: CollapsedFrom(t, Members(p, t, h), now[made[h]])
    requires CollapsedFrom(t, Members(p, t, g), row)
    ensures var now', made' := (now - Members(p, t, g))[newId := row], made[g := newId];
      forall h | h in made' && made'[h] in now' :: CollapsedFrom(t, Members(p, t, h), now'[made'[h]])
  {
    var now' := (now - Members(p, t, g))[newId := row];
    var made' := made[g := newId];
    forall h | h in made' && made'[h] in now' ensures CollapsedFrom(t, Members(p, t, h), now'[made'[h]]) {
      if h != g {
        assert now'[made'[h]] == now[made[h]];
      }
    }
  }
}
