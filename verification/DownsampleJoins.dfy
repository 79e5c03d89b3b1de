/**
 The join between probe and device rows when all probes of a device were read in every
 cycle, what goes wrong when one of them was not, and both tiers taken together.
 */
module DownsampleJoins {
  import opened Options
  import opened Averages
  import opened ReadingTables
  import opened DownsampleTheorems
  import Downsampler

  // ---------------------------------------------------------------- complete cycles

  /** Rows of one reading cycle carry one time. */
  ghost predicate OneTimePerCycle(p: Pass, t: ProbeTable) {
    forall i, j | i in t && j in t && InRange(p, t[i]) && DeviceKeyOf(t[i]) == DeviceKeyOf(t[j]) :: t[i].at == t[j].at
  }

  ghost predicate HasRow(p: Pass, t: ProbeTable, address: string, probe: int, q: int) {
    exists id :: id in t && InRange(p, t[id]) && t[id].address == address && t[id].probe == probe && t[id].seqNo == q
  }

  /** Rows `i` and `j` are in range, of one address and in one bucket. */
  predicate BucketMates(p: Pass, t: ProbeTable, i: nat, j: nat)
    requires p.width > 0
  {
    && i in t && j in t && InRange(p, t[i]) && InRange(p, t[j])
    && t[i].address == t[j].address && t[i].at / p.width == t[j].at / p.width
  }

  /** In every bucket, all probes of an address carry the same sequence numbers. */
  ghost predicate ProbesComplete(p: Pass, t: ProbeTable)
    requires p.width > 0
  {
    forall i, j | BucketMates(p, t, i, j) :: HasRow(p, t, t[i].address, t[j].probe, t[i].seqNo)
  }

  ghost predicate CompleteCycles(p: Pass, t: ProbeTable)
    requires p.width > 0
  {
    OneTimePerCycle(p, t) && ProbesComplete(p, t)
  }

  /** A bucket's smallest number is not above any number that another probe's row has in that bucket. */
  lemma SharedLeast(p: Pass, t: ProbeTable, t': ProbeTable, made: map<Group, nat>, id: nat, kept: int, other: nat) returns (k: nat)
    requires p.width > 0 && CompleteCycles(p, t) && Partway(p, t, t', made) && KeptAs(p, t, t', made, id, kept)
    requires other in t && InRange(p, t[other]) && t[other].address == t[id].address
    requires t[other].at / p.width == t[id].at / p.width
    ensures k in Members(p, t, GroupOf(p, t[other])) && t[k].seqNo == kept
    ensures kept <= t[id].seqNo
  {
    var g := GroupOf(p, t[id]);
    assert CollapsedFrom(t, Members(p, t, g), t'[made[g]]);
    var m :| m in Members(p, t, g) && t[m].seqNo == kept;
    assert id in Members(p, t, g);
    assert BucketMates(p, t, m, other);
    k :| k in t && InRange(p, t[k]) && t[k].address == t[m].address && t[k].probe == t[other].probe && t[k].seqNo == kept;
    assert DeviceKeyOf(t[k]) == DeviceKeyOf(t[m]);
  }

  /** With complete cycles, all rows numbered q in a collapsed bucket are kept under one number. */
  lemma KeptTogether(p: Pass, t: ProbeTable, t': ProbeTable, made: map<Group, nat>, a: nat, keptA: int, b: nat, keptB: int)
    requires p.width > 0 && CompleteCycles(p, t) && Partway(p, t, t', made)
    requires KeptAs(p, t, t', made, a, keptA) && KeptAs(p, t, t', made, b, keptB)
    requires t[a].address == t[b].address && t[a].seqNo == t[b].seqNo
    ensures keptA == keptB
  {
    assert DeviceKeyOf(t[a]) == DeviceKeyOf(t[b]);
    var k := SharedLeast(p, t, t', made, a, keptA, b);
    var l := SharedLeast(p, t, t', made, b, keptB, a);
    assert LeastSeq(t, Members(p, t, GroupOf(p, t[b])), keptB);
    assert LeastSeq(t, Members(p, t, GroupOf(p, t[a])), keptA);
  }

  /** With complete cycles no surviving row's number is swallowed. */
  lemma CompleteNotSwallowed(p: Pass, t: ProbeTable, t': ProbeTable, made: map<Group, nat>, id: nat)
    requires p.width > 0 && Unique(t) && CompleteCycles(p, t) && Downsampled(p, t, t', made)
    requires id in t' && t'[id].session == p.session
    ensures !Swallowed(p, t, t'[id].address, t'[id].seqNo)
  {
    forall g | Crowded(p, t, g) && g.address == t'[id].address && t'[id].seqNo in Numbers(p, t, g)
      ensures Least(p, t, g) == t'[id].seqNo
    {
      var lost :| lost in Members(p, t, g) && t[lost].seqNo == t'[id].seqNo;
      var kept := t'[made[g]].seqNo;
      assert KeptAs(p, t, t', made, lost, kept);
      KeptIsOwn(p, t, t', made, id, lost, kept);
      KeptIsLeast(p, t, t', made, lost, kept);
    }
  }

  lemma KeptIsOwn(p: Pass, t: ProbeTable, t': ProbeTable, made: map<Group, nat>, id: nat, lost: nat, kept: int)
    requires p.width > 0 && Unique(t) && CompleteCycles(p, t) && Downsampled(p, t, t', made)
    requires id in t' && KeptAs(p, t, t', made, lost, kept) && DeviceKeyOf(t[lost]) == DeviceKeyOf(t'[id])
    ensures kept == t'[id].seqNo
  {
    var src := PartwayOrigin(p, t, t', made, id);
    CycleMates(p, t, lost, src);
    var k := SharedLeast(p, t, t', made, lost, kept, src);
    SourceIsLeast(p, t, t', made, id, src, k);
  }

  lemma CycleMates(p: Pass, t: ProbeTable, a: nat, b: nat)
    requires p.width > 0 && OneTimePerCycle(p, t) && a in t && b in t && InRange(p, t[a]) && DeviceKeyOf(t[a]) == DeviceKeyOf(t[b])
    ensures InRange(p, t[b]) && t[a].at == t[b].at
  {
  }

  /** A surviving row is numbered no higher than any row that shared its bucket. */
  lemma SourceIsLeast(p: Pass, t: ProbeTable, t': ProbeTable, made: map<Group, nat>, id: nat, src: nat, k: nat)
    requires p.width > 0 && Unique(t) && Downsampled(p, t, t', made)
    requires id in t' && src in t && InRange(p, t[src]) && KeyOf(t[src]) == KeyOf(t'[id]) && k in Members(p, t, GroupOf(p, t[src]))
    requires id in t ==> src == id
    requires id !in t ==> Replaced(p, t, made, src) && made[GroupOf(p, t[src])] == id
    ensures t'[id].seqNo <= t[k].seqNo
  {
    var g := GroupOf(p, t[src]);
    if id !in t {
      assert LeastSeq(t, Members(p, t, g), t'[id].seqNo);
    } else if k != src {
      assert {src, k} <= Members(p, t, g);
      CrowdedByTwo(Members(p, t, g), src, k);
    }
  }

  lemma CrowdedByTwo(s: set<nat>, a: nat, b: nat)
    requires a in s && b in s && a != b
    ensures |s| > 1
  {
    var rest := s - {a};
    assert b in rest;
    assert |s| == |rest| + 1;
  }

  /** With complete cycles every surviving probe row still joins a device row. */
  lemma EveryRowJoins(p: Pass, t: ProbeTable, d: DeviceTable, t': ProbeTable, d': DeviceTable, rec: Record)
    requires p.width > 0 && Unique(t) && CompleteCycles(p, t) && PassDone(p, t, d, t', d', rec)
    requires forall id | id in t :: Joins(t[id], d)
    ensures forall id | id in t' :: Joins(t'[id], d')
  {
    forall id | id in t' ensures Joins(t'[id], d') {
      var src := PartwayOrigin(p, t, t', rec.made, id);
      if t'[id].session == p.session {
        CompleteNotSwallowed(p, t, t', rec.made, id);
      }
      JoinSurvives(p, t, d, t', d', rec, id);
    }
  }

  // ---------------------------------------------------------------- the merged device row

  ghost predicate Agree(session: string, e: Entry, d: DeviceTable, d': DeviceTable) {
    forall q | q in e.seqs ::
      (var k := DeviceKey(session, e.address, q); (k in d <==> k in d') && (k in d ==> d[k] == d'[k]))
  }

  lemma AgreeingSources(session: string, e: Entry, d: DeviceTable, d': DeviceTable)
    requires Agree(session, e, d, d')
    ensures Sources(session, e, d) == Sources(session, e, d')
    ensures Batteries(session, e, d) == Batteries(session, e, d') && Propanes(session, e, d) == Propanes(session, e, d')
  {
    assert Sources(session, e, d) == Sources(session, e, d');
  }

  lemma MergedSame(session: string, e: Entry, d: DeviceTable, d': DeviceTable, row: DeviceReading)
    requires Agree(session, e, d, d') && MergedFrom(session, e, d, row)
    ensures MergedFrom(session, e, d', row)
  {
    AgreeingSources(session, e, d, d');
  }

  /** Entries of one address list different numbers. */
  ghost predicate Disjoint(entries: seq<Entry>) {
    forall i, j, q | 0 <= i < |entries| && 0 <= j < |entries| && entries[i].address == entries[j].address
        && Mentions(entries[i], q) && Mentions(entries[j], q) :: i == j
  }

  lemma CompleteDisjoint(p: Pass, t: ProbeTable, t': ProbeTable, made: map<Group, nat>, entries: seq<Entry>)
    requires p.width > 0 && CompleteCycles(p, t) && Partway(p, t, t', made) && EntriesMatch(p, t, t', made, entries)
    ensures Disjoint(entries)
  {
    forall i, j, q | 0 <= i < |entries| && 0 <= j < |entries| && entries[i].address == entries[j].address
        && Mentions(entries[i], q) && Mentions(entries[j], q) ensures i == j
    {
      var a :| KeptAs(p, t, t', made, a, entries[i].kept) && t[a].address == entries[i].address && t[a].seqNo == q;
      var b :| KeptAs(p, t, t', made, b, entries[j].kept) && t[b].address == entries[j].address && t[b].seqNo == q;
      KeptTogether(p, t, t', made, a, entries[i].kept, b, entries[j].kept);
    }
  }

  /** A turn leaves the rows of a disjoint entry alone. */
  lemma TurnAgrees(session: string, e: Entry, d: DeviceTable, d': DeviceTable, other: Entry)
    requires Rewritten(session, e, d, d') && e.kept in e.seqs
    requires e.address == other.address ==> e.seqs !! other.seqs
    ensures Agree(session, other, d, d')
  {
  }

  lemma {:induction false} RunAgrees(session: string, entries: seq<Entry>, tables: seq<DeviceTable>, lo: nat, hi: nat, e: Entry)
    requires RewriteRun(session, entries, tables) && lo <= hi <= |entries|
    requires forall i | 0 <= i < |entries| :: entries[i].kept in entries[i].seqs
    requires forall i | lo <= i < hi :: entries[i].address == e.address ==> entries[i].seqs !! e.seqs
    ensures Agree(session, e, tables[lo], tables[hi])
    decreases hi
  {
    if lo < hi {
      RunAgrees(session, entries, tables, lo, hi - 1, e);
      TurnAgrees(session, entries[hi - 1], tables[hi - 1], tables[hi], e);
    }
  }

  /** With disjoint entries, each kept device row is averaged from the device rows there before the pass. */
  lemma MergedFromOriginals(p: Pass, entries: seq<Entry>, tables: seq<DeviceTable>, i: nat)
    requires RewriteRun(p.session, entries, tables) && i < |entries| && Disjoint(entries)
    requires forall j | 0 <= j < |entries| :: entries[j].kept in entries[j].seqs
    requires Sources(p.session, entries[i], tables[0]) != {}
    ensures var home := DeviceKey(p.session, entries[i].address, entries[i].kept);
      home in tables[|entries|] && MergedFrom(p.session, entries[i], tables[0], tables[|entries|][home])
  {
    var e := entries[i];
    forall j | 0 <= j < |entries| && j != i && entries[j].address == e.address ensures entries[j].seqs !! e.seqs {
      forall q | q in entries[j].seqs ensures q !in e.seqs {
        assert Mentions(entries[j], q);
        assert Mentions(e, q) <==> q in e.seqs;
      }
    }
    RunAgrees(p.session, entries, tables, 0, i, e);
    AgreeingSources(p.session, e, tables[0], tables[i]);
    assert Rewritten(p.session, e, tables[i], tables[i + 1]);
    MergedAgain(p.session, e, tables[0], tables[i], tables[i + 1]);
    RunAgrees(p.session, entries, tables, i + 1, |entries|, e);
  }

  lemma MergedAgain(session: string, e: Entry, d0: DeviceTable, d: DeviceTable, d': DeviceTable)
    requires Agree(session, e, d0, d) && Rewritten(session, e, d, d') && Sources(session, e, d) != {}
    ensures var home := DeviceKey(session, e.address, e.kept); home in d' && MergedFrom(session, e, d0, d'[home])
  {
    MergedSame(session, e, d, d0, d'[DeviceKey(session, e.address, e.kept)]);
  }

  /** With complete cycles, the device row a collapsed row joins is the average of the device rows of
      exactly its bucket's numbers, as they were before the pass. */
  lemma CollapsedRowJoinsBucketAverage(p: Pass, t: ProbeTable, d: DeviceTable, t': ProbeTable, d': DeviceTable, rec: Record, g: Group)
    requires p.width > 0 && Unique(t) && CompleteCycles(p, t) && PassDone(p, t, d, t', d', rec) && g in rec.made
    requires forall id | id in t :: Joins(t[id], d)
    ensures var row := t'[rec.made[g]];
      var e := Entry(g.address, row.seqNo, Numbers(p, t, g));
      && DeviceKeyOf(row) in d' && MergedFrom(p.session, e, d, d'[DeviceKeyOf(row)])
  {
    var row := t'[rec.made[g]];
    var e := Entry(g.address, row.seqNo, Numbers(p, t, g));
    var i := BucketEntry(p, t, t', rec.made, rec.entries, g);
    assert rec.entries[i] == e;
    CompleteDisjoint(p, t, t', rec.made, rec.entries);
    assert Mentions(e, row.seqNo);
    var m := CollapsedKey(p, t, g, row);
    assert Joins(t[m], d);
    assert row.seqNo in Sources(p.session, e, d);
    MergedFromOriginals(p, rec.entries, rec.tables, i);
  }

  /** The entry of a collapsed bucket lists exactly the bucket's numbers. */
  lemma BucketEntry(p: Pass, t: ProbeTable, t': ProbeTable, made: map<Group, nat>, entries: seq<Entry>, g: Group) returns (i: nat)
    requires p.width > 0 && Unique(t) && CompleteCycles(p, t) && Partway(p, t, t', made) && EntriesMatch(p, t, t', made, entries) && g in made
    ensures i < |entries|
    ensures entries[i] == Entry(g.address, t'[made[g]].seqNo, Numbers(p, t, g))
  {
    var m := CollapsedKey(p, t, g, t'[made[g]]);
    i := EntryFor(p, t, t', made, entries, g, m);
    NumbersListed(p, t, t', made, entries, g, i);
    forall q | q in entries[i].seqs ensures q in Numbers(p, t, g) {
      ListedInBucket(p, t, t', made, entries, g, m, i, q);
    }
  }

  lemma NumbersListed(p: Pass, t: ProbeTable, t': ProbeTable, made: map<Group, nat>, entries: seq<Entry>, g: Group, i: nat)
    requires p.width > 0 && EntriesMatch(p, t, t', made, entries) && g in made && made[g] in t' && i < |entries|
    requires entries[i].address == g.address && entries[i].kept == t'[made[g]].seqNo
    ensures Numbers(p, t, g) <= entries[i].seqs
  {
    forall q | q in Numbers(p, t, g) ensures q in entries[i].seqs {
      var a :| a in Members(p, t, g) && t[a].seqNo == q;
      BucketIsListed(p, t, t', made, entries, g, a, i);
    }
  }

  lemma EntryFor(p: Pass, t: ProbeTable, t': ProbeTable, made: map<Group, nat>, entries: seq<Entry>, g: Group, m: nat) returns (i: nat)
    requires p.width > 0 && EntriesMatch(p, t, t', made, entries) && g in made && made[g] in t' && m in Members(p, t, g)
    ensures i < |entries| && entries[i].address == g.address && entries[i].kept == t'[made[g]].seqNo
  {
    var kept := t'[made[g]].seqNo;
    assert KeptAs(p, t, t', made, m, kept);
    i :| 0 <= i < |entries| && entries[i].address == t[m].address && entries[i].kept == kept && t[m].seqNo in entries[i].seqs;
  }

  lemma ListedInBucket(p: Pass, t: ProbeTable, t': ProbeTable, made: map<Group, nat>, entries: seq<Entry>, g: Group, m: nat, i: nat, q: int)
    requires p.width > 0 && CompleteCycles(p, t) && Partway(p, t, t', made) && EntriesMatch(p, t, t', made, entries) && g in made
    requires m in Members(p, t, g) && i < |entries|
    requires entries[i].address == g.address && entries[i].kept == t[m].seqNo && q in entries[i].seqs
    ensures exists id :: id in Members(p, t, g) && t[id].seqNo == q
  {
    assert Mentions(entries[i], q);
    var a :| KeptAs(p, t, t', made, a, entries[i].kept) && t[a].address == g.address && t[a].seqNo == q;
    NumberInBucket(p, t, t', made, g, m, a, entries[i].kept);
  }

  lemma BucketIsListed(p: Pass, t: ProbeTable, t': ProbeTable, made: map<Group, nat>, entries: seq<Entry>, g: Group, a: nat, i: nat)
    requires p.width > 0 && EntriesMatch(p, t, t', made, entries) && g in made && made[g] in t'
    requires a in Members(p, t, g) && i < |entries|
    requires entries[i].address == g.address && entries[i].kept == t'[made[g]].seqNo
    ensures t[a].seqNo in entries[i].seqs
  {
    assert KeptAs(p, t, t', made, a, entries[i].kept);
    var j :| 0 <= j < |entries| && entries[j].address == t[a].address && entries[j].kept == entries[i].kept && t[a].seqNo in entries[j].seqs;
  }

  /** A row kept under bucket g's number shares a number with a row of bucket g. */
  lemma NumberInBucket(p: Pass, t: ProbeTable, t': ProbeTable, made: map<Group, nat>, g: Group, m: nat, a: nat, kept: int)
    requires p.width > 0 && CompleteCycles(p, t) && Partway(p, t, t', made) && g in made
    requires m in Members(p, t, g) && t[m].seqNo == kept
    requires KeptAs(p, t, t', made, a, kept) && t[a].address == g.address
    ensures exists id :: id in Members(p, t, g) && t[id].seqNo == t[a].seqNo
  {
    var h := GroupOf(p, t[a]);
    assert CollapsedFrom(t, Members(p, t, h), t'[made[h]]);
    var l :| l in Members(p, t, h) && t[l].seqNo == kept;
    assert DeviceKeyOf(t[l]) == DeviceKeyOf(t[m]);
    assert BucketMates(p, t, a, m);
    var id :| id in t && InRange(p, t[id]) && t[id].address == t[a].address && t[id].probe == t[m].probe && t[id].seqNo == t[a].seqNo;
    assert DeviceKeyOf(t[id]) == DeviceKeyOf(t[a]);
    assert id in Members(p, t, g);
  }

  /** A merged battery is null exactly when all were, and otherwise lies between the lowest and the highest. */
  lemma MergedBattery(session: string, e: Entry, d: DeviceTable, row: DeviceReading, lowest: int, highest: int)
    requires MergedFrom(session, e, d, row)
    requires forall q | q in Batteries(session, e, d) :: lowest as real <= Batteries(session, e, d)[q] <= highest as real
    ensures row.battery.None? <==> forall q | q in Sources(session, e, d) :: d[DeviceKey(session, e.address, q)].battery.None?
    ensures row.battery.Some? ==> lowest <= row.battery.value <= highest
  {
    var m := Batteries(session, e, d);
    forall q | q in Sources(session, e, d) ensures q in m <==> d[DeviceKey(session, e.address, q)].battery.Some? {
    }
    if m != map[] {
      var q :| q in m;
      MeanBounds(m, lowest as real, highest as real);
      RoundBounds(Mean(m), lowest, highest);
    }
  }

  // ---------------------------------------------------------------- both tiers

  /** No row is in range of both passes. */
  ghost predicate Apart(p: Pass, q: Pass) {
    forall r :: !(InRange(p, r) && InRange(q, r))
  }

  /** The two tiers of one downsampling never see the same row. */
  lemma TiersApart(session: string, now: int)
    ensures Apart(Downsampler.WeekOld(session, now), Downsampler.DayOld(session, now))
    ensures Apart(Downsampler.DayOld(session, now), Downsampler.WeekOld(session, now))
  {
  }

  /** A pass does not touch the groups of a pass over another range. */
  lemma OtherTierUntouched(p: Pass, q: Pass, t: ProbeTable, t': ProbeTable, made: map<Group, nat>, id: nat)
    requires p.width > 0 && q.width > 0 && Apart(p, q) && Downsampled(p, t, t', made)
    requires (id in t && InRange(q, t[id])) || (id in t' && InRange(q, t'[id]))
    ensures id in t && id in t' && t[id] == t'[id]
  {
    if id in t' && id !in t {
      var g := NewRowGroup(p, t, t', made, id);
      CollapsedStaysPut(p, t, g, t'[id]);
    }
  }

  lemma CompleteCarriesOver(p: Pass, q: Pass, t: ProbeTable, t': ProbeTable, made: map<Group, nat>)
    requires p.width > 0 && q.width > 0 && Apart(p, q) && Downsampled(p, t, t', made) && CompleteCycles(q, t)
    ensures CompleteCycles(q, t')
  {
    forall i, j | i in t' && j in t' && InRange(q, t'[i]) && DeviceKeyOf(t'[i]) == DeviceKeyOf(t'[j]) ensures t'[i].at == t'[j].at {
      OtherTierUntouched(p, q, t, t', made, i);
      var src := TimeNearSource(p, t, t', made, j);
      CycleMates(q, t, i, src);
    }
    forall i, j | BucketMates(q, t', i, j) ensures HasRow(q, t', t'[i].address, t'[j].probe, t'[i].seqNo) {
      OtherTierUntouched(p, q, t, t', made, i);
      OtherTierUntouched(p, q, t, t', made, j);
      assert BucketMates(q, t, i, j);
      var id :| id in t && InRange(q, t[id]) && t[id].address == t[i].address && t[id].probe == t[j].probe && t[id].seqNo == t[i].seqNo;
      OtherTierUntouched(p, q, t, t', made, id);
    }
  }

  /** After both tiers every surviving probe row still joins, if cycles were complete before the first. */
  lemma EveryRowJoinsAfterBothTiers(p: Pass, q: Pass, t: ProbeTable, d: DeviceTable, t1: ProbeTable, d1: DeviceTable, first: Record,
                                    t2: ProbeTable, d2: DeviceTable, second: Record)
    requires p.width > 0 && q.width > 0 && Apart(p, q) && Unique(t)
    requires CompleteCycles(p, t) && CompleteCycles(q, t)
    requires PassDone(p, t, d, t1, d1, first) && PassDone(q, t1, d1, t2, d2, second)
    requires forall id | id in t :: Joins(t[id], d)
    ensures forall id | id in t2 :: Joins(t2[id], d2)
  {
    EveryRowJoins(p, t, d, t1, d1, first);
    CompleteCarriesOver(p, q, t, t1, first.made);
    KeysOnlyShrink(p, t, t1, first.made);
    EveryRowJoins(q, t1, d1, t2, d2, second);
  }

  lemma MembersCarryOver(p: Pass, q: Pass, t: ProbeTable, t': ProbeTable, made: map<Group, nat>, g: Group)
    requires p.width > 0 && q.width > 0 && Apart(p, q) && Downsampled(p, t, t', made)
    ensures Members(q, t', g) == Members(q, t, g)
  {
    forall id ensures id in Members(q, t', g) <==> id in Members(q, t, g) {
      if id in Members(q, t', g) || id in Members(q, t, g) {
        OtherTierUntouched(p, q, t, t', made, id);
      }
    }
  }

  lemma GroupStaysQuiet(p: Pass, q: Pass, t: ProbeTable, t1: ProbeTable, made: map<Group, nat>, t2: ProbeTable, made2: map<Group, nat>, g: Group)
    requires p.width > 0 && q.width > 0 && Apart(q, p) && Downsampled(p, t, t1, made) && Downsampled(q, t1, t2, made2)
    ensures !Crowded(p, t2, g)
  {
    GroupsAreSingle(p, t, t1, made, g);
    MembersCarryOver(q, p, t1, t2, made2, g);
  }

  lemma FirstTierStaysQuiet(p: Pass, q: Pass, t: ProbeTable, d: DeviceTable, t1: ProbeTable, d1: DeviceTable, r1: Record,
                            t2: ProbeTable, d2: DeviceTable, r2: Record)
    requires p.width > 0 && q.width > 0 && Apart(q, p)
    requires PassDone(p, t, d, t1, d1, r1) && PassDone(q, t1, d1, t2, d2, r2)
    ensures forall g :: !Crowded(p, t2, g)
  {
    forall g ensures !Crowded(p, t2, g) {
      GroupStaysQuiet(p, q, t, t1, r1.made, t2, r2.made, g);
    }
  }

  /** Once both tiers have run, running both again changes neither table. */
  lemma BothTiersTwice(p: Pass, q: Pass, t: ProbeTable, d: DeviceTable, t1: ProbeTable, d1: DeviceTable, r1: Record,
                       t2: ProbeTable, d2: DeviceTable, r2: Record,
                       t3: ProbeTable, d3: DeviceTable, r3: Record, t4: ProbeTable, d4: DeviceTable, r4: Record)
    requires p.width > 0 && q.width > 0 && Apart(p, q) && Apart(q, p)
    requires PassDone(p, t, d, t1, d1, r1) && PassDone(q, t1, d1, t2, d2, r2)
    requires PassDone(p, t2, d2, t3, d3, r3) && PassDone(q, t3, d3, t4, d4, r4)
    ensures t3 == t2 && d3 == d2 && t4 == t2 && d4 == d2
  {
    FirstTierStaysQuiet(p, q, t, d, t1, d1, r1, t2, d2, r2);
    QuietPassKeepsProbes(p, t2, t3, r3.made);
    QuietPassHasNoEntries(p, t2, t3, r3.entries);
    SecondPassChangesNothing(q, t1, d1, t2, d2, r2, t4, d4, r4);
  }

  // ---------------------------------------------------------------- a probe that missed a cycle

  ghost predicate Emptied(session: string, e: Entry, d: DeviceTable) {
    Sources(session, e, d) == {}
  }

  /** Once an entry's device rows are gone, no other turn brings one back. */
  lemma TurnStaysEmptied(session: string, e: Entry, d: DeviceTable, d': DeviceTable, other: Entry)
    requires Rewritten(session, e, d, d') && Emptied(session, other, d)
    requires e == other || e.address != other.address || e.kept !in other.seqs
    ensures Emptied(session, other, d')
  {
    forall q | q in other.seqs ensures DeviceKey(session, other.address, q) !in d' {
      assert q !in Sources(session, other, d);
    }
  }

  lemma TurnEmpties(session: string, e: Entry, d: DeviceTable, d': DeviceTable, other: Entry)
    requires Rewritten(session, e, d, d') && e.address == other.address && other.seqs <= e.seqs && e.kept !in other.seqs
    ensures Emptied(session, other, d')
  {
    forall q | q in other.seqs ensures DeviceKey(session, other.address, q) !in d' {
      assert q in Sources(session, e, d) <==> DeviceKey(session, e.address, q) in d;
    }
  }

  lemma {:induction false} StaysEmptied(session: string, tables: seq<DeviceTable>, lo: nat, n: nat, other: Entry)
    requires lo <= n < |tables| && Emptied(session, other, tables[lo])
    requires forall k | lo <= k < |tables| - 1 && Emptied(session, other, tables[k]) :: Emptied(session, other, tables[k + 1])
    ensures Emptied(session, other, tables[n])
    decreases n
  {
    if lo < n {
      StaysEmptied(session, tables, lo, n - 1, other);
    }
  }

  /** An entry whose numbers another entry of its address swallows ends without any device row. */
  lemma CoveredEntryEmptied(session: string, entries: seq<Entry>, tables: seq<DeviceTable>, i: nat, other: Entry)
    requires RewriteRun(session, entries, tables) && i < |entries|
    requires entries[i].address == other.address && other.seqs <= entries[i].seqs && entries[i].kept !in other.seqs
    requires forall k | 0 <= k < |entries| :: entries[k] == other || entries[k].address != other.address || entries[k].kept !in other.seqs
    ensures Emptied(session, other, tables[|entries|])
  {
    TurnEmpties(session, entries[i], tables[i], tables[i + 1], other);
    forall k | i + 1 <= k < |tables| - 1 && Emptied(session, other, tables[k]) ensures Emptied(session, other, tables[k + 1]) {
      TurnStaysEmptied(session, entries[k], tables[k], tables[k + 1], other);
    }
    StaysEmptied(session, tables, i + 1, |entries|, other);
  }

  /** Bucket `h` holds only numbers of bucket `g`, and no other bucket of the address is kept under one of
      its numbers, as when probe h missed the first cycle of the bucket. */
  ghost predicate LateProbe(p: Pass, t: ProbeTable, g: Group, h: Group)
    requires p.width > 0
  {
    && Crowded(p, t, g) && Crowded(p, t, h) && g != h && g.address == h.address
    && Numbers(p, t, h) <= Numbers(p, t, g)
    && (forall k | Crowded(p, t, k) && k.address == h.address && k != h :: Least(p, t, k) !in Numbers(p, t, h))
  }

  lemma CollapsedRow(p: Pass, t: ProbeTable, t': ProbeTable, made: map<Group, nat>, g: Group)
    requires p.width > 0 && Downsampled(p, t, t', made) && Crowded(p, t, g)
    ensures g in made && made[g] in t'
    ensures var row := t'[made[g]];
      row.seqNo == Least(p, t, g) && row.seqNo in Numbers(p, t, g) && row.session == p.session && row.address == g.address
  {
    var m := CollapsedKey(p, t, g, t'[made[g]]);
    LeastIs(p, t, g, t'[made[g]].seqNo);
  }

  /** An entry of the late probe's address is kept under none of its numbers, or is its own and lists only them. */
  lemma LateEntries(p: Pass, t: ProbeTable, t': ProbeTable, made: map<Group, nat>, entries: seq<Entry>, g: Group, h: Group, k: nat, q: int)
    requires p.width > 0 && LateProbe(p, t, g, h) && Downsampled(p, t, t', made) && EntriesMatch(p, t, t', made, entries)
    requires k < |entries| && entries[k].address == h.address && Mentions(entries[k], q)
    ensures entries[k].kept !in Numbers(p, t, h) || (entries[k].kept == Least(p, t, h) && q in Numbers(p, t, h))
  {
    var id :| KeptAs(p, t, t', made, id, entries[k].kept) && t[id].address == entries[k].address && t[id].seqNo == q;
    KeptIsLeast(p, t, t', made, id, entries[k].kept);
  }

  lemma SameEntry(p: Pass, t: ProbeTable, t': ProbeTable, made: map<Group, nat>, entries: seq<Entry>, i: nat, j: nat)
    requires p.width > 0 && EntriesMatch(p, t, t', made, entries) && i < |entries| && j < |entries|
    requires entries[i].address == entries[j].address && entries[i].kept == entries[j].kept
    ensures i == j
  {
  }

  /** Without complete cycles the join can be lost. Whatever the device rows are, and in whatever order the
      pass visits the buckets, the late probe's collapsed row has no device row to join afterwards. */
  lemma LateProbeLosesItsDevice(p: Pass, t: ProbeTable, d: DeviceTable, t': ProbeTable, d': DeviceTable, rec: Record, g: Group, h: Group)
    requires p.width > 0 && LateProbe(p, t, g, h) && PassDone(p, t, d, t', d', rec)
    ensures h in rec.made && rec.made[h] in t' && !Joins(t'[rec.made[h]], d')
  {
    CollapsedRow(p, t, t', rec.made, g);
    CollapsedRow(p, t, t', rec.made, h);
    var es := rec.entries;
    var m := CollapsedKey(p, t, g, t'[rec.made[g]]);
    var i := EntryFor(p, t, t', rec.made, es, g, m);
    var n := CollapsedKey(p, t, h, t'[rec.made[h]]);
    var j := EntryFor(p, t, t', rec.made, es, h, n);
    LateCovered(p, t, t', rec.made, es, g, h, i, j);
    LateAlone(p, t, t', rec.made, es, g, h, j);
    CoveredEntryEmptied(p.session, es, rec.tables, i, es[j]);
    assert es[j].kept in es[j].seqs;
    assert es[j].kept !in Sources(p.session, es[j], d');
  }

  /** All the late probe's numbers are listed by the entry of the covering bucket. */
  lemma LateCovered(p: Pass, t: ProbeTable, t': ProbeTable, made: map<Group, nat>, es: seq<Entry>, g: Group, h: Group, i: nat, j: nat)
    requires p.width > 0 && LateProbe(p, t, g, h) && Downsampled(p, t, t', made) && EntriesMatch(p, t, t', made, es)
    requires i < |es| && es[i].address == g.address && es[i].kept == Least(p, t, g)
    requires j < |es| && es[j].address == h.address && es[j].kept == Least(p, t, h)
    ensures es[j].seqs <= Numbers(p, t, h) && es[j].seqs <= es[i].seqs && es[i].kept !in es[j].seqs
  {
    CollapsedRow(p, t, t', made, g);
    CollapsedRow(p, t, t', made, h);
    forall q | q in es[j].seqs ensures q in Numbers(p, t, h) {
      assert Mentions(es[j], q);
      LateEntries(p, t, t', made, es, g, h, j, q);
    }
    forall q | q in es[j].seqs ensures q in es[i].seqs {
      var a :| a in Members(p, t, g) && t[a].seqNo == q;
      BucketIsListed(p, t, t', made, es, g, a, i);
    }
  }

  /** No other entry of the address puts one of its numbers back. */
  lemma LateAlone(p: Pass, t: ProbeTable, t': ProbeTable, made: map<Group, nat>, es: seq<Entry>, g: Group, h: Group, j: nat)
    requires p.width > 0 && LateProbe(p, t, g, h) && Downsampled(p, t, t', made) && EntriesMatch(p, t, t', made, es)
    requires j < |es| && es[j].address == h.address && es[j].kept == Least(p, t, h) && es[j].seqs <= Numbers(p, t, h)
    ensures forall k | 0 <= k < |es| :: es[k] == es[j] || es[k].address != es[j].address || es[k].kept !in es[j].seqs
  {
    forall k | 0 <= k < |es| ensures es[k] == es[j] || es[k].address != es[j].address || es[k].kept !in es[j].seqs {
      if es[k].address == h.address {
        assert Mentions(es[k], es[k].kept);
        LateEntries(p, t, t', made, es, g, h, k, es[k].kept);
        if es[k].kept == es[j].kept {
          SameEntry(p, t, t', made, es, k, j);
        }
      }
    }
  }

  function Reading(at: int, q: int, probe: int): ProbeReading {
    ProbeReading("s", "a", at, q, probe, None)
  }

  function LateTable(): ProbeTable {
    map[1 := Reading(0, 1, 1), 2 := Reading(1, 2, 1), 3 := Reading(2, 3, 1), 4 := Reading(1, 2, 2), 5 := Reading(2, 3, 2)]
  }

  lemma LateMembers(p: Pass, k: Group)
    requires p == Pass("s", 10, None, 10)
    ensures Members(p, LateTable(), k)
         == if k == Group("a", 1, 0) then {1, 2, 3} else if k == Group("a", 2, 0) then {4, 5} else {}
  {
    var t := LateTable();
    forall id | id in t ensures InRange(p, t[id]) && GroupOf(p, t[id]) == Group("a", if id <= 3 then 1 else 2, 0) {
    }
  }

  function LateNumber(id: nat): int {
    if id <= 3 then id else id - 2
  }

  lemma LateNumbers(p: Pass, g: Group, ids: set<nat>)
    requires p == Pass("s", 10, None, 10) && Members(p, LateTable(), g) == ids && ids <= {1, 2, 3, 4, 5}
    ensures Numbers(p, LateTable(), g) == set id | id in ids :: LateNumber(id)
  {
    forall id | id in ids ensures LateTable()[id].seqNo == LateNumber(id) {
    }
  }

  lemma LateCrowded(p: Pass)
    requires p == Pass("s", 10, None, 10)
    ensures forall k :: Crowded(p, LateTable(), k) <==> k == Group("a", 1, 0) || k == Group("a", 2, 0)
  {
    forall k ensures Crowded(p, LateTable(), k) <==> k == Group("a", 1, 0) || k == Group("a", 2, 0) {
      LateMembers(p, k);
      CrowdedByTwo({1, 2, 3}, 1, 2);
      CrowdedByTwo({4, 5}, 4, 5);
    }
  }

  lemma LateOverlap(a: set<int>, b: set<int>)
    requires a == (set id | id in {1, 2, 3} :: LateNumber(id)) && b == (set id | id in {4, 5} :: LateNumber(id))
    ensures b <= a && exists q | q in a :: q !in b && forall r | r in a :: q <= r
  {
    assert LateNumber(1) in a && LateNumber(2) in a && LateNumber(3) in a;
  }

  /** Such a table: probe 1 was read in cycles 1 to 3, probe 2 only in cycles 2 and 3, all in one bucket. */
  lemma LateProbeExists(p: Pass, g: Group, h: Group)
    requires p == Pass("s", 10, None, 10) && g == Group("a", 1, 0) && h == Group("a", 2, 0)
    ensures LateProbe(p, LateTable(), g, h)
  {
    LateMembers(p, g);
    LateMembers(p, h);
    LateNumbers(p, g, {1, 2, 3});
    LateNumbers(p, h, {4, 5});
    LateOverlap(Numbers(p, LateTable(), g), Numbers(p, LateTable(), h));
    LateCrowded(p);
  }
}
