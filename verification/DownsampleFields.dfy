/**
 A downsampling pass in terms of the columns alone: which readings share a bucket, which rows go,
 and what the row that replaces them holds.
 */
module DownsampleFields {
  import opened Options
  import opened Averages
  import opened ReadingTables
  import opened DownsampleTheorems
  import opened DownsampleJoins
  import Downsampler

  // ---------------------------------------------------------------- readings that belong together

  /** Of the session, before `olderThan`, and not before `newerThan` if there is one. */
  predicate InTime(p: Pass, r: ProbeReading) {
    r.session == p.session && r.at < p.olderThan && (p.newerThan.None? || r.at >= p.newerThan.value)
  }

  /** Both instants lie in one stretch from a multiple of the width to the next. */
  ghost predicate SameStretch(width: int, a: int, b: int) {
    exists n: int :: StretchHas(width, n, a) && StretchHas(width, n, b)
  }

  predicate StretchHas(width: int, n: int, a: int) {
    n * width <= a < n * width + width
  }

  /** Two readings of one probe that a pass averages. */
  ghost predicate Together(p: Pass, r: ProbeReading, s: ProbeReading) {
    InTime(p, r) && InTime(p, s) && r.address == s.address && r.probe == s.probe && SameStretch(p.width, r.at, s.at)
  }

  ghost predicate HasCompany(p: Pass, t: ProbeTable, id: nat)
    requires id in t
  {
    exists other :: other in t && other != id && Together(p, t[id], t[other])
  }

  /** The row and its company. */
  ghost function Company(p: Pass, t: ProbeTable, id: nat): set<nat>
    requires id in t
  {
    set other | other in t && Together(p, t[id], t[other])
  }

  lemma StretchIsQuotient(width: int, n: int, a: int)
    requires width > 0
    ensures StretchHas(width, n, a) <==> a / width == n
  {
    var q := a / width;
    assert q * width <= a < q * width + width;
    assert n * width + width == (n + 1) * width && q * width + width == (q + 1) * width;
    if StretchHas(width, n, a) {
      MulCancel(n, q + 1, width);
      MulCancel(q, n + 1, width);
    }
  }

  lemma TogetherIsGrouped(p: Pass, r: ProbeReading, s: ProbeReading)
    requires p.width > 0
    ensures Together(p, r, s) <==> InRange(p, r) && InRange(p, s) && GroupOf(p, r) == GroupOf(p, s)
  {
    StretchIsQuotient(p.width, r.at / p.width, r.at);
    StretchIsQuotient(p.width, r.at / p.width, s.at);
    forall n | StretchHas(p.width, n, r.at) && StretchHas(p.width, n, s.at) ensures r.at / p.width == s.at / p.width {
      StretchIsQuotient(p.width, n, r.at);
      StretchIsQuotient(p.width, n, s.at);
    }
  }

  lemma CompanyIsGroup(p: Pass, t: ProbeTable, id: nat)
    requires p.width > 0 && id in t
    ensures InRange(p, t[id]) ==> Company(p, t, id) == Members(p, t, GroupOf(p, t[id]))
    ensures HasCompany(p, t, id) <==> InRange(p, t[id]) && Crowded(p, t, GroupOf(p, t[id]))
  {
    forall other | other in t
      ensures Together(p, t[id], t[other]) <==> InRange(p, t[id]) && InRange(p, t[other]) && GroupOf(p, t[id]) == GroupOf(p, t[other])
    {
      TogetherIsGrouped(p, t[id], t[other]);
    }
    if InRange(p, t[id]) {
      var ms := Members(p, t, GroupOf(p, t[id]));
      if other :| other in t && other != id && Together(p, t[id], t[other]) {
        CrowdedByTwo(ms, id, other);
      }
      if |ms| > 1 {
        var other := SecondMember(ms, id);
        assert Together(p, t[id], t[other]);
      }
    }
  }

  lemma SecondMember(s: set<nat>, a: nat) returns (b: nat)
    requires |s| > 1 && a in s
    ensures b in s && b != a
  {
    var rest := s - {a};
    assert |rest| == |s| - 1;
    b :| b in rest;
  }

  // ---------------------------------------------------------------- which rows go

  /** A pass removes a row exactly when another one belongs together with it; every other row stays as it is. */
  lemma RowGoesExactlyWhenInCompany(p: Pass, t: ProbeTable, d: DeviceTable, t': ProbeTable, d': DeviceTable, rec: Record, id: nat)
    requires p.width > 0 && PassDone(p, t, d, t', d', rec) && id in t
    ensures id in t' <==> !HasCompany(p, t, id)
    ensures id in t' ==> t'[id] == t[id]
  {
    CompanyIsGroup(p, t, id);
  }

  // ---------------------------------------------------------------- what replaces them

  ghost predicate Earliest(t: ProbeTable, ids: set<nat>, id: nat)
    requires ids <= t.Keys
  {
    id in ids && forall other | other in ids :: t[id].at <= t[other].at
  }

  ghost predicate Latest(t: ProbeTable, ids: set<nat>, id: nat)
    requires ids <= t.Keys
  {
    id in ids && forall other | other in ids :: t[other].at <= t[id].at
  }

  /** The temperatures among the rows `ids`, by row. */
  ghost predicate Measured(t: ProbeTable, ids: set<nat>, m: map<nat, real>)
    requires ids <= t.Keys
  {
    && (forall id :: id in m <==> id in ids && t[id].temp.Some?)
    && (forall id | id in m :: t[id].temp == Some(m[id]))
  }

  /** The columns of the row that rows `ids` become. */
  ghost predicate IsAverage(t: ProbeTable, ids: set<nat>, row: ProbeReading)
    requires ids <= t.Keys
  {
    && (forall id | id in ids :: t[id].session == row.session && t[id].address == row.address && t[id].probe == row.probe)
    && (exists id :: id in ids && t[id].seqNo == row.seqNo)
    && (forall id | id in ids :: row.seqNo <= t[id].seqNo)
    && MiddleTime(t, ids, row.at)
    && MeanTemp(t, ids, row.temp)
  }

  ghost predicate MiddleTime(t: ProbeTable, ids: set<nat>, at: int)
    requires ids <= t.Keys
  {
    forall a, b | Earliest(t, ids, a) && Latest(t, ids, b) :: Halfway(t[a].at, t[b].at, at)
  }

  /** The middle to the microsecond; halves go the even way from the first instant. */
  predicate Halfway(first: int, last: int, at: int) {
    -1 <= 2 * at - first - last <= 1 && ((last - first) % 2 == 1 ==> (at - first) % 2 == 0)
  }

  ghost predicate MeanTemp(t: ProbeTable, ids: set<nat>, temp: Option<real>)
    requires ids <= t.Keys
  {
    forall m: map<nat, real> | Measured(t, ids, m) :: MeanOf(m, temp)
  }

  /** Null without values, otherwise their sum divided by their number. */
  ghost predicate MeanOf<K>(m: map<K, real>, mean: Option<real>) {
    if m == map[] then mean.None? else mean.Some? && mean.value * |m| as real == Total(m)
  }

  lemma CollapsedMiddle(t: ProbeTable, ids: set<nat>, at: int, lo: int, hi: int)
    requires ids <= t.Keys && Spans(t, ids, lo, hi) && at == Midpoint(lo, hi)
    ensures MiddleTime(t, ids, at)
  {
    MidpointIsMiddle(lo, hi);
    forall a, b | Earliest(t, ids, a) && Latest(t, ids, b) ensures Halfway(t[a].at, t[b].at, at) {
      var x :| x in ids && t[x].at == lo;
      var y :| y in ids && t[y].at == hi;
      assert t[a].at == lo && t[b].at == hi;
    }
  }

  lemma MeanOrNullIsMean<K>(m: map<K, real>)
    ensures MeanOf(m, MeanOrNull(m))
  {
    if m != map[] {
      MeanTimesCount(m);
    }
  }

  lemma MeasuredIsTemps(t: ProbeTable, ids: set<nat>, m: map<nat, real>)
    requires ids <= t.Keys && Measured(t, ids, m)
    ensures m == Temps(t, ids)
  {
  }

  lemma CollapsedMean(t: ProbeTable, ids: set<nat>)
    requires ids <= t.Keys
    ensures MeanTemp(t, ids, MeanOrNull(Temps(t, ids)))
  {
    forall m: map<nat, real> | Measured(t, ids, m) ensures MeanOf(m, MeanOrNull(Temps(t, ids))) {
      MeasuredIsTemps(t, ids, m);
      MeanOrNullIsMean(m);
    }
  }

  lemma CollapsedAverages(t: ProbeTable, ids: set<nat>, row: ProbeReading)
    requires ids <= t.Keys && CollapsedFrom(t, ids, row)
    ensures IsAverage(t, ids, row)
  {
    var lo, hi :| Spans(t, ids, lo, hi) && row.at == Midpoint(lo, hi);
    CollapsedMiddle(t, ids, row.at, lo, hi);
    CollapsedMean(t, ids);
  }

  lemma GroupsRow(p: Pass, t: ProbeTable, t': ProbeTable, made: map<Group, nat>, g: Group)
    requires p.width > 0 && Downsampled(p, t, t', made) && Crowded(p, t, g)
    ensures g in made && made[g] in t' && made[g] !in t && IsAverage(t, Members(p, t, g), t'[made[g]])
  {
    CollapsedAverages(t, Members(p, t, g), t'[made[g]]);
  }

  lemma TogetherWithOne(p: Pass, t: ProbeTable, t': ProbeTable, made: map<Group, nat>, id: nat, x: nat)
    requires p.width > 0 && Downsampled(p, t, t', made) && id in t && InRange(p, t[id]) && GroupOf(p, t[id]) in made && x in t'
    ensures Together(p, t[id], t'[x]) <==> x == made[GroupOf(p, t[id])]
  {
    var g := GroupOf(p, t[id]);
    GroupsAreSingle(p, t, t', made, g);
    TogetherIsGrouped(p, t[id], t'[x]);
    assert x in Members(p, t', g) <==> x == made[g];
  }

  /** Rows in company become one new row, which holds their least number, the middle of their times and the mean of
      their temperatures; no other row of the result belongs together with them. */
  lemma CompanyBecomesItsAverage(p: Pass, t: ProbeTable, d: DeviceTable, t': ProbeTable, d': DeviceTable, rec: Record, id: nat) returns (n: nat)
    requires p.width > 0 && PassDone(p, t, d, t', d', rec) && id in t && HasCompany(p, t, id)
    ensures n in t' && n !in t && IsAverage(t, Company(p, t, id), t'[n])
    ensures forall x | x in t' :: Together(p, t[id], t'[x]) <==> x == n
  {
    CompanyIsGroup(p, t, id);
    var g := GroupOf(p, t[id]);
    GroupsRow(p, t, t', rec.made, g);
    n := rec.made[g];
    forall x | x in t' ensures Together(p, t[id], t'[x]) <==> x == n {
      TogetherWithOne(p, t, t', rec.made, id, x);
    }
  }

  /** Every new row comes about like that. */
  lemma NewRowHasCompany(p: Pass, t: ProbeTable, d: DeviceTable, t': ProbeTable, d': DeviceTable, rec: Record, n: nat) returns (id: nat)
    requires p.width > 0 && PassDone(p, t, d, t', d', rec) && n in t' && n !in t
    ensures id in t && HasCompany(p, t, id) && Together(p, t[id], t'[n])
  {
    var g := NewRowGroup(p, t, t', rec.made, n);
    CollapsedStaysPut(p, t, g, t'[n]);
    id :| id in Members(p, t, g);
    CompanyIsGroup(p, t, id);
    TogetherIsGrouped(p, t[id], t'[n]);
  }

  // ---------------------------------------------------------------- device rows

  /** `row` against the device rows `d` numbered in `seqs`: columns of the merged row. */
  ghost predicate Merges(session: string, address: string, kept: int, seqs: set<int>, d: DeviceTable, row: DeviceReading) {
    && LatestHeat(session, address, seqs, d, row.heating)
    && KeptTime(session, address, kept, seqs, d, row.at)
    && (forall m | PropaneOf(session, address, seqs, d, m) :: MeanOf(m, row.propane))
    && (forall m | BatteryOf(session, address, seqs, d, m) :: RoundedMeanOf(m, row.battery))
  }

  ghost predicate LatestHeat(session: string, address: string, seqs: set<int>, d: DeviceTable, heating: Option<string>) {
    forall q | q in seqs && DeviceKey(session, address, q) in d && LastRow(session, address, seqs, d, q) ::
      heating == d[DeviceKey(session, address, q)].heating
  }

  ghost predicate KeptTime(session: string, address: string, kept: int, seqs: set<int>, d: DeviceTable, at: int) {
    if kept in seqs && DeviceKey(session, address, kept) in d then at == d[DeviceKey(session, address, kept)].at
    else forall q | q in seqs && DeviceKey(session, address, q) in d && FirstRow(session, address, seqs, d, q) ::
      at == d[DeviceKey(session, address, q)].at
  }

  ghost predicate RoundedMeanOf(m: map<int, real>, mean: Option<int>) {
    if m == map[] then mean.None? else mean.Some? && Nearest(mean.value, m)
  }

  ghost predicate LastRow(session: string, address: string, seqs: set<int>, d: DeviceTable, q: int) {
    forall x | x in seqs && DeviceKey(session, address, x) in d :: x <= q
  }

  ghost predicate FirstRow(session: string, address: string, seqs: set<int>, d: DeviceTable, q: int) {
    forall x | x in seqs && DeviceKey(session, address, x) in d :: q <= x
  }

  ghost predicate PropaneOf(session: string, address: string, seqs: set<int>, d: DeviceTable, m: map<int, real>) {
    && (forall q :: q in m <==> q in seqs && DeviceKey(session, address, q) in d && d[DeviceKey(session, address, q)].propane.Some?)
    && (forall q | q in m :: d[DeviceKey(session, address, q)].propane == Some(m[q]))
  }

  ghost predicate BatteryOf(session: string, address: string, seqs: set<int>, d: DeviceTable, m: map<int, real>) {
    && (forall q :: q in m <==> q in seqs && DeviceKey(session, address, q) in d && d[DeviceKey(session, address, q)].battery.Some?)
    && (forall q | q in m :: m[q] == d[DeviceKey(session, address, q)].battery.value as real)
  }

  /** No integer is nearer the mean, and an even one is taken half way between two. */
  ghost predicate Nearest(battery: int, m: map<int, real>)
    requires m != map[]
  {
    var n, off := |m| as real, 2.0 * (battery as real * |m| as real - Total(m));
    -n <= off <= n && (off == n || off == -n ==> battery % 2 == 0)
  }

  lemma RoundedIsNearest(m: map<int, real>)
    requires m != map[]
    ensures Nearest(RoundHalfEven(Mean(m)), m)
  {
    assert |m| > 0;
    MeanTimesCount(m);
    RoundedSum(RoundHalfEven(Mean(m)), Mean(m), Total(m), |m| as real);
  }

  lemma PropanesAre(session: string, e: Entry, d: DeviceTable, m: map<int, real>)
    requires PropaneOf(session, e.address, e.seqs, d, m)
    ensures m == Propanes(session, e, d)
  {
  }

  lemma MergedPropane(session: string, e: Entry, d: DeviceTable, m: map<int, real>)
    requires PropaneOf(session, e.address, e.seqs, d, m)
    ensures MeanOf(m, MeanOrNull(Propanes(session, e, d)))
  {
    PropanesAre(session, e, d, m);
    MeanOrNullIsMean(m);
  }

  lemma BatteriesAre(session: string, e: Entry, d: DeviceTable, m: map<int, real>)
    requires BatteryOf(session, e.address, e.seqs, d, m)
    ensures m == Batteries(session, e, d)
  {
  }

  lemma MeanBatteryIsRounded(m: map<int, real>)
    ensures RoundedMeanOf(m, MeanBattery(m))
  {
    if m != map[] {
      RoundedIsNearest(m);
    }
  }

  lemma MergedBatteryRounded(session: string, e: Entry, d: DeviceTable, m: map<int, real>)
    requires BatteryOf(session, e.address, e.seqs, d, m)
    ensures RoundedMeanOf(m, MeanBattery(Batteries(session, e, d)))
  {
    BatteriesAre(session, e, d, m);
    MeanBatteryIsRounded(m);
  }

  lemma MergedHeatAndTime(session: string, e: Entry, d: DeviceTable, row: DeviceReading)
    requires LatestHeating(session, e, d, row.heating) && CanonicalTime(session, e, d, row.at)
    ensures LatestHeat(session, e.address, e.seqs, d, row.heating) && KeptTime(session, e.address, e.kept, e.seqs, d, row.at)
  {
    var last :| last in Sources(session, e, d) && (forall q | q in Sources(session, e, d) :: q <= last)
      && row.heating == d[DeviceKey(session, e.address, last)].heating;
    forall q | q in e.seqs && DeviceKey(session, e.address, q) in d && LastRow(session, e.address, e.seqs, d, q) ensures q == last {
      assert q in Sources(session, e, d);
    }
    forall q | q in e.seqs && DeviceKey(session, e.address, q) in d ensures q in Sources(session, e, d) {
    }
  }

  lemma MergedColumns(session: string, e: Entry, d: DeviceTable, row: DeviceReading)
    requires MergedFrom(session, e, d, row)
    ensures Merges(session, e.address, e.kept, e.seqs, d, row)
  {
    MergedHeatAndTime(session, e, d, row);
    forall m | PropaneOf(session, e.address, e.seqs, d, m) ensures MeanOf(m, row.propane) {
      MergedPropane(session, e, d, m);
    }
    forall m | BatteryOf(session, e.address, e.seqs, d, m) ensures RoundedMeanOf(m, row.battery) {
      MergedBatteryRounded(session, e, d, m);
    }
  }

  /** One turn of the rewriting: the rows an entry lists give way to one, numbered as the entry keeps, with the
      latest heating, the kept row's time (or the earliest), and the means of battery and propane. */
  lemma TurnMergesColumns(session: string, e: Entry, d: DeviceTable, d': DeviceTable)
    requires Rewritten(session, e, d, d') && exists q :: q in e.seqs && DeviceKey(session, e.address, q) in d
    ensures var home := DeviceKey(session, e.address, e.kept);
      && home in d' && Merges(session, e.address, e.kept, e.seqs, d, d'[home])
      && (forall k | k != home :: k in d' <==> k in d && !(k.session == session && k.address == e.address && k.seqNo in e.seqs))
      && (forall k | k != home && k in d' :: d'[k] == d[k])
  {
    var q :| q in e.seqs && DeviceKey(session, e.address, q) in d;
    assert q in Sources(session, e, d);
    MergedColumns(session, e, d, d'[DeviceKey(session, e.address, e.kept)]);
  }

  /** With complete cycles: the device row that a collapsed row joins holds, column by column, what the device rows
      of exactly its bucket's numbers held before the pass. */
  lemma CompanysDeviceRow(p: Pass, t: ProbeTable, d: DeviceTable, t': ProbeTable, d': DeviceTable, rec: Record, id: nat) returns (n: nat)
    requires p.width > 0 && Unique(t) && CompleteCycles(p, t) && PassDone(p, t, d, t', d', rec) && id in t && HasCompany(p, t, id)
    requires forall x | x in t :: DeviceKeyOf(t[x]) in d
    ensures n in t' && n !in t && Together(p, t[id], t'[n])
    ensures DeviceKeyOf(t'[n]) in d' && var seqs := set x | x in Company(p, t, id) :: t[x].seqNo;
      Merges(p.session, t[id].address, t'[n].seqNo, seqs, d, d'[DeviceKeyOf(t'[n])])
  {
    n := CompanyBecomesItsAverage(p, t, d, t', d', rec, id);
    CompanyIsGroup(p, t, id);
    var g := GroupOf(p, t[id]);
    GroupsAreSingle(p, t, t', rec.made, g);
    var made := rec.made[g];
    assert made in Members(p, t', g);
    TogetherIsGrouped(p, t[id], t'[made]);
    assert made == n;
    CollapsedRowJoinsBucketAverage(p, t, d, t', d', rec, g);
    MergedColumns(p.session, Entry(g.address, t'[n].seqNo, Numbers(p, t, g)), d, d'[DeviceKeyOf(t'[n])]);
  }

  // ---------------------------------------------------------------- both tiers, in ages

  /** Two readings of one probe of the session that are averaged once it has ended: both over seven days old and in
      the same five minutes, or both over one and up to seven days old and in the same minute. */
  ghost predicate Thins(session: string, now: int, r: ProbeReading, s: ProbeReading) {
    && r.session == session && s.session == session && r.address == s.address && r.probe == s.probe
    && (|| (now - r.at > 604_800_000_000 && now - s.at > 604_800_000_000 && SameStretch(300_000_000, r.at, s.at))
        || (604_800_000_000 >= now - r.at > 86_400_000_000 && 604_800_000_000 >= now - s.at > 86_400_000_000
            && SameStretch(60_000_000, r.at, s.at)))
  }

  ghost predicate Thinned(session: string, now: int, t: ProbeTable, id: nat)
    requires id in t
  {
    exists other :: other in t && other != id && Thins(session, now, t[id], t[other])
  }

  ghost function ThinnedWith(session: string, now: int, t: ProbeTable, id: nat): set<nat>
    requires id in t
  {
    set other | other in t && Thins(session, now, t[id], t[other])
  }

  lemma ThinsInATier(session: string, now: int, r: ProbeReading, s: ProbeReading)
    ensures Thins(session, now, r, s) <==>
      Together(Downsampler.WeekOld(session, now), r, s) || Together(Downsampler.DayOld(session, now), r, s)
    ensures InTime(Downsampler.WeekOld(session, now), r) ==> !InTime(Downsampler.DayOld(session, now), r)
  {
  }

  /** Rows in range of a pass are the same before and after a pass over another range. */
  ghost predicate SameInRange(q: Pass, t: ProbeTable, t': ProbeTable) {
    && (forall id | id in t && InTime(q, t[id]) :: id in t' && t'[id] == t[id])
    && (forall id | id in t' && InTime(q, t'[id]) :: id in t && t'[id] == t[id])
  }

  lemma OtherRangeSame(p: Pass, q: Pass, t: ProbeTable, t': ProbeTable, made: map<Group, nat>)
    requires p.width > 0 && q.width > 0 && Apart(p, q) && Downsampled(p, t, t', made)
    ensures SameInRange(q, t, t')
  {
    forall id | (id in t && InTime(q, t[id])) || (id in t' && InTime(q, t'[id])) ensures id in t && id in t' && t'[id] == t[id] {
      OtherTierUntouched(p, q, t, t', made, id);
    }
  }

  lemma SameCompany(q: Pass, t: ProbeTable, t': ProbeTable, id: nat)
    requires SameInRange(q, t, t') && id in t && InTime(q, t[id])
    ensures id in t' && t'[id] == t[id] && Company(q, t, id) == Company(q, t', id)
    ensures HasCompany(q, t, id) <==> HasCompany(q, t', id)
    ensures forall x | x in Company(q, t, id) :: x in t' && t'[x] == t[x]
  {
    forall other ensures other in Company(q, t, id) <==> other in Company(q, t', id) {
    }
    if other :| other in t && other != id && Together(q, t[id], t[other]) {
      assert other in Company(q, t', id);
    }
    if other :| other in t' && other != id && Together(q, t'[id], t'[other]) {
      assert other in Company(q, t, id);
    }
  }

  lemma CompanyInRange(q: Pass, t: ProbeTable, id: nat)
    requires id in t
    ensures HasCompany(q, t, id) ==> InTime(q, t[id])
  {
  }

  lemma ThinnedInATier(session: string, now: int, t: ProbeTable, id: nat)
    requires id in t
    ensures var week, day := Downsampler.WeekOld(session, now), Downsampler.DayOld(session, now);
      && (Thinned(session, now, t, id) <==> HasCompany(week, t, id) || HasCompany(day, t, id))
      && (HasCompany(week, t, id) ==> ThinnedWith(session, now, t, id) == Company(week, t, id))
      && (HasCompany(day, t, id) ==> ThinnedWith(session, now, t, id) == Company(day, t, id))
  {
    forall other | other in t
      ensures var week, day := Downsampler.WeekOld(session, now), Downsampler.DayOld(session, now);
        && (Thins(session, now, t[id], t[other]) <==> Together(week, t[id], t[other]) || Together(day, t[id], t[other]))
        && (InTime(week, t[id]) ==> !InTime(day, t[id]))
    {
      ThinsInATier(session, now, t[id], t[other]);
    }
  }

  lemma AverageOfSame(t: ProbeTable, t': ProbeTable, ids: set<nat>, row: ProbeReading)
    requires ids <= t.Keys && ids <= t'.Keys && (forall id | id in ids :: t[id] == t'[id]) && IsAverage(t', ids, row)
    ensures IsAverage(t, ids, row)
  {
    forall a, b | Earliest(t, ids, a) && Latest(t, ids, b) ensures Halfway(t[a].at, t[b].at, row.at) {
      assert Earliest(t', ids, a) && Latest(t', ids, b);
    }
    forall m: map<nat, real> | Measured(t, ids, m) ensures MeanOf(m, row.temp) {
      assert Measured(t', ids, m);
    }
  }

  /** Once a session has been downsampled in both tiers, exactly the readings that have company in their tier are
      gone, and every other one is as it was, those of the last day and of other sessions included. */
  lemma BothTiersThin(session: string, now: int, t: ProbeTable, d: DeviceTable, t1: ProbeTable, d1: DeviceTable, first: Record,
                      t2: ProbeTable, d2: DeviceTable, second: Record, id: nat)
    requires PassDone(Downsampler.WeekOld(session, now), t, d, t1, d1, first)
    requires PassDone(Downsampler.DayOld(session, now), t1, d1, t2, d2, second)
    requires (forall x | x in t2 && x !in t1 :: x !in t) && id in t
    ensures id in t2 <==> !Thinned(session, now, t, id)
    ensures id in t2 ==> t2[id] == t[id]
  {
    var week, day := Downsampler.WeekOld(session, now), Downsampler.DayOld(session, now);
    TiersApart(session, now);
    RowGoesExactlyWhenInCompany(week, t, d, t1, d1, first, id);
    OtherRangeSame(week, day, t, t1, first.made);
    ThinnedInATier(session, now, t, id);
    if id in t1 {
      RowGoesExactlyWhenInCompany(day, t1, d1, t2, d2, second, id);
      if InTime(day, t[id]) {
        SameCompany(day, t, t1, id);
      } else {
        CompanyInRange(day, t, id);
        CompanyInRange(day, t1, id);
      }
    }
  }

  /** What the first of two passes over different ranges averaged, the second leaves. */
  lemma AverageStays(p: Pass, q: Pass, t: ProbeTable, d: DeviceTable, t1: ProbeTable, d1: DeviceTable, first: Record,
                     t2: ProbeTable, made: map<Group, nat>, id: nat) returns (n: nat)
    requires p.width > 0 && q.width > 0 && Apart(q, p) && PassDone(p, t, d, t1, d1, first) && Downsampled(q, t1, t2, made)
    requires id in t && HasCompany(p, t, id)
    ensures n in t2 && n !in t && IsAverage(t, Company(p, t, id), t2[n])
  {
    n := CompanyBecomesItsAverage(p, t, d, t1, d1, first, id);
    assert Together(p, t[id], t1[n]);
    OtherRangeSame(q, p, t1, t2, made);
  }

  /** What the second averages are rows that the first left alone. */
  lemma AverageOfUntouched(q: Pass, t: ProbeTable, t1: ProbeTable, d1: DeviceTable, t2: ProbeTable, d2: DeviceTable,
                           second: Record, id: nat) returns (n: nat)
    requires q.width > 0 && SameInRange(q, t, t1) && PassDone(q, t1, d1, t2, d2, second)
    requires (forall x | x in t2 && x !in t1 :: x !in t) && id in t && HasCompany(q, t, id)
    ensures n in t2 && n !in t && IsAverage(t, Company(q, t, id), t2[n])
  {
    CompanyInRange(q, t, id);
    SameCompany(q, t, t1, id);
    n := CompanyBecomesItsAverage(q, t1, d1, t2, d2, second, id);
    AverageOfSame(t, t1, Company(q, t, id), t2[n]);
  }

  /** And those that are gone have become new rows, each the average of a reading's company in its tier. */
  lemma BothTiersAverage(session: string, now: int, t: ProbeTable, d: DeviceTable, t1: ProbeTable, d1: DeviceTable, first: Record,
                         t2: ProbeTable, d2: DeviceTable, second: Record, id: nat) returns (n: nat)
    requires PassDone(Downsampler.WeekOld(session, now), t, d, t1, d1, first)
    requires PassDone(Downsampler.DayOld(session, now), t1, d1, t2, d2, second)
    requires (forall x | x in t2 && x !in t1 :: x !in t) && id in t && Thinned(session, now, t, id)
    ensures n in t2 && n !in t && IsAverage(t, ThinnedWith(session, now, t, id), t2[n])
  {
    var week, day := Downsampler.WeekOld(session, now), Downsampler.DayOld(session, now);
    TiersApart(session, now);
    ThinnedInATier(session, now, t, id);
    if HasCompany(week, t, id) {
      n := AverageStays(week, day, t, d, t1, d1, first, t2, second.made, id);
    } else {
      OtherRangeSame(week, day, t, t1, first.made);
      n := AverageOfUntouched(day, t, t1, d1, t2, d2, second, id);
    }
  }
}
