/** The last minutes of samples per probe, kept sorted and pruned as they come in. */
module RollingBuffer {
  import opened Options
  import opened Decimal

  const WINDOW_SECONDS: real := 180.0

  datatype Sample = Sample(ts: real, temp: real)

  type Series = map<string, seq<Sample>>

  // ---------------------------------------------------------------- keys

  function Text(n: int): string {
    if n < 0 then "-" + Digits(-n) else Digits(n)
  }

  function KeyOf(address: string, probe: int): string {
    address + ":" + Text(probe)
  }

  lemma TextInjective(a: int, b: int)
    requires Text(a) == Text(b)
    ensures a == b
  {
    DigitsValue(if a < 0 then -a else a);
    DigitsValue(if b < 0 then -b else b);
    if a < 0 && b < 0 {
      assert Text(a)[1..] == Digits(-a) && Text(b)[1..] == Digits(-b);
    }
    assert a < 0 <==> Text(a)[0] == '-';
    assert b < 0 <==> Text(b)[0] == '-';
  }

  lemma TextHasNoColon(n: int)
    ensures ':' !in Text(n)
  {
    DigitsValue(if n < 0 then -n else n);
  }

  lemma LastColon(a: string, b: string, x: string, y: string)
    requires a + ":" + x == b + ":" + y && ':' !in x && ':' !in y
    ensures a == b && x == y
  {
    var s, t := a + ":" + x, b + ":" + y;
    assert s[|a|] == ':' && s[|b|] == ':';
    assert forall i | |a| < i < |s| :: s[i] == x[i - |a| - 1];
    assert forall i | |b| < i < |t| :: t[i] == y[i - |b| - 1];
    assert s[..|a|] == a && t[..|b|] == b;
    assert s[|a| + 1..] == x && t[|b| + 1..] == y;
  }

  /** No two probes share a series, whatever colons the addresses hold. */
  lemma KeysApart(a: string, p: int, b: string, q: int)
    requires KeyOf(a, p) == KeyOf(b, q)
    ensures a == b && p == q
  {
    TextHasNoColon(p);
    TextHasNoColon(q);
    LastColon(a, b, Text(p), Text(q));
    TextInjective(p, q);
  }

  // ---------------------------------------------------------------- one series

  ghost predicate Sorted(s: seq<Sample>) {
    forall i, j | 0 <= i < j < |s| :: s[i].ts <= s[j].ts
  }

  /** After every sample that is not later. */
  function Insert(s: seq<Sample>, x: Sample): seq<Sample> {
    if s == [] || s[|s| - 1].ts <= x.ts then s + [x] else Insert(s[..|s| - 1], x) + [s[|s| - 1]]
  }

  /** How many samples at the front are before `cutoff`. */
  function Stale(s: seq<Sample>, cutoff: real): (n: nat)
    ensures n <= |s| && (forall i | 0 <= i < n :: s[i].ts < cutoff) && (n < |s| ==> s[n].ts >= cutoff)
  {
    if s != [] && s[0].ts < cutoff then 1 + Stale(s[1..], cutoff) else 0
  }

  function Prune(s: seq<Sample>, cutoff: real): seq<Sample> {
    s[Stale(s, cutoff)..]
  }

  function Entries(series: Series, key: string): seq<Sample> {
    if key in series then series[key] else []
  }

  // ---------------------------------------------------------------- the operations

  datatype Event =
    | Push(address: Option<string>, probe: Option<int>, timestamp: Option<real>, temp: Option<real>, now: real)
    | GetSeries(of: string, shown: int, now: real)
    | Reset(now: real)

  function Pruned(series: Series, key: string, cutoff: real): Series {
    if key in series then series[key := Prune(series[key], cutoff)] else series
  }

  /** What a reader gets at `now`. */
  function Shown(series: Series, window: real, key: string, now: real): seq<Sample> {
    Entries(Pruned(series, key, now - window), key)
  }

  /** A sample without an address, a probe or a temperature is ignored. */
  predicate Counts(e: Event) {
    e.Push? && e.address.Some? && e.probe.Some? && e.temp.Some?
  }

  function SampleOf(e: Event): Sample
    requires Counts(e)
  {
    Sample(if e.timestamp.Some? then e.timestamp.value else e.now, e.temp.value)
  }

  function After(series: Series, window: real, e: Event): Series {
    match e
    case Reset(_) => map[]
    case GetSeries(of, shown, now) => Pruned(series, KeyOf(of, shown), now - window)
    case Push(_, _, _, _, _) =>
      if Counts(e) then Stored(series, window, KeyOf(e.address.value, e.probe.value), SampleOf(e)) else series
  }

  function Stored(series: Series, window: real, key: string, x: Sample): Series {
    Replaced(series, key, Insert(Entries(series, key), x), x.ts - window)
  }

  function Replaced(series: Series, key: string, s: seq<Sample>, cutoff: real): Series {
    Pruned(series[key := s], key, cutoff)
  }

  ghost predicate AllSorted(series: Series) {
    forall k | k in series :: Sorted(series[k])
  }

  class Buffer {
    const window: real
    var series: Series

    constructor (windowSecs: Option<real>)
      ensures series == map[]
      ensures window == if windowSecs.None? || windowSecs.value == 0.0 then 180.0 else windowSecs.value
    {
      window := if windowSecs.Some? && windowSecs.value != 0.0 then windowSecs.value else WINDOW_SECONDS;
      series := map[];
    }

    method PruneKey(key: string, reference: real)
      modifies this
      ensures series == Pruned(old(series), key, reference - window)
    {
      if key !in series || series[key] == [] {
        return;
      }
      var arr, cutoff := series[key], reference - window;
      var i := 0;
      while i < |arr| && arr[i].ts < cutoff
        invariant 0 <= i <= |arr|
        invariant Stale(arr, cutoff) == i + Stale(arr[i..], cutoff)
      {
        i := i + 1;
      }
      if i > 0 {
        series := series[key := arr[i..]];
      }
    }

    method Store(key: string, x: Sample)
      requires AllSorted(series)
      modifies this
      ensures series == Stored(old(series), window, key, x) && AllSorted(series)
    {
      ghost var before := series;
      if key !in series {
        series := series[key := []];
      }
      EntrySorted(before, key, series[key]);
      var arr := Placed(series[key], x);
      series := series[key := arr];
      assert series == before[key := arr];
      PruneKey(key, x.ts);
      StoredFrom(before, window, key, x, arr, series);
    }

    method Add(address: Option<string>, probe: Option<int>, timestamp: Option<real>, temp: Option<real>, now: real)
      requires AllSorted(series)
      modifies this
      ensures series == After(old(series), window, Push(address, probe, timestamp, temp, now)) && AllSorted(series)
    {
      if address.None? || probe.None? || temp.None? {
        return;
      }
      var ts := if timestamp.Some? then timestamp.value else now;
      Store(KeyOf(address.value, probe.value), Sample(ts, temp.value));
    }

    method Get(address: string, probe: int, now: real) returns (r: seq<Sample>)
      requires AllSorted(series)
      modifies this
      ensures series == After(old(series), window, GetSeries(address, probe, now)) && AllSorted(series)
      ensures r == Shown(old(series), window, KeyOf(address, probe), now)
    {
      AfterSorted(series, window, GetSeries(address, probe, now));
      PruneKey(KeyOf(address, probe), now);
      return Entries(series, KeyOf(address, probe));
    }

    method Clear()
      modifies this
      ensures series == map[]
    {
      series := map[];
    }
  }

  /** Appends, or finds the place by binary search when an older sample arrives late. */
  method Placed(arr: seq<Sample>, x: Sample) returns (r: seq<Sample>)
    requires Sorted(arr)
    ensures r == Insert(arr, x)
  {
    if arr == [] || arr[|arr| - 1].ts <= x.ts {
      return arr + [x];
    }
    var lo, hi := 0, |arr|;
    while lo < hi
      invariant 0 <= lo <= hi <= |arr|
      invariant forall i | 0 <= i < lo :: arr[i].ts <= x.ts
      invariant forall i | hi <= i < |arr| :: arr[i].ts > x.ts
    {
      var mid := (lo + hi) / 2;
      if arr[mid].ts <= x.ts {
        lo := mid + 1;
      } else {
        hi := mid;
      }
    }
    InsertBySplice(arr, x, lo);
    return arr[..lo] + [x] + arr[lo..];
  }

  /** Where binary search ends is where the sample belongs. */
  lemma {:induction false} InsertBySplice(s: seq<Sample>, x: Sample, at: nat)
    requires at <= |s|
    requires forall i | 0 <= i < at :: s[i].ts <= x.ts
    requires forall i | at <= i < |s| :: s[i].ts > x.ts
    ensures s[..at] + [x] + s[at..] == Insert(s, x)
    decreases |s|
  {
    if at < |s| {
      var front := s[..|s| - 1];
      InsertBySplice(front, x, at);
      assert front[..at] == s[..at] && s[at..] == front[at..] + [s[|s| - 1]];
    }
  }

  lemma {:induction false} InsertBounded(s: seq<Sample>, x: Sample, hi: real)
    requires x.ts <= hi && forall i | 0 <= i < |s| :: s[i].ts <= hi
    ensures forall i | 0 <= i < |Insert(s, x)| :: Insert(s, x)[i].ts <= hi
    decreases |s|
  {
    if s != [] && s[|s| - 1].ts > x.ts {
      InsertBounded(s[..|s| - 1], x, hi);
    }
  }

  lemma {:induction false} InsertSorted(s: seq<Sample>, x: Sample)
    requires Sorted(s)
    ensures Sorted(Insert(s, x))
    decreases |s|
  {
    if s != [] && s[|s| - 1].ts > x.ts {
      var front, last := s[..|s| - 1], s[|s| - 1];
      InsertSorted(front, x);
      InsertBounded(front, x, last.ts);
    }
  }

  lemma StoredSorted(series: Series, window: real, key: string, x: Sample)
    requires AllSorted(series)
    ensures AllSorted(Stored(series, window, key, x))
  {
    InsertSorted(Entries(series, key), x);
  }

  lemma EntrySorted(series: Series, key: string, s: seq<Sample>)
    requires AllSorted(series) && s == Entries(series, key)
    ensures Sorted(s)
  {
  }

  lemma StoredIs(series: Series, window: real, key: string, x: Sample, s: seq<Sample>, after: Series)
    requires s == Insert(Entries(series, key), x) && after == Pruned(series[key := s], key, x.ts - window)
    ensures after == Stored(series, window, key, x)
  {
  }

  lemma StoredFrom(series: Series, window: real, key: string, x: Sample, s: seq<Sample>, after: Series)
    requires AllSorted(series) && s == Insert(Entries(series, key), x) && after == Pruned(series[key := s], key, x.ts - window)
    ensures after == Stored(series, window, key, x) && AllSorted(after)
  {
    StoredIs(series, window, key, x, s, after);
    StoredSorted(series, window, key, x);
  }

  lemma AfterSorted(series: Series, window: real, e: Event)
    requires AllSorted(series)
    ensures AllSorted(After(series, window, e))
  {
    if Counts(e) {
      StoredSorted(series, window, KeyOf(e.address.value, e.probe.value), SampleOf(e));
    }
  }

  // ---------------------------------------------------------------- the simple form

  /** What was pushed for a probe since the last reset, in order of arrival, nothing dropped. */
  function History(events: seq<Event>, address: string, probe: int): seq<Sample> {
    if events == [] then []
    else Remembered(History(events[..|events| - 1], address, probe), events[|events| - 1], address, probe)
  }

  function Remembered(h: seq<Sample>, e: Event, address: string, probe: int): seq<Sample> {
    if e.Reset? then []
    else if Counts(e) && e.address.value == address && e.probe.value == probe then h + [SampleOf(e)]
    else h
  }

  /** A push of the probe with a temperature is remembered, under its timestamp or the time of arrival; a reset forgets
      everything; pushes of other probes, incomplete ones and reads change nothing. */
  lemma HistoryIsOfPushes(events: seq<Event>, e: Event, address: string, probe: int)
    ensures var h, h' := History(events, address, probe), History(events + [e], address, probe);
      match e
      case Reset(_) => h' == []
      case GetSeries(_, _, _) => h' == h
      case Push(a, p, at, temp, now) =>
        if a == Some(address) && p == Some(probe) && temp.Some?
        then h' == h + [Sample(if at == None then now else at.value, temp.value)] else h' == h
  {
    assert (events + [e])[..|events|] == events;
  }

  function Run(events: seq<Event>, window: real): Series {
    if events == [] then map[] else After(Run(events[..|events| - 1], window), window, events[|events| - 1])
  }

  /** The samples stamped `v`, in order. */
  function At(s: seq<Sample>, v: real): seq<Sample> {
    if s == [] then [] else At(s[..|s| - 1], v) + if s[|s| - 1].ts == v then [s[|s| - 1]] else []
  }

  /** `r` is `h` without what is before `cutoff`, sorted by time, samples of one time in order of arrival. */
  ghost predicate SortedTail(r: seq<Sample>, h: seq<Sample>, cutoff: real) {
    && Sorted(r)
    && forall v :: At(r, v) == if v >= cutoff then At(h, v) else []
  }

  /** What is left of the samples stamped `v` when every push drops what lies more than a window before it. */
  function Left(h: seq<Sample>, window: real, v: real): seq<Sample> {
    if h == [] || h[|h| - 1].ts - window > v then []
    else Left(h[..|h| - 1], window, v) + if h[|h| - 1].ts == v then [h[|h| - 1]] else []
  }

  /** No read so far was later than `now`. */
  ghost predicate ReadsBy(events: seq<Event>, now: real) {
    forall i | 0 <= i < |events| && events[i].GetSeries? :: events[i].now <= now
  }

  /** No sample from `cutoff` on was followed by one stamped more than a window later. */
  ghost predicate NoneHidden(h: seq<Sample>, window: real, cutoff: real) {
    forall i, j | 0 <= i <= j < |h| && h[i].ts >= cutoff :: h[j].ts - window <= h[i].ts
  }

  /** The clock never goes back, and no sample is stamped later than the clock at its push. */
  ghost predicate Punctual(events: seq<Event>, now: real) {
    && (forall i, j | 0 <= i < j < |events| :: events[i].now <= events[j].now)
    && (forall i | 0 <= i < |events| :: events[i].now <= now)
    && (forall i | 0 <= i < |events| && Counts(events[i]) :: SampleOf(events[i]).ts <= events[i].now)
  }

  lemma AtAppend(s: seq<Sample>, x: Sample, v: real)
    ensures At(s + [x], v) == At(s, v) + if x.ts == v then [x] else []
  {
    assert (s + [x])[..|s|] == s;
  }

  lemma {:induction false} AtConcat(a: seq<Sample>, b: seq<Sample>, v: real)
    ensures At(a + b, v) == At(a, v) + At(b, v)
    decreases |b|
  {
    if b == [] {
      assert a + b == a;
    } else {
      AtConcat(a, b[..|b| - 1], v);
      assert a + b == (a + b[..|b| - 1]) + [b[|b| - 1]];
      AtAppend(a + b[..|b| - 1], b[|b| - 1], v);
    }
  }

  lemma {:induction false} AtNone(s: seq<Sample>, v: real)
    requires forall i | 0 <= i < |s| :: s[i].ts != v
    ensures At(s, v) == []
    decreases |s|
  {
    if s != [] {
      AtNone(s[..|s| - 1], v);
    }
  }

  lemma {:induction false} AtInsert(s: seq<Sample>, x: Sample, v: real)
    ensures At(Insert(s, x), v) == At(s, v) + if x.ts == v then [x] else []
    decreases |s|
  {
    if s == [] || s[|s| - 1].ts <= x.ts {
      AtAppend(s, x, v);
    } else {
      AtInsert(s[..|s| - 1], x, v);
      AtAppend(Insert(s[..|s| - 1], x), s[|s| - 1], v);
    }
  }

  lemma AtPrune(s: seq<Sample>, cutoff: real, r: seq<Sample>, v: real)
    requires r == Prune(s, cutoff)
    ensures v >= cutoff ==> At(r, v) == At(s, v)
    ensures v < cutoff && Sorted(s) ==> At(r, v) == []
  {
    var n := Stale(s, cutoff);
    if v >= cutoff {
      AtNone(s[..n], v);
      AtConcat(s[..n], r, v);
      assert s == s[..n] + r;
    } else if Sorted(s) {
      AtNone(r, v);
    }
  }

  lemma PrunedEntry(series: Series, key: string, s: seq<Sample>, cutoff: real, other: string)
    ensures Entries(Replaced(series, key, s, cutoff), other) == if key == other then Prune(s, cutoff) else Entries(series, other)
  {
  }

  /** One series after an insert and a prune, against what is left of a history with one more sample. */
  lemma InsertLeaves(s: seq<Sample>, h: seq<Sample>, x: Sample, window: real, s2: seq<Sample>, r: seq<Sample>, v: real)
    requires Sorted(s) && At(s, v) == Left(h, window, v)
    requires s2 == Insert(s, x) && r == Prune(s2, x.ts - window)
    ensures At(r, v) == Left(h + [x], window, v)
  {
    InsertSorted(s, x);
    AtInsert(s, x, v);
    AtPrune(s2, x.ts - window, r, v);
    LeftAppend(h, x, window, v);
  }

  lemma StoreLeaves(series: Series, window: real, own: string, x: Sample, key: string, h: seq<Sample>, r: seq<Sample>, v: real)
    requires AllSorted(series) && At(Entries(series, key), v) == Left(h, window, v)
    requires r == Entries(Stored(series, window, own, x), key)
    ensures At(r, v) == Left(if own == key then h + [x] else h, window, v)
  {
    var s2 := Insert(Entries(series, own), x);
    PrunedEntry(series, own, s2, x.ts - window, key);
    if own == key {
      InsertLeaves(Entries(series, key), h, x, window, s2, r, v);
    }
  }

  lemma SameKey(e: Event, address: string, probe: int)
    requires Counts(e)
    ensures KeyOf(e.address.value, e.probe.value) == KeyOf(address, probe) <==> e.address.value == address && e.probe.value == probe
  {
    if KeyOf(e.address.value, e.probe.value) == KeyOf(address, probe) {
      KeysApart(e.address.value, e.probe.value, address, probe);
    }
  }

  lemma PushLeaves(series: Series, window: real, e: Event, h: seq<Sample>, address: string, probe: int, key: string, r: seq<Sample>, v: real)
    requires Counts(e) && key == KeyOf(address, probe) && AllSorted(series) && At(Entries(series, key), v) == Left(h, window, v)
    requires r == Entries(After(series, window, e), key)
    ensures At(r, v) == Left(Remembered(h, e, address, probe), window, v)
  {
    var own := KeyOf(e.address.value, e.probe.value);
    SameKey(e, address, probe);
    assert Remembered(h, e, address, probe) == if own == key then h + [SampleOf(e)] else h;
    StoreLeaves(series, window, own, SampleOf(e), key, h, r, v);
  }

  /** A reset leaves nothing, an incomplete sample everything. */
  lemma OtherLeaves(series: Series, window: real, e: Event, h: seq<Sample>, address: string, probe: int, key: string, v: real)
    requires !Counts(e) && !e.GetSeries? && At(Entries(series, key), v) == Left(h, window, v)
    ensures At(Entries(After(series, window, e), key), v) == Left(Remembered(h, e, address, probe), window, v)
  {
    if e.Reset? {
      assert Entries(After(series, window, e), key) == [] && Remembered(h, e, address, probe) == [];
    } else {
      assert After(series, window, e) == series && Remembered(h, e, address, probe) == h;
    }
  }

  /** What an operation leaves of the samples stamped `v`, unless it is a read at a time when they are past. */
  lemma StepLeaves(series: Series, window: real, e: Event, h: seq<Sample>, address: string, probe: int, key: string, r: seq<Sample>, v: real)
    requires key == KeyOf(address, probe) && AllSorted(series) && At(Entries(series, key), v) == Left(h, window, v)
    requires r == Entries(After(series, window, e), key)
    requires e.GetSeries? ==> e.now - window <= v
    ensures At(r, v) == Left(Remembered(h, e, address, probe), window, v)
  {
    if Counts(e) {
      PushLeaves(series, window, e, h, address, probe, key, r, v);
    } else if e.GetSeries? {
      ReadLeaves(series, KeyOf(e.of, e.shown), e.now - window, key, r, v);
    } else {
      OtherLeaves(series, window, e, h, address, probe, key, v);
    }
  }

  lemma ReadEntry(series: Series, own: string, cutoff: real, key: string)
    ensures Entries(Pruned(series, own, cutoff), key) == if own == key then Prune(Entries(series, key), cutoff) else Entries(series, key)
  {
  }

  lemma ReadLeaves(series: Series, own: string, cutoff: real, key: string, r: seq<Sample>, v: real)
    requires cutoff <= v && r == Entries(Pruned(series, own, cutoff), key)
    ensures At(r, v) == At(Entries(series, key), v)
  {
    ReadEntry(series, own, cutoff, key);
    if own == key {
      AtPrune(Entries(series, key), cutoff, r, v);
    }
  }

  /** At every point of a run the buffer holds, of what is still in the window, exactly what no push hid. */
  lemma {:induction false} HoldsWhatIsLeft(events: seq<Event>, window: real, now: real, address: string, probe: int, v: real)
    requires ReadsBy(events, now) && v >= now - window
    ensures AllSorted(Run(events, window))
    ensures At(Entries(Run(events, window), KeyOf(address, probe)), v) == Left(History(events, address, probe), window, v)
    decreases |events|
  {
    if events != [] {
      var before, e := events[..|events| - 1], events[|events| - 1];
      HoldsWhatIsLeft(before, window, now, address, probe, v);
      AfterSorted(Run(before, window), window, e);
      StepLeaves(Run(before, window), window, e, History(before, address, probe), address, probe,
                 KeyOf(address, probe), Entries(Run(events, window), KeyOf(address, probe)), v);
    }
  }

  lemma LeftAppend(h: seq<Sample>, x: Sample, window: real, v: real)
    ensures Left(h + [x], window, v) ==
      if x.ts - window > v then [] else Left(h, window, v) + if x.ts == v then [x] else []
  {
    assert (h + [x])[..|h|] == h;
  }

  // ---------------------------------------------------------------- when nothing is hidden

  lemma {:induction false} LeftIfNotHidden(h: seq<Sample>, window: real, v: real)
    requires forall i, j | 0 <= i <= j < |h| && h[i].ts == v :: h[j].ts - window <= v
    ensures Left(h, window, v) == At(h, v)
    decreases |h|
  {
    if h != [] {
      var front := h[..|h| - 1];
      assert forall i | 0 <= i < |front| :: front[i] == h[i];
      LeftIfNotHidden(front, window, v);
      if h[|h| - 1].ts - window > v {
        AtNone(h, v);
      }
    }
  }

  lemma {:induction false} LessIfHidden(h: seq<Sample>, window: real, v: real, i: nat, j: nat)
    requires i <= j < |h| && h[i].ts == v && h[j].ts - window > v
    ensures |Left(h, window, v)| < |At(h, v)|
    decreases |h|
  {
    var front := h[..|h| - 1];
    if j < |front| {
      LessIfHidden(front, window, v, i, j);
    } else {
      AtSome(h, v, i);
    }
  }

  lemma {:induction false} AtSome(h: seq<Sample>, v: real, i: nat)
    requires i < |h| && h[i].ts == v
    ensures |At(h, v)| > 0
    decreases |h|
  {
    if i < |h| - 1 {
      AtSome(h[..|h| - 1], v, i);
    }
  }

  /** `s` is sorted and holds what is left of `h` from `cutoff` on. */
  ghost predicate Agrees(s: seq<Sample>, h: seq<Sample>, window: real, cutoff: real) {
    Sorted(s) && forall v | v >= cutoff :: At(s, v) == Left(h, window, v)
  }

  lemma HoldsAllLeft(events: seq<Event>, window: real, now: real, address: string, probe: int, key: string)
    requires ReadsBy(events, now) && key == KeyOf(address, probe)
    ensures Agrees(Entries(Run(events, window), key), History(events, address, probe), window, now - window)
  {
    HoldsWhatIsLeft(events, window, now, address, probe, now - window);
    var s, h := Entries(Run(events, window), key), History(events, address, probe);
    forall v | v >= now - window ensures At(s, v) == Left(h, window, v) {
      HoldsWhatIsLeft(events, window, now, address, probe, v);
    }
  }

  /** `r` is sorted and holds what is left of `h` from `cutoff` on, and nothing else. */
  ghost predicate LeftTail(r: seq<Sample>, h: seq<Sample>, window: real, cutoff: real) {
    Sorted(r) && forall v :: At(r, v) == if v >= cutoff then Left(h, window, v) else []
  }

  lemma PruneShows(s: seq<Sample>, h: seq<Sample>, window: real, cutoff: real)
    requires Agrees(s, h, window, cutoff)
    ensures LeftTail(Prune(s, cutoff), h, window, cutoff)
  {
    forall v ensures At(Prune(s, cutoff), v) == if v >= cutoff then Left(h, window, v) else [] {
      AtPrune(s, cutoff, Prune(s, cutoff), v);
    }
  }

  lemma TailIfNoneHidden(r: seq<Sample>, h: seq<Sample>, window: real, cutoff: real)
    requires LeftTail(r, h, window, cutoff) && NoneHidden(h, window, cutoff)
    ensures SortedTail(r, h, cutoff)
  {
    forall v ensures At(r, v) == if v >= cutoff then At(h, v) else [] {
      if v >= cutoff {
        LeftIfNotHidden(h, window, v);
      }
    }
  }

  lemma NoneHiddenIfTail(r: seq<Sample>, h: seq<Sample>, window: real, cutoff: real)
    requires LeftTail(r, h, window, cutoff) && SortedTail(r, h, cutoff)
    ensures NoneHidden(h, window, cutoff)
  {
    forall i, j | 0 <= i <= j < |h| && h[i].ts >= cutoff ensures h[j].ts - window <= h[i].ts {
      assert At(h, h[i].ts) == At(r, h[i].ts) == Left(h, window, h[i].ts);
      if h[j].ts - window > h[i].ts {
        LessIfHidden(h, window, h[i].ts, i, j);
      }
    }
  }

  lemma TailExactly(r: seq<Sample>, h: seq<Sample>, window: real, cutoff: real)
    requires LeftTail(r, h, window, cutoff)
    ensures SortedTail(r, h, cutoff) <==> NoneHidden(h, window, cutoff)
  {
    if NoneHidden(h, window, cutoff) {
      TailIfNoneHidden(r, h, window, cutoff);
    } else if SortedTail(r, h, cutoff) {
      NoneHiddenIfTail(r, h, window, cutoff);
    }
  }

  lemma ShownIsLeft(series: Series, window: real, now: real, key: string, h: seq<Sample>)
    requires Agrees(Entries(series, key), h, window, now - window)
    ensures LeftTail(Shown(series, window, key, now), h, window, now - window)
  {
    PruneShows(Entries(series, key), h, window, now - window);
    assert Shown(series, window, key, now) == Prune(Entries(series, key), now - window);
  }

  /** Whatever the stamps: what the buffer shows at `now` is the whole history since the last reset, cut off a
      window ago and sorted, if and only if no sample of that tail was followed by one stamped more than a window
      after it. */
  lemma ShowsTheWindowExactlyWhen(events: seq<Event>, window: real, now: real, address: string, probe: int)
    requires ReadsBy(events, now)
    ensures var h := History(events, address, probe);
      SortedTail(Shown(Run(events, window), window, KeyOf(address, probe), now), h, now - window) <==>
      NoneHidden(h, window, now - window)
  {
    HoldsAllLeft(events, window, now, address, probe, KeyOf(address, probe));
    ShownIsLeft(Run(events, window), window, now, KeyOf(address, probe), History(events, address, probe));
    TailExactly(Shown(Run(events, window), window, KeyOf(address, probe), now), History(events, address, probe), window, now - window);
  }

  lemma {:induction false} PunctualHistory(events: seq<Event>, now: real, address: string, probe: int)
    requires Punctual(events, now)
    ensures forall x | x in History(events, address, probe) :: x.ts <= now
    decreases |events|
  {
    if events != [] {
      PunctualHistory(events[..|events| - 1], now, address, probe);
    }
  }

  /** So it is whenever the clock never went back and no sample was stamped ahead of it. */
  lemma ShowsTheWindow(events: seq<Event>, window: real, now: real, address: string, probe: int)
    requires Punctual(events, now)
    ensures SortedTail(Shown(Run(events, window), window, KeyOf(address, probe), now),
                       History(events, address, probe), now - window)
  {
    PunctualHistory(events, now, address, probe);
    ShowsTheWindowExactlyWhen(events, window, now, address, probe);
  }

  /** And that says exactly which sequence it is. */
  lemma OneSortedTail(r: seq<Sample>, q: seq<Sample>, h: seq<Sample>, cutoff: real)
    requires SortedTail(r, h, cutoff) && SortedTail(q, h, cutoff)
    ensures r == q
  {
    forall v ensures At(r, v) == At(q, v) {
    }
    SortedByTimes(r, q);
  }

  lemma Snoc<T>(a: seq<T>, x: T, b: seq<T>, y: T)
    requires a + [x] == b + [y]
    ensures a == b && x == y
  {
    assert (a + [x])[..|a|] == a && (b + [y])[..|b|] == b;
    assert (a + [x])[|a|] == x && (b + [y])[|b|] == y;
  }

  lemma EmptyIfNothing(q: seq<Sample>)
    requires forall v :: At(q, v) == []
    ensures q == []
  {
    if q != [] {
      SomethingAt(q);
    }
  }

  lemma SomethingAt(q: seq<Sample>)
    requires q != []
    ensures exists v :: At(q, v) != []
  {
    assert At(q, q[|q| - 1].ts) != [];
  }

  lemma {:induction false} SortedByTimes(r: seq<Sample>, q: seq<Sample>)
    requires Sorted(r) && Sorted(q) && forall v :: At(r, v) == At(q, v)
    ensures r == q
    decreases |r|
  {
    if r == [] {
      EmptyIfNothing(q);
    } else {
      var front, x := r[..|r| - 1], r[|r| - 1];
      assert At(r, x.ts) == At(q, x.ts);
      var front', y := q[..|q| - 1], q[|q| - 1];
      assert At(r, y.ts) == At(q, y.ts);
      LastAt(r, y.ts);
      LastAt(q, x.ts);
      Snoc(At(front, x.ts), x, At(front', x.ts), y);
      forall v ensures At(front, v) == At(front', v) {
        assert At(r, v) == At(q, v);
        if v == x.ts {
          Snoc(At(front, v), x, At(front', v), x);
        } else {
          assert At(front, v) + [] == At(front, v) && At(front', v) + [] == At(front', v);
        }
      }
      SortedByTimes(front, front');
      assert r == front + [x] && q == front' + [y];
    }
  }

  /** A sample stamped past the last one's time is not there. */
  lemma LastAt(s: seq<Sample>, v: real)
    requires Sorted(s) && s != []
    ensures v > s[|s| - 1].ts ==> At(s, v) == []
  {
    if v > s[|s| - 1].ts {
      AtNone(s, v);
    }
  }

  lemma PairHistory(a: Event, b: Event, address: string, probe: int)
    requires Counts(a) && a.address.value == address && a.probe.value == probe
    requires Counts(b) && b.address.value == address && b.probe.value == probe
    ensures History([a, b], address, probe) == [SampleOf(a), SampleOf(b)]
  {
    assert [a, b][..1] == [a] && [a][..0] == [];
    assert History([], address, probe) == [];
    assert History([a], address, probe) == [SampleOf(a)];
  }

  lemma PairHidden(x: Sample, y: Sample, window: real)
    requires window >= 0.0 && x.ts <= y.ts
    ensures NoneHidden([x, y], window, x.ts - window) <==> y.ts - window <= x.ts
  {
    var h := [x, y];
    assert h[0] == x && h[1] == y;
  }

  /** After two pushes, the second stamped ahead of the clock, the first sample is hidden, though still within the
      window, exactly when the second is ahead by more than the window. */
  lemma AheadOfTheClock(events: seq<Event>, a: Event, b: Event, window: real, now: real, address: string, probe: int)
    requires window >= 0.0 && events == [a, b] && Counts(a) && Counts(b)
    requires a.address.value == b.address.value == address && a.probe.value == b.probe.value == probe
    requires SampleOf(a).ts == now <= SampleOf(b).ts
    ensures SortedTail(Shown(Run(events, window), window, KeyOf(address, probe), now), History(events, address, probe), now - window)
      <==> SampleOf(b).ts - now <= window
  {
    PairHistory(a, b, address, probe);
    PairHidden(SampleOf(a), SampleOf(b), window);
    ShowsTheWindowExactlyWhen(events, window, now, address, probe);
  }
}
