/**
 The sequence numbers the device workers give their readings, among session changes,
 reconnects, deaths and respawns, restarts, and downsampling.
 */
module SeqCounter {
  import opened Options
  import opened SessionBook
  import opened ReadingTables
  import opened DownsampleTheorems

  /** Where a worker is in its loop. What it read earlier may no longer be so. */
  datatype Stage =
    | Connecting
    | Seeding(session: string)                // it has seen a current session and will ask for its highest number
    | Polling
    | Reseeding(session: string)              // the session changed
    | Ready(read: Option<string>)
    | Recording(session: string)              // the device is part of the session; the write is next

  datatype Worker = Worker(seqNo: int, prev: Option<string>, stage: Stage)

  datatype World = World(book: Book, probes: set<ProbeKey>, devices: set<DeviceKey>, workers: map<string, Worker>)

  datatype Move =
    | Connect(address: string, respawned: bool)
    | ReadCurrent(address: string)
    | Seed(address: string, highest: int)
    | ReadState(address: string)
    | Check(address: string, inSession: bool)
    | Write(address: string, read: seq<int>)      // the probes read this cycle
    | Die(address: string)
    | OpenSession(id: string, now: int)
    | EndSession(now: int)
    | DiscardSession(id: string)
    | Restart(keep: string, now: int)
    | Downsample(probesLeft: set<ProbeKey>, devicesLeft: set<DeviceKey>)

  /** The highest number stored for a device in a session, 0 when there is none. */
  ghost predicate Highest(probes: set<ProbeKey>, session: string, address: string, q: int) {
    && (forall k | k in probes && k.session == session && k.address == address :: k.seqNo <= q)
    && ((exists k :: k in probes && k.session == session && k.address == address && k.seqNo == q)
        || (q == 0 && forall k | k in probes :: !(k.session == session && k.address == address)))
  }

  /** A device row left behind was there before or has a probe row of its own number. */
  ghost predicate Backed(devices: set<DeviceKey>, probesLeft: set<ProbeKey>, devicesLeft: set<DeviceKey>) {
    forall k | k in devicesLeft && k !in devices ::
      exists r :: r in probesLeft && r.session == k.session && r.address == k.address && r.seqNo == k.seqNo
  }

  function Rows(session: string, address: string, q: int, read: seq<int>): set<ProbeKey> {
    set p | p in read :: ProbeKey(session, address, q, p)
  }

  function Put(w: World, address: string, worker: Worker): World {
    w.(workers := w.workers[address := worker])
  }

  /** Moves that do not apply leave the world unchanged. */
  ghost function Act(w: World, m: Move): World {
    match m
    case Connect(a, respawned) =>
      Put(w, a, Worker(if respawned || a !in w.workers then 0 else w.workers[a].seqNo, None, Connecting))
    case ReadCurrent(a) =>
      if a !in w.workers || !w.workers[a].stage.Connecting? then w
      else Put(w, a, w.workers[a].(stage := if w.book.current.Some? then Seeding(w.book.current.value) else Polling))
    case Seed(a, highest) =>
      if a !in w.workers then w
      else if w.workers[a].stage.Seeding? && Highest(w.probes, w.workers[a].stage.session, a, highest)
      then Put(w, a, Worker(highest, Some(w.workers[a].stage.session), Polling))
      else if w.workers[a].stage.Reseeding? && Highest(w.probes, w.workers[a].stage.session, a, highest)
      then Put(w, a, Worker(highest, Some(w.workers[a].stage.session), Ready(Some(w.workers[a].stage.session))))
      else w
    case ReadState(a) =>
      if a !in w.workers || !w.workers[a].stage.Polling? then w
      else if w.book.current == w.workers[a].prev then Put(w, a, w.workers[a].(stage := Ready(w.book.current)))
      else if w.book.current.None? then Put(w, a, w.workers[a].(prev := None, stage := Ready(None)))
      else Put(w, a, w.workers[a].(stage := Reseeding(w.book.current.value)))
    case Check(a, inSession) =>
      if a !in w.workers || !w.workers[a].stage.Ready? then w
      else Put(w, a, w.workers[a].(stage :=
        if inSession && w.workers[a].stage.read.Some? then Recording(w.workers[a].stage.read.value) else Polling))
    case Write(a, read) =>
      if a !in w.workers || !w.workers[a].stage.Recording? then w
      else
        var session := w.workers[a].stage.session;
        var q := w.workers[a].seqNo + 1;
        if session !in w.book.rows then w.(workers := w.workers - {a})        // the foreign key refuses the write
        else Put(w, a, w.workers[a].(seqNo := q, stage := Polling))
             .(probes := w.probes + Rows(session, a, q, read), devices := w.devices + {DeviceKey(session, a, q)})
    case Die(a) => w.(workers := w.workers - {a})
    case OpenSession(id, now) => w.(book := Open(w.book, id, now, "user"))
    case EndSession(now) => w.(book := EndCurrent(w.book, now, "user"))
    case DiscardSession(id) =>
      World(Forget(w.book, id), (set k | k in w.probes && k.session != id), (set k | k in w.devices && k.session != id), w.workers)
    case Restart(keep, now) =>
      if OpenIn(w.book.rows) == {} then w.(book := Reboot(w.book), workers := map[])
      else if Newest(w.book.rows, keep) then w.(book := Recover(Reboot(w.book), keep, now), workers := map[]) else w
    case Downsample(probesLeft, devicesLeft) =>
      if probesLeft <= w.probes && Backed(w.devices, probesLeft, devicesLeft) then w.(probes := probesLeft, devices := devicesLeft) else w
  }

  ghost function Run(w: World, moves: seq<Move>): World
    decreases |moves|
  {
    if moves == [] then w else Act(Run(w, moves[..|moves| - 1]), moves[|moves| - 1])
  }

  /** A write stores one row per probe read and the device row, all under the worker's next number; into a session
      that is gone it stores nothing, and the worker dies of it. */
  lemma WriteRecords(w: World, a: string, session: string, read: seq<int>)
    requires a in w.workers && w.workers[a].stage == Recording(session)
    ensures var w', q := Act(w, Write(a, read)), w.workers[a].seqNo + 1;
      if session !in w.book.rows then w' == w.(workers := w.workers - {a})
      else
        && (forall k :: k in w'.probes <==> k in w.probes || (exists p :: p in read && k == ProbeKey(session, a, q, p)))
        && (forall k :: k in w'.devices <==> k in w.devices || k == DeviceKey(session, a, q))
        && w'.workers == w.workers[a := Worker(q, w.workers[a].prev, Polling)] && w'.book == w.book
  {
  }

  /** A new connection of a living worker keeps its number, that of a respawned one starts at 0; neither knows a session. */
  lemma ConnectStartsOver(w: World, a: string, respawned: bool)
    ensures var w' := Act(w, Connect(a, respawned));
      && a in w'.workers && w'.workers[a] == Worker(if a in w.workers && !respawned then w.workers[a].seqNo else 0, None, Connecting)
      && w'.probes == w.probes && w'.devices == w.devices && w'.book == w.book
  {
  }

  // ---------------------------------------------------------------- no probe row is dropped

  /** Number `q` is at least every number stored for the device in the session. */
  ghost predicate Covers(probes: set<ProbeKey>, session: string, address: string, q: int) {
    forall k | k in probes && k.session == session && k.address == address :: k.seqNo <= q
  }

  /** A worker past seeding knows a number that covers its session's rows, and writes to that session only. */
  ghost predicate Ahead(w: World, a: string, x: Worker) {
    && (x.prev.Some? ==> Covers(w.probes, x.prev.value, a, x.seqNo))
    && (x.stage.Ready? ==> x.prev == x.stage.read)
    && (x.stage.Recording? ==> x.prev == Some(x.stage.session))
  }

  ghost predicate AllAhead(w: World) {
    forall a | a in w.workers :: Ahead(w, a, w.workers[a])
  }

  lemma ActKeepsAhead(w: World, m: Move)
    requires AllAhead(w)
    ensures AllAhead(Act(w, m))
  {
    if m.Write? && m.address in w.workers && w.workers[m.address].stage.Recording? {
      var w' := Act(w, m);
      forall a | a in w'.workers ensures Ahead(w', a, w'.workers[a]) {
        assert Ahead(w, a, w.workers[a]);
      }
    }
  }

  /** The rows a worker is about to write, and those of them that INSERT OR IGNORE would drop. */
  ghost predicate NothingDropped(w: World, a: string, read: seq<int>) {
    a in w.workers && w.workers[a].stage.Recording? ==>
      Rows(w.workers[a].stage.session, a, w.workers[a].seqNo + 1, read) !! w.probes
  }

  /** In every run, whenever a worker writes a cycle, its number is above every stored number of that
      device and session, so no probe row of the cycle is ever ignored as a duplicate. */
  lemma {:induction false} ProbeRowsNeverDropped(w: World, moves: seq<Move>, a: string, read: seq<int>)
    requires w.workers == map[]
    ensures AllAhead(Run(w, moves)) && NothingDropped(Run(w, moves), a, read)
    ensures var v := Run(w, moves);
      a in v.workers && v.workers[a].stage.Recording? ==> Covers(v.probes, v.workers[a].stage.session, a, v.workers[a].seqNo)
    decreases |moves|
  {
    if moves != [] {
      ProbeRowsNeverDropped(w, moves[..|moves| - 1], a, read);
      ActKeepsAhead(Run(w, moves[..|moves| - 1]), moves[|moves| - 1]);
    }
    var v := Run(w, moves);
    if a in v.workers {
      assert Ahead(v, a, v.workers[a]);
    }
  }

  // ---------------------------------------------------------------- device rows

  /** No device row of the session is numbered above `q`. */
  ghost predicate Clear(devices: set<DeviceKey>, session: string, address: string, q: int) {
    forall k | k in devices && k.session == session && k.address == address :: k.seqNo <= q
  }

  /** A worker past seeding knows a number above which its session has no device row. */
  ghost predicate ClearAhead(w: World, a: string, x: Worker) {
    x.prev.Some? ==> Clear(w.devices, x.prev.value, a, x.seqNo)
  }

  ghost predicate AllClear(w: World) {
    forall a | a in w.workers :: ClearAhead(w, a, w.workers[a])
  }

  /** Number `highest` is about to be taken up by worker `a` for `session`. */
  ghost predicate Seeds(w: World, m: Move, session: string) {
    && m.Seed? && m.address in w.workers
    && (w.workers[m.address].stage.Seeding? || w.workers[m.address].stage.Reseeding?) && w.workers[m.address].stage.session == session
    && Highest(w.probes, session, m.address, m.highest)
  }

  /** Every seeding of the run finds no device row numbered above the highest probe row. */
  ghost predicate SeedsClear(w: World, moves: seq<Move>)
    decreases |moves|
  {
    moves == [] ||
    (var before, m := Run(w, moves[..|moves| - 1]), moves[|moves| - 1];
     SeedsClear(w, moves[..|moves| - 1]) && forall session | Seeds(before, m, session) :: Clear(before.devices, session, m.address, m.highest))
  }

  lemma ActKeepsClear(w: World, m: Move)
    requires AllAhead(w) && AllClear(w)
    requires forall session | Seeds(w, m, session) :: Clear(w.devices, session, m.address, m.highest)
    ensures AllClear(Act(w, m))
  {
    var w' := Act(w, m);
    forall a | a in w'.workers ensures ClearAhead(w', a, w'.workers[a]) {
      if a in w.workers {
        assert ClearAhead(w, a, w.workers[a]) && Ahead(w, a, w.workers[a]);
        if m.Seed? && m.address == a && (w.workers[a].stage.Seeding? || w.workers[a].stage.Reseeding?) {
          assert Highest(w.probes, w.workers[a].stage.session, a, m.highest) ==> Seeds(w, m, w.workers[a].stage.session);
        }
        if m.Downsample? && w' != w && w.workers[a].prev.Some? {
          LeftIsCovered(w, m, w.workers[a].prev.value, a, w.workers[a].seqNo);
        }
      }
    }
  }

  /** A device row that downsampling leaves or puts back carries a number already covered. */
  lemma LeftIsCovered(w: World, m: Move, session: string, a: string, q: int)
    requires m.Downsample? && m.probesLeft <= w.probes && Backed(w.devices, m.probesLeft, m.devicesLeft)
    requires Clear(w.devices, session, a, q) && Covers(w.probes, session, a, q)
    ensures Clear(m.devicesLeft, session, a, q)
  {
    forall k | k in m.devicesLeft && k.session == session && k.address == a ensures k.seqNo <= q {
      if k !in w.devices {
        var r :| r in m.probesLeft && r.session == k.session && r.address == k.address && r.seqNo == k.seqNo;
      }
    }
  }

  /** In every run whose seedings find no device row above the highest probe row, no device row is ever ignored. */
  lemma {:induction false} DeviceRowsKeptIfSeedsClear(w: World, moves: seq<Move>, a: string)
    requires w.workers == map[] && SeedsClear(w, moves)
    ensures AllClear(Run(w, moves))
    ensures var v := Run(w, moves);
      a in v.workers && v.workers[a].stage.Recording? ==> DeviceKey(v.workers[a].stage.session, a, v.workers[a].seqNo + 1) !in v.devices
    decreases |moves|
  {
    if moves != [] {
      var before := Run(w, moves[..|moves| - 1]);
      DeviceRowsKeptIfSeedsClear(w, moves[..|moves| - 1], a);
      ProbeRowsNeverDropped(w, moves[..|moves| - 1], a, []);
      ActKeepsClear(before, moves[|moves| - 1]);
    }
    ProbeRowsNeverDropped(w, moves, a, []);
    var v := Run(w, moves);
    if a in v.workers {
      assert ClearAhead(v, a, v.workers[a]) && Ahead(v, a, v.workers[a]);
    }
  }

  /** Told from the tables: a seeding is clear exactly when every device row has a probe row numbered at least as
      high, or there is neither a probe row nor a device row numbered above 0. */
  lemma ClearExactlyWhenTopped(w: World, session: string, a: string, highest: int)
    requires Highest(w.probes, session, a, highest)
    ensures Clear(w.devices, session, a, highest) <==>
      forall k | k in w.devices && k.session == session && k.address == a :: (k.seqNo <= 0 && highest == 0) || Topped(w.probes, k)
  {
    forall k | k in w.devices && k.session == session && k.address == a
      ensures k.seqNo <= highest <==> (k.seqNo <= 0 && highest == 0) || Topped(w.probes, k)
    {
      if r :| r in w.probes && r.session == session && r.address == a && r.seqNo == highest {
        assert k.seqNo <= highest ==> Topped(w.probes, k);
      }
    }
  }

  /** Some probe row of the device and session is numbered at least as high. */
  ghost predicate Topped(probes: set<ProbeKey>, k: DeviceKey) {
    exists r :: r in probes && r.session == k.session && r.address == k.address && r.seqNo >= k.seqNo
  }

  // ---------------------------------------------------------------- the guard is exact

  /** One turn of worker `a` in a session it belongs to. */
  ghost function Turn(w: World, a: string, read: seq<int>): World {
    Act(Act(Act(w, ReadState(a)), Check(a, true)), Write(a, read))
  }

  ghost function Turns(w: World, a: string, cycles: seq<seq<int>>): World
    decreases |cycles|
  {
    if cycles == [] then w else Turn(Turns(w, a, cycles[..|cycles| - 1]), a, cycles[|cycles| - 1])
  }

  /** Worker `a` has number `q` for the current session `s` and is between two turns. */
  ghost predicate AtWork(w: World, a: string, s: string, q: int) {
    && w.book.current == Some(s) && s in w.book.rows
    && a in w.workers && w.workers[a] == Worker(q, Some(s), Polling)
  }

  lemma OneTurn(w: World, a: string, s: string, q: int, read: seq<int>, v: World)
    requires AtWork(w, a, s, q) && v == Turn(w, a, read)
    ensures AtWork(v, a, s, q + 1) && v.devices == w.devices + {DeviceKey(s, a, q + 1)}
  {
  }

  /** The device row of the turn that is due would be ignored. */
  ghost predicate Ignored(w: World, a: string, s: string, q: int) {
    DeviceKey(s, a, q + 1) in w.devices
  }

  /** `after` is `before` and the device rows numbered from q + 1 to q + n. */
  ghost predicate Used(before: set<DeviceKey>, after: set<DeviceKey>, s: string, a: string, q: int, n: nat) {
    forall k :: k in after <==> k in before || (k.session == s && k.address == a && q < k.seqNo <= q + n)
  }

  lemma OneMoreUsed(before: set<DeviceKey>, middle: set<DeviceKey>, after: set<DeviceKey>, s: string, a: string, q: int, n: nat)
    requires Used(before, middle, s, a, q, n) && after == middle + {DeviceKey(s, a, q + n + 1)}
    ensures Used(before, after, s, a, q, n + 1)
  {
  }

  /** `v` is `w` after `n` turns. */
  ghost predicate Counted(w: World, v: World, a: string, s: string, q: int, n: nat) {
    AtWork(v, a, s, q + n) && Used(w.devices, v.devices, s, a, q, n)
  }

  lemma OneMoreTurn(w: World, before: World, v: World, a: string, s: string, q: int, n: nat, read: seq<int>)
    requires Counted(w, before, a, s, q, n) && v == Turn(before, a, read)
    ensures Counted(w, v, a, s, q, n + 1)
  {
    OneTurn(before, a, s, q + n, read, v);
    OneMoreUsed(w.devices, before.devices, v.devices, s, a, q, n);
  }

  lemma {:induction false} TurnsCount(w: World, a: string, s: string, q: int, cycles: seq<seq<int>>)
    requires AtWork(w, a, s, q)
    ensures Counted(w, Turns(w, a, cycles), a, s, q, |cycles|)
    decreases |cycles|
  {
    if cycles != [] {
      var init := cycles[..|cycles| - 1];
      TurnsCount(w, a, s, q, init);
      OneMoreTurn(w, Turns(w, a, init), Turns(w, a, cycles), a, s, q, |init|, cycles[|init|]);
    }
  }

  /** Of the next turns after a seeding with number `q`, whatever each of them reads, none has its device row
      ignored if and only if no device row of the session is numbered among the numbers they will use. */
  lemma SeedingIsExact(w: World, a: string, s: string, q: int, cycles: seq<seq<int>>)
    requires AtWork(w, a, s, q)
    ensures (forall i | 0 <= i < |cycles| :: !Ignored(Turns(w, a, cycles[..i]), a, s, q + i)) <==>
            (forall k | k in w.devices && k.session == s && k.address == a :: !(q < k.seqNo <= q + |cycles|))
  {
    forall i | 0 <= i < |cycles| ensures Ignored(Turns(w, a, cycles[..i]), a, s, q + i) <==> DeviceKey(s, a, q + 1 + i) in w.devices {
      TurnsCount(w, a, s, q, cycles[..i]);
    }
    forall k | k in w.devices && k.session == s && k.address == a && q < k.seqNo <= q + |cycles|
      ensures Ignored(Turns(w, a, cycles[..k.seqNo - q - 1]), a, s, q + (k.seqNo - q - 1))
    {
      assert DeviceKey(s, a, q + 1 + (k.seqNo - q - 1)) == k;
    }
  }

  /** How such a row comes about: from any world in which a worker whose number is the highest stored one is about
      to record a cycle without probes, a respawn gives the same number out again, and the device row of the next
      cycle is ignored. */
  lemma EmptyCycleCostsADeviceRow(w: World, a: string, s: string)
    requires a in w.workers && w.workers[a].stage == Recording(s) && Highest(w.probes, s, a, w.workers[a].seqNo)
    requires s in w.book.rows && w.book.current == Some(s)
    ensures var q := w.workers[a].seqNo;
      var seeding := Act(Act(Act(w, Write(a, [])), Connect(a, true)), ReadCurrent(a));
      var seeded := Act(seeding, Seed(a, q));
      AtWork(seeded, a, s, q) && Ignored(seeded, a, s, q)
  {
    var q := w.workers[a].seqNo;
    assert Rows(s, a, q + 1, []) == {};
    var seeding := Act(Act(Act(w, Write(a, [])), Connect(a, true)), ReadCurrent(a));
    assert seeding.probes == w.probes && DeviceKey(s, a, q + 1) in seeding.devices;
    assert Highest(seeding.probes, s, a, q);
  }

  // ---------------------------------------------------------------- downsampling is such a move

  ghost function ProbeKeys(t: ProbeTable): set<ProbeKey> {
    set id | id in t :: KeyOf(t[id])
  }

  lemma ProbeKeysShrink(p: Pass, t: ProbeTable, t': ProbeTable, made: map<Group, nat>)
    requires p.width > 0 && Unique(t) && Downsampled(p, t, t', made)
    ensures ProbeKeys(t') <= ProbeKeys(t)
  {
    KeysOnlyShrink(p, t, t', made);
    forall k | k in ProbeKeys(t') ensures k in ProbeKeys(t) {
      var id :| id in t' && KeyOf(t'[id]) == k;
      var src :| src in t && KeyOf(t[src]) == k;
    }
  }

  lemma PassBacksDevices(p: Pass, t: ProbeTable, d: DeviceTable, t': ProbeTable, d': DeviceTable, rec: Record)
    requires p.width > 0 && PassDone(p, t, d, t', d', rec)
    ensures Backed(d.Keys, ProbeKeys(t'), d'.Keys)
  {
    forall k | k in d'.Keys && k !in d.Keys
      ensures exists r :: r in ProbeKeys(t') && r.session == k.session && r.address == k.address && r.seqNo == k.seqNo
    {
      NewDeviceRowIsBacked(p, t, d, t', d', rec, k);
      var id :| id in t' && DeviceKeyOf(t'[id]) == k;
      assert KeyOf(t'[id]) in ProbeKeys(t');
    }
  }

  /** What a completed pass does to the keys of the two tables is a downsampling move. */
  lemma PassIsAMove(p: Pass, t: ProbeTable, d: DeviceTable, t': ProbeTable, d': DeviceTable, rec: Record, w: World)
    requires p.width > 0 && Unique(t) && PassDone(p, t, d, t', d', rec)
    requires w.probes == ProbeKeys(t) && w.devices == d.Keys
    ensures Act(w, Downsample(ProbeKeys(t'), d'.Keys)) == w.(probes := ProbeKeys(t'), devices := d'.Keys)
  {
    ProbeKeysShrink(p, t, t', rec.made);
    PassBacksDevices(p, t, d, t', d', rec);
  }

  lemma NewDeviceRowIsBacked(p: Pass, t: ProbeTable, d: DeviceTable, t': ProbeTable, d': DeviceTable, rec: Record, k: DeviceKey)
    requires p.width > 0 && PassDone(p, t, d, t', d', rec) && k in d' && k !in d
    ensures Backs(t', k)
  {
    if i :| 0 <= i < |rec.entries| && k == DeviceKey(p.session, rec.entries[i].address, rec.entries[i].kept) {
      KeptIsBacked(p, t, t', rec.made, rec.entries, i);
    } else {
      RunAddsNothing(p.session, rec.entries, rec.tables, k);
    }
  }
}
