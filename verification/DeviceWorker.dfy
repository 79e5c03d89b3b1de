/** One worker's sequence bookkeeping, when nothing else comes between its steps. */
module DeviceWorker {
  import opened Options
  import opened ReadingTables
  import opened SeqCounter
  import H = HistoryStore

  class Poller {
    const address: string
    const store: H.Store
    var seqNo: int
    var prev: Option<string>

    constructor (address: string, store: H.Store)
      ensures this.address == address && this.store == store && seqNo == 0 && prev == None
    {
      this.address, this.store := address, store;
      seqNo, prev := 0, None;
    }

    /** The counter is at least every number stored for this device in the session it was read for. */
    ghost predicate Valid()
      reads this, store
    {
      prev.Some? ==> Covers(store.probes.Keys, prev.value, address, seqNo)
    }

    /** At the start of a connection. */
    method Seed()
      modifies this
      ensures Valid() && prev == store.current
      ensures prev.None? ==> seqNo == old(seqNo)
    {
      var session := store.current;
      if session.Some? {
        seqNo := store.GetMaxSeq(session.value, address);
      }
      prev := session;
    }

    /** One turn of the loop; `inSession` says whether the device is part of the current session. */
    method Cycle(inSession: bool, cycle: seq<H.CycleProbe>, row: DeviceReading) returns (recorded: bool)
      requires Valid()
      requires forall i, j | 0 <= i < j < |cycle| :: cycle[i].index != cycle[j].index
      modifies this, store`probes, store`devices
      ensures Valid() && prev == store.current
      ensures recorded <==> inSession && store.current.Some? && store.current.value in store.sessions
      ensures !recorded ==> store.probes == old(store.probes) && store.devices == old(store.devices)
      ensures recorded ==>
        && Covers(old(store.probes).Keys, prev.value, address, seqNo - 1)
        && store.probes.Keys == old(store.probes).Keys + H.CycleKeys(prev.value, address, seqNo, cycle)
        && (forall k | k in old(store.probes) :: store.probes[k] == old(store.probes)[k])
        && (forall i | 0 <= i < |cycle| :: H.Kept(old(store.probes), store.probes, prev.value, address, seqNo, row.at, cycle[i]))
    {
      var session := store.current;
      if session != prev {
        if session.Some? {
          seqNo := store.GetMaxSeq(session.value, address);
        }
        prev := session;
      }
      recorded := false;
      if session.Some? && inSession {
        var next := seqNo + 1;
        H.CycleIsStored(store.probes, session.value, address, next, row.at, cycle);
        H.RecordedKeys(store.probes, session.value, address, next, row.at, cycle);
        recorded := store.RecordReading(session.value, address, next, cycle, row);
        if recorded {
          seqNo := next;
        }
      }
    }
  }
}
