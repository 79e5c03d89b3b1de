/** What each request leaves in the table of saved targets, and of which sessions. */
module TargetRows {
  import opened Options
  import opened SessionBook
  import opened AlertRules
  import opened AlertTargets
  import opened TargetCache
  import opened TargetFailures
  import opened AlertRearms

  /** Through the addresses, each probe of the list has the list's last configuration of it; every other row stays. */
  lemma {:induction false} SavedForAll(t: TargetTable, session: string, addresses: seq<string>, ts: seq<TargetConfig>, k: TargetKey)
    ensures var r := SaveForAll(t, session, addresses, ts);
      if k.session == session && k.address in addresses && ByIndex(ts, k.probe).Some? then k in r && r[k] == ByIndex(ts, k.probe).value
      else (k in r <==> k in t) && (k in t ==> r[k] == t[k])
    decreases |addresses|
  {
    if addresses != [] {
      var init, last := addresses[..|addresses| - 1], addresses[|addresses| - 1];
      SavedForAll(t, session, init, ts, k);
      SavedIsLast(SaveForAll(t, session, init, ts), session, last, ts, k);
      assert k.address in addresses <==> k.address in init || k.address == last;
    }
  }

  /** A start saves, for every device, the last configuration the list has of each probe, under the new session; it
      leaves every other row, and gives the evaluator what it read back. */
  lemma StartSaves(c: Cache, id: string, addresses: seq<string>, ts: seq<TargetConfig>, now: int, listing: seq<TargetConfig>, k: TargetKey)
    requires id !in c.book.rows && c.book.current != Some(id)
    ensures var c' := Start(c, id, addresses, ts, now, listing);
      && (forall j | LastFor(ts, k.probe, j) && k.session == id && k.address in addresses :: k in c'.table && c'.table[k] == ts[j])
      && (!(k.session == id && k.address in addresses && Targeted(ts, k.probe)) ==>
            (k in c'.table <==> k in c.table) && (k in c.table ==> c'.table[k] == c.table[k]))
      && (ts != [] ==> id in c'.held && c'.held[id] == listing)
      && c'.book.current == Some(id)
  {
    if ts != [] {
      SavedForAll(c.table, id, addresses, ts, k);
    }
    ByIndexIsLast(ts, k.probe);
    forall i, j | LastFor(ts, k.probe, i) && LastFor(ts, k.probe, j) ensures i == j {
      LastIsOne(ts, k.probe, i, j);
    }
    if Targeted(ts, k.probe) {
      ByIndexFinds(ts, k.probe);
    }
  }

  /** An update that names no probe twice leaves exactly its configurations as the device's rows of the current
      session, every other row as it was, and gives the evaluator what it read back. */
  lemma UpdateReplaces(c: Cache, id: string, address: string, ts: seq<TargetConfig>, listing: seq<TargetConfig>, k: TargetKey)
    requires c.book.current == Some(id) && Distinct(ts)
    ensures var c' := Update(c, address, ts, listing);
      && c'.book == c.book && c'.held == c.held[id := listing]
      && (if k.session == id && k.address == address
          then (k in c'.table <==> Targeted(ts, k.probe)) && (forall i | 0 <= i < |ts| && ts[i].probe == k.probe :: c'.table[k] == ts[i])
          else (k in c'.table <==> k in c.table) && (k in c.table ==> c'.table[k] == c.table[k]))
  {
    var rest := WithoutDevice(c.table, id, address);
    InsertIsExact(rest, id, address, ts);
    var after := UpdateTargets(c.table, id, address, ts).table;
    if k.session == id && k.address == address {
      TakenIfTargeted(rest, after, id, address, ts, k.probe);
      forall i | 0 <= i < |ts| && ts[i].probe == k.probe ensures after[k] == ts[i] {
        assert k == TargetKey(id, address, ts[i].probe);
      }
    } else {
      UpdateKeepsOthers(c.table, id, address, ts);
      assert !OfDevice(k, id, address);
    }
  }

  /** A discard takes out the current session's rows and no others; an end and a restart take out none. */
  lemma OthersKeepTheirRows(c: Cache, r: Request, k: TargetKey)
    requires r.EndRequest? || r.DiscardRequest? || r.Restarted?
    ensures var c' := Serve(c, r);
      && (k in c'.table <==> k in c.table && !(r.DiscardRequest? && c.book.current == Some(k.session)))
      && (k in c'.table ==> c'.table[k] == c.table[k])
  {
  }
}
