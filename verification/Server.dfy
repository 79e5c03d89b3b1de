/** What the session and target requests do to the store and to the evaluator's copy of the targets. */
module Server {
  import opened Options
  import opened AlertRules
  import opened AlertTargets
  import opened TargetCache
  import opened TargetFailures
  import S = SessionBook
  import E = AlertEvaluator
  import H = HistoryStore

  class Handlers {
    const store: H.Store
    const evaluator: E.Evaluator

    constructor (store: H.Store, evaluator: E.Evaluator)
      ensures this.store == store && this.evaluator == evaluator
    {
      this.store, this.evaluator := store, evaluator;
    }

    function Now(): Cache
      reads this, store, evaluator
    {
      Cache(store.Pointers(), store.targets, evaluator.targets)
    }

    /** `id` is the random name of the new session; should it be taken, the insert fails. */
    method SessionStart(id: string, addresses: seq<string>, ts: seq<TargetConfig>, now: int)
        returns (ok: bool, ghost listing: seq<TargetConfig>)
      modifies store, evaluator
      ensures ok <==> id !in old(store.sessions)
      ensures ok ==> var r := StartRequest(id, addresses, ts, now, listing);
        Served(old(Now()), r) && Now() == Serve(old(Now()), r) && (Exact(old(Now())) ==> Exact(Now()))
    {
      ghost var before := Now();
      listing := [];
      var ended, started := store.StartSession(id, now, "user");
      ok := started;
      if !ok {
        return;
      }
      if ts != [] {
        for i := 0 to |addresses|
          invariant store.targets == SaveForAll(before.table, id, addresses[..i], ts)
          invariant store.Pointers() == S.Open(before.book, id, now, "user") && evaluator.targets == before.held
        {
          assert addresses[..i + 1][..i] == addresses[..i];
          store.SaveTargets(id, addresses[i], ts);
        }
        assert addresses[..|addresses|] == addresses;
        var full := store.GetTargets(id);
        listing := full;
        evaluator.SetTargets(id, full);
      }
      if ended.Some? {
        evaluator.ClearSession(ended.value.session);
      }
      if Exact(before) {
        ServeExact(before, StartRequest(id, addresses, ts, now, listing));
      }
    }

    method SessionEnd(now: int) returns (ok: bool)
      modifies store, evaluator
      ensures ok <==> old(store.current).Some?
      ensures Now() == Serve(old(Now()), EndRequest(now)) && (Exact(old(Now())) ==> Exact(Now()))
    {
      ghost var before := Now();
      var ended := store.EndSession(now, "user");
      if ended.Some? {
        evaluator.ClearSession(ended.value.session);
      }
      if Exact(before) {
        ServeExact(before, EndRequest(now));
      }
      return ended.Some?;
    }

    method SessionDiscard() returns (ok: bool)
      modifies store, evaluator
      ensures ok <==> old(store.current).Some? && old(store.current).value in old(store.sessions)
      ensures ok || old(store.current).None? ==> Now() == Serve(old(Now()), DiscardRequest)
      ensures Exact(old(Now())) ==> Exact(Now()) && Now() == Serve(old(Now()), DiscardRequest)
    {
      ghost var before := Now();
      var discarded := store.DiscardCurrentSession();
      if discarded.Some? {
        evaluator.ClearSession(discarded.value);
      }
      if Exact(before) {
        assert before.book.current.Some? ==> before.book.current.value in S.OpenIn(before.book.rows);
        ServeExact(before, DiscardRequest);
      }
      return discarded.Some?;
    }

    /** A probe named twice fails the update part way, and the evaluator is not told. */
    method TargetUpdate(address: string, ts: seq<TargetConfig>) returns (ok: bool, ghost listing: seq<TargetConfig>)
      modifies store, evaluator
      ensures ok <==> old(store.current).Some? && Distinct(ts)
      ensures Now() == Serve(old(Now()), UpdateRequest(address, ts, listing))
      ensures Served(old(Now()), UpdateRequest(address, ts, listing))
      ensures Exact(old(Now())) && Filed(old(Now()).table) ==>
        (Exact(Now()) <==> Harmless(old(Now()), UpdateRequest(address, ts, listing)))
    {
      ghost var before := Now();
      listing := [];
      if store.current.None? {
        return false, [];
      }
      var id := store.current.value;
      UpdateFailsIfAndOnlyIfProbeRepeated(before, address, ts, []);
      ok := store.UpdateTargets(id, address, ts);
      if ok {
        var full := store.GetTargets(id);
        listing := full;
        evaluator.SetTargets(id, full);
      }
      if Exact(before) && Filed(before.table) {
        UpdateKeepsTheCopyExactlyWhen(before, address, ts, listing);
      }
    }
  }

  /** A new process over the tables of `before`: recovery, then the evaluator gets the resumed session's targets. */
  method Boot(ghost before: Cache, store: H.Store, evaluator: E.Evaluator, now: int)
      returns (resumed: Option<string>, ghost listing: seq<TargetConfig>)
    requires store.Pointers() == S.Reboot(before.book) && store.targets == before.table && evaluator.targets == map[]
    modifies store, evaluator
    ensures resumed.Some? <==> S.OpenIn(before.book.rows) != {}
    ensures var r := Restarted(if resumed.Some? then resumed.value else "", now, listing);
      var after := Cache(store.Pointers(), store.targets, evaluator.targets);
      Served(before, r) && after == Serve(before, r) && (Exact(before) ==> Exact(after))
  {
    listing := [];
    resumed := store.RecoverOrphanedSessions(now);
    if store.current.Some? {
      var full := store.GetTargets(store.current.value);
      listing := full;
      if full != [] {
        evaluator.SetTargets(store.current.value, full);
      }
    }
    ghost var r := Restarted(if resumed.Some? then resumed.value else "", now, listing);
    assert Served(before, r);
    if Exact(before) {
      ServeExact(before, r);
    }
  }
}
