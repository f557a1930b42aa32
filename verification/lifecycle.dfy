/**
 * The life of statement resources over a whole session: prepare creates
 * one, the Erlang side uses it, may finalize it explicitly, and eventually
 * drops its last reference, after which the runtime may run the resource
 * destructor.
 *
 * The runtime reclaims a resource object (and runs its destructor) only
 * when no term refers to it and the reference taken by enif_alloc_resource
 * has been given back with enif_release_resource. Three defects stand
 * between the code and a safe session, and each regime fixes one more:
 *   - AsWritten: esqlite_prepare never gives the allocation reference
 *     back, so the destructor never runs;
 *   - ReleaseOnly: the reference is released after enif_make_resource, so
 *     the destructor runs, but it passes the resource's own storage to
 *     sqlite3_finalize instead of the statement stored in it;
 *   - ReleaseAndDeref: the destructor also finalizes the stored statement,
 *     but explicit finalize still leaves the pointer in the resource;
 *   - Corrected: explicit finalize also clears the stored pointer, which
 *     later calls and the destructor check for.
 */
module Lifecycle {
  import opened Wrappers
  import opened Sqlite
  import opened Terms
  import opened Registry
  import Statement

  datatype Regime = AsWritten | ReleaseOnly | ReleaseAndDeref | Corrected

  /**
   * Open: a successful prepare creates resource `h` holding statement `p`.
   * Use: any statement function other than finalize is called on `h`.
   * Close: finalize is called on `h`.
   * Drop: the last term referring to `h` is garbage collected.
   */
  datatype Event = Open(h: HandleId, p: StmtPtr) | Use(h: HandleId) | Close(h: HandleId) | Drop(h: HandleId)

  /** A resource object: the pointer it stores (None once cleared) and whether a term still refers to it. */
  datatype Res = Res(stmt: Option<StmtPtr>, reachable: bool)

  /** All resource objects, every statement ever prepared, and the engine calls made so far. */
  datatype World = World(slots: map<HandleId, Res>, prepared: set<StmtPtr>, log: seq<EngineCall>)

  const Initial: World := World(map[], {}, [])

  /** A statement the Erlang side can still reach through a resource. */
  ghost predicate Held(w: World, p: StmtPtr) {
    exists h :: h in w.slots && w.slots[h].reachable && w.slots[h].stmt == Some(p)
  }

  /** Every prepared statement is either finalized or still reachable from Erlang. */
  ghost predicate NoLeak(w: World) {
    forall p :: p in w.prepared ==> FinalizeCall(p) in w.log || Held(w, p)
  }

  function Apply(regime: Regime, w: World, e: Event): World {
    match e
    case Open(h, p) =>
      if h in w.slots then w
      else World(w.slots[h := Res(Some(p), true)], w.prepared + {p}, w.log)
    case Use(h) =>
      if h in w.slots && w.slots[h].reachable && w.slots[h].stmt.Some? then
        w.(log := w.log + [StepCall(w.slots[h].stmt.value)])
      else w
    case Close(h) =>
      if h in w.slots && w.slots[h].reachable && w.slots[h].stmt.Some? then
        var slot := if regime == Corrected then Res(None, true) else w.slots[h];
        World(w.slots[h := slot], w.prepared, w.log + [FinalizeCall(w.slots[h].stmt.value)])
      else w
    case Drop(h) =>
      if h in w.slots && w.slots[h].reachable then
        if regime == AsWritten then
          w.(slots := w.slots[h := w.slots[h].(reachable := false)])
        else
          var calls :=
            if regime == ReleaseOnly then [FinalizeForeignCall(h)]
            else if w.slots[h].stmt.Some? then [FinalizeCall(w.slots[h].stmt.value)]
            else [];
          World(w.slots - {h}, w.prepared, w.log + calls)
      else w
  }

  function Run(regime: Regime, w: World, events: seq<Event>): World
    decreases |events|
  {
    if events == [] then w else Run(regime, Apply(regime, w, events[0]), events[1..])
  }

  /** The regimes whose destructor, if it runs at all, finalizes no statement. */
  predicate MissesStatement(regime: Regime) {
    regime == AsWritten || regime == ReleaseOnly
  }

  /**
   * A prepared statement that is not finalized and that no reachable
   * resource holds: nothing on the Erlang side can finalize it any more.
   */
  ghost predicate Orphan(w: World, p: StmtPtr) {
    && p in w.prepared
    && FinalizeCall(p) !in w.log
    && forall k :: k in w.slots && w.slots[k].stmt == Some(p) ==> !w.slots[k].reachable
  }

  /**
   * While the destructor misses the statement, no event other than
   * preparing the same statement again rescues an orphan.
   */
  lemma OrphanStaysOrphan(regime: Regime, w: World, p: StmtPtr, e: Event)
    requires MissesStatement(regime)
    requires Orphan(w, p)
    requires !(e.Open? && e.p == p)
    ensures Orphan(Apply(regime, w, e), p)
  {
    var w' := Apply(regime, w, e);
    match e
    case Open(h, q) =>
    case Use(h) =>
      if h in w.slots && w.slots[h].reachable && w.slots[h].stmt.Some? {
        assert w'.log == w.log + [StepCall(w.slots[h].stmt.value)];
      }
    case Close(h) =>
      if h in w.slots && w.slots[h].reachable && w.slots[h].stmt.Some? {
        assert w.slots[h].stmt != Some(p);
        assert w'.log == w.log + [FinalizeCall(w.slots[h].stmt.value)];
      }
    case Drop(h) =>
      if h in w.slots && w.slots[h].reachable && regime == ReleaseOnly {
        assert w'.log == w.log + [FinalizeForeignCall(h)];
      }
  }

  lemma {:induction false} RunKeepsOrphan(regime: Regime, w: World, p: StmtPtr, events: seq<Event>)
    requires MissesStatement(regime)
    requires Orphan(w, p)
    requires forall i :: 0 <= i < |events| ==> !(events[i].Open? && events[i].p == p)
    ensures Orphan(Run(regime, w, events), p)
    decreases |events|
  {
    if events != [] {
      OrphanStaysOrphan(regime, w, p, events[0]);
      RunKeepsOrphan(regime, Apply(regime, w, events[0]), p, events[1..]);
    }
  }

  /** No regime ever takes a call back out of the log. */
  lemma {:induction false} RunExtendsLog(regime: Regime, w: World, events: seq<Event>)
    ensures w.log <= Run(regime, w, events).log
    decreases |events|
  {
    if events != [] {
      RunExtendsLog(regime, Apply(regime, w, events[0]), events[1..]);
    }
  }

  /**
   * As written, a statement whose only handle is dropped without an
   * explicit finalize is never finalized, whatever the session does
   * afterwards: the destructor never runs, so the statement leaks.
   */
  lemma AsWrittenLeaks(w: World, h: HandleId, p: StmtPtr, rest: seq<Event>)
    requires h in w.slots && w.slots[h] == Res(Some(p), true)
    requires p in w.prepared && FinalizeCall(p) !in w.log
    requires forall k :: k in w.slots && k != h ==> w.slots[k].stmt != Some(p)
    requires forall i :: 0 <= i < |rest| ==> !(rest[i].Open? && rest[i].p == p)
    ensures
      var w' := Run(AsWritten, w, [Drop(h)] + rest);
      p in w'.prepared && FinalizeCall(p) !in w'.log && !Held(w', p) && !NoLeak(w')
  {
    var events := [Drop(h)] + rest;
    assert events[0] == Drop(h) && events[1..] == rest;
    var dropped := Apply(AsWritten, w, Drop(h));
    assert Orphan(dropped, p);
    RunKeepsOrphan(AsWritten, dropped, p, rest);
  }

  /**
   * Releasing the allocation reference alone is not enough: the destructor
   * then runs, but hands SQLite the resource's storage, so the dropped
   * statement still leaks and SQLite is given an object that is not a
   * statement.
   */
  lemma ReleaseOnlyLeaks(w: World, h: HandleId, p: StmtPtr, rest: seq<Event>)
    requires h in w.slots && w.slots[h] == Res(Some(p), true)
    requires p in w.prepared && FinalizeCall(p) !in w.log
    requires forall k :: k in w.slots && k != h ==> w.slots[k].stmt != Some(p)
    requires forall i :: 0 <= i < |rest| ==> !(rest[i].Open? && rest[i].p == p)
    ensures
      var w' := Run(ReleaseOnly, w, [Drop(h)] + rest);
      && FinalizeCall(p) !in w'.log && !Held(w', p) && !NoLeak(w')
      && FinalizeForeignCall(h) in w'.log && !SafeLog(w'.log)
  {
    var events := [Drop(h)] + rest;
    assert events[0] == Drop(h) && events[1..] == rest;
    var dropped := Apply(ReleaseOnly, w, Drop(h));
    assert dropped.log == w.log + [FinalizeForeignCall(h)];
    assert Orphan(dropped, p);
    RunKeepsOrphan(ReleaseOnly, dropped, p, rest);
    RunExtendsLog(ReleaseOnly, dropped, rest);
    var w' := Run(ReleaseOnly, dropped, rest);
    assert w'.log[|w.log|] == FinalizeForeignCall(h);
  }

  /**
   * As written, explicit finalize neither clears the pointer nor is the
   * handle rejected afterwards: finalizing it again, or stepping it, hands
   * SQLite the statement it has already finalized.
   */
  lemma AsWrittenUseAfterFinalize()
    ensures
      var w := Run(AsWritten, Initial, [Open(0, 7), Close(0), Close(0)]);
      w.log == [FinalizeCall(7), FinalizeCall(7)] && !SafeLog(w.log)
    ensures
      var w := Run(AsWritten, Initial, [Open(0, 7), Close(0), Use(0)]);
      w.log == [FinalizeCall(7), StepCall(7)] && !SafeLog(w.log)
  {
    var w := Run(AsWritten, Initial, [Open(0, 7), Close(0), Close(0)]);
    assert w.log == [FinalizeCall(7), FinalizeCall(7)];
    assert w.log[0].FinalizeCall? && Targets(w.log[1], w.log[0].stmt);
    var u := Run(AsWritten, Initial, [Open(0, 7), Close(0), Use(0)]);
    assert u.log == [FinalizeCall(7), StepCall(7)];
    assert u.log[0].FinalizeCall? && Targets(u.log[1], u.log[0].stmt);
  }

  /**
   * Releasing the reference and dereferencing in the destructor is still
   * not enough: a well-behaved session that finalizes and then drops its
   * handle finalizes the statement twice.
   */
  lemma ReleaseAndDerefRefinalizes()
    ensures
      var w := Run(ReleaseAndDeref, Initial, [Open(0, 7), Close(0), Drop(0)]);
      w.log == [FinalizeCall(7), FinalizeCall(7)] && !SafeLog(w.log)
  {
    var w := Run(ReleaseAndDeref, Initial, [Open(0, 7), Close(0), Drop(0)]);
    assert w.log == [FinalizeCall(7), FinalizeCall(7)];
    assert w.log[0].FinalizeCall? && Targets(w.log[1], w.log[0].stmt);
  }

  /**
   * The session events make the calls of the NIF functions they stand for:
   * Use makes the call of esqlite_step, and Close the call of
   * esqlite_finalize, on a store whose resource `h` holds the same
   * statement. Only the corrected finalize clears the pointer.
   */
  lemma EventsMatchCalls(regime: Regime, cx: Statement.Context, w: World, s: Store, h: HandleId)
    requires h in w.slots && w.slots[h].reachable && w.slots[h].stmt.Some?
    requires h in s && s[h].live && s[h].stmt == w.slots[h].stmt.value
    ensures Apply(regime, w, Use(h)).log == w.log + Statement.Step(cx, s, [Resource(StatementType, h)]).calls
    ensures Apply(regime, w, Close(h)).log == w.log + Statement.Finalize(s, [Resource(StatementType, h)]).calls
    ensures regime != Corrected ==> Apply(regime, w, Close(h)).slots == w.slots
  {
  }

  /**
   * A Drop makes the calls of the destructor its regime runs: none as
   * written, the destructor of line 22 when only the reference is released,
   * and the dereferencing destructor once that is fixed as well.
   */
  lemma DropMatchesDestructor(w: World, s: Store, h: HandleId)
    requires h in w.slots && w.slots[h].reachable
    requires h in s && w.slots[h].stmt == Some(s[h].stmt)
    ensures Apply(AsWritten, w, Drop(h)).log == w.log
    ensures Apply(ReleaseOnly, w, Drop(h)).log == w.log + Statement.StatementDelete(s, h).calls
    ensures Apply(ReleaseAndDeref, w, Drop(h)).log == w.log + Statement.StatementDeleteDereferenced(s, h).calls
  {
  }

  /** The invariant the corrected regime keeps. */
  ghost predicate Inv(w: World) {
    && SafeLog(w.log)
    && (forall h :: h in w.slots ==> w.slots[h].reachable)
    && (forall h :: h in w.slots && w.slots[h].stmt.Some? ==>
          w.slots[h].stmt.value in w.prepared && FinalizeCall(w.slots[h].stmt.value) !in w.log)
    && (forall h, k :: h in w.slots && k in w.slots && h != k && w.slots[h].stmt.Some? ==>
          w.slots[h].stmt != w.slots[k].stmt)
    && (forall i :: 0 <= i < |w.log| ==>
          !w.log[i].PrepareCall? && !w.log[i].FinalizeForeignCall? && w.log[i].stmt in w.prepared)
    && NoLeak(w)
  }

  /** Every prepare yields a statement object not seen before. */
  ghost predicate DistinctOpens(events: seq<Event>) {
    forall i, j :: 0 <= i < j < |events| && events[i].Open? && events[j].Open? ==> events[i].p != events[j].p
  }

  lemma ApplyKeepsInv(w: World, e: Event)
    requires Inv(w)
    requires e.Open? ==> e.p !in w.prepared
    ensures Inv(Apply(Corrected, w, e))
    ensures w.prepared <= Apply(Corrected, w, e).prepared
    ensures Apply(Corrected, w, e).prepared <= w.prepared + (if e.Open? then {e.p} else {})
  {
    var w' := Apply(Corrected, w, e);
    match e
    case Open(h, p) =>
      if h !in w.slots {
        forall q | q in w'.prepared
          ensures FinalizeCall(q) in w'.log || Held(w', q)
        {
          if q == p {
            assert w'.slots[h] == Res(Some(p), true);
          } else if FinalizeCall(q) !in w.log {
            var k :| k in w.slots && w.slots[k].reachable && w.slots[k].stmt == Some(q);
            assert w'.slots[k] == w.slots[k];
          }
        }
      }
    case Use(h) =>
      if h in w.slots && w.slots[h].stmt.Some? {
        var p := w.slots[h].stmt.value;
        forall i, j | 0 <= i < j < |w'.log| && w'.log[i].FinalizeCall?
          ensures !Targets(w'.log[j], w'.log[i].stmt)
        {
          if j == |w.log| {
            assert w'.log[i] == w.log[i];
            assert w.log[i] != FinalizeCall(p);
          }
        }
        forall q | q in w'.prepared
          ensures FinalizeCall(q) in w'.log || Held(w', q)
        {
          if FinalizeCall(q) in w.log {
            var i :| 0 <= i < |w.log| && w.log[i] == FinalizeCall(q);
            assert w'.log[i] == FinalizeCall(q);
          }
        }
      }
    case Close(h) =>
      if h in w.slots && w.slots[h].stmt.Some? {
        var p := w.slots[h].stmt.value;
        CloseKeepsInv(w, h, p);
      }
    case Drop(h) =>
      if h in w.slots {
        DropKeepsInv(w, h);
      }
  }

  lemma CloseKeepsInv(w: World, h: HandleId, p: StmtPtr)
    requires Inv(w) && h in w.slots && w.slots[h].stmt == Some(p)
    ensures Inv(Apply(Corrected, w, Close(h)))
  {
    var w' := Apply(Corrected, w, Close(h));
    assert w'.log == w.log + [FinalizeCall(p)];
    assert w'.slots == w.slots[h := Res(None, true)];
    forall i, j | 0 <= i < j < |w'.log| && w'.log[i].FinalizeCall?
      ensures !Targets(w'.log[j], w'.log[i].stmt)
    {
      if j == |w.log| {
        assert w'.log[i] == w.log[i];
        assert w.log[i] != FinalizeCall(p);
      }
    }
    forall k | k in w'.slots && w'.slots[k].stmt.Some?
      ensures FinalizeCall(w'.slots[k].stmt.value) !in w'.log
    {
      assert k != h && w'.slots[k] == w.slots[k];
    }
    forall q | q in w'.prepared
      ensures FinalizeCall(q) in w'.log || Held(w', q)
    {
      if q == p {
        assert w'.log[|w.log|] == FinalizeCall(p);
      } else if FinalizeCall(q) in w.log {
        var i :| 0 <= i < |w.log| && w.log[i] == FinalizeCall(q);
        assert w'.log[i] == FinalizeCall(q);
      } else {
        var k :| k in w.slots && w.slots[k].reachable && w.slots[k].stmt == Some(q);
        assert k != h && w'.slots[k] == w.slots[k];
      }
    }
  }

  lemma DropKeepsInv(w: World, h: HandleId)
    requires Inv(w) && h in w.slots
    ensures Inv(Apply(Corrected, w, Drop(h)))
  {
    var w' := Apply(Corrected, w, Drop(h));
    var calls := if w.slots[h].stmt.Some? then [FinalizeCall(w.slots[h].stmt.value)] else [];
    assert w'.log == w.log + calls;
    assert w'.slots == w.slots - {h};
    forall i, j | 0 <= i < j < |w'.log| && w'.log[i].FinalizeCall?
      ensures !Targets(w'.log[j], w'.log[i].stmt)
    {
      if j == |w.log| {
        assert w'.log[i] == w.log[i];
        assert w.log[i] != FinalizeCall(w.slots[h].stmt.value);
      }
    }
    forall k | k in w'.slots && w'.slots[k].stmt.Some?
      ensures FinalizeCall(w'.slots[k].stmt.value) !in w'.log
    {
      assert k != h && w'.slots[k] == w.slots[k];
    }
    forall q | q in w'.prepared
      ensures FinalizeCall(q) in w'.log || Held(w', q)
    {
      if FinalizeCall(q) in w.log {
        var i :| 0 <= i < |w.log| && w.log[i] == FinalizeCall(q);
        assert w'.log[i] == FinalizeCall(q);
      } else if w.slots[h].stmt == Some(q) {
        assert w'.log[|w.log|] == FinalizeCall(q);
      } else {
        var k :| k in w.slots && w.slots[k].reachable && w.slots[k].stmt == Some(q);
        assert k != h && w'.slots[k] == w.slots[k];
      }
    }
  }

  /**
   * The corrected regime is safe for every session, whatever the Erlang
   * side does: no call is ever made on a finalized statement (so none is
   * finalized twice), and every statement the Erlang side can no longer
   * reach has been finalized.
   */
  lemma {:induction false} CorrectedRunSafe(w: World, events: seq<Event>)
    requires Inv(w)
    requires DistinctOpens(events)
    requires forall i :: 0 <= i < |events| && events[i].Open? ==> events[i].p !in w.prepared
    ensures Inv(Run(Corrected, w, events))
    decreases |events|
  {
    if events != [] {
      var w' := Apply(Corrected, w, events[0]);
      ApplyKeepsInv(w, events[0]);
      forall i | 0 <= i < |events[1..]| && events[1..][i].Open?
        ensures events[1..][i].p !in w'.prepared
      {
        assert events[1..][i] == events[i + 1];
      }
      CorrectedRunSafe(w', events[1..]);
    }
  }

  /** From the start of a session: the log is safe and nothing leaks. */
  lemma CorrectedSessionSafe(events: seq<Event>)
    requires DistinctOpens(events)
    ensures SafeLog(Run(Corrected, Initial, events).log)
    ensures NoLeak(Run(Corrected, Initial, events))
  {
    CorrectedRunSafe(Initial, events);
  }

  /** A safe log finalizes each statement at most once. */
  lemma SafeLogFinalizesOnce(log: seq<EngineCall>, i: nat, j: nat)
    requires SafeLog(log) && i < j < |log| && log[i].FinalizeCall?
    ensures log[j] != log[i]
  {
  }
}
