/**
 * The statement lifecycle functions of c_src/sqlite_statement.c: prepare,
 * finalize, step, reset and the resource destructor. Each NIF function is a
 * pure function from the context of the call (collaborators and the engine),
 * the existing statement resources and the argument vector to the reply,
 * the engine calls made and the statement resources afterwards.
 */
module Statement {
  import opened Wrappers
  import opened Terms
  import opened Sqlite
  import opened Registry
  import CString
  import PrepareFlags

  /**
   * Helpers of the binding defined outside the statement file. Their
   * definitions are not part of this model; each is taken as an arbitrary
   * function of its argument.
   */
  datatype Helpers = Helpers(
    inspectDatabase: Term -> Option<DbPtr>,
    inspectBinaryString: Term -> Option<seq<byte>>,
    resultCode: int -> Term)

  datatype Context = Context(helpers: Helpers, engine: Engine)

  /** The reply of a NIF call, the engine calls it made, in order, and the statement resources after it. */
  datatype Outcome = Outcome(reply: Reply, calls: seq<EngineCall>, store: Store)

  /** The arguments pass the arity check and the handle check. */
  predicate HandleAdmitted(args: seq<Term>, arity: nat) {
    arity >= 1 && |args| == arity && IsStatementTerm(args[0])
  }

  /** The arity and handle checks every statement function starts with. */
  function HandleArg(store: Store, args: seq<Term>, arity: nat): (r: Option<StmtPtr>)
    requires arity >= 1
    requires |args| == arity ==> Registered(store, args[0])
    ensures r.Some? <==> HandleAdmitted(args, arity)
    ensures r.Some? ==> r.value == store[args[0].id].stmt
  {
    if |args| != arity then None else InspectStatement(store, args[0])
  }

  /**
   * The classification shared by reset and every bind: only SQLITE_OK is
   * success, and every other code becomes an error envelope carrying the
   * mapped reason.
   */
  function OkOrError(h: Helpers, code: int): (r: Reply)
    ensures ViewOf(r) == OkUnit <==> code == SQLITE_OK
    ensures code != SQLITE_OK ==> ViewOf(r) == Failed(h.resultCode(code))
  {
    if code != SQLITE_OK then Return(ErrorTuple(h.resultCode(code))) else Return(OkAtom)
  }

  /**
   * What one prepare call relies on from its collaborators: the copy of the
   * query is NUL-terminated, and when the engine succeeds its tail points
   * inside the query, at most at the terminator.
   */
  predicate PrepareSound(cx: Context, args: seq<Term>) {
    |args| == 3 ==>
      match cx.helpers.inspectBinaryString(args[1])
      case None => true
      case Some(q) =>
        && CString.Terminated(q)
        && match (cx.helpers.inspectDatabase(args[0]), PrepareFlags.ParseFlags(args[2]))
           case (Some(db), Some(flags)) =>
             var answer := cx.engine.prepare(db, q, flags);
             answer.code == SQLITE_OK ==> answer.tailOffset <= CString.StrLen(q)
           case _ => true
  }

  /** The arguments of prepare pass all four checks. */
  predicate PrepareAdmitted(h: Helpers, args: seq<Term>) {
    && |args| == 3
    && h.inspectDatabase(args[0]).Some?
    && h.inspectBinaryString(args[1]).Some?
    && PrepareFlags.ParseFlags(args[2]).Some?
  }

  /**
   * esqlite_prepare. `newId` is the identity the runtime gives the new
   * resource object.
   */
  function Prepare(cx: Context, store: Store, newId: HandleId, args: seq<Term>): (r: Outcome)
    requires newId !in store
    requires PrepareSound(cx, args)
    ensures r.reply == BadArg <==> !PrepareAdmitted(cx.helpers, args)
    ensures r.reply == BadArg ==> r.calls == [] && r.store == store
    ensures PrepareAdmitted(cx.helpers, args) ==>
      var db := cx.helpers.inspectDatabase(args[0]).value;
      var q := cx.helpers.inspectBinaryString(args[1]).value;
      var flags := PrepareFlags.ParseFlags(args[2]).value;
      var answer := cx.engine.prepare(db, q, flags);
      && r.calls == [PrepareCall(db, q, flags)]
      && (answer.code != SQLITE_OK ==>
            ViewOf(r.reply) == Failed(cx.helpers.resultCode(answer.code)) && r.store == store)
      && (answer.code == SQLITE_OK ==>
            && ViewOf(r.reply) == OkWith(Tuple([Resource(StatementType, newId),
                                               Binary(q[answer.tailOffset..CString.StrLen(q)])]))
            && r.store == store[newId := Slot(answer.stmt, true)])
  {
    if |args| != 3 then Outcome(BadArg, [], store)
    else match cx.helpers.inspectDatabase(args[0])
      case None => Outcome(BadArg, [], store)
      case Some(db) =>
        match cx.helpers.inspectBinaryString(args[1])
        case None => Outcome(BadArg, [], store)
        case Some(q) =>
          match PrepareFlags.ParseFlags(args[2])
          case None => Outcome(BadArg, [], store)
          case Some(flags) =>
            var answer := cx.engine.prepare(db, q, flags);
            var calls := [PrepareCall(db, q, flags)];
            if answer.code != SQLITE_OK then
              Outcome(Return(ErrorTuple(cx.helpers.resultCode(answer.code))), calls, store)
            else
              CString.SuffixToBinary(q, answer.tailOffset);
              var tail := CString.ToBinary(q[answer.tailOffset..]);
              var handle := Resource(StatementType, newId);
              Outcome(Return(OkTuple(Tuple([handle, Binary(tail)]))), calls,
                      store[newId := Slot(answer.stmt, true)])
  }

  /**
   * esqlite_finalize: finalizes the stored statement and always answers ok.
   * The resource keeps its pointer; only the model's liveness flag changes.
   */
  function Finalize(store: Store, args: seq<Term>): (r: Outcome)
    requires |args| == 1 ==> Usable(store, args[0])
    ensures r.reply == BadArg <==> !HandleAdmitted(args, 1)
    ensures r.reply == BadArg ==> r.calls == [] && r.store == store
    ensures HandleAdmitted(args, 1) ==>
      var h := args[0].id;
      && r.reply == Return(OkAtom)
      && r.calls == [FinalizeCall(store[h].stmt)]
      && r.store == store[h := Slot(store[h].stmt, false)]
  {
    match HandleArg(store, args, 1)
    case None => Outcome(BadArg, [], store)
    case Some(p) =>
      var h := args[0].id;
      Outcome(Return(OkAtom), [FinalizeCall(p)], store[h := store[h].(live := false)])
  }

  /**
   * esqlite_step: ROW and DONE are both success, every other code is an
   * error, and both envelopes carry the same mapped reason.
   */
  function Step(cx: Context, store: Store, args: seq<Term>): (r: Outcome)
    requires |args| == 1 ==> Usable(store, args[0])
    ensures r.store == store
    ensures r.reply == BadArg <==> !HandleAdmitted(args, 1)
    ensures r.reply == BadArg ==> r.calls == []
    ensures HandleAdmitted(args, 1) ==>
      var p := store[args[0].id].stmt;
      var code := cx.engine.step(p);
      && r.calls == [StepCall(p)]
      && (ViewOf(r.reply) == OkWith(cx.helpers.resultCode(code)) <==> code == SQLITE_ROW || code == SQLITE_DONE)
      && (ViewOf(r.reply) == Failed(cx.helpers.resultCode(code)) <==> code != SQLITE_ROW && code != SQLITE_DONE)
  {
    match HandleArg(store, args, 1)
    case None => Outcome(BadArg, [], store)
    case Some(p) =>
      var code := cx.engine.step(p);
      var reason := cx.helpers.resultCode(code);
      if code != SQLITE_ROW && code != SQLITE_DONE then Outcome(Return(ErrorTuple(reason)), [StepCall(p)], store)
      else Outcome(Return(OkTuple(reason)), [StepCall(p)], store)
  }

  /** esqlite_reset: the atom ok exactly when the engine answers SQLITE_OK. */
  function Reset(cx: Context, store: Store, args: seq<Term>): (r: Outcome)
    requires |args| == 1 ==> Usable(store, args[0])
    ensures r.store == store
    ensures r.reply == BadArg <==> !HandleAdmitted(args, 1)
    ensures r.reply == BadArg ==> r.calls == []
    ensures HandleAdmitted(args, 1) ==>
      var p := store[args[0].id].stmt;
      var code := cx.engine.reset(p);
      && r.calls == [ResetCall(p)]
      && (ViewOf(r.reply) == OkUnit <==> code == SQLITE_OK)
      && (code != SQLITE_OK ==> ViewOf(r.reply) == Failed(cx.helpers.resultCode(code)))
  {
    match HandleArg(store, args, 1)
    case None => Outcome(BadArg, [], store)
    case Some(p) => Outcome(OkOrError(cx.helpers, cx.engine.reset(p)), [ResetCall(p)], store)
  }

  /** What the runtime's destructor does when it reclaims a statement resource. */
  datatype Reclaimed = Reclaimed(calls: seq<EngineCall>, store: Store)

  /**
   * esqlite_statement_delete as written. The runtime hands the destructor
   * the resource's own storage, the block that holds the statement pointer
   * (the lookup reads the statement out of it), and the destructor passes
   * that block itself to sqlite3_finalize. The resource identity `h` stands
   * for the block's address. So the destructor finalizes no statement, and
   * what it hands SQLite is not a statement object.
   */
  function StatementDelete(store: Store, h: HandleId): (r: Reclaimed)
    requires h in store
    ensures forall p :: FinalizeCall(p) !in r.calls
    ensures !SafeLog(r.calls)
    ensures r.calls == [FinalizeForeignCall(h)]
    ensures h !in r.store && forall k :: k in store && k != h ==> k in r.store && r.store[k] == store[k]
  {
    var calls := [FinalizeForeignCall(h)];
    assert calls[0].FinalizeForeignCall?;
    Reclaimed(calls, store - {h})
  }

  /**
   * The destructor as evidently intended: it reads the statement out of the
   * resource's storage, as the lookup does, and finalizes that statement.
   */
  function StatementDeleteDereferenced(store: Store, h: HandleId): (r: Reclaimed)
    requires h in store
    ensures InspectStatement(store, Resource(StatementType, h)).Some?
    ensures r.calls == [FinalizeCall(InspectStatement(store, Resource(StatementType, h)).value)]
    ensures SafeLog(r.calls)
    ensures h !in r.store && forall k :: k in store && k != h ==> k in r.store && r.store[k] == store[k]
  {
    Reclaimed([FinalizeCall(store[h].stmt)], store - {h})
  }

  /**
   * The destructor as written never finalizes the statement its resource
   * holds, whereas the dereferencing one finalizes exactly that statement.
   */
  lemma DestructorMissesStoredStatement(store: Store, h: HandleId)
    requires h in store
    ensures
      var p := InspectStatement(store, Resource(StatementType, h)).value;
      && FinalizeCall(p) !in StatementDelete(store, h).calls
      && FinalizeCall(p) in StatementDeleteDereferenced(store, h).calls
  {
  }

  /**
   * The dereferencing destructor after an explicit finalize: because
   * finalize leaves the pointer in the resource, reclaiming the resource
   * finalizes the same statement a second time, which SQLite forbids.
   */
  lemma DestructorAfterFinalizeRefinalizes(store: Store, h: HandleId)
    requires h in store && store[h].live
    ensures
      var f := Finalize(store, [Resource(StatementType, h)]);
      var d := StatementDeleteDereferenced(f.store, h);
      && f.calls + d.calls == [FinalizeCall(store[h].stmt), FinalizeCall(store[h].stmt)]
      && !SafeLog(f.calls + d.calls)
  {
    var f := Finalize(store, [Resource(StatementType, h)]);
    var d := StatementDeleteDereferenced(f.store, h);
    var log := f.calls + d.calls;
    assert log[0].FinalizeCall? && Targets(log[1], log[0].stmt);
  }
}
