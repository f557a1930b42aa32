/**
 * The column readers and parameter binders of c_src/sqlite_statement.c.
 * Each checks its arity, then the statement handle, then the column or
 * parameter index (a C int), then its payload, and only then calls the
 * engine once.
 */
module Accessors {
  import opened Wrappers
  import opened Terms
  import opened Sqlite
  import opened Registry
  import opened ColumnTypes
  import opened Statement

  /** The arguments pass the arity, handle and index checks. */
  predicate IndexAdmitted(args: seq<Term>, arity: nat) {
    arity >= 2 && HandleAdmitted(args, arity) && IsCInt(args[1])
  }

  /** The arity, handle and index checks of every column and bind function. */
  function IndexArgs(store: Store, args: seq<Term>, arity: nat): (r: Option<(StmtPtr, int)>)
    requires arity >= 2
    requires |args| == arity ==> Registered(store, args[0])
    ensures r.Some? <==> IndexAdmitted(args, arity)
    ensures r.Some? ==> r.value == (store[args[0].id].stmt, args[1].value)
  {
    match HandleArg(store, args, arity)
    case None => None
    case Some(p) =>
      match GetInt(args[1])
      case None => None
      case Some(i) => Some((p, i))
  }

  /** The statement and index of admitted arguments. */
  function StmtOf(store: Store, args: seq<Term>): StmtPtr
    requires |args| >= 1 && IsStatementTerm(args[0]) && args[0].id in store
  {
    store[args[0].id].stmt
  }

  /** esqlite_column_count: the engine's column count as an integer term. */
  function ColumnCount(cx: Context, store: Store, args: seq<Term>): (r: Outcome)
    requires |args| == 1 ==> Usable(store, args[0])
    ensures r.store == store
    ensures r.reply == BadArg <==> !HandleAdmitted(args, 1)
    ensures r.reply == BadArg ==> r.calls == []
    ensures HandleAdmitted(args, 1) ==>
      var p := StmtOf(store, args);
      r.calls == [ColumnCountCall(p)] && r.reply == Return(Integer(cx.engine.columnCount(p)))
  {
    match HandleArg(store, args, 1)
    case None => Outcome(BadArg, [], store)
    case Some(p) => Outcome(Return(Integer(cx.engine.columnCount(p))), [ColumnCountCall(p)], store)
  }

  /** The reply for an engine type code: the storage class's atom, or a raised {unknown_datatype, Code}. */
  function TypeReply(code: int): (r: Reply)
    ensures forall t :: r == Return(Atom(AtomName(t))) <==> code == Code(t)
    ensures r.Return? || r == Raise(Tuple([Atom("unknown_datatype"), Integer(code)]))
    ensures r.Raise? <==> Classify(code).None?
  {
    match Classify(code)
    case Some(t) => Return(Atom(AtomName(t)))
    case None => Raise(Tuple([Atom("unknown_datatype"), Integer(code)]))
  }

  /**
   * esqlite_column_type: one of five atoms for the five engine codes;
   * any other code raises an exception rather than returning a value.
   */
  function ColumnType(cx: Context, store: Store, args: seq<Term>): (r: Outcome)
    requires |args| == 2 ==> Usable(store, args[0])
    ensures r.store == store
    ensures r.reply == BadArg <==> !IndexAdmitted(args, 2)
    ensures r.reply == BadArg ==> r.calls == []
    ensures IndexAdmitted(args, 2) ==>
      var p, c := StmtOf(store, args), args[1].value;
      var code := cx.engine.columnType(p, c);
      && r.calls == [ColumnTypeCall(p, c)]
      && (forall t :: r.reply == Return(Atom(AtomName(t))) <==> code == Code(t))
      && (r.reply.Raise? <==> Classify(code).None?)
      && (r.reply.Raise? ==> r.reply.exception == Tuple([Atom("unknown_datatype"), Integer(code)]))
  {
    match IndexArgs(store, args, 2)
    case None => Outcome(BadArg, [], store)
    case Some((p, c)) => Outcome(TypeReply(cx.engine.columnType(p, c)), [ColumnTypeCall(p, c)], store)
  }

  /** esqlite_column_bytes: the engine's byte count as an integer term. */
  function ColumnBytes(cx: Context, store: Store, args: seq<Term>): (r: Outcome)
    requires |args| == 2 ==> Usable(store, args[0])
    ensures r.store == store
    ensures r.reply == BadArg <==> !IndexAdmitted(args, 2)
    ensures r.reply == BadArg ==> r.calls == []
    ensures IndexAdmitted(args, 2) ==>
      var p, c := StmtOf(store, args), args[1].value;
      r.calls == [ColumnBytesCall(p, c)] && r.reply == Return(Integer(cx.engine.columnBytes(p, c)))
  {
    match IndexArgs(store, args, 2)
    case None => Outcome(BadArg, [], store)
    case Some((p, c)) => Outcome(Return(Integer(cx.engine.columnBytes(p, c))), [ColumnBytesCall(p, c)], store)
  }

  /**
   * SQLite's promise for one column read: the byte count is not negative
   * and the buffer it describes holds at least that many bytes.
   */
  predicate BufferSound(buffer: (StmtPtr, int) -> seq<byte>, bytes: (StmtPtr, int) -> int,
                        store: Store, args: seq<Term>) {
    IndexAdmitted(args, 2) && args[0].id in store ==>
      var p, c := store[args[0].id].stmt, args[1].value;
      0 <= bytes(p, c) <= |buffer(p, c)|
  }

  /** The copy into a fresh binary: exactly `n` leading bytes of the engine's buffer. */
  function CopyOut(buffer: seq<byte>, n: int): (b: seq<byte>)
    requires 0 <= n <= |buffer|
    ensures |b| == n
    ensures forall i :: 0 <= i < n ==> b[i] == buffer[i]
  {
    buffer[..n]
  }

  /** esqlite_column_blob: the blob copied out, exactly column_bytes long. */
  function ColumnBlob(cx: Context, store: Store, args: seq<Term>): (r: Outcome)
    requires |args| == 2 ==> Usable(store, args[0])
    requires BufferSound(cx.engine.columnBlob, cx.engine.columnBytes, store, args)
    ensures r.store == store
    ensures r.reply == BadArg <==> !IndexAdmitted(args, 2)
    ensures r.reply == BadArg ==> r.calls == []
    ensures IndexAdmitted(args, 2) ==>
      var p, c := StmtOf(store, args), args[1].value;
      var buffer, n := cx.engine.columnBlob(p, c), cx.engine.columnBytes(p, c);
      && r.calls == [ColumnBlobCall(p, c), ColumnBytesCall(p, c)]
      && r.reply.Return? && r.reply.term.Binary?
      && |r.reply.term.bytes| == n
      && r.reply.term.bytes == buffer[..n]
  {
    match IndexArgs(store, args, 2)
    case None => Outcome(BadArg, [], store)
    case Some((p, c)) =>
      var blob := cx.engine.columnBlob(p, c);
      var n := cx.engine.columnBytes(p, c);
      Outcome(Return(Binary(CopyOut(blob, n))), [ColumnBlobCall(p, c), ColumnBytesCall(p, c)], store)
  }

  /**
   * esqlite_column_double: the engine's double as a float term. A value the
   * engine reports as infinite or NaN cannot be a float term, and
   * enif_make_double turns it into badarg after the engine call.
   */
  function ColumnDouble(cx: Context, store: Store, args: seq<Term>): (r: Outcome)
    requires |args| == 2 ==> Usable(store, args[0])
    ensures r.store == store
    ensures !IndexAdmitted(args, 2) ==> r.reply == BadArg && r.calls == []
    ensures IndexAdmitted(args, 2) ==>
      var p, c := StmtOf(store, args), args[1].value;
      var d := cx.engine.columnDouble(p, c);
      && r.calls == [ColumnDoubleCall(p, c)]
      && (r.reply == BadArg <==> !Finite(d))
      && (Finite(d) ==> r.reply == Return(Float(d)))
  {
    match IndexArgs(store, args, 2)
    case None => Outcome(BadArg, [], store)
    case Some((p, c)) => Outcome(MakeDouble(cx.engine.columnDouble(p, c)), [ColumnDoubleCall(p, c)], store)
  }

  /**
   * An infinite column value, such as SQLite reports for 1e999, is badarg
   * although every check passed, while a finite one such as 1.0 comes back
   * as the same float.
   */
  lemma ColumnDoubleRejectsInfinity(cx: Context, store: Store, args: seq<Term>)
    requires |args| == 2 && Usable(store, args[0]) && IndexAdmitted(args, 2)
    ensures
      var p, c := StmtOf(store, args), args[1].value;
      var r := ColumnDouble(cx, store, args);
      && (cx.engine.columnDouble(p, c) == Double(0x7FF0_0000_0000_0000) ==> r.reply == BadArg)
      && (cx.engine.columnDouble(p, c) == Double(0xFFF0_0000_0000_0000) ==> r.reply == BadArg)
      && (cx.engine.columnDouble(p, c) == Double(0x7FF8_0000_0000_0000) ==> r.reply == BadArg)
      && (cx.engine.columnDouble(p, c) == Double(0x3FF0_0000_0000_0000) ==>
            r.reply == Return(Float(Double(0x3FF0_0000_0000_0000))))
  {
  }

  /** esqlite_column_int64: the engine's 64-bit integer as an integer term. */
  function ColumnInt64(cx: Context, store: Store, args: seq<Term>): (r: Outcome)
    requires |args| == 2 ==> Usable(store, args[0])
    ensures r.store == store
    ensures r.reply == BadArg <==> !IndexAdmitted(args, 2)
    ensures r.reply == BadArg ==> r.calls == []
    ensures IndexAdmitted(args, 2) ==>
      var p, c := StmtOf(store, args), args[1].value;
      && r.calls == [ColumnInt64Call(p, c)]
      && r.reply.Return? && r.reply.term.Integer?
      && INT64_MIN <= r.reply.term.value <= INT64_MAX
      && r.reply.term.value == cx.engine.columnInt64(p, c)
  {
    match IndexArgs(store, args, 2)
    case None => Outcome(BadArg, [], store)
    case Some((p, c)) => Outcome(Return(Integer(cx.engine.columnInt64(p, c))), [ColumnInt64Call(p, c)], store)
  }

  /** esqlite_column_text: the text copied out, exactly column_bytes long. */
  function ColumnText(cx: Context, store: Store, args: seq<Term>): (r: Outcome)
    requires |args| == 2 ==> Usable(store, args[0])
    requires BufferSound(cx.engine.columnText, cx.engine.columnBytes, store, args)
    ensures r.store == store
    ensures r.reply == BadArg <==> !IndexAdmitted(args, 2)
    ensures r.reply == BadArg ==> r.calls == []
    ensures IndexAdmitted(args, 2) ==>
      var p, c := StmtOf(store, args), args[1].value;
      var buffer, n := cx.engine.columnText(p, c), cx.engine.columnBytes(p, c);
      && r.calls == [ColumnTextCall(p, c), ColumnBytesCall(p, c)]
      && r.reply.Return? && r.reply.term.Binary?
      && |r.reply.term.bytes| == n
      && r.reply.term.bytes == buffer[..n]
  {
    match IndexArgs(store, args, 2)
    case None => Outcome(BadArg, [], store)
    case Some((p, c)) =>
      var text := cx.engine.columnText(p, c);
      var n := cx.engine.columnBytes(p, c);
      Outcome(Return(Binary(CopyOut(text, n))), [ColumnTextCall(p, c), ColumnBytesCall(p, c)], store)
  }

  /**
   * esqlite_bind_blob64. A payload that is not a binary returns the raw
   * word 0 instead of badarg, and the engine is not called.
   */
  function BindBlob64(cx: Context, store: Store, args: seq<Term>): (r: Outcome)
    requires |args| == 3 ==> Usable(store, args[0])
    ensures r.store == store
    ensures r.reply == BadArg <==> !IndexAdmitted(args, 3)
    ensures r.reply == RawZero <==> IndexAdmitted(args, 3) && !args[2].Binary?
    ensures r.reply in {BadArg, RawZero} ==> r.calls == []
    ensures IndexAdmitted(args, 3) && args[2].Binary? ==>
      var p, i, bytes := StmtOf(store, args), args[1].value, args[2].bytes;
      var code := cx.engine.bindBlob(p, i, bytes);
      && r.calls == [BindBlobCall(p, i, bytes)]
      && (ViewOf(r.reply) == OkUnit <==> code == SQLITE_OK)
      && (code != SQLITE_OK ==> ViewOf(r.reply) == Failed(cx.helpers.resultCode(code)))
  {
    match IndexArgs(store, args, 3)
    case None => Outcome(BadArg, [], store)
    case Some((p, i)) =>
      match InspectBinary(args[2])
      case None => Outcome(RawZero, [], store)
      case Some(bytes) => Outcome(OkOrError(cx.helpers, cx.engine.bindBlob(p, i, bytes)), [BindBlobCall(p, i, bytes)], store)
  }

  /** esqlite_bind_double: only a float term is accepted as the value. */
  function BindDouble(cx: Context, store: Store, args: seq<Term>): (r: Outcome)
    requires |args| == 3 ==> Usable(store, args[0])
    ensures r.store == store
    ensures r.reply == BadArg <==> !(IndexAdmitted(args, 3) && args[2].Float?)
    ensures r.reply == BadArg ==> r.calls == []
    ensures IndexAdmitted(args, 3) && args[2].Float? ==>
      var p, i, d := StmtOf(store, args), args[1].value, args[2].number;
      var code := cx.engine.bindDouble(p, i, d);
      && r.calls == [BindDoubleCall(p, i, d)]
      && (ViewOf(r.reply) == OkUnit <==> code == SQLITE_OK)
      && (code != SQLITE_OK ==> ViewOf(r.reply) == Failed(cx.helpers.resultCode(code)))
  {
    match IndexArgs(store, args, 3)
    case None => Outcome(BadArg, [], store)
    case Some((p, i)) =>
      match GetDouble(args[2])
      case None => Outcome(BadArg, [], store)
      case Some(d) => Outcome(OkOrError(cx.helpers, cx.engine.bindDouble(p, i, d)), [BindDoubleCall(p, i, d)], store)
  }

  /** esqlite_bind_int64: the value must be an integer that fits 64 bits. */
  function BindInt64(cx: Context, store: Store, args: seq<Term>): (r: Outcome)
    requires |args| == 3 ==> Usable(store, args[0])
    ensures r.store == store
    ensures r.reply == BadArg <==> !(IndexAdmitted(args, 3) && IsInt64(args[2]))
    ensures r.reply == BadArg ==> r.calls == []
    ensures IndexAdmitted(args, 3) && IsInt64(args[2]) ==>
      var p, i, v := StmtOf(store, args), args[1].value, args[2].value;
      var code := cx.engine.bindInt64(p, i, v);
      && r.calls == [BindInt64Call(p, i, v)]
      && (ViewOf(r.reply) == OkUnit <==> code == SQLITE_OK)
      && (code != SQLITE_OK ==> ViewOf(r.reply) == Failed(cx.helpers.resultCode(code)))
  {
    match IndexArgs(store, args, 3)
    case None => Outcome(BadArg, [], store)
    case Some((p, i)) =>
      match GetInt64(args[2])
      case None => Outcome(BadArg, [], store)
      case Some(v) => Outcome(OkOrError(cx.helpers, cx.engine.bindInt64(p, i, v)), [BindInt64Call(p, i, v)], store)
  }

  /** esqlite_bind_null. */
  function BindNull(cx: Context, store: Store, args: seq<Term>): (r: Outcome)
    requires |args| == 2 ==> Usable(store, args[0])
    ensures r.store == store
    ensures r.reply == BadArg <==> !IndexAdmitted(args, 2)
    ensures r.reply == BadArg ==> r.calls == []
    ensures IndexAdmitted(args, 2) ==>
      var p, i := StmtOf(store, args), args[1].value;
      var code := cx.engine.bindNull(p, i);
      && r.calls == [BindNullCall(p, i)]
      && (ViewOf(r.reply) == OkUnit <==> code == SQLITE_OK)
      && (code != SQLITE_OK ==> ViewOf(r.reply) == Failed(cx.helpers.resultCode(code)))
  {
    match IndexArgs(store, args, 2)
    case None => Outcome(BadArg, [], store)
    case Some((p, i)) => Outcome(OkOrError(cx.helpers, cx.engine.bindNull(p, i)), [BindNullCall(p, i)], store)
  }

  /**
   * esqlite_bind_text64: like bind_blob64, including the raw 0 for a
   * payload that is not a binary; the bytes are tagged UTF-8.
   */
  function BindText64(cx: Context, store: Store, args: seq<Term>): (r: Outcome)
    requires |args| == 3 ==> Usable(store, args[0])
    ensures r.store == store
    ensures r.reply == BadArg <==> !IndexAdmitted(args, 3)
    ensures r.reply == RawZero <==> IndexAdmitted(args, 3) && !args[2].Binary?
    ensures r.reply in {BadArg, RawZero} ==> r.calls == []
    ensures IndexAdmitted(args, 3) && args[2].Binary? ==>
      var p, i, bytes := StmtOf(store, args), args[1].value, args[2].bytes;
      var code := cx.engine.bindText(p, i, bytes);
      && r.calls == [BindTextCall(p, i, bytes)]
      && (ViewOf(r.reply) == OkUnit <==> code == SQLITE_OK)
      && (code != SQLITE_OK ==> ViewOf(r.reply) == Failed(cx.helpers.resultCode(code)))
  {
    match IndexArgs(store, args, 3)
    case None => Outcome(BadArg, [], store)
    case Some((p, i)) =>
      match InspectBinary(args[2])
      case None => Outcome(RawZero, [], store)
      case Some(bytes) => Outcome(OkOrError(cx.helpers, cx.engine.bindText(p, i, bytes)), [BindTextCall(p, i, bytes)], store)
  }

  /**
   * Blob round trip through the binding: the bind hands the engine exactly
   * the caller's bytes, and when the engine later reports those bytes for a
   * column, the column read hands back exactly the same bytes.
   */
  lemma BlobRoundTrip(bind: Context, read: Context, store: Store, h: HandleId, param: int, column: int,
                      bytes: seq<byte>, rest: seq<byte>)
    requires h in store && store[h].live
    requires INT_MIN <= param <= INT_MAX && INT_MIN <= column <= INT_MAX
    requires read.engine.columnBlob(store[h].stmt, column) == bytes + rest
    requires read.engine.columnBytes(store[h].stmt, column) == |bytes|
    ensures
      var b := BindBlob64(bind, store, [Resource(StatementType, h), Integer(param), Binary(bytes)]);
      b.calls == [BindBlobCall(store[h].stmt, param, bytes)]
    ensures
      var c := ColumnBlob(read, store, [Resource(StatementType, h), Integer(column)]);
      c.reply == Return(Binary(bytes))
  {
    var args := [Resource(StatementType, h), Integer(column)];
    assert IndexAdmitted(args, 2);
    assert (bytes + rest)[..|bytes|] == bytes;
  }
}
