/**
 * The SQLite engine as the binding sees it: the result and type codes it
 * compares against, an oracle giving the engine's answer to each call, and
 * the log of calls the binding makes into it.
 */
module Sqlite {
  import opened Terms

  type DbPtr = nat
  type StmtPtr = nat

  const SQLITE_OK: int := 0
  const SQLITE_ROW: int := 100
  const SQLITE_DONE: int := 101

  const SQLITE_INTEGER: int := 1
  const SQLITE_FLOAT: int := 2
  const SQLITE_TEXT: int := 3
  const SQLITE_BLOB: int := 4
  const SQLITE_NULL: int := 5

  const SQLITE_PREPARE_PERSISTENT: nat := 0x01
  const SQLITE_PREPARE_NORMALIZE: nat := 0x02
  const SQLITE_PREPARE_NO_VTAB: nat := 0x04

  /**
   * An unsigned flag word, represented by the set of its one-bits, each
   * given by its value (a power of two). Bitwise OR is set union.
   */
  type FlagWord = set<nat>

  /**
   * The answer of sqlite3_prepare_v3: its result code, the statement it
   * wrote to *ppStmt, and the offset of *pzTail in the query buffer.
   */
  datatype Prepared = Prepared(code: int, stmt: StmtPtr, tailOffset: nat)

  /**
   * The engine's answer to every call the binding makes, for the engine's
   * state at the moment of the call. Nothing about SQL is modelled: each
   * answer is whatever the engine returns.
   */
  datatype Engine = Engine(
    prepare: (DbPtr, seq<byte>, FlagWord) -> Prepared,
    step: StmtPtr -> int,
    reset: StmtPtr -> int,
    columnCount: StmtPtr -> int,
    columnType: (StmtPtr, int) -> int,
    columnBytes: (StmtPtr, int) -> int,
    columnBlob: (StmtPtr, int) -> seq<byte>,
    columnText: (StmtPtr, int) -> seq<byte>,
    columnDouble: (StmtPtr, int) -> Double,
    columnInt64: (StmtPtr, int) -> Int64,
    bindBlob: (StmtPtr, int, seq<byte>) -> int,
    bindText: (StmtPtr, int, seq<byte>) -> int,
    bindDouble: (StmtPtr, int, Double) -> int,
    bindInt64: (StmtPtr, int, Int64) -> int,
    bindNull: (StmtPtr, int) -> int)

  /**
   * One call into the engine. Text and blob binds carry the bytes by value:
   * they are bound with SQLITE_TRANSIENT, so the engine keeps its own copy.
   * FinalizeForeignCall is sqlite3_finalize handed an address that is not a
   * statement object: that of a resource's own storage.
   */
  datatype EngineCall =
    | PrepareCall(db: DbPtr, query: seq<byte>, flags: FlagWord)
    | FinalizeCall(stmt: StmtPtr)
    | FinalizeForeignCall(address: nat)
    | StepCall(stmt: StmtPtr)
    | ResetCall(stmt: StmtPtr)
    | ColumnCountCall(stmt: StmtPtr)
    | ColumnTypeCall(stmt: StmtPtr, column: int)
    | ColumnBytesCall(stmt: StmtPtr, column: int)
    | ColumnBlobCall(stmt: StmtPtr, column: int)
    | ColumnTextCall(stmt: StmtPtr, column: int)
    | ColumnDoubleCall(stmt: StmtPtr, column: int)
    | ColumnInt64Call(stmt: StmtPtr, column: int)
    | BindBlobCall(stmt: StmtPtr, param: int, bytes: seq<byte>)
    | BindTextCall(stmt: StmtPtr, param: int, bytes: seq<byte>)
    | BindDoubleCall(stmt: StmtPtr, param: int, number: Double)
    | BindInt64Call(stmt: StmtPtr, param: int, value: Int64)
    | BindNullCall(stmt: StmtPtr, param: int)

  /** Every call except prepare and a finalize of a foreign address works on one statement. */
  predicate Targets(c: EngineCall, p: StmtPtr) {
    !c.PrepareCall? && !c.FinalizeForeignCall? && c.stmt == p
  }

  /**
   * SQLite's own rules for statement objects: only statement objects are
   * handed to sqlite3_finalize, and once a statement has been finalized, no
   * later call may be made on it, finalize included.
   */
  ghost predicate SafeLog(log: seq<EngineCall>) {
    && (forall i :: 0 <= i < |log| ==> !log[i].FinalizeForeignCall?)
    && (forall i, j :: 0 <= i < j < |log| && log[i].FinalizeCall? ==> !Targets(log[j], log[i].stmt))
  }
}
