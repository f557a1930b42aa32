/**
 * The five storage classes a column value can have, the engine's type
 * codes for them, and the atoms the binding reports them as.
 */
module ColumnTypes {
  import opened Wrappers
  import opened Sqlite

  datatype ColumnType = BlobColumn | FloatColumn | IntegerColumn | NullColumn | TextColumn

  /** The engine's fundamental datatype code of each storage class. */
  function Code(t: ColumnType): int {
    match t
    case BlobColumn => SQLITE_BLOB
    case FloatColumn => SQLITE_FLOAT
    case IntegerColumn => SQLITE_INTEGER
    case NullColumn => SQLITE_NULL
    case TextColumn => SQLITE_TEXT
  }

  /** The atom the binding reports for each storage class. */
  function AtomName(t: ColumnType): string {
    match t
    case BlobColumn => "blob"
    case FloatColumn => "float"
    case IntegerColumn => "integer"
    case NullColumn => "null"
    case TextColumn => "text"
  }

  /** The switch of esqlite_column_type: one case per known code, nothing for any other. */
  function Classify(code: int): Option<ColumnType> {
    if code == SQLITE_BLOB then Some(BlobColumn)
    else if code == SQLITE_FLOAT then Some(FloatColumn)
    else if code == SQLITE_INTEGER then Some(IntegerColumn)
    else if code == SQLITE_NULL then Some(NullColumn)
    else if code == SQLITE_TEXT then Some(TextColumn)
    else None
  }

  /**
   * The switch recognizes exactly the five engine codes, each as its own
   * storage class: it is the inverse of Code.
   */
  lemma ClassifyInvertsCode(code: int, t: ColumnType)
    ensures Classify(code) == Some(t) <==> code == Code(t)
  {
  }

  /** Every code outside the five is unrecognized. */
  lemma ClassifyTotalOnKnownCodes(code: int)
    ensures Classify(code).Some? <==> code in {SQLITE_BLOB, SQLITE_FLOAT, SQLITE_INTEGER, SQLITE_NULL, SQLITE_TEXT}
  {
  }

  /** Distinct storage classes have distinct codes and are reported as distinct atoms. */
  lemma ReportIsInjective(a: ColumnType, b: ColumnType)
    ensures Code(a) == Code(b) ==> a == b
    ensures AtomName(a) == AtomName(b) ==> a == b
  {
    if a != b {
      assert AtomName(a)[0] != AtomName(b)[0];
    }
  }
}
