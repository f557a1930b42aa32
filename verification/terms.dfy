/**
 * Erlang terms as a NIF receives and builds them, the four shapes of value a
 * NIF can hand back to the runtime, and the term decoders of the runtime's
 * NIF interface (enif_get_int, enif_get_int64, enif_get_double,
 * enif_inspect_binary) that the statement functions rely on.
 */
module Terms {
  import opened Wrappers

  newtype byte = b: int | 0 <= b < 256

  /** A C double, as its IEEE 754 binary64 bit pattern. */
  datatype Double = Double(bits: bv64)

  /**
   * A double that is neither infinite nor NaN: in IEEE 754 binary64 the
   * 11-bit exponent field is all ones exactly for those values.
   */
  predicate Finite(d: Double) {
    d.bits & 0x7FF0_0000_0000_0000 != 0x7FF0_0000_0000_0000
  }

  /** enif_make_double: a float term, or badarg for an infinite or NaN value. */
  function MakeDouble(d: Double): (r: Reply)
    ensures r == BadArg <==> !Finite(d)
    ensures r != BadArg ==> r == Return(Float(d))
  {
    if Finite(d) then Return(Float(d)) else BadArg
  }

  const INT_MIN: int := -0x8000_0000
  const INT_MAX: int := 0x7fff_ffff
  const INT64_MIN: int := -0x8000_0000_0000_0000
  const INT64_MAX: int := 0x7fff_ffff_ffff_ffff

  type Int64 = x: int | INT64_MIN <= x <= INT64_MAX

  /** The resource type a resource term was created with. */
  datatype ResourceType = StatementType | DatabaseType | ForeignType

  /**
   * Lists are cons cells so that improper lists (a cons chain ending in a
   * non-list tail) can be written, as the runtime allows them.
   */
  datatype Term =
    | Atom(name: string)
    | Integer(value: int)
    | Float(number: Double)
    | Binary(bytes: seq<byte>)
    | Tuple(elems: seq<Term>)
    | Nil
    | Cons(head: Term, tail: Term)
    | Resource(rtype: ResourceType, id: nat)

  /**
   * What a NIF returns: a term, the badarg exception marker, an exception
   * raised with a reason term, or the raw machine word 0, which is not a
   * well-formed term.
   */
  datatype Reply =
    | Return(term: Term)
    | BadArg
    | Raise(exception: Term)
    | RawZero

  /** How an Erlang caller pattern-matching the reply classifies it. */
  datatype View =
    | OkUnit
    | OkWith(payload: Term)
    | Failed(reason: Term)
    | Plain(value: Term)
    | Rejected
    | Raised(exception: Term)
    | NotATerm

  function ViewOf(r: Reply): View {
    match r
    case BadArg => Rejected
    case Raise(e) => Raised(e)
    case RawZero => NotATerm
    case Return(t) =>
      if t == Atom("ok") then OkUnit
      else if t.Tuple? && |t.elems| == 2 && t.elems[0] == Atom("ok") then OkWith(t.elems[1])
      else if t.Tuple? && |t.elems| == 2 && t.elems[0] == Atom("error") then Failed(t.elems[1])
      else Plain(t)
  }

  const OkAtom: Term := Atom("ok")

  /** The success envelope `{ok, Payload}`; a caller matching it gets the payload back. */
  function OkTuple(payload: Term): (t: Term)
    ensures ViewOf(Return(t)) == OkWith(payload)
  {
    Tuple([Atom("ok"), payload])
  }

  /** The failure envelope `{error, Reason}`; a caller matching it gets the reason back. */
  function ErrorTuple(reason: Term): (t: Term)
    ensures ViewOf(Return(t)) == Failed(reason)
  {
    Tuple([Atom("error"), reason])
  }

  /** An integer term that fits a C int. */
  predicate IsCInt(t: Term) {
    t.Integer? && INT_MIN <= t.value <= INT_MAX
  }

  /** enif_get_int. */
  function GetInt(t: Term): Option<int> {
    if IsCInt(t) then Some(t.value) else None
  }

  /** An integer term that fits a 64-bit signed integer. */
  predicate IsInt64(t: Term) {
    t.Integer? && INT64_MIN <= t.value <= INT64_MAX
  }

  /** enif_get_int64. */
  function GetInt64(t: Term): Option<Int64> {
    if IsInt64(t) then Some(t.value) else None
  }

  /** enif_get_double: only float terms convert, integers do not. */
  function GetDouble(t: Term): Option<Double> {
    if t.Float? then Some(t.number) else None
  }

  /** enif_inspect_binary. */
  function InspectBinary(t: Term): Option<seq<byte>> {
    if t.Binary? then Some(t.bytes) else None
  }
}
