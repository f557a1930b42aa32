/**
 * The prepare-flag parser (esqlite_inspect_prepare_flags): a list of atoms
 * drawn from {persistent, normalize, no_vtab} folded into the flag word
 * handed to sqlite3_prepare_v3.
 */
module PrepareFlags {
  import opened Wrappers
  import opened Terms
  import opened Sqlite

  /** The only atoms the parser accepts. */
  const KnownFlags: set<Term> := {Atom("persistent"), Atom("normalize"), Atom("no_vtab")}

  /** enif_is_list: the empty list or a cons cell, whatever the cons chain ends in. */
  predicate IsList(t: Term) {
    t.Nil? || t.Cons?
  }

  /**
   * The heads enif_get_list_cell walks through: it stops at the first tail
   * that is not a cons cell, so the tail of an improper list is never looked at.
   */
  function Cells(t: Term): seq<Term>
    decreases t
  {
    if t.Cons? then [t.head] + Cells(t.tail) else []
  }

  /** The reference meaning of a flag list: one bit for each known flag that occurs in it. */
  function FlagsFor(names: set<Term>): FlagWord {
    (if Atom("persistent") in names then {SQLITE_PREPARE_PERSISTENT} else {})
    + (if Atom("normalize") in names then {SQLITE_PREPARE_NORMALIZE} else {})
    + (if Atom("no_vtab") in names then {SQLITE_PREPARE_NO_VTAB} else {})
  }

  function Elements(cells: seq<Term>): set<Term> {
    set x | x in cells
  }

  /** The bit one list element sets, in the order the parser tests the atoms. */
  function FlagBit(t: Term): Option<nat> {
    if t == Atom("persistent") then Some(SQLITE_PREPARE_PERSISTENT)
    else if t == Atom("normalize") then Some(SQLITE_PREPARE_NORMALIZE)
    else if t == Atom("no_vtab") then Some(SQLITE_PREPARE_NO_VTAB)
    else None
  }

  /** The parser's loop from a given accumulator onwards. */
  function FoldFlags(t: Term, acc: FlagWord): Option<FlagWord>
    decreases t
  {
    if !t.Cons? then Some(acc)
    else match FlagBit(t.head)
      case None => None
      case Some(bit) => FoldFlags(t.tail, acc + {bit})
  }

  /** The parser: None when it returns 0, Some(flags) when it stores flags and returns 1. */
  function ParseFlags(t: Term): (r: Option<FlagWord>)
    ensures r.Some? <==> IsList(t) && forall x :: x in Cells(t) ==> x in KnownFlags
    ensures r.Some? ==> r.value == FlagsFor(Elements(Cells(t)))
  {
    if !IsList(t) then None
    else
      FoldFlagsMeaning(t, {});
      FoldFlags(t, {})
  }

  lemma FlagBitKnown(h: Term)
    ensures FlagBit(h).Some? <==> h in KnownFlags
  {
  }

  lemma FlagsForInsert(h: Term, names: set<Term>)
    requires h in KnownFlags
    ensures FlagsFor({h} + names) == {FlagBit(h).value} + FlagsFor(names)
  {
  }

  /** The loop succeeds exactly on lists of known atoms and ORs in the bit of each. */
  lemma {:induction false} FoldFlagsMeaning(t: Term, acc: FlagWord)
    ensures FoldFlags(t, acc).Some? <==> forall x :: x in Cells(t) ==> x in KnownFlags
    ensures FoldFlags(t, acc).Some? ==> FoldFlags(t, acc).value == acc + FlagsFor(Elements(Cells(t)))
    decreases t
  {
    if t.Cons? {
      assert Cells(t) == [t.head] + Cells(t.tail);
      FlagBitKnown(t.head);
      if t.head in KnownFlags {
        var bit := FlagBit(t.head).value;
        FoldFlagsMeaning(t.tail, acc + {bit});
        assert Elements(Cells(t)) == {t.head} + Elements(Cells(t.tail));
        FlagsForInsert(t.head, Elements(Cells(t.tail)));
      }
    } else {
      assert Elements(Cells(t)) == {};
    }
  }

  /**
   * The parser as the source writes it: a loop over the list cells that
   * tests each head against the three atoms and gives up on the first other
   * term. On failure the caller's flag word is left as it was.
   */
  method InspectPrepareFlags(list: Term, prior: FlagWord) returns (ok: bool, flags: FlagWord)
    ensures ok <==> IsList(list) && forall x :: x in Cells(list) ==> x in KnownFlags
    ensures ok ==> flags == FlagsFor(Elements(Cells(list)))
    ensures !ok ==> flags == prior
  {
    if !IsList(list) {
      return false, prior;
    }
    var acc: FlagWord := {};
    var rest := list;
    ghost var goal := ParseFlags(list);
    assert goal == FoldFlags(list, {});
    while rest.Cons?
      invariant FoldFlags(rest, acc) == goal
      decreases rest
    {
      if rest.head == Atom("persistent") {
        acc := acc + {SQLITE_PREPARE_PERSISTENT};
      } else if rest.head == Atom("normalize") {
        acc := acc + {SQLITE_PREPARE_NORMALIZE};
      } else if rest.head == Atom("no_vtab") {
        acc := acc + {SQLITE_PREPARE_NO_VTAB};
      } else {
        assert FlagBit(rest.head).None?;
        return false, prior;
      }
      rest := rest.tail;
    }
    ok, flags := true, acc;
  }

  /** Neither order nor repetition matters: lists with the same atoms give the same flags. */
  lemma FlagsIgnoreOrderAndRepeats(a: Term, b: Term)
    requires IsList(a) && IsList(b)
    requires Elements(Cells(a)) == Elements(Cells(b))
    ensures ParseFlags(a) == ParseFlags(b)
  {
    forall x | x in Cells(a)
      ensures x in Cells(b)
    {
      assert x in Elements(Cells(a));
    }
    forall x | x in Cells(b)
      ensures x in Cells(a)
    {
      assert x in Elements(Cells(b));
    }
  }

  /** The empty list is accepted and sets no flag. */
  lemma EmptyListIsNoFlags()
    ensures ParseFlags(Nil) == Some({})
  {
    assert Elements(Cells(Nil)) == {};
  }

  lemma KnownFlagsDistinct()
    ensures Atom("persistent") != Atom("normalize")
    ensures Atom("persistent") != Atom("no_vtab")
    ensures Atom("normalize") != Atom("no_vtab")
  {
    assert "persistent"[0] != "normalize"[0];
    assert "persistent"[0] != "no_vtab"[0];
    assert "normalize"[2] != "no_vtab"[2];
  }

  /** Each known atom alone sets exactly its own bit. */
  lemma SingleFlags()
    ensures ParseFlags(Cons(Atom("persistent"), Nil)) == Some({SQLITE_PREPARE_PERSISTENT})
    ensures ParseFlags(Cons(Atom("normalize"), Nil)) == Some({SQLITE_PREPARE_NORMALIZE})
    ensures ParseFlags(Cons(Atom("no_vtab"), Nil)) == Some({SQLITE_PREPARE_NO_VTAB})
  {
    KnownFlagsDistinct();
    assert Elements(Cells(Cons(Atom("persistent"), Nil))) == {Atom("persistent")};
    assert Elements(Cells(Cons(Atom("normalize"), Nil))) == {Atom("normalize")};
    assert Elements(Cells(Cons(Atom("no_vtab"), Nil))) == {Atom("no_vtab")};
    assert FlagsFor({Atom("no_vtab")}) == {SQLITE_PREPARE_NO_VTAB};
  }

  /** Any other element anywhere in the list makes the whole parse fail. */
  lemma UnknownFlagFails(t: Term, x: Term)
    requires x in Cells(t) && x !in KnownFlags
    ensures ParseFlags(t).None?
  {
  }

  /** The cons chain of `heads` whose last tail is `end`: a proper list when `end` is Nil. */
  function Chain(heads: seq<Term>, end: Term): Term
    decreases |heads|
  {
    if heads == [] then end else Cons(heads[0], Chain(heads[1..], end))
  }

  /** The parser's walk over a chain yields exactly its heads, whatever non-cons term ends it. */
  lemma {:induction false} CellsOfChain(heads: seq<Term>, end: Term)
    requires !end.Cons?
    ensures Cells(Chain(heads, end)) == heads
    decreases |heads|
  {
    if heads != [] {
      CellsOfChain(heads[1..], end);
    }
  }

  /**
   * An improper list is accepted or rejected exactly as the proper list
   * with the same elements: the parser stops at the non-list tail without
   * inspecting it.
   */
  lemma ImproperListAccepted(heads: seq<Term>, end: Term)
    requires heads != [] && !end.Cons?
    ensures ParseFlags(Chain(heads, end)) == ParseFlags(Chain(heads, Nil))
  {
    CellsOfChain(heads, end);
    CellsOfChain(heads, Nil);
  }
}
