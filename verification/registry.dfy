/**
 * Statement handles: the resource objects that hold a native statement
 * pointer, and esqlite_inspect_statement, which turns a term back into the
 * pointer it holds.
 */
module Registry {
  import opened Wrappers
  import opened Terms
  import opened Sqlite

  type HandleId = nat

  /**
   * One statement resource. `stmt` is the pointer the resource stores;
   * `live` records whether that statement has been finalized. The binding
   * keeps no such flag: it is bookkeeping of the model, read only by the
   * preconditions that rule out use after finalize.
   */
  datatype Slot = Slot(stmt: StmtPtr, live: bool)

  /** Every statement resource in existence, by resource identity. */
  type Store = map<HandleId, Slot>

  /** A term enif_get_resource accepts for the statement resource type. */
  predicate IsStatementTerm(t: Term) {
    t.Resource? && t.rtype == StatementType
  }

  /** A resource term always refers to an existing resource object. */
  predicate Registered(store: Store, t: Term) {
    IsStatementTerm(t) ==> t.id in store
  }

  /** What a caller owes every statement function: the handle was not finalized. */
  predicate Usable(store: Store, t: Term) {
    IsStatementTerm(t) ==> t.id in store && store[t.id].live
  }

  /**
   * esqlite_inspect_statement: fails exactly when the term is not a
   * statement resource, and otherwise yields the pointer stored in it.
   */
  function InspectStatement(store: Store, t: Term): (r: Option<StmtPtr>)
    requires Registered(store, t)
    ensures r.None? <==> !IsStatementTerm(t)
    ensures r.Some? ==> r.value == store[t.id].stmt
  {
    if IsStatementTerm(t) then Some(store[t.id].stmt) else None
  }

  /** Two stores that hold the same pointers, whatever their liveness. */
  ghost predicate SamePointers(a: Store, b: Store) {
    a.Keys == b.Keys && forall h :: h in a ==> a[h].stmt == b[h].stmt
  }

  /** The lookup consults no liveness state: only the stored pointers matter. */
  lemma LookupIgnoresLiveness(a: Store, b: Store, t: Term)
    requires SamePointers(a, b) && Registered(a, t)
    ensures Registered(b, t)
    ensures InspectStatement(a, t) == InspectStatement(b, t)
  {
  }

  /** Marking a handle finalized keeps every pointer, so lookups are unchanged. */
  lemma MarkFinalizedKeepsPointers(store: Store, h: HandleId)
    requires h in store
    ensures SamePointers(store, store[h := store[h].(live := false)])
  {
  }
}
