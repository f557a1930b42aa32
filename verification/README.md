# erl-sqlite statement layer, modelled in Dafny

This project models the prepared-statement layer of erl-sqlite. That layer is an Erlang NIF
library binding SQLite's C API. The model covers `c_src/sqlite_statement.c` and
`esqlite_binary_string` from `c_src/sqlite_utils.c`:

- the prepare-flag parser;
- the statement-handle lookup;
- `prepare`, `finalize`, `step` and `reset`;
- the seven column readers and the five parameter binders;
- the resource destructor;
- the copy of a NUL-terminated C string into a binary.

Each NIF function is a pure Dafny function with up to four inputs:

- a `Context` (all but `Finalize`): the SQLite engine's answers plus the binding's helpers defined outside this file;
- the `Store` of existing statement resources;
- the argument vector of Erlang `Term`s;
- for `Prepare` only, the identity `newId` the runtime gives the new resource.

It returns an `Outcome`:

- the `Reply`: a term, `badarg`, a raised exception, or the raw word 0;
- the engine calls made, in order;
- the store afterwards.

The engine is an oracle, the `Engine` datatype. It is a record of total functions that give
the result code, type code, buffer or value SQLite returns for one call. SQL semantics are
not modelled.

How callers read replies:

- Callers see the envelope through `ViewOf`. It classifies a reply the way an Erlang caller
  pattern-matching it would: `ok`, `{ok, X}`, `{error, R}`, another term, `badarg`, an
  exception, or not a term at all.
- Contracts are stated in that view and in predicates over the arguments: `HandleAdmitted`,
  `IndexAdmitted`, `PrepareAdmitted`. They are not stated in terms of the function bodies.

Files and modules:

- `terms.dfy` (`Terms`): Erlang terms, NIF replies, the caller's view, and the runtime decoders
  `enif_get_int`, `enif_get_int64`, `enif_get_double` and `enif_inspect_binary`.
- `sqlite.dfy` (`Sqlite`): the engine's constants, the engine oracle, the engine-call log, and
  SQLite's rules that only statement objects are finalized and that a finalized statement is
  not used again (`SafeLog`).
- `flags.dfy` (`PrepareFlags`): `esqlite_inspect_prepare_flags`.
- `cstring.dfy` (`CString`): `strlen` and `esqlite_binary_string`.
- `columntypes.dfy` (`ColumnTypes`): the five storage classes, their codes and their atoms.
- `registry.dfy` (`Registry`): statement resources and `esqlite_inspect_statement`.
- `statement.dfy` (`Statement`): `prepare`, `finalize`, `step`, `reset` and the destructor.
- `accessors.dfy` (`Accessors`): `column_*` and `bind_*`.
- `lifecycle.dfy` (`Lifecycle`): whole sessions of prepare, use, finalize and garbage
  collection. It backs the findings below.

Modelling choices:

- **Flag word.** The unsigned flag word is represented by the set of its one-bits. Each bit is
  given by its value: `SQLITE_PREPARE_PERSISTENT` = 0x01, `NORMALIZE` = 0x02, `NO_VTAB` = 0x04.
  The parser's `|=` is therefore set union.
- **Liveness flag.** Each resource slot carries a `live` flag. The binding keeps no such
  state. The flag is read only by the precondition `Usable`, which makes use after finalize a
  caller obligation. `Registry.LookupIgnoresLiveness` shows that the lookup itself never
  consults it.

Behaviour of the code that a caller might not expect, modelled as written:

- **Finalized handles are not rejected.** The lookup checks only the resource type, so a
  finalized handle is looked up like any other, and its freed pointer goes to SQLite. The model
  makes "not finalized" a precondition (`Usable`).
- **Non-binary payload.** For `bind_blob64` and `bind_text64`, a payload that is not a binary
  gets the raw word 0 back, not `badarg` (`RawZero`).
- **Second finalize.** SQLite documents that passing an already-finalized statement to
  `sqlite3_finalize` is undefined, so a second finalize is not harmless. `SafeLog` records
  that rule, together with SQLite's rule that only statement objects may be finalized.
- **Non-finite doubles.** `enif_make_double` gives `badarg` for an infinite or NaN value. So
  `column_double` on such a column, for example one holding `1e999`, answers `badarg` after
  the engine call.
- **Improper flag lists.** `enif_is_list` accepts any cons cell, and the loop stops at the
  first tail that is not a cons cell. So an improper list such as `[no_vtab | bogus]` is
  accepted exactly like the proper list with the same elements
  (`PrepareFlags.ImproperListAccepted`).

## Model

| member | source | states |
|---|---|---|
| PrepareFlags.ParseFlags | c_src/sqlite_statement.c:465-493 | Parsing succeeds exactly for a list all of whose cells are persistent, normalize or no_vtab. The flags are then the bits of exactly the atoms present. |
| PrepareFlags.InspectPrepareFlags | c_src/sqlite_statement.c:465-493 | The loop as written succeeds exactly on lists of known atoms and then yields their bits. On failure the caller's flag word is left unwritten. |
| PrepareFlags.FoldFlagsMeaning | c_src/sqlite_statement.c:474-490 | From any accumulator, the loop fails exactly when some cell is unknown. Otherwise it ORs in one bit per distinct known atom. |
| PrepareFlags.FlagsIgnoreOrderAndRepeats | c_src/sqlite_statement.c:474-490 | Two lists with the same set of atoms give the same flags, whatever the order or repetitions. |
| PrepareFlags.EmptyListIsNoFlags | c_src/sqlite_statement.c:474-490 | The empty list is accepted with no flag set. |
| PrepareFlags.SingleFlags | c_src/sqlite_statement.c:477-482 | Each known atom on its own sets exactly SQLITE_PREPARE_PERSISTENT, NORMALIZE or NO_VTAB. |
| PrepareFlags.UnknownFlagFails | c_src/sqlite_statement.c:483-484 | Any unknown element anywhere in the list makes the parse fail. |
| PrepareFlags.ImproperListAccepted | c_src/sqlite_statement.c:471-488 | A non-empty cons chain ending in any non-list tail parses exactly as the proper list with the same elements: the tail is never inspected. |
| PrepareFlags.CellsOfChain | c_src/sqlite_statement.c:474-488 | The parser's walk over a cons chain visits exactly its heads, whatever non-cons term ends it. |
| CString.StrLen | c_src/sqlite_utils.c:23 | strlen returns the index of the first NUL: that byte is 0 and no byte before it is. |
| CString.BinaryString | c_src/sqlite_utils.c:17-28 | The copy has the length of the text before the first NUL and is exactly that prefix. It contains no zero byte, is empty when the first byte is NUL, and reads the input only. |
| CString.ToBinary | c_src/sqlite_utils.c:23-25 | The copied binary is the prefix up to strlen and holds no NUL. |
| CString.BinaryStringIsToBinary | c_src/sqlite_utils.c:23-25 | Any NUL-free prefix that ends at a NUL is the one the copy produces, so the copy is uniquely determined. |
| CString.StrLenIsFirstNul | c_src/sqlite_utils.c:23 | An index holding a NUL with no NUL before it is strlen. |
| CString.ToBinaryOfTerminated | c_src/sqlite_utils.c:23-25 | Round trip: a NUL-free string written with a terminator, and anything after it, copies back to itself. |
| CString.SuffixToBinary | c_src/sqlite_statement.c:81 | Copying from a tail offset inside the query gives exactly the query bytes from that offset to its terminator. |
| ColumnTypes.ClassifyInvertsCode | c_src/sqlite_statement.c:188-199 | The type switch maps a code to a storage class exactly when the code is that class's SQLite code. |
| ColumnTypes.ClassifyTotalOnKnownCodes | c_src/sqlite_statement.c:188-199 | The switch recognizes exactly the five codes BLOB, FLOAT, INTEGER, NULL and TEXT. |
| ColumnTypes.ReportIsInjective | c_src/sqlite_statement.c:189-198 | Distinct storage classes have distinct codes and are reported as distinct atoms. |
| Registry.InspectStatement | c_src/sqlite_statement.c:25-43 | The lookup fails exactly when the term is not a statement resource. Otherwise it yields the pointer stored in the resource. |
| Registry.LookupIgnoresLiveness | c_src/sqlite_statement.c:36-42 | Stores that hold the same pointers give the same lookup results, whatever their liveness. |
| Registry.MarkFinalizedKeepsPointers | c_src/sqlite_statement.c:105 | Finalizing changes no stored pointer. |
| Statement.HandleArg | c_src/sqlite_statement.c:116-120 | The arity and handle checks pass exactly for one argument that is a statement resource, and yield its pointer. |
| Statement.OkOrError | c_src/sqlite_statement.c:143-152 | The reply is the atom ok exactly when the code is SQLITE_OK. Any other code gives {error, Reason} with the mapped reason. |
| Statement.Prepare | c_src/sqlite_statement.c:45-93 | badarg exactly when the arity, database, query or flags check fails, with no engine call and no new handle. Otherwise the engine is called once. A non-OK code gives {error, Reason} and no handle. OK gives {ok, {Handle, Tail}}: Tail is the query from the engine's tail to the terminator, and the new handle holds the new statement. |
| Statement.Finalize | c_src/sqlite_statement.c:95-108 | badarg exactly when the arity or handle check fails, with no engine call. Otherwise the stored statement is finalized once and the reply is ok. The handle keeps its pointer. |
| Statement.Step | c_src/sqlite_statement.c:110-130 | badarg exactly on a failed check, with no engine call. Otherwise {ok, Reason} exactly when the code is ROW or DONE, and {error, Reason} exactly otherwise, with the same mapped reason. |
| Statement.Reset | c_src/sqlite_statement.c:132-153 | badarg exactly on a failed check, with no engine call. Otherwise ok exactly when the engine returns SQLITE_OK, and {error, Reason} for any other code. |
| Statement.StatementDelete | c_src/sqlite_statement.c:21-23 | The destructor hands `sqlite3_finalize` the resource's own storage, not the statement stored in it. So it finalizes no statement, its call breaks SQLite's rules, and the resource is removed. |
| Statement.StatementDeleteDereferenced | c_src/sqlite_statement.c:21-23 | The intended destructor finalizes exactly the statement that the lookup of the same resource yields, in a safe call, and removes the resource. |
| Statement.DestructorMissesStoredStatement | c_src/sqlite_statement.c:21-23 | The destructor as written never finalizes the statement its resource holds, while the dereferencing one does. |
| Statement.DestructorAfterFinalizeRefinalizes | c_src/sqlite_statement.c:105 | Because finalize leaves the pointer in the resource, the dereferencing destructor run after an explicit finalize finalizes the same statement again. The call log breaks SQLite's rule. |
| Accessors.IndexArgs | c_src/sqlite_statement.c:177-184 | The arity, handle and index checks pass exactly when the index is an integer that fits a C int. They yield the stored pointer and that index. |
| Accessors.ColumnCount | c_src/sqlite_statement.c:155-169 | badarg exactly on a failed check, with no engine call. Otherwise one column_count call, whose value is returned as an integer. |
| Accessors.TypeReply | c_src/sqlite_statement.c:188-203 | The reply is a storage class's atom exactly when the code is that class's code. It raises {unknown_datatype, Code} exactly for every other code. |
| Accessors.ColumnType | c_src/sqlite_statement.c:171-204 | badarg exactly on a failed check, with no engine call. Otherwise one column_type call. The reply is the atom of the class whose code was returned, or a raised {unknown_datatype, Code} exactly when the code is none of the five. |
| Accessors.ColumnBytes | c_src/sqlite_statement.c:206-223 | badarg exactly on a failed check, with no engine call. Otherwise one column_bytes call, whose value is returned. |
| Accessors.CopyOut | c_src/sqlite_statement.c:245-246 | The new binary is exactly n long, and each of its bytes equals the engine buffer's byte at the same index. |
| Accessors.ColumnBlob | c_src/sqlite_statement.c:225-249 | badarg exactly on a failed check, with no engine call. Otherwise column_blob is called, then column_bytes. The binary returned is exactly column_bytes long and equals the leading bytes of the blob buffer. |
| Terms.MakeDouble | c_src/sqlite_statement.c:268 | A double becomes a float term holding the same value exactly when it is finite. An infinite or NaN value gives badarg. |
| Accessors.ColumnDouble | c_src/sqlite_statement.c:251-269 | A failed check gives badarg with no engine call. Otherwise one column_double call. The reply is badarg exactly when the engine's value is infinite or NaN, and otherwise the same value as a float. |
| Accessors.ColumnDoubleRejectsInfinity | c_src/sqlite_statement.c:266-268 | An engine value of +Inf, -Inf or NaN gives badarg although every check passed. A finite value such as 1.0 comes back as the same float. |
| Accessors.ColumnInt64 | c_src/sqlite_statement.c:271-289 | badarg exactly on a failed check, with no engine call. Otherwise the engine's 64-bit value is returned as an integer in the int64 range. |
| Accessors.ColumnText | c_src/sqlite_statement.c:291-315 | badarg exactly on a failed check, with no engine call. Otherwise column_text is called, then column_bytes. The binary returned is exactly column_bytes long and equals the leading bytes of the text buffer. |
| Accessors.BindBlob64 | c_src/sqlite_statement.c:317-346 | badarg exactly on a failed arity, handle or index check. The raw word 0 exactly when those pass and the payload is not a binary. Neither case calls the engine. Otherwise one bind_blob64 call carrying exactly the payload bytes, and ok exactly when it returns SQLITE_OK, else {error, Reason}. |
| Accessors.BindDouble | c_src/sqlite_statement.c:348-376 | badarg exactly when a check fails, including a value that is not a float. Otherwise one bind_double call, and ok exactly when it returns SQLITE_OK, else {error, Reason}. |
| Accessors.BindInt64 | c_src/sqlite_statement.c:378-406 | badarg exactly when a check fails, including a value outside int64. Otherwise one bind_int64 call, and ok exactly when it returns SQLITE_OK, else {error, Reason}. |
| Accessors.BindNull | c_src/sqlite_statement.c:408-432 | badarg exactly on a failed check. Otherwise one bind_null call, and ok exactly when it returns SQLITE_OK, else {error, Reason}. |
| Accessors.BindText64 | c_src/sqlite_statement.c:434-463 | As bind_blob64, including the raw 0 for a payload that is not a binary. Otherwise one bind_text64 call with exactly the payload bytes, and ok exactly on SQLITE_OK, else {error, Reason}. |
| Accessors.BlobRoundTrip | c_src/sqlite_statement.c:242-248 | bind_blob64 hands the engine exactly the caller's bytes. When the engine later reports those bytes for a column, column_blob returns exactly them. |
| Lifecycle.AsWrittenLeaks | c_src/sqlite_statement.c:85-88 | As written, when the only handle of an unfinalized statement is dropped, the statement is never finalized, whatever the session does afterwards. It is unreachable and counts as a leak. |
| Lifecycle.RunKeepsOrphan | c_src/sqlite_statement.c:21-23 | While the destructor never runs, or runs but finalizes no statement, an unfinalized statement that no reachable resource holds stays that way through any later events. |
| Lifecycle.RunExtendsLog | c_src/sqlite_statement.c:21-23 | No event ever removes a call from the engine-call log. |
| Lifecycle.ReleaseOnlyLeaks | c_src/sqlite_statement.c:22 | With only the reference released, a dropped unfinalized statement still leaks for the rest of the session, and the destructor hands SQLite something that is not a statement. |
| Lifecycle.AsWrittenUseAfterFinalize | c_src/sqlite_statement.c:102-105 | As written, finalize followed by a second finalize or by a step on the same handle passes the already-finalized statement to SQLite, and the call log breaks SQLite's rule. |
| Lifecycle.EventsMatchCalls | c_src/sqlite_statement.c:95-130 | A session's use and finalize events make exactly the engine calls of `Statement.Step` and `Statement.Finalize` on a store holding the same statement. Only the corrected finalize changes the slot. |
| Lifecycle.DropMatchesDestructor | c_src/sqlite_statement.c:21-23 | Dropping a handle makes no call as written, the calls of `Statement.StatementDelete` when only the reference is released, and those of `Statement.StatementDeleteDereferenced` once the destructor dereferences. |
| Lifecycle.ReleaseAndDerefRefinalizes | c_src/sqlite_statement.c:105 | With the reference released and the destructor dereferencing, finalize followed by a drop finalizes one statement twice, because finalize leaves the pointer in place. |
| Lifecycle.ApplyKeepsInv | c_src/sqlite_statement.c:85-107 | In the corrected regime every event preserves the session invariant: a safe call log, distinct live pointers, and no leak. |
| Lifecycle.CloseKeepsInv | c_src/sqlite_statement.c:105 | A corrected finalize, which clears the pointer, preserves the session invariant. |
| Lifecycle.DropKeepsInv | c_src/sqlite_statement.c:21-23 | A corrected destructor run, which finalizes the stored statement and does nothing for a cleared pointer, preserves the session invariant. |
| Lifecycle.CorrectedRunSafe | c_src/sqlite_statement.c:85-88 | Any session in the corrected regime keeps the invariant, whatever the Erlang side does. |
| Lifecycle.CorrectedSessionSafe | c_src/sqlite_statement.c:85-88 | In the corrected regime, from the start of any session, no call is made on a finalized statement and every unreachable statement has been finalized. |
| Lifecycle.SafeLogFinalizesOnce | c_src/sqlite_statement.c:105 | A safe call log finalizes each statement at most once. |

## Findings

| source | as written | input that shows it | evidently intended | confidence | as-written member | corrected member |
|---|---|---|---|---|---|---|
| c_src/sqlite_statement.c:85-88 | The resource from `enif_alloc_resource` is never given back with `enif_release_resource`, so the runtime never reclaims it and `esqlite_statement_delete` never runs | prepare a statement, then drop the handle without calling finalize: the statement is never finalized | release the allocation reference after `enif_make_resource`, so the runtime can reclaim the resource. The destructor then finalizes the statement only once the next two rows are also fixed | medium, not executed; rests on the runtime's documented reference counting of resource objects | Lifecycle.AsWrittenLeaks | Lifecycle.CorrectedSessionSafe |
| c_src/sqlite_statement.c:22 | the destructor passes its argument `ptr`, the resource's own storage, to `sqlite3_finalize`. That storage is a `sqlite3_stmt **` holding the statement (lines 85-87), which the lookup dereferences at line 40 | once the first row is fixed: prepare a statement, then drop the handle. `sqlite3_finalize` receives the resource block, and the statement is never finalized | `sqlite3_finalize(*(struct sqlite3_stmt **)ptr)` | medium, not executed; latent while the first row stands, since the destructor never runs | Lifecycle.ReleaseOnlyLeaks | Statement.StatementDeleteDereferenced |
| c_src/sqlite_statement.c:105 | explicit finalize leaves the statement pointer in the resource, and the lookup (lines 36-40) does not reject the handle afterwards | prepare, finalize, then finalize (or step) the same handle again: SQLite receives the statement it has already finalized. Once the first two rows are fixed, finalize followed by dropping the handle also finalizes it twice | finalize clears the stored pointer, and the lookup and destructor treat a cleared pointer as gone | medium, not executed | Lifecycle.AsWrittenUseAfterFinalize | Lifecycle.CorrectedSessionSafe |

The NIF functions in `Statement` and `Accessors` model the code as written. `Lifecycle`
works at the level of whole sessions, under four regimes:

- `AsWritten`: the code as it is;
- `ReleaseOnly`: the first fix;
- `ReleaseAndDeref`: the first two fixes;
- `Corrected`: all three fixes.

In the `Corrected` regime, a statement function called on a cleared handle makes no engine
call. `CorrectedSessionSafe` proves three properties there, for every sequence of prepare,
use, finalize and collection events:

- only statement objects reach SQLite;
- no engine call is made on a finalized statement;
- every statement no longer reachable from Erlang has been finalized.

## Left out

- `esqlite_result_code`, `esqlite_inspect_database` and `esqlite_inspect_binary_string` are
  fields of `Helpers`, taken as arbitrary functions. Their definitions are not part of this
  model, so whether result codes map one-to-one to reasons is not checked.
- `esqlite_ok_tuple`, `esqlite_error_tuple` and `esqlite_is_atom` are defined elsewhere. They
  are taken at their names' meaning: `{ok, X}`, `{error, R}`, and atom equality.
- Statement.Prepare: the query copy is required to be NUL-terminated. On success, the engine's
  tail is required to lie within the query text (`PrepareSound`). These are promises of
  `esqlite_inspect_binary_string` and `sqlite3_prepare_v3`, not checks the binding makes. The
  tail offset itself is the engine's choice.
- Accessors.ColumnBlob, Accessors.ColumnText: `column_bytes` is required to be non-negative and
  no longer than the engine's buffer (`BufferSound`). This is SQLite's promise, and the
  `memcpy` relies on it.
- Statement.Finalize: finalizing a handle that was already finalized is excluded by the
  precondition. So is using it in any other statement function. The code would pass the freed
  pointer to SQLite.
- The engine's answers are per call. Row state between calls, SQL semantics, type coercion in
  `column_int64`/`column_double`, and `step` after `done` belong to SQLite.
- Doubles are 64-bit patterns. Only finiteness is interpreted, which is what `enif_make_double`
  checks. No arithmetic on IEEE values is modelled.
- A `Float` term may hold any bit pattern, although the runtime never builds an infinite or NaN
  float term. `bind_double` therefore passes on whatever a float term holds.
- Allocation: `enif_alloc_resource` is modelled as the caller-chosen fresh identity `newId`.
  `enif_make_new_binary` is modelled as a new sequence. Allocation failure is not modelled,
  and neither is the query copy's memory. The code does not free that copy when the flag
  check fails (lines 67-68 return `badarg` without the `enif_free(query)` of lines 76 and 83),
  so this path leaks it; the model does not record the leak.
- The destructor's timing and concurrent use of one handle are not modelled. The binding does
  no locking, and concurrent use is outside its contract.
- Lifecycle: each prepare yields a statement object not seen before (`DistinctOpens`).
  Address reuse after free, and the NULL statement SQLite returns for an empty query, are
  outside that premise.
- The caller's input to `esqlite_binary_string` is a Dafny value, so "the input is never
  modified" holds by construction rather than by a stated contract.
