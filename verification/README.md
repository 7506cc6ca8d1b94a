# Access control: one policy store, two backends, one service

The repository implements a scoped, allow-only role-based access control service. A scope (a kind
and an id) is bootstrapped once by a configured caller, which creates one protected role holding the
two manage permissions and binds the first administrator to it. Administrators then create roles,
replace their permissions, delete them, and bind or unbind subjects. Every effective change advances
the scope's revision by one. The policy is kept twice over, in Cloudflare D1 and in PostgreSQL,
behind one service that admits callers, validates requests, pages through roles and reports errors.

This project models all three layers and proves that they are one thing:

- `Policy.dfy`, `PolicyRuns.dfy`: the policy of a scope, the abstract step `Apply` of each of the six
  operations, and what holds in every run of them.
- `Relational.dfy`: the four tables, their keys and constraints, each row statement, and the
  simulation between tables and policies.
- `D1Batch.dfy`, `D1Store.dfy`, `RevisionText.dfy`: D1 compiles an operation to a straight-line batch
  that captures its decision in a workspace row and gates every later write on it. The batch language,
  its interpreter with rollback, the compiler, the receipt and its decoders.
- `PgProgram.dfy`, `PgProtocol.dfy`, `PgStore.dfy`: PostgreSQL runs an operation as a transaction of
  many statements. `PgProgram` gives each operation as a statement program, `PgProtocol` interleaves
  any number of sessions statement by statement with row locks, waits, disconnections and lost commit
  replies, and `PgStore` is the code of the operations, each method an execution of its program.
- `Ordering.dfy`, `Directory.dfy`, `DirectoryReads.dfy`, `ConcurrentPaging.dfy`: bytewise order,
  keyset pages, the client that follows `next_cursor`, the read queries of both backends, and pages
  read while others commit.
- `Identifiers.dfy`, `Service.dfy`: validators and their grammars, admission, error mapping, and the
  invariant of everything stored through the service.
- `PlainPolicy.dfy`, `PlainService.dfy`: what operations and service calls answer, said without the
  model's own vocabulary: with the literal texts, alphabets, bounds and numbers of the source.
- `Backends.dfy`: the service over each backend, and both backends side by side.
- `ConcurrentService.dfy`: the service whose calls run as interleaved PostgreSQL sessions.

How the pieces meet: `Relational.PutAllActs` carries every sequence of row statements to the policy
of one scope. On it rest `D1Store.BatchRefinesStep` (the D1 batch is `Apply`) and
`PgProgram.AloneIsApply` (a PostgreSQL transaction that nobody disturbs is `Apply`).
`PgProtocol.Serializable` removes the "nobody disturbs". `Backends.Exercise` concludes that both
backends are `PolicyRuns.Run`, so every theorem about runs is one about each backend, and
`Service.ServedIsRun` does the same for everything served, with `Backends.AdministerOnD1` and
`Backends.AdministerOnPg` putting the service on either backend.

Results that are not what one might expect of the code:

- The D1 revision decoder accepts more than the canonical decimal it is ever given: `+7`, `007` and
  even `-0`, so it is not true that every text with a minus sign is rejected.
  `RevisionText.RevisionTextsAccepted` says exactly which texts are accepted and as what, and
  `RevisionText.NonCanonicalTextsAccepted` gives the inputs.
- The 200-byte bound on display names binds the trimmed name, but the name is stored as it came. A
  stored name is within 200 bytes if and only if the white space around it fits into what its trimmed
  text leaves (`Identifiers.AcceptedNameLength`, `Service.StoredNameLength`); in particular a name
  without white space at its ends always is. Padding any acceptable name breaks the bound
  (`Service.PaddedNameIsStored`), so there is none on stored names (`Service.StoredNamesAreUnbounded`).
- A call without a response may have changed the policies, because a store answer can be lost after
  the effect. `Service.AnswersAreTruthful` says what each kind of answer means, and
  `Service.RepeatedActsOnce` that repeating the call is safe. If others get in between, a repeated
  operation can act again, but only after one of them undid it
  (`PolicyRuns.LateRepeatActsOnlyIfUndone`).
- D1 reports an incomplete bootstrap policy through a decision text that its decoder does not know, so
  it surfaces as invalid stored state; PostgreSQL has an error of its own for it. Both are the reply
  `Failed(InvalidStoredState)` here, and no reachable state gives rise to it
  (`PolicyRuns.RunFailsOnlyOnOverflow`, `PgProtocol.NobodyHearsCorruption`).

Values that the code reads from outside are parameters: the verified subject of the actor assertion
and the calling Instance (`Service.Context`), what becomes of a submitted D1 batch
(`D1Store.Delivery`), where a PostgreSQL connection breaks (`PgStore.Fault`), what the service hears of
a store operation (`Service.Fate`) and whether its reads fail, and which session goes next
(`PgProtocol.Event`).

The main results, before the table that lists everything:

- over runs: `PolicyRuns.NoLockout`, `SameRevisionSamePolicy`, `PowerlessRunChangesNothing`,
  `LateRepeatActsOnlyIfUndone`, `NewRoleIsBare`, `LargestRevision`;
- D1: `D1Store.BatchRefinesStep`, `BatchAbortsOnlyOnOverflow`, `RevisionText.RevisionTextsAccepted`;
- PostgreSQL: `PgProtocol.Serializable`, `ScopeFoundedOnce`, `ConcurrentNoLockout`,
  `OpenSessionsCanEnd`, `EveryScheduleEnds`, `PgStore.Perform`;
- paging: `Directory.PresentExactlyOnce`, `SteadyPageCount`, `SameRevisionPagesAreListing`,
  `ConcurrentPaging.PagesAmongWriters`, `DirectoryReads.D1DirectoryIsPage`, `ListDirectoryRoles`,
  `Service.ListEverything`;
- the service: `Service.ServedIsRun`, `EverythingStoredIsValid`, `InvalidRequestMeansInvalid`,
  `AnswersAreTruthful`, `RepeatedActsOnce`, `StoredNameLength`, `CheckAgreesWithListing`,
  `ConcurrentService.ConcurrentCallsAreServed`, `Identifiers.SecretReferenceGrammar`,
  `InstanceKeyGrammar`;
- in plain terms: `PlainPolicy.RefusalsExactly`, `AcceptancesExactly`, `PlainService.InvalidRequestExactly`,
  `CheckAnswers`, `ListedRoles`, `Ordering.BeforeByCharacters`, `RevisionText.ParseDigits`;
- both backends: `Backends.Exercise`, `AdministerOnD1`, `AdministerOnPg`, `ListRolesOnD1`, `ListRolesOnPg`.

## Model

| member | source | states |
|---|---|---|
| PolicyRuns.NoLockout | crates/lenso-access-control-postgres-plugin/src/storage.rs:489-502 | in every state any run can reach, each scope has the bootstrap role as its only protected role, with exactly the two manage permissions, some subject holds both, and repeating the bootstrap as its original subject is accepted as a no-op, never the incomplete-policy error |
| PolicyRuns.NewRoleIsBare | crates/lenso-access-control-postgres-plugin/migrations/postgres/001_create_access_control.sql:1-50 | in every reachable state bindings name existing roles, so a created role, even under the id of a deleted one, has no grants and no holders |
| PolicyRuns.RevisionMovesWithContent | crates/lenso-access-control-d1-plugin/src/storage.rs:121-157 | the content of a policy changes exactly when the reply says `changed`, exactly when the revision moves, by one; the reply carries the resulting revision |
| PolicyRuns.RevisionCountsChanges | crates/lenso-access-control-postgres-plugin/src/storage.rs:596-609 | after any run from an empty database the revision of a scope is the number of its effective operations |
| PolicyRuns.SameRevisionSamePolicy | crates/lenso-access-control-postgres-plugin/src/storage.rs:350-356 | two reads of a scope in one run that see the same revision see the same policy, hence the same decisions, roles and bindings; revisions never go back |
| PolicyRuns.PowerlessRunChangesNothing | crates/lenso-access-control-d1-plugin/src/storage.rs:102-131 | a run of any length in which everybody who acts on a scope starts without either manage permission there leaves that scope exactly as it was, whatever happens in other scopes |
| PolicyRuns.ScopeCreatedOnce | crates/lenso-access-control-postgres-plugin/src/storage.rs:197-242 | no run creates a scope twice |
| PolicyRuns.FirstBootstrapFounds | crates/lenso-access-control-postgres-plugin/src/storage.rs:197-284 | in every run over an absent scope, once somebody has tried to bootstrap it, somebody has effectively done so, then or before |
| PolicyRuns.RunFailsOnlyOnOverflow | crates/lenso-access-control-postgres-plugin/src/storage.rs:611-631 | in every run from an empty database the only failure without a domain answer is the overflow of the revision; no operation finds its policy incomplete |
| PolicyRuns.AcceptedMeansDone | crates/lenso-access-control-core/src/storage.rs:53-120 | after an accepted operation the scope is as the caller asked, everything not named is unchanged, protected roles were not touched, and the actor held the permission the operation needs |
| PolicyRuns.RetryIsSafe | crates/lenso-access-control-d1-plugin/src/storage.rs:13-19 | repeating an operation whose reply was lost changes nothing; it answers no-change at the same revision, or Forbidden exactly when the first run removed the actor's own manage permission, or the role-exists or role-missing that a repeated creation or deletion meets |
| PolicyRuns.StepTwice | crates/lenso-access-control-d1-plugin/src/storage.rs:13-19 | from every state, the same operation twice leaves what it leaves once |
| PolicyRuns.ActsAgainExactly | crates/lenso-access-control-postgres-plugin/src/storage.rs:318-519 | an operation on a scope that is there changes it if and only if its fact does not stand yet, the actor holds the permission, the role is there and may be changed, and the revision can advance |
| PolicyRuns.StandsThroughRun | crates/lenso-access-control-postgres-plugin/src/storage.rs:318-519 | what an accepted operation brought about stands through every run in which no effective command takes back just that |
| PolicyRuns.LateRepeatActsOnlyIfUndone | crates/lenso-access-control-d1-plugin/src/storage.rs:13-19 | after an accepted operation and any run of others, repeating it changes nothing unless an effective operation in between undid just what it had done, and then exactly under the condition of `ActsAgainExactly`; a repeated bootstrap is always accepted as a no-op |
| PolicyRuns.LargestRevision | crates/lenso-access-control-d1-plugin/migrations/d1/001_create_access_control.sql:5 | at revision 2^63-1 an effective operation fails and changes nothing, and all others answer as at any other revision |
| PolicyRuns.OnlyUndoingEndsIt | crates/lenso-access-control-postgres-plugin/src/storage.rs:318-519 | the fact that an operation brought about ends exactly with an effective operation of those that undo it |
| PlainPolicy.Founding | crates/lenso-access-control-postgres-plugin/src/storage.rs:244-283 | bootstrapping an absent scope, in literals: revision 1, the role "access-control.bootstrap-admin" named "Bootstrap administrator", protected, with the two permission texts, bound to the subject, answered as created at revision 1 |
| PlainPolicy.FoundingAgain | crates/lenso-access-control-postgres-plugin/src/storage.rs:217-241 | bootstrapping a scope that is there, in literals: refused to another subject; else a no-op exactly when the protected role stands with a holder and both permission texts, and an error otherwise; nothing changes |
| PlainPolicy.ForbiddenExactly | crates/lenso-access-control-core/src/lib.rs:33-36 | creating, replacing and deleting is forbidden exactly to those not bound to a role that grants the text "access-control.roles.manage", and assigning and revoking exactly to those not bound to one that grants "access-control.bindings.manage" |
| PlainPolicy.RefusalsExactly | crates/lenso-access-control-postgres-plugin/src/storage.rs:286-519 | for every operation on a present scope, each domain failure is answered if and only if its own condition holds on the fields of the policy, in the order permission, role, protection |
| PlainPolicy.AcceptancesExactly | crates/lenso-access-control-postgres-plugin/src/storage.rs:286-519 | whatever is not refused is a no-op at the same revision or a change to the next, by the fields of the policy, and a change fails only at 9223372036854775807 |
| PlainPolicy.AlwaysAdministered | crates/lenso-access-control-postgres-plugin/src/storage.rs:489-502 | in every reachable state, in literals: the bootstrap role with its name and two permission texts is the only protected role and somebody is bound to it |
| Relational.PutActs | crates/lenso-access-control-d1-plugin/migrations/d1/001_create_access_control.sql:1-46 | one row statement is refused by a key, foreign key or CHECK exactly when its meaning on the policy is a violation; otherwise the schema is kept and exactly the policy of its scope becomes what it means |
| Relational.PutAllActs | crates/lenso-access-control-d1-plugin/migrations/d1/001_create_access_control.sql:1-46 | the same for every sequence of row statements on a scope |
| Relational.AllowedAgrees | crates/lenso-access-control-postgres-plugin/src/storage.rs:558-567 | the join of bindings with grants finds a row exactly when the subject holds the permission in the policy |
| Relational.CountFindsLastHolder | crates/lenso-access-control-postgres-plugin/src/storage.rs:489-502 | for a bound subject, counting at most one binding row means that it is the only holder |
| Relational.WritesCarryOut | crates/lenso-access-control-postgres-plugin/src/storage.rs:357-378 | the row statements of an effective operation yield the policy it decided on, and only the revision bump after them can be refused, exactly when the abstract step fails |
| RevisionText.RevisionTextsAccepted | crates/lenso-access-control-d1-plugin/src/storage.rs:31-37 | exactly which texts the overflow-checked parse and the filter accept, and as which number, for all texts |
| RevisionText.RevisionRoundTrip | crates/lenso-access-control-core/src/lib.rs:553-561 | every revision up to 2^63-1 prints as canonical decimal and is read back as itself, and no other canonical text is read as it |
| RevisionText.NonCanonicalTextsAccepted | crates/lenso-access-control-d1-plugin/src/storage.rs:31-37 | signs and leading zeros get through the decoder, `-0` included |
| RevisionText.DecimalDigits | crates/lenso-access-control-core/src/lib.rs:553-561 | printing, on characters: one digit is its character of "0123456789", and more are the text of the tenth followed by the last digit's character |
| RevisionText.ParseDigits | crates/lenso-access-control-d1-plugin/src/storage.rs:31-37 | reading, on characters: a digit's character is read as the digit, and appending one to a text read as v is read as 10 v and the digit, up to 9223372036854775807 and not beyond |
| RevisionText.DigitTexts | crates/lenso-access-control-d1-plugin/src/storage.rs:31-37 | digit texts are the non-empty ones over "0123456789", and denote ten times what is before the last digit, and that digit |
| RevisionText.OnlyDigitsAreRead | crates/lenso-access-control-d1-plugin/src/storage.rs:31-37 | nothing is read as a revision but characters of "0123456789" after at most one sign |
| D1Batch.GatedStatements | crates/lenso-access-control-d1-plugin/src/storage.rs:137-156 | after the capture the gate never changes: shut, any list of gated statements writes nothing; open, they are their row statements, and a refused one aborts the batch |
| D1Batch.BootstrapCompleteAgrees | crates/lenso-access-control-d1-plugin/src/storage.rs:94-98 | the three EXISTS and count conditions hold exactly when the bootstrap policy still stands |
| D1Store.CaptureIsVerdict | crates/lenso-access-control-d1-plugin/src/storage.rs:85-136 | the captured failure, changed flag and revision are the verdict of the abstract step, failure precedence included, for all six operations |
| D1Store.BatchAbortsOnlyOnOverflow | crates/lenso-access-control-d1-plugin/src/storage.rs:137-157 | from any tables that satisfy the schema and any leftover workspace, the batch aborts if and only if an effective change meets revision 2^63-1; no primary key, foreign key or NOT NULL constraint ever refuses it |
| D1Store.BatchRefinesStep | crates/lenso-access-control-d1-plugin/src/storage.rs:72-172 | a committed batch leaves the policies of the abstract step, an empty workspace, tables untouched unless the verdict was a change, and a receipt that decodes to the reply of the step; an aborted one is a step that fails without effect |
| D1Store.D1Database.Batch | crates/lenso-access-control-d1-plugin/src/storage.rs:60-71 | all statements in order with their rows, or the old state |
| D1Store.D1Database.Compile | crates/lenso-access-control-d1-plugin/src/storage.rs:78-158 | the statements pushed are those of the specification, for every operation |
| D1Store.D1Database.Mutation | crates/lenso-access-control-d1-plugin/src/storage.rs:72-172 | one operation: the step with its reply when delivered; the whole step or nothing when the reply is lost; nothing when it was not sent, was rejected or failed |
| PgProgram.AdvanceKnows | crates/lenso-access-control-postgres-plugin/src/storage.rs:286-519 | after every single statement of every operation, what the session has read still describes its scope and its uncommitted rows build the decided policy, or it ended with the reply of the abstract step |
| PgProgram.AloneIsApply | crates/lenso-access-control-postgres-plugin/src/storage.rs:197-519 | undisturbed, every operation's statements are the abstract step, reply included, overflow included |
| PgProgram.StatementsRunOut | crates/lenso-access-control-postgres-plugin/src/storage.rs:366-377 | every statement leaves fewer to issue, insert loops included |
| PgProtocol.HappenKeepsInv | crates/lenso-access-control-postgres-plugin/src/storage.rs:532-578 | every event keeps the invariant: locks are held from the lock statement to the end by one session per scope, every session's knowledge holds, the log is a serial run |
| PgProtocol.Serializable | crates/lenso-access-control-postgres-plugin/src/storage.rs:197-578 | every statement-level interleaving of any sessions, with disconnections and lost replies, equals one serial run of the settled sessions, each at most once, with every reply that was heard; a session whose connection and reply were not lost is in that run with exactly its reply, so it fails only where the step fails; one that lost its connection took effect wholly or not at all |
| PgProtocol.LogGrows | crates/lenso-access-control-postgres-plugin/src/storage.rs:644-652 | the serial order respects real time: settled sessions keep their place |
| PgProtocol.CommittedIsPrefix | crates/lenso-access-control-postgres-plugin/src/storage.rs:644-652 | at every moment the committed policies are those of a prefix of the serial order |
| PgProtocol.ScopeFoundedOnce | crates/lenso-access-control-postgres-plugin/src/storage.rs:207-242 | in every interleaving an absent scope is created exactly once as soon as one bootstrap of it is settled, and a present scope never |
| PgProtocol.ConcurrentNoLockout | crates/lenso-access-control-postgres-plugin/src/storage.rs:489-502 | in every interleaving, concurrent mutual revocations included, every scope has the bootstrap role as its only protected role, with exactly the two manage permissions, a subject that holds both, and a repeat bootstrap by the original subject is accepted as a no-op |
| PgProtocol.NobodyHearsCorruption | crates/lenso-access-control-postgres-plugin/src/storage.rs:611-631 | from empty tables no session of any interleaving ever hears the incomplete-policy error |
| PgProtocol.NoDeadlock | crates/lenso-access-control-postgres-plugin/src/storage.rs:543-550 | a session that waits, waits for a session that can go on |
| PgProtocol.OneSessionPerScope | crates/lenso-access-control-postgres-plugin/src/storage.rs:543-550 | in every interleaving two sessions past their lock statement in one scope are the same session |
| PgProtocol.InsertMeetsNoUncommittedRow | crates/lenso-access-control-postgres-plugin/src/storage.rs:207-215 | a scope insert is executed only when no session holds an uncommitted insert or update of that row |
| PgProtocol.OpenSessionsCanEnd | crates/lenso-access-control-postgres-plugin/src/storage.rs:532-578 | from every reachable state a schedule of statements alone, without disconnections, ends every session, and each whose connection and reply were not lost before ends with the reply of its step in the serial run |
| PgProtocol.EveryScheduleEnds | crates/lenso-access-control-postgres-plugin/src/storage.rs:532-578 | from every reachable state, however statements are scheduled, at most `Work` of them are executed, and no session can go on exactly when all have ended |
| PgStore.BeginAuthorized | crates/lenso-access-control-postgres-plugin/src/storage.rs:532-578 | locks and authorizes: a refusal is the whole program's outcome, and an open transaction stands at the operation's first own statement with the revision read |
| PgStore.RoleProtection | crates/lenso-access-control-postgres-plugin/src/storage.rs:580-594 | a missing role, or a protected one where the operation minds, decides the outcome; otherwise the transaction stands at the next statement |
| PgStore.BumpPolicyRevision | crates/lenso-access-control-postgres-plugin/src/storage.rs:596-609 | returns the new revision, or fails where the step fails |
| PgStore.VerifyBootstrapPolicy | crates/lenso-access-control-postgres-plugin/src/storage.rs:611-631 | passes or ends in invalid state as the abstract step does |
| PgStore.Transaction.Commit | crates/lenso-access-control-postgres-plugin/src/storage.rs:644-652 | publishes the working tables whole or not at all, with or without a reply |
| PgStore.InsertEachGrant | crates/lenso-access-control-postgres-plugin/src/storage.rs:366-377 | the loop inserts every permission of the set, in order, and stands before the bump |
| PgStore.InsertBootstrapGrants | crates/lenso-access-control-postgres-plugin/src/storage.rs:253-264 | the loop inserts both manage permissions |
| PgStore.BootstrapScope | crates/lenso-access-control-postgres-plugin/src/storage.rs:197-284 | committed tables are untouched or the program's, and without a fault tables and result are the program's |
| PgStore.CreateRoleIn | crates/lenso-access-control-postgres-plugin/src/storage.rs:286-316 | the same for role creation |
| PgStore.SetRolePermissions | crates/lenso-access-control-postgres-plugin/src/storage.rs:318-384 | the same for replacing permissions |
| PgStore.DeleteRoleFrom | crates/lenso-access-control-postgres-plugin/src/storage.rs:386-416 | the same for deletion |
| PgStore.AssignRoleTo | crates/lenso-access-control-postgres-plugin/src/storage.rs:418-455 | the same for assignment |
| PgStore.RevokeRoleFrom | crates/lenso-access-control-postgres-plugin/src/storage.rs:457-519 | the same for revocation |
| PgStore.Perform | crates/lenso-access-control-postgres-plugin/src/storage.rs:197-519 | with the connection lost at any statement or after the commit, the policies are the old ones or those of the whole abstract step; any other reply than a database failure is the reply of the step |
| Ordering.SortedIsAscending | crates/lenso-access-control-postgres-plugin/src/storage.rs:142-165 | the ordered result lists each element once, strictly ascending bytewise |
| Ordering.AscendingIsUnique | crates/lenso-access-control-postgres-plugin/src/storage.rs:142-165 | there is only one such listing, so ordering determines the result |
| Ordering.BeforeByCharacters | crates/lenso-access-control-postgres-plugin/src/storage.rs:142-165 | the order on characters: one text is before another exactly if it is a proper prefix of it or has the smaller code at the first place where they differ |
| Ordering.SortedByCharacters | crates/lenso-access-control-postgres-plugin/src/storage.rs:142-165 | of any two texts of an ordered result, the first is a proper prefix of the second or has the smaller code at the first place where they differ |
| Ordering.QualifiedOrder | crates/lenso-access-control-core/src/conformance.rs:331-340 | the ids of the qualification run are listed as "A", "Z", "a-", "a_", "access-control.bootstrap-admin", "z" |
| Directory.PageShape | crates/lenso-access-control-d1-plugin/src/storage.rs:183-224 | a page holds the first roles past its cursor in ascending order; it is truncated exactly when more lie strictly past its last role, and then it is full |
| Directory.NoIdTwice | crates/lenso-access-control-core/src/lib.rs:219-304 | following the cursor never returns a role id twice, whatever is committed between the pages |
| Directory.PresentExactlyOnce | crates/lenso-access-control-core/src/lib.rs:219-304 | a role that is listed throughout is returned exactly once |
| Directory.ReturnedWasListed | crates/lenso-access-control-core/src/lib.rs:219-304 | every returned role was there, as returned, when its page was read |
| Directory.SteadyPagesAreListing | crates/lenso-access-control-core/src/lib.rs:219-304 | on an unchanging policy the pages end to end are the sorted listing |
| Directory.SteadyPageCount | crates/lenso-access-control-core/src/lib.rs:240-254 | on an unchanging policy n > 0 roles take exactly ceil(n / limit) pages, and none take one |
| Directory.SameRevisionPagesAreListing | crates/lenso-access-control-core/src/lib.rs:219-304 | pages read at any moments of one run that all report one revision are end to end the sorted listing at that revision |
| Directory.DecisionAgreesWithListing | crates/lenso-access-control-d1-plugin/src/storage.rs:226-247 | a subject is allowed a permission exactly when some role of its complete listing grants it |
| Directory.DecisionAgreesWithPages | crates/lenso-access-control-d1-plugin/src/storage.rs:173-247 | on an unchanging policy a subject is allowed a permission exactly when some role of its fully paged listing grants it |
| Directory.CursorAdvances | crates/lenso-access-control-core/src/lib.rs:248-254 | a truncated page moves the cursor strictly forward among the finitely many ids of bounded length |
| DirectoryReads.D1DirectoryIsPage | crates/lenso-access-control-d1-plugin/src/storage.rs:173-224 | the D1 query with its LEFT JOIN, its extra row, its decoders and its truncation is the page of the policy, and a missing scope is reported as such |
| DirectoryReads.D1GetRoleIsRole | crates/lenso-access-control-d1-plugin/src/storage.rs:249-265 | looking a role up through the directory query is the role of the policy with its sorted grants, or the right failure |
| DirectoryReads.D1CheckIsDecision | crates/lenso-access-control-d1-plugin/src/storage.rs:228-248 | the D1 check is the policy's decision at its revision; a missing scope denies at revision 0 |
| DirectoryReads.PgCheckIsDecision | crates/lenso-access-control-postgres-plugin/src/storage.rs:27-62 | so is the PostgreSQL check |
| DirectoryReads.PgGetRoleIsRole | crates/lenso-access-control-postgres-plugin/src/storage.rs:64-90 | so is the PostgreSQL role query |
| DirectoryReads.ReadTransaction.Query | crates/lenso-access-control-postgres-plugin/src/storage.rs:118-128 | under REPEATABLE READ every query sees the tables of the first one, otherwise those of its own moment |
| DirectoryReads.ReadPage | crates/lenso-access-control-postgres-plugin/src/storage.rs:118-172 | at either isolation level, a page takes its revision from what its first query sees and its roles from what its second query sees |
| DirectoryReads.ListDirectoryRoles | crates/lenso-access-control-postgres-plugin/src/storage.rs:111-178 | at REPEATABLE READ the page is the page of the moment of its first query, whatever is committed before its second |
| DirectoryReads.ReadTornPage | crates/lenso-access-control-postgres-plugin/src/storage.rs:124-127 | at READ COMMITTED the same two queries, with the founder of a just bootstrapped scope creating a role between them, give a page that is the page of neither moment, though both are reachable |
| ConcurrentPaging.PagesAmongWriters | crates/lenso-access-control-postgres-plugin/src/storage.rs:111-178 | pages read at any moments of any interleaving of sessions that all report one revision are end to end the sorted listing at that revision |
| ConcurrentService.ConcurrentCallsAreServed | crates/lenso-access-control-core/src/lib.rs:306-475 | calls that run as interleaved PostgreSQL sessions are served as in one serial history of the settled ones: it leads to the committed policies, and gives every call whose session lost neither connection nor reply the response that it got |
| ConcurrentService.ConcurrentlyStoredIsValid | crates/lenso-access-control-core/src/lib.rs:306-475 | in every interleaving of calls everything stored is valid |
| Identifiers.SecretReferenceGrammar | crates/lenso-access-control-core/src/lib.rs:735-745 | for every text: accepted exactly when it is a slash-separated list of non-empty segments over the alphabet, none `.` or `..`, of at most 256 characters |
| Identifiers.InstanceKeyGrammar | crates/lenso-access-control-core/src/lib.rs:724-733 | for every text: accepted exactly when it is one or two such segments, of at most 256 characters |
| Identifiers.OpaqueIdGrammar | crates/lenso-access-control-core/src/lib.rs:711-717 | for every text and bound: accepted exactly when it is 1 to that many characters of the alphabet, so the byte bound is a character bound |
| Identifiers.ScopeKindGrammar | crates/lenso-access-control-core/src/lib.rs:683-697 | for every text: accepted exactly when it is at most 128 lower-case letters, digits and separators, with a letter or digit at both ends |
| Identifiers.IdentifierWords | crates/lenso-access-control-core/src/lib.rs:679-717 | every identifier in literals, for all texts: scope kinds, and scope ids and subjects of 1 to 512, role ids of 1 to 128 and permissions of 1 to 200 characters of the spelled out alphabet, permissions with a dot |
| Identifiers.SegmentWords | crates/lenso-access-control-core/src/lib.rs:724-745 | the segments of caller keys and secret references, over the spelled out alphabet |
| Identifiers.DirectoryPageWords | crates/lenso-access-control-core/src/lib.rs:672-677 | a page is accepted exactly with a limit of 1 to 100 and a cursor, if any, of 1 to 128 characters of the alphabet |
| Identifiers.Utf8Length | crates/lenso-access-control-core/src/lib.rs:719-722 | the length of a text in bytes: one per character and one more from each of U+0080, U+0800 and U+10000 on |
| Identifiers.DisplayNameWords | crates/lenso-access-control-core/src/lib.rs:719-722 | a display name is accepted exactly if it is white space, by code points, around a text without any at its ends, without control characters and of at most 200 bytes |
| Identifiers.TrimMeaning | crates/lenso-access-control-core/src/lib.rs:719-722 | trimming removes white space from both ends and leaves none there |
| Identifiers.AcceptedNameLength | crates/lenso-access-control-core/src/lib.rs:719-722 | for every accepted name: its length is that of the trimmed text, at most 200 bytes, plus the white space around it, so the name is within the bound exactly when that white space fits into what is left; without any it always is |
| Identifiers.PaddingIsAccepted | crates/lenso-access-control-core/src/lib.rs:719-722 | every accepted text padded with any number of spaces is accepted, and exceeds the bound exactly when the spaces exceed what the text leaves |
| Service.ServedIsRun | crates/lenso-access-control-core/src/lib.rs:306-475 | whatever is served, and whatever becomes of the store's answers, the policies are those of the run of exactly the admitted, valid calls that got through to the store, in order |
| Service.ResponsesAreReplies | crates/lenso-access-control-core/src/lib.rs:306-475 | the response to each call that the store answered is the reply that this run gives to that call's own command |
| Service.EverythingStoredIsValid | crates/lenso-access-control-core/src/lib.rs:306-475 | in every state calls can reach, lost store answers included, every stored scope, subject, role id and permission is valid, names trim to valid ones, and no role has more than 256 permissions |
| Service.StoredNameLength | crates/lenso-access-control-core/src/lib.rs:346-355 | in every reachable state a stored name is within 200 bytes exactly when the white space around it fits into what its trimmed text leaves; a name without any always is |
| Service.PaddedNameIsStored | crates/lenso-access-control-core/src/lib.rs:346-355 | a creation that succeeds also succeeds with the name padded by any number of spaces, answers alike, and stores the padded name as it came, over the bound exactly when the spaces exceed what the name leaves |
| Service.StoredNamesAreUnbounded | crates/lenso-access-control-core/src/lib.rs:346-355 | for every length some reachable state stores a longer name |
| Service.InvalidRequestMeansInvalid | crates/lenso-access-control-core/src/lib.rs:569-636 | InvalidRequest is answered if and only if an admitted caller's input is rejected by validation; every store failure is reported as itself, never by a fallback arm |
| Service.OnlyTheEntitledChange | crates/lenso-access-control-core/src/lib.rs:477-515 | only a configured bootstrap caller founding an absent scope, or a verified subject holding the needed manage permission in that scope, ever changes anything |
| Service.AnswersAreTruthful | crates/lenso-access-control-core/src/lib.rs:306-475 | whatever becomes of the store operation: a domain error changed nothing; a response reports, as canonical decimal, the revision it left, and `changed` exactly when something changed; a runtime error left the old policies or those of the whole step, and is answered exactly when the store's answer did not arrive or the revision would have overflowed |
| Service.RepeatedActsOnce | crates/lenso-access-control-d1-plugin/src/storage.rs:13-19 | however often a call is repeated and whatever becomes of each attempt, it takes effect once, as soon as one attempt gets through |
| Service.RepeatedCallAnswers | crates/lenso-access-control-core/src/lib.rs:306-475 | repeated after an attempt that took effect and lost its answer, a call answers no change at the same revision, or Forbidden exactly when the actor removed the own manage permission, or the role-exists or role-missing of a repeated creation or deletion, and changes nothing |
| Service.RespondedMeansDone | crates/lenso-access-control-core/src/lib.rs:306-475 | after a response the requested fact holds, whether or not the call was the one to make it so |
| Service.PageResponds | crates/lenso-access-control-core/src/lib.rs:248-254 | a truncated page is never empty, so the `expect` cannot fire; the cursor issued is the id of the last of exactly `limit` roles and passes `valid_directory_page` with any limit |
| Service.ListingIsPage | crates/lenso-access-control-core/src/lib.rs:219-304 | in every reachable state a listing answers the policy's page with its cursor and revision, or precisely the failed check: caller, request, page, the store's read, scope, in that order |
| Service.GetRoleIsRole | crates/lenso-access-control-core/src/lib.rs:189-217 | in every reachable state looking a role up answers the role with its sorted grants and its revision, or precisely the failed check: caller, request, the store's read, scope, role, in that order |
| Service.CheckIsDecision | crates/lenso-access-control-core/src/lib.rs:163-187 | in every reachable state a valid check answers the policy's decision at its revision, or a runtime error when the store's read failed; it denies at revision 0 where no scope was bootstrapped |
| Service.CheckAgreesWithListing | crates/lenso-access-control-core/src/lib.rs:163-304 | when a scope does not change while a client lists a subject's roles to the end, a check at any of these moments answers exactly whether one of the roles read grants the permission, at the revision the pages report |
| Service.StoredIdsAreBounded | crates/lenso-access-control-core/src/lib.rs:703-717 | ids stored through the service meet what the client loop needs to end |
| Service.ListEverything | crates/lenso-access-control-core/src/lib.rs:219-304 | the client loop over `next_cursor` ends whatever calls are served between its pages, its cursors are never rejected, and it reads a complete chain of pages unless the scope was missing or a read failed |
| Service.ReplacementGrammar | crates/lenso-access-control-core/src/lib.rs:374-383 | a replacement of permissions is accepted exactly when it lists at most 256 valid permissions, none of them twice, for a valid role id and scope |
| PlainService.AdmissionExactly | crates/lenso-access-control-core/src/lib.rs:477-515 | a bootstrap answers Forbidden exactly to a caller that is not among the configured ones, and every other request Unauthenticated exactly without a verified subject of 1 to 512 characters of the alphabet |
| PlainService.InvalidRequestExactly | crates/lenso-access-control-core/src/lib.rs:306-475 | for each of the six requests, InvalidRequest is answered exactly to an admitted caller whose scope, subject, role id, name or permissions break the literal alphabets and bounds; "access-control.bootstrap-admin" is refused to creations alone |
| PlainService.FirstAnswer | crates/lenso-access-control-core/src/lib.rs:306-332 | the first bootstrap of a scope answers created at revision "1" |
| PlainService.CheckAnswers | crates/lenso-access-control-core/src/lib.rs:163-187 | in every reachable state a check answers InvalidRequest exactly to inputs outside the literal alphabets and bounds, no at "0" without a scope, and else whether a role bound to the subject grants the permission, at the revision |
| PlainService.ListingRefusedExactly | crates/lenso-access-control-core/src/lib.rs:219-304 | each refusal of a listing if and only if: caller not configured, scope or subject outside the alphabets and bounds, limit outside 1 to 100 or cursor no role id, scope missing, in that order |
| PlainService.GetRefusedExactly | crates/lenso-access-control-core/src/lib.rs:189-217 | each refusal of a role lookup if and only if, in the same order, and the role missing |
| PlainService.PagedRole | crates/lenso-access-control-core/src/lib.rs:219-304 | each role of a page lies past the cursor character by character, is bound to the subject if one is given, and carries the role's own columns and exactly its permissions |
| PlainService.PagedInOrder | crates/lenso-access-control-core/src/lib.rs:219-304 | the ids of a page ascend character by character |
| PlainService.PagedPermissionsInOrder | crates/lenso-access-control-postgres-plugin/src/storage.rs:142-165 | the permissions of each role ascend character by character |
| PlainService.UnpagedRole | crates/lenso-access-control-core/src/lib.rs:248-254 | a role past the cursor that is not on the page comes after its last one, and the page is full and names that one as the next cursor |
| PlainService.ListedRoles | crates/lenso-access-control-core/src/lib.rs:219-304 | in every reachable state the response of a listing has ids ascending character by character, each a role of the scope and the subject with its own columns and permissions |
| Backends.SubmitToD1 | crates/lenso-access-control-d1-plugin/src/storage.rs:72-172 | a D1 operation is the store operation that the service sees, with the fate that the delivery of its batch gives it |
| Backends.SubmitToPg | crates/lenso-access-control-postgres-plugin/src/storage.rs:197-519 | so is a PostgreSQL one, whichever statement or commit reply the connection loses, and it is heard if none is lost |
| Backends.AdministerOnD1 | crates/lenso-access-control-core/src/lib.rs:306-475 | an administration call served from D1 is the service's call on the policies of its tables |
| Backends.AdministerOnPg | crates/lenso-access-control-core/src/lib.rs:306-475 | and so is one served from PostgreSQL |
| Backends.ListRolesOnD1 | crates/lenso-access-control-core/src/lib.rs:219-304 | a listing served from D1 is the service's listing on the policies of its tables |
| Backends.ListRolesOnPg | crates/lenso-access-control-core/src/lib.rs:219-304 | and one served from PostgreSQL is the one on the policies of its first query's moment, whatever is committed before its second |
| Backends.GetRoleOnEither | crates/lenso-access-control-core/src/lib.rs:189-217 | looking a role up on either backend is the service's lookup on the policies of its tables |
| Backends.CheckOnEither | crates/lenso-access-control-core/src/lib.rs:163-187 | and so is a permission check |
| Backends.Exercise | crates/lenso-access-control-core/src/conformance.rs:10-408 | for every sequence of operations from empty databases, both backends give the same replies, failures, flags and revisions, and hold the same policies |
| Backends.ReadsAgree | crates/lenso-access-control-core/src/conformance.rs:10-408 | databases with the same policies give the same decisions and the same roles |
| Backends.PagesAgree | crates/lenso-access-control-core/src/conformance.rs:10-408 | and the same pages |

## Left out

- SQL text, sqlx, the D1 wire format and JSON: statements are modelled as what they do to rows; a JSON array of permissions is a list.
- The transport: a D1 batch is not sent, delivered, or executed with its reply lost; a store read that fails is an error and nothing else.
- Isolation of D1 batches: each runs alone, as the migration states at its workspace table.
- Actor assertion cryptography, clocks, audiences and actor kinds: the verified subject is an input, still subject to `valid_subject`.
- `PolicyConfig` validation beyond the caller-key grammar, generated contract bindings, Agent Tools, plugin lifecycle and secret resolution: one-branch plumbing.
- Migration engines, history checksums and the statement-boundary script: they rest on parsers that are not part of this model.
- `created_at`, `updated_at` and indexes: no decision depends on them.
- Waits on role, grant and binding keys and on the foreign keys' share locks: in PostgreSQL only the holder of a scope's row lock writes those rows, so only the scope row is ever contended.
- The negative-revision branches are modelled, but the schema's CHECK makes them unreachable, and `Schema` is what the theorems start from.
- The unknown-operation arm of `mutation`: operations are a datatype.
- Byte order of UTF-8 is modelled as code point order, with which it agrees; texts are sequences of Unicode scalar values.
- Storage errors are two (the database failed, the stored state is invalid); their messages are not modelled.
