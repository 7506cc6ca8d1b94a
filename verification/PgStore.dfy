/** The PostgreSQL backend as code: each operation opens a transaction, runs its statements on
    the tables as it sees them, and commits or drops the transaction. The connection can be
    lost at any statement, and a commit can land without its reply. Each method is an
    execution of the operation's statement program (`PgProgram`), whose interleavings
    `PgProtocol` treats. */
module PgStore {
  import opened AccessPolicy
  import opened Relational
  import opened Ordering
  import opened PgProgram

  datatype Try<+T> = Ok(value: T) | Err(error: StoreError) {
    predicate IsFailure() { Err? }

    function PropagateFailure<U>(): Try<U>
      requires Err?
    {
      Err(error)
    }

    function Extract(): T
      requires Ok?
    {
      value
    }
  }

  // Where a transaction breaks: nowhere, at the statement with the given number, or after its
  // commit has landed.
  datatype Fault = NoFault | ConnectionLostAt(statement: nat) | CommitReplyLost

  function ReplyOf(r: Try<Reply>): Reply
  {
    match r case Ok(reply) => reply case Err(error) => Failed(error)
  }

  class PgServer {
    var committed: Tables

    constructor ()
      ensures committed == EMPTY_TABLES
    {
      committed := EMPTY_TABLES;
    }
  }

  /** An open transaction on one scope. The ghost fields say which point of its program it has
      reached, so that what it has done so far leads to the program's outcome. */
  class Transaction {
    const server: PgServer
    const scope: ScopeKey
    var working: Tables
    var fault: Fault
    ghost const base: Tables
    ghost const action: Action
    ghost var at: Session

    ghost predicate Valid()
      reads this
    {
      && PutAll(base, scope, at.writes) == Some(working)
      && at.scope == scope && at.action == action
      && Alone(base, at) == Outcome()
    }

    ghost function Outcome(): (Tables, Reply)
    {
      Alone(base, Start(scope, action))
    }

    // The next statement of the program.
    ghost function Due(): Turn
      reads this
    {
      Decide(Read(working, scope, action), action, at.pc)
    }

    ghost predicate Running()
      reads this
    {
      Valid() && !at.pc.Done? && !at.pc.Committing?
    }

    constructor (server: PgServer, scope: ScopeKey, fault: Fault, ghost action: Action)
      ensures this.server == server && this.scope == scope && this.fault == fault && this.action == action
      ensures working == base == server.committed && at == Start(scope, action)
      ensures Valid()
    {
      this.server := server;
      this.scope := scope;
      this.working := server.committed;
      this.fault := fault;
      this.base := server.committed;
      this.action := action;
      this.at := Start(scope, action);
    }

    /** A round trip to the database. */
    method Reach() returns (r: Try<()>)
      modifies this`fault
      ensures old(fault) == NoFault ==> r.Ok?
      ensures r.Ok? ==> (fault == NoFault <==> old(fault) == NoFault)
      ensures r.Err? ==> r.error == DatabaseFailure
    {
      match fault {
        case ConnectionLostAt(n) =>
          if n == 0 {
            return Err(DatabaseFailure);
          }
          fault := ConnectionLostAt(n - 1);
        case _ =>
      }
      r := Ok(());
    }

    /** A statement that reads; what it reads decides where the program goes next. */
    method Select() returns (r: Try<()>)
      requires Running() && !Due().Issue?
      modifies this`fault, this`at
      ensures Valid()
      ensures r.Ok? ==> (fault == NoFault <==> old(fault) == NoFault)
      ensures r.Err? ==> r.error == DatabaseFailure && old(fault) != NoFault
      ensures r.Ok? && old(Due()).Goto? ==> at == old(at).(pc := old(Due()).pc)
      ensures old(Due()).Finish? ==> at == old(at) && Outcome() == (base, old(Due()).reply)
    {
      AloneTurns(base, at);
      if Due().Finish? {
        assert Advance(base, at) == End(at, Due().reply);
      }
      var _ :- Reach();
      ghost var due := Due();
      if due.Goto? {
        at := at.(pc := due.pc);
      }
      r := Ok(());
    }

    /** A write that a constraint refuses ends the program. */
    lemma RefusedWrite()
      requires Running() && Due().Issue? && Put(working, scope, Due().write).None?
      ensures Outcome() == (base, Failed(DatabaseFailure))
    {
      AloneTurns(base, at);
      assert Advance(base, at) == End(at, Failed(DatabaseFailure));
    }

    /** A write that no constraint refuses leads to the next statement. */
    lemma AcceptedWrite(next: Session, t: Tables)
      requires Running() && Due().Issue? && Put(working, scope, Due().write) == Some(t)
      requires next == at.(pc := Due().pc, writes := at.writes + [Due().write])
      ensures PutAll(base, scope, next.writes) == Some(t) && Alone(base, next) == Outcome()
    {
      AloneTurns(base, at);
      PutOneMore(base, scope, at.writes, Due().write);
      assert Advance(base, at) == next;
    }

    /** A statement that writes rows; a constraint may refuse it. */
    method Execute(w: Write) returns (r: Try<()>)
      requires Running() && Due().Issue? && Due().write == w
      modifies this`fault, this`at, this`working
      ensures r.Ok? ==> Valid() && (fault == NoFault <==> old(fault) == NoFault)
      ensures r.Ok? ==> at == old(at).(pc := old(Due()).pc, writes := old(at.writes) + [w])
      ensures r.Ok? ==> Put(old(working), scope, w) == Some(working)
      ensures r.Err? ==> r.error == DatabaseFailure
      ensures r.Err? ==> old(fault) != NoFault || Outcome() == (base, Failed(DatabaseFailure))
    {
      var t := Put(working, scope, w);
      ghost var next := at.(pc := Due().pc, writes := at.writes + [w]);
      if t.None? {
        RefusedWrite();
      } else {
        AcceptedWrite(next, t.value);
      }
      var _ :- Reach();
      if t.None? {
        return Err(DatabaseFailure);
      }
      at := next;
      working := t.value;
      r := Ok(());
    }

    /** INSERT .. ON CONFLICT DO NOTHING: returns whether a row was inserted. */
    method InsertOrSkip(w: Write, taken: bool) returns (r: Try<bool>)
      requires Running() && (Due().Issue? <==> !taken) && (!taken ==> Due().write == w)
      modifies this`fault, this`at, this`working
      ensures r.Ok? ==> Valid() && (fault == NoFault <==> old(fault) == NoFault) && r.value == !taken
      ensures r.Ok? && !taken ==> at == old(at).(pc := old(Due()).pc, writes := old(at.writes) + [w])
      ensures r.Ok? && !taken ==> Put(old(working), scope, w) == Some(working)
      ensures taken ==> working == old(working)
      ensures taken && r.Ok? && old(Due()).Goto? ==> at == old(at).(pc := old(Due()).pc)
      ensures taken && old(Due()).Finish? ==> Outcome() == (base, old(Due()).reply)
      ensures r.Err? ==> r.error == DatabaseFailure
      ensures r.Err? ==> old(fault) != NoFault || Outcome() == (base, Failed(DatabaseFailure))
    {
      if taken {
        var _ :- Select();
        return Ok(false);
      }
      var _ :- Execute(w);
      r := Ok(true);
    }

    method Commit() returns (r: Try<()>)
      requires Valid() && at.pc.Committing?
      modifies this`fault, server
      ensures r.Ok? ==> server.committed == working
      ensures r.Err? ==> r.error == DatabaseFailure && old(fault) != NoFault
      ensures server.committed == working || server.committed == old(server.committed)
      ensures Outcome() == (working, Accepted(at.pc.mutation))
    {
      var _ :- Reach();
      server.committed := working;
      if fault == CommitReplyLost {
        return Err(DatabaseFailure);
      }
      r := Ok(());
    }
  }

  class AuthorizedTransaction {
    var value: Option<(Transaction, int)>
    const failure: DomainFailure

    constructor (value: Option<(Transaction, int)>, failure: DomainFailure)
      ensures this.value == value && this.failure == failure
    {
      this.value := value;
      this.failure := failure;
    }

    method Take() returns (taken: Option<(Transaction, int)>)
      modifies this
      ensures taken == old(value) && value == None
    {
      taken := value;
      value := None;
    }
  }

  // ----- The pieces the operations share -----

  method BeginAuthorized(server: PgServer, scope: ScopeKey, ghost action: Action, subject: string, permission: string,
                         fault: Fault)
    returns (r: Try<AuthorizedTransaction>)
    requires Schema(server.committed)
    requires !action.Bootstrap? && subject == action.actor && permission == action.Needs()
    ensures r.Err? ==> r.error == DatabaseFailure && fault != NoFault
    ensures r.Ok? ==> fresh(r.value)
    ensures r.Ok? && r.value.value.None? ==>
            Alone(server.committed, Start(scope, action)) == (server.committed, Rejected(r.value.failure))
    ensures r.Ok? && r.value.value.Some? ==>
      var (tx, revision) := r.value.value.value;
      && fresh(tx) && tx.server == server && tx.scope == scope && tx.base == server.committed && tx.action == action
      && tx.working == server.committed && tx.Valid() && (tx.fault == NoFault <==> fault == NoFault)
      && tx.at == Session(scope, action, if action.CreateRole? then InsertingRole else Inspecting(revision), [])
  {
    var tx := new Transaction(server, scope, fault, action);
    var _ :- tx.Select();
    if !ScopeExists(tx.working, scope) {
      var missing := new AuthorizedTransaction(None, ScopeNotBootstrapped);
      return Ok(missing);
    }
    var revision := tx.working.scopes[scope].revision;
    var allowed := Allowed(tx.working, scope, subject, permission);
    var _ :- tx.Select();
    if !allowed {
      var refused := new AuthorizedTransaction(None, Forbidden);
      return Ok(refused);
    }
    var granted := new AuthorizedTransaction(Some((tx, revision)), Forbidden);
    r := Ok(granted);
  }

  // ----- The statements, one method each -----

  method RoleProtection(tx: Transaction, role: string) returns (r: Try<Option<bool>>)
    requires tx.Valid() && tx.at.pc.Inspecting? && !tx.action.Bootstrap?
            && !tx.action.CreateRole? && tx.action.role == role
    modifies tx`fault, tx`at
    ensures r.Err? ==> r.error == DatabaseFailure && old(tx.fault) != NoFault
    ensures r.Ok? ==> tx.Valid() && (tx.fault == NoFault <==> old(tx.fault) == NoFault)
    ensures r.Ok? && r.value.None? ==> tx.Outcome() == (tx.base, Rejected(RoleNotFound))
    ensures r.Ok? && r.value.Some? ==>
      match tx.action
      case SetPermissions(_, _, _) =>
        if r.value.value then tx.Outcome() == (tx.base, Rejected(ProtectedRole))
            else tx.at.pc == Comparing(old(tx.at.pc).revision)
      case DeleteRole(_, _) =>
        if r.value.value then tx.Outcome() == (tx.base, Rejected(ProtectedRole)) else tx.at.pc == Removing
      case AssignRole(_, _, _) => tx.at.pc == Assigning(old(tx.at.pc).revision)
      case RevokeRole(_, _, _) => tx.at.pc == Checking(old(tx.at.pc).revision, r.value.value)
      case _ => true
  {
    var _ :- tx.Select();
    var key := RoleKey(tx.scope, role);
    r := Ok(if key in tx.working.roles then Some(tx.working.roles[key].protected) else None);
  }

  method InsertRoleRow(tx: Transaction, role: string, name: string) returns (r: Try<bool>)
    requires tx.Valid() && tx.at.pc.InsertingRole? && tx.action.CreateRole?
            && tx.action.role == role && tx.action.name == name
    modifies tx`fault, tx`at, tx`working
    ensures r.Err? ==> r.error == DatabaseFailure
    ensures r.Err? ==> old(tx.fault) != NoFault || tx.Outcome() == (tx.base, Failed(DatabaseFailure))
    ensures r.Ok? ==> tx.Valid() && (tx.fault == NoFault <==> old(tx.fault) == NoFault)
    ensures r.Ok? && !r.value ==> tx.Outcome() == (tx.base, Rejected(RoleAlreadyExists))
    ensures r.Ok? && r.value ==> tx.at.pc == Bumping
  {
    r := tx.InsertOrSkip(InsertRole(role, name, false), RoleExists(tx.working, tx.scope, role));
  }

  method ReadGrants(tx: Transaction, role: string) returns (r: Try<set<string>>)
    requires tx.Valid() && tx.at.pc.Comparing? && tx.action.SetPermissions? && tx.action.role == role
    modifies tx`fault, tx`at
    ensures r.Err? ==> r.error == DatabaseFailure && old(tx.fault) != NoFault
    ensures r.Ok? ==> tx.Valid() && (tx.fault == NoFault <==> old(tx.fault) == NoFault)
    ensures r.Ok? ==> tx.at.pc == if r.value == tx.action.permissions
            then Committing(Mutation(false, old(tx.at.pc).revision)) else Clearing
  {
    var existing := GrantedPermissions(tx.working, tx.scope, role);
    var _ :- tx.Select();
    r := Ok(existing);
  }

  method ClearGrants(tx: Transaction, role: string) returns (r: Try<()>)
    requires tx.Valid() && tx.at.pc.Clearing? && tx.action.SetPermissions? && tx.action.role == role
    modifies tx`fault, tx`at, tx`working
    ensures r.Err? ==> r.error == DatabaseFailure
    ensures r.Err? ==> old(tx.fault) != NoFault || tx.Outcome() == (tx.base, Failed(DatabaseFailure))
    ensures r.Ok? ==> tx.Valid() && (tx.fault == NoFault <==> old(tx.fault) == NoFault)
    ensures r.Ok? ==> tx.at.pc == NextGrant(Sorted(tx.action.permissions))
  {
    r := tx.Execute(DeleteGrants(role));
  }

  method InsertGrant(tx: Transaction, role: string, permission: string) returns (r: Try<()>)
    requires tx.Valid() && tx.at.pc.Granting? && tx.action.SetPermissions? && tx.action.role == role
    requires tx.at.pc.rest != [] && tx.at.pc.rest[0] == permission
    modifies tx`fault, tx`at, tx`working
    ensures r.Err? ==> r.error == DatabaseFailure
    ensures r.Err? ==> old(tx.fault) != NoFault || tx.Outcome() == (tx.base, Failed(DatabaseFailure))
    ensures r.Ok? ==> tx.Valid() && (tx.fault == NoFault <==> old(tx.fault) == NoFault)
    ensures r.Ok? ==> tx.at.pc == NextGrant(old(tx.at.pc.rest)[1..])
  {
    r := tx.Execute(InsertGrants(role, {permission}));
  }

  method DeleteRoleRow(tx: Transaction, role: string) returns (r: Try<()>)
    requires tx.Valid() && tx.at.pc.Removing? && tx.action.DeleteRole? && tx.action.role == role
    modifies tx`fault, tx`at, tx`working
    ensures r.Err? ==> r.error == DatabaseFailure
    ensures r.Err? ==> old(tx.fault) != NoFault || tx.Outcome() == (tx.base, Failed(DatabaseFailure))
    ensures r.Ok? ==> tx.Valid() && (tx.fault == NoFault <==> old(tx.fault) == NoFault)
    ensures r.Ok? ==> tx.at.pc == Bumping
  {
    r := tx.Execute(RemoveRole(role));
  }

  method InsertBindingRow(tx: Transaction, subject: string, role: string) returns (r: Try<bool>)
    requires tx.Valid() && tx.at.pc.Assigning? && tx.action.AssignRole?
            && tx.action.subject == subject && tx.action.role == role
    modifies tx`fault, tx`at, tx`working
    ensures r.Err? ==> r.error == DatabaseFailure
    ensures r.Err? ==> old(tx.fault) != NoFault || tx.Outcome() == (tx.base, Failed(DatabaseFailure))
    ensures r.Ok? ==> tx.Valid() && (tx.fault == NoFault <==> old(tx.fault) == NoFault)
    ensures r.Ok? ==> tx.at.pc == if r.value then Bumping else Committing(Mutation(false, old(tx.at.pc).revision))
  {
    r := tx.InsertOrSkip(InsertBinding(subject, role), Bound(tx.working, tx.scope, subject, role));
  }

  method BindingExists(tx: Transaction, subject: string, role: string) returns (r: Try<bool>)
    requires tx.Valid() && tx.at.pc.Checking? && tx.action.RevokeRole?
            && tx.action.subject == subject && tx.action.role == role
    modifies tx`fault, tx`at
    ensures r.Err? ==> r.error == DatabaseFailure && old(tx.fault) != NoFault
    ensures r.Ok? ==> tx.Valid() && (tx.fault == NoFault <==> old(tx.fault) == NoFault)
    ensures r.Ok? ==> tx.at.pc == if !r.value then Committing(Mutation(false, old(tx.at.pc).revision))
                                  else if old(tx.at.pc).protected then Counting else Unbinding
  {
    var bound := Bound(tx.working, tx.scope, subject, role);
    var _ :- tx.Select();
    r := Ok(bound);
  }

  method CountBindings(tx: Transaction, role: string) returns (r: Try<nat>)
    requires tx.Valid() && tx.at.pc.Counting? && tx.action.RevokeRole? && tx.action.role == role
    modifies tx`fault, tx`at
    ensures r.Err? ==> r.error == DatabaseFailure && old(tx.fault) != NoFault
    ensures r.Ok? ==> tx.Valid() && (tx.fault == NoFault <==> old(tx.fault) == NoFault)
    ensures r.Ok? && r.value <= 1 ==> tx.Outcome() == (tx.base, Rejected(ProtectedBinding))
    ensures r.Ok? && r.value > 1 ==> tx.at.pc == Unbinding
  {
    var count := BindingCount(tx.working, tx.scope, role);
    var _ :- tx.Select();
    r := Ok(count);
  }

  method DeleteBindingRow(tx: Transaction, subject: string, role: string) returns (r: Try<()>)
    requires tx.Valid() && tx.at.pc.Unbinding? && tx.action.RevokeRole?
            && tx.action.subject == subject && tx.action.role == role
    modifies tx`fault, tx`at, tx`working
    ensures r.Err? ==> r.error == DatabaseFailure
    ensures r.Err? ==> old(tx.fault) != NoFault || tx.Outcome() == (tx.base, Failed(DatabaseFailure))
    ensures r.Ok? ==> tx.Valid() && (tx.fault == NoFault <==> old(tx.fault) == NoFault)
    ensures r.Ok? ==> tx.at.pc == Bumping
  {
    r := tx.Execute(DeleteBinding(subject, role));
  }

  method BumpPolicyRevision(tx: Transaction) returns (r: Try<int>)
    requires tx.Valid() && tx.at.pc.Bumping?
    modifies tx`fault, tx`at, tx`working
    ensures r.Err? ==> r.error == DatabaseFailure
    ensures r.Err? ==> old(tx.fault) != NoFault || tx.Outcome() == (tx.base, Failed(DatabaseFailure))
    ensures r.Ok? ==> tx.Valid() && (tx.fault == NoFault <==> old(tx.fault) == NoFault)
    ensures r.Ok? ==> tx.at.pc == Committing(Mutation(true, r.value))
  {
    if tx.scope !in tx.working.scopes {
      var _ :- tx.Select();
      return Err(DatabaseFailure);
    }
    var _ :- tx.Execute(BumpRevision);
    r := Ok(tx.working.scopes[tx.scope].revision);
  }

  method InsertScopeRow(tx: Transaction, subject: string) returns (r: Try<bool>)
    requires tx.Valid() && tx.at.pc.Founding? && tx.action == Bootstrap(subject)
    modifies tx`fault, tx`at, tx`working
    ensures r.Err? ==> r.error == DatabaseFailure
    ensures r.Err? ==> old(tx.fault) != NoFault || tx.Outcome() == (tx.base, Failed(DatabaseFailure))
    ensures r.Ok? ==> tx.Valid() && (tx.fault == NoFault <==> old(tx.fault) == NoFault)
    ensures r.Ok? ==> tx.at.pc == if r.value then FoundingRole else Reading
    ensures r.Ok? && !r.value ==> tx.working == old(tx.working) && tx.scope in tx.working.scopes
  {
    r := tx.InsertOrSkip(InsertScope(subject), ScopeExists(tx.working, tx.scope));
  }

  method ReadExisting(tx: Transaction) returns (r: Try<ScopeRow>)
    requires tx.Valid() && tx.at.pc.Reading? && tx.action.Bootstrap? && tx.scope in tx.working.scopes
    requires tx.working.scopes[tx.scope].revision >= 0
    modifies tx`fault, tx`at
    ensures r.Err? ==> r.error == DatabaseFailure && old(tx.fault) != NoFault
    ensures r.Ok? ==> tx.Valid() && (tx.fault == NoFault <==> old(tx.fault) == NoFault)
    ensures r.Ok? && r.value.bootstrapSubject != tx.action.subject ==>
            tx.Outcome() == (tx.base, Rejected(ScopeAlreadyBootstrapped))
    ensures r.Ok? && r.value.bootstrapSubject == tx.action.subject ==> tx.at.pc == Verifying(r.value.revision)
  {
    var row := tx.working.scopes[tx.scope];
    var _ :- tx.Select();
    r := Ok(row);
  }

  method VerifyBootstrapPolicy(tx: Transaction) returns (r: Try<()>)
    requires tx.Valid() && tx.at.pc.Verifying? && tx.action.Bootstrap?
    modifies tx`fault, tx`at
    ensures r.Err? && r.error == DatabaseFailure ==> old(tx.fault) != NoFault
    ensures r.Err? && r.error == InvalidStoredState ==> tx.Outcome() == (tx.base, Failed(InvalidStoredState))
    ensures r.Ok? ==> tx.Valid() && (tx.fault == NoFault <==> old(tx.fault) == NoFault)
    ensures r.Ok? ==> tx.at.pc == Committing(Mutation(false, old(tx.at.pc).revision))
  {
    var complete := BootstrapJoin(tx.working, tx.scope);
    var _ :- tx.Select();
    if complete {
      r := Ok(());
    } else {
      r := Err(InvalidStoredState);
    }
  }

  method InsertBootstrapRole(tx: Transaction) returns (r: Try<()>)
    requires tx.Valid() && tx.at.pc.FoundingRole? && tx.action.Bootstrap?
    modifies tx`fault, tx`at, tx`working
    ensures r.Err? ==> r.error == DatabaseFailure
    ensures r.Err? ==> old(tx.fault) != NoFault || tx.Outcome() == (tx.base, Failed(DatabaseFailure))
    ensures r.Ok? ==> tx.Valid() && (tx.fault == NoFault <==> old(tx.fault) == NoFault)
    ensures r.Ok? ==> tx.at.pc == FoundingGrants([ROLES_MANAGE, BINDINGS_MANAGE])
  {
    r := tx.Execute(InsertRole(BOOTSTRAP_ROLE_ID, BOOTSTRAP_ROLE_NAME, true));
  }

  method InsertBootstrapGrant(tx: Transaction, permission: string) returns (r: Try<()>)
    requires tx.Valid() && tx.at.pc.FoundingGrants? && tx.action.Bootstrap?
    requires tx.at.pc.rest != [] && tx.at.pc.rest[0] == permission
    modifies tx`fault, tx`at, tx`working
    ensures r.Err? ==> r.error == DatabaseFailure
    ensures r.Err? ==> old(tx.fault) != NoFault || tx.Outcome() == (tx.base, Failed(DatabaseFailure))
    ensures r.Ok? ==> tx.Valid() && (tx.fault == NoFault <==> old(tx.fault) == NoFault)
    ensures r.Ok? ==>
            tx.at.pc == if |old(tx.at.pc.rest)| == 1 then FoundingBinding else FoundingGrants(old(tx.at.pc.rest)[1..])
  {
    r := tx.Execute(InsertGrants(BOOTSTRAP_ROLE_ID, {permission}));
  }

  method InsertBootstrapBinding(tx: Transaction, subject: string) returns (r: Try<()>)
    requires tx.Valid() && tx.at.pc.FoundingBinding? && tx.action == Bootstrap(subject)
    modifies tx`fault, tx`at, tx`working
    ensures r.Err? ==> r.error == DatabaseFailure
    ensures r.Err? ==> old(tx.fault) != NoFault || tx.Outcome() == (tx.base, Failed(DatabaseFailure))
    ensures r.Ok? ==> tx.Valid() && (tx.fault == NoFault <==> old(tx.fault) == NoFault)
    ensures r.Ok? ==> tx.at.pc == Bumping
  {
    r := tx.Execute(InsertBinding(subject, BOOTSTRAP_ROLE_ID));
  }

  // ----- The insert loops -----

  lemma NextOfRest(list: seq<string>, i: nat)
    requires i < |list|
    ensures NextGrant(list[i..]) == Granting(list[i..]) && list[i..][0] == list[i] && list[i..][1..] == list[i+1..]
  {
  }

  method InsertEachGrant(tx: Transaction, role: string, permissions: set<string>) returns (r: Try<()>)
    requires tx.Valid() && tx.action.SetPermissions? && tx.action.role == role && tx.action.permissions == permissions
    requires tx.at.pc == NextGrant(Sorted(permissions))
    modifies tx`fault, tx`at, tx`working
    ensures r.Err? ==> r.error == DatabaseFailure
    ensures r.Err? ==> old(tx.fault) != NoFault || tx.Outcome() == (tx.base, Failed(DatabaseFailure))
    ensures r.Ok? ==> tx.Valid() && (tx.fault == NoFault <==> old(tx.fault) == NoFault)
    ensures r.Ok? ==> tx.at.pc == Bumping
  {
    var list := Sorted(permissions);
    for i := 0 to |list|
      invariant tx.Valid() && (tx.fault == NoFault <==> old(tx.fault) == NoFault)
      invariant tx.at.pc == NextGrant(list[i..])
    {
      NextOfRest(list, i);
      var _ :- InsertGrant(tx, role, list[i]);
    }
    r := Ok(());
  }

  method InsertBootstrapGrants(tx: Transaction) returns (r: Try<()>)
    requires tx.Valid() && tx.action.Bootstrap? && tx.at.pc == FoundingGrants([ROLES_MANAGE, BINDINGS_MANAGE])
    modifies tx`fault, tx`at, tx`working
    ensures r.Err? ==> r.error == DatabaseFailure
    ensures r.Err? ==> old(tx.fault) != NoFault || tx.Outcome() == (tx.base, Failed(DatabaseFailure))
    ensures r.Ok? ==> tx.Valid() && (tx.fault == NoFault <==> old(tx.fault) == NoFault)
    ensures r.Ok? ==> tx.at.pc == FoundingBinding
  {
    var permissions := [ROLES_MANAGE, BINDINGS_MANAGE];
    for i := 0 to |permissions|
      invariant tx.Valid() && (tx.fault == NoFault <==> old(tx.fault) == NoFault)
      invariant tx.at.pc == if i < |permissions| then FoundingGrants(permissions[i..]) else FoundingBinding
    {
      var _ :- InsertBootstrapGrant(tx, permissions[i]);
    }
    r := Ok(());
  }

  // ----- The operations -----

  /** What every operation promises, given the tables and the reply of its whole program: the
      committed tables are untouched or the program's, and unless the operation ended in a
      fault, its tables and its result are the program's. */
  ghost predicate Follows(t0: Tables, t1: Tables, outcome: (Tables, Reply), fault: Fault, r: Try<Reply>)
  {
    && (t1 == t0 || t1 == outcome.0)
    && (r.Ok? || fault == NoFault ==> t1 == outcome.0 && ReplyOf(r) == outcome.1)
    && (r.Err? && r.error == InvalidStoredState ==> t1 == outcome.0 && ReplyOf(r) == outcome.1)
  }

  method CommitReply(tx: Transaction, mutation: Mutation) returns (r: Try<Reply>)
    requires tx.Valid() && tx.at.pc == Committing(mutation)
    modifies tx`fault, tx.server
    ensures Follows(old(tx.server.committed), tx.server.committed, tx.Outcome(), old(tx.fault), r)
  {
    var _ :- tx.Commit();
    r := Ok(Accepted(mutation));
  }

  /** The end of every effective operation. */
  method BumpAndCommit(tx: Transaction) returns (r: Try<Reply>)
    requires tx.Valid() && tx.at.pc.Bumping? && tx.server.committed == tx.base
    modifies tx, tx.server
    ensures Follows(old(tx.server.committed), tx.server.committed, tx.Outcome(), old(tx.fault), r)
  {
    var revision :- BumpPolicyRevision(tx);
    r := CommitReply(tx, Mutation(true, revision));
  }

  method BootstrapScope(server: PgServer, scope: ScopeKey, subject: string, fault: Fault) returns (r: Try<Reply>)
    requires Schema(server.committed)
    modifies server
    ensures Follows(old(server.committed), server.committed,
            Alone(old(server.committed), Start(scope, Bootstrap(subject))), fault, r)
  {
    var tx := new Transaction(server, scope, fault, Bootstrap(subject));
    var inserted :- InsertScopeRow(tx, subject);
    if !inserted {
      var existing :- ReadExisting(tx);
      if existing.bootstrapSubject != subject {
        return Ok(Rejected(ScopeAlreadyBootstrapped));
      }
      var _ :- VerifyBootstrapPolicy(tx);
      r := CommitReply(tx, Mutation(false, existing.revision));
      return;
    }
    var _ :- InsertBootstrapRole(tx);
    var _ :- InsertBootstrapGrants(tx);
    var _ :- InsertBootstrapBinding(tx, subject);
    r := BumpAndCommit(tx);
  }

  method CreateRoleIn(server: PgServer, scope: ScopeKey, actor: string, role: string, name: string, fault: Fault)
    returns (r: Try<Reply>)
    requires Schema(server.committed)
    modifies server
    ensures Follows(old(server.committed), server.committed,
            Alone(old(server.committed), Start(scope, CreateRole(actor, role, name))), fault, r)
  {
    ghost var action := CreateRole(actor, role, name);
    var authorized :- BeginAuthorized(server, scope, action, actor, ROLES_MANAGE, fault);
    var taken := authorized.Take();
    if taken.None? {
      return Ok(Rejected(authorized.failure));
    }
    var (tx, _) := taken.value;
    var inserted :- InsertRoleRow(tx, role, name);
    if !inserted {
      return Ok(Rejected(RoleAlreadyExists));
    }
    r := BumpAndCommit(tx);
  }

  method SetRolePermissions(server: PgServer, scope: ScopeKey, actor: string, role: string, permissions: set<string>,
                            fault: Fault)
    returns (r: Try<Reply>)
    requires Schema(server.committed)
    modifies server
    ensures Follows(old(server.committed), server.committed,
            Alone(old(server.committed), Start(scope, SetPermissions(actor, role, permissions))), fault, r)
  {
    ghost var action := SetPermissions(actor, role, permissions);
    var authorized :- BeginAuthorized(server, scope, action, actor, ROLES_MANAGE, fault);
    var taken := authorized.Take();
    if taken.None? {
      return Ok(Rejected(authorized.failure));
    }
    var (tx, currentRevision) := taken.value;
    var protection :- RoleProtection(tx, role);
    if protection.None? {
      return Ok(Rejected(RoleNotFound));
    }
    if protection.value {
      return Ok(Rejected(ProtectedRole));
    }
    var existing :- ReadGrants(tx, role);
    if existing == permissions {
      r := CommitReply(tx, Mutation(false, currentRevision));
      return;
    }
    var _ :- ClearGrants(tx, role);
    var _ :- InsertEachGrant(tx, role, permissions);
    r := BumpAndCommit(tx);
  }

  method DeleteRoleFrom(server: PgServer, scope: ScopeKey, actor: string, role: string, fault: Fault)
    returns (r: Try<Reply>)
    requires Schema(server.committed)
    modifies server
    ensures Follows(old(server.committed), server.committed,
            Alone(old(server.committed), Start(scope, DeleteRole(actor, role))), fault, r)
  {
    ghost var action := DeleteRole(actor, role);
    var authorized :- BeginAuthorized(server, scope, action, actor, ROLES_MANAGE, fault);
    var taken := authorized.Take();
    if taken.None? {
      return Ok(Rejected(authorized.failure));
    }
    var (tx, _) := taken.value;
    var protection :- RoleProtection(tx, role);
    if protection.None? {
      return Ok(Rejected(RoleNotFound));
    }
    if protection.value {
      return Ok(Rejected(ProtectedRole));
    }
    var _ :- DeleteRoleRow(tx, role);
    r := BumpAndCommit(tx);
  }

  method AssignRoleTo(server: PgServer, scope: ScopeKey, actor: string, subject: string, role: string, fault: Fault)
    returns (r: Try<Reply>)
    requires Schema(server.committed)
    modifies server
    ensures Follows(old(server.committed), server.committed,
            Alone(old(server.committed), Start(scope, AssignRole(actor, subject, role))), fault, r)
  {
    ghost var action := AssignRole(actor, subject, role);
    var authorized :- BeginAuthorized(server, scope, action, actor, BINDINGS_MANAGE, fault);
    var taken := authorized.Take();
    if taken.None? {
      return Ok(Rejected(authorized.failure));
    }
    var (tx, currentRevision) := taken.value;
    var protection :- RoleProtection(tx, role);
    if protection.None? {
      return Ok(Rejected(RoleNotFound));
    }
    var changed :- InsertBindingRow(tx, subject, role);
    if changed {
      r := BumpAndCommit(tx);
    } else {
      r := CommitReply(tx, Mutation(false, currentRevision));
    }
  }

  method RevokeRoleFrom(server: PgServer, scope: ScopeKey, actor: string, subject: string, role: string, fault: Fault)
    returns (r: Try<Reply>)
    requires Schema(server.committed)
    modifies server
    ensures Follows(old(server.committed), server.committed,
            Alone(old(server.committed), Start(scope, RevokeRole(actor, subject, role))), fault, r)
  {
    ghost var action := RevokeRole(actor, subject, role);
    var authorized :- BeginAuthorized(server, scope, action, actor, BINDINGS_MANAGE, fault);
    var taken := authorized.Take();
    if taken.None? {
      return Ok(Rejected(authorized.failure));
    }
    var (tx, currentRevision) := taken.value;
    var protection :- RoleProtection(tx, role);
    if protection.None? {
      return Ok(Rejected(RoleNotFound));
    }
    var bound :- BindingExists(tx, subject, role);
    if !bound {
      r := CommitReply(tx, Mutation(false, currentRevision));
      return;
    }
    if protection.value {
      var bindingCount :- CountBindings(tx, role);
      if bindingCount <= 1 {
        return Ok(Rejected(ProtectedBinding));
      }
    }
    var _ :- DeleteBindingRow(tx, subject, role);
    r := BumpAndCommit(tx);
  }

  /** Any operation, as its program. */
  method Dispatch(server: PgServer, scope: ScopeKey, action: Action, fault: Fault) returns (r: Try<Reply>)
    requires Schema(server.committed)
    modifies server
    ensures Follows(old(server.committed), server.committed,
            Alone(old(server.committed), Start(scope, action)), fault, r)
  {
    match action {
      case Bootstrap(subject) => r := BootstrapScope(server, scope, subject, fault);
      case CreateRole(actor, role, name) => r := CreateRoleIn(server, scope, actor, role, name, fault);
      case SetPermissions(actor, role, permissions) =>
        r := SetRolePermissions(server, scope, actor, role, permissions, fault);
      case DeleteRole(actor, role) => r := DeleteRoleFrom(server, scope, actor, role, fault);
      case AssignRole(actor, subject, role) => r := AssignRoleTo(server, scope, actor, subject, role, fault);
      case RevokeRole(actor, subject, role) => r := RevokeRoleFrom(server, scope, actor, subject, role, fault);
    }
  }

  /** Any operation: unless it ended in a fault it is the abstract step, reply included; with a
      fault the policies are still the old ones or those of the step. */
  method Perform(server: PgServer, scope: ScopeKey, action: Action, fault: Fault) returns (reply: Reply)
    requires Schema(server.committed)
    modifies server
    ensures Schema(server.committed)
    ensures View(server.committed) == View(old(server.committed))
            || View(server.committed)
               == Store(View(old(server.committed)), scope, Apply(Lookup(old(server.committed), scope), action).0)
    ensures fault == NoFault || reply != Failed(DatabaseFailure) ==>
              && reply == Apply(Lookup(old(server.committed), scope), action).1
              && View(server.committed)
                 == Store(View(old(server.committed)), scope, Apply(Lookup(old(server.committed), scope), action).0)
  {
    StartKnows(Lookup(server.committed, scope), scope, action);
    AloneIsApply(server.committed, Start(scope, action));
    var r := Dispatch(server, scope, action, fault);
    reply := ReplyOf(r);
  }
}
