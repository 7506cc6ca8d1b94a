/** The statements of each PostgreSQL operation as a program: a session stands before its next
    statement, and every statement reads the rows committed at that moment together with the
    session's own uncommitted rows. What a session has learned so far is stated about the
    policy of its scope. */
module PgProgram {
  import opened AccessPolicy
  import opened Relational
  import opened Ordering

  // The next statement of a session, with the values its transaction has read.
  datatype Pc =
    | Opening                                        // SELECT policy_revision .. FOR UPDATE
    | Authorizing(revision: int)                     // SELECT EXISTS binding joined with grant
    | InsertingRole                                  // create: INSERT .. ON CONFLICT DO NOTHING
    | Inspecting(revision: int)                      // SELECT protected
    | Comparing(revision: int)                       // set: SELECT permission
    | Clearing                                       // set: DELETE grants
    | Granting(rest: seq<string>)                    // set: INSERT the next grant
    | Removing                                       // delete: DELETE role
    | Assigning(revision: int)                       // assign: INSERT .. ON CONFLICT DO NOTHING
    | Checking(revision: int, protected: bool)       // revoke: SELECT EXISTS binding
    | Counting                                       // revoke: SELECT count(*)
    | Unbinding                                      // revoke: DELETE binding
    | Founding                                       // bootstrap: INSERT scope .. ON CONFLICT DO NOTHING
    | Reading                                        // bootstrap: SELECT existing .. FOR UPDATE
    | Verifying(revision: int)                       // bootstrap: SELECT the protected policy
    | FoundingRole                                   // bootstrap: INSERT role
    | FoundingGrants(rest: seq<string>)              // bootstrap: INSERT the next grant
    | FoundingBinding                                // bootstrap: INSERT binding
    | Bumping                                        // UPDATE .. RETURNING policy_revision
    | Committing(mutation: Mutation)                 // COMMIT
    | Done(reply: Reply)

  datatype Session = Session(scope: ScopeKey, action: Action, pc: Pc, writes: seq<Write>)

  function Start(scope: ScopeKey, action: Action): Session
  {
    Session(scope, action, if action.Bootstrap? then Founding else Opening, [])
  }

  // ----- One statement -----

  // What the statements of a session's operation can read off the visible rows.
  datatype Facts = Facts(
    revision: Option<int>, owner: string, bootstrapComplete: bool, allowed: bool,
    roleExists: bool, protected: bool, granted: set<string>, bound: bool, atMostOneBinding: bool)

  function Read(v: Tables, s: ScopeKey, a: Action): Facts
  {
    var role := if a.Bootstrap? then BOOTSTRAP_ROLE_ID else a.role;
    var subject := if a.AssignRole? || a.RevokeRole? then a.subject else "";
    Facts(if s in v.scopes then Some(v.scopes[s].revision) else None,
          if s in v.scopes then v.scopes[s].bootstrapSubject else "",
          BootstrapJoin(v, s),
          !a.Bootstrap?
          && Allowed(v, s, a.actor, if a.AssignRole? || a.RevokeRole? then BINDINGS_MANAGE else ROLES_MANAGE),
          RoleExists(v, s, role),
          RoleIsProtected(v, s, role),
          GrantedPermissions(v, s, role),
          Bound(v, s, subject, role),
          BindingCount(v, s, role) <= 1)
  }

  /** The protected role joined with a binding of it, and both manage grants counted. */
  predicate BootstrapJoin(t: Tables, s: ScopeKey)
  {
    && (exists b :: b in t.bindings && b.scope == s && b.role == BOOTSTRAP_ROLE_ID
                    && RoleIsProtected(t, b.scope, b.role))
    && |GrantedPermissions(t, s, BOOTSTRAP_ROLE_ID) * {ROLES_MANAGE, BINDINGS_MANAGE}| == 2
  }

  // What a statement amounts to: moving on with a value read, writing a row, or ending the
  // transaction with a reply.
  datatype Turn = Goto(pc: Pc) | Issue(write: Write, pc: Pc) | Finish(reply: Reply)

  const FAIL := Finish(Failed(DatabaseFailure))

  function Decide(f: Facts, a: Action, pc: Pc): Turn
  {
    if pc.Bumping? then
      if f.revision.None? then FAIL else Issue(BumpRevision, Committing(Mutation(true, f.revision.value + 1)))
    else if pc.Committing? then Finish(Accepted(pc.mutation))
    else if a.Bootstrap? then DecideBootstrap(f, a.subject, pc)
    else DecideAuthorized(f, a, pc)
  }

  function DecideBootstrap(f: Facts, subject: string, pc: Pc): Turn
  {
    match pc
    case Founding => if f.revision.Some? then Goto(Reading) else Issue(InsertScope(subject), FoundingRole)
    case Reading =>
      if f.revision.None? then FAIL
      else if f.revision.value < 0 then Finish(Failed(InvalidStoredState))
      else if f.owner != subject then Finish(Rejected(ScopeAlreadyBootstrapped))
      else Goto(Verifying(f.revision.value))
    case Verifying(revision) =>
      if f.bootstrapComplete then Goto(Committing(Mutation(false, revision))) else Finish(Failed(InvalidStoredState))
    case FoundingRole =>
      Issue(InsertRole(BOOTSTRAP_ROLE_ID, BOOTSTRAP_ROLE_NAME, true), FoundingGrants([ROLES_MANAGE, BINDINGS_MANAGE]))
    case FoundingGrants(rest) =>
      if rest == [] then FAIL
      else Issue(InsertGrants(BOOTSTRAP_ROLE_ID, {rest[0]}),
                 if |rest| == 1 then FoundingBinding else FoundingGrants(rest[1..]))
    case FoundingBinding => Issue(InsertBinding(subject, BOOTSTRAP_ROLE_ID), Bumping)
    case _ => FAIL
  }

  function DecideAuthorized(f: Facts, a: Action, pc: Pc): Turn
    requires !a.Bootstrap?
  {
    match pc
    case Opening =>
      if f.revision.None? then Finish(Rejected(ScopeNotBootstrapped))
      else if f.revision.value < 0 then Finish(Failed(InvalidStoredState))
      else Goto(Authorizing(f.revision.value))
    case Authorizing(revision) =>
      if !f.allowed then Finish(Rejected(Forbidden))
      else Goto(if a.CreateRole? then InsertingRole else Inspecting(revision))
    case InsertingRole =>
      if !a.CreateRole? then FAIL
      else if f.roleExists then Finish(Rejected(RoleAlreadyExists))
      else Issue(InsertRole(a.role, a.name, false), Bumping)
    case Inspecting(revision) =>
      if !f.roleExists then Finish(Rejected(RoleNotFound))
      else (match a
            case SetPermissions(_, _, _) =>
              if f.protected then Finish(Rejected(ProtectedRole)) else Goto(Comparing(revision))
            case DeleteRole(_, _) => if f.protected then Finish(Rejected(ProtectedRole)) else Goto(Removing)
            case AssignRole(_, _, _) => Goto(Assigning(revision))
            case RevokeRole(_, _, _) => Goto(Checking(revision, f.protected))
            case _ => FAIL)
    case Comparing(revision) =>
      if !a.SetPermissions? then FAIL
      else Goto(if f.granted == a.permissions then Committing(Mutation(false, revision)) else Clearing)
    case Clearing =>
      if !a.SetPermissions? then FAIL else Issue(DeleteGrants(a.role), NextGrant(Sorted(a.permissions)))
    case Granting(rest) =>
      if rest == [] then FAIL else Issue(InsertGrants(a.role, {rest[0]}), NextGrant(rest[1..]))
    case Removing => Issue(RemoveRole(a.role), Bumping)
    case Assigning(revision) =>
      if !a.AssignRole? then FAIL
      else if f.bound then Goto(Committing(Mutation(false, revision)))
      else Issue(InsertBinding(a.subject, a.role), Bumping)
    case Checking(revision, protected) =>
      if !f.bound then Goto(Committing(Mutation(false, revision))) else Goto(if protected then Counting else Unbinding)
    case Counting => if f.atMostOneBinding then Finish(Rejected(ProtectedBinding)) else Goto(Unbinding)
    case Unbinding => if !a.RevokeRole? then FAIL else Issue(DeleteBinding(a.subject, a.role), Bumping)
    case _ => FAIL
  }

  function NextGrant(rest: seq<string>): Pc
  {
    if rest == [] then Bumping else Granting(rest)
  }

  /** The session after its next statement, when the statement does not have to wait. */
  function Advance(committed: Tables, ses: Session): Session
  {
    var visible := PutAll(committed, ses.scope, ses.writes);
    if visible.None? then End(ses, Failed(DatabaseFailure))
    else Take(visible.value, ses, Decide(Read(visible.value, ses.scope, ses.action), ses.action, ses.pc))
  }

  function Take(v: Tables, ses: Session, turn: Turn): Session
  {
    match turn
    case Goto(pc) => ses.(pc := pc)
    case Finish(reply) => End(ses, reply)
    case Issue(w, pc) =>
      if Put(v, ses.scope, w).None? then End(ses, Failed(DatabaseFailure))
      else ses.(pc := pc, writes := ses.writes + [w])
  }

  // The transaction is over, and with it the session's uncommitted rows.
  function End(ses: Session, reply: Reply): Session { ses.(pc := Done(reply), writes := []) }

  // ----- Running without interference -----

  /** How many statements a session may still issue. */
  function Remaining(ses: Session): nat
  {
    var grants := if ses.action.SetPermissions? then |ses.action.permissions| else 0;
    match ses.pc
    case Opening => 8 + grants
    case Authorizing(_) => 7 + grants
    case InsertingRole => 3
    case Inspecting(_) => 6 + grants
    case Comparing(_) => 4 + grants
    case Clearing => 3 + grants
    case Granting(rest) => 2 + |rest|
    case Removing => 3
    case Assigning(_) => 3
    case Checking(_, _) => 5
    case Counting => 4
    case Unbinding => 3
    case Founding => 8
    case Reading => 3
    case Verifying(_) => 2
    case FoundingRole => 6
    case FoundingGrants(rest) => 3 + |rest|
    case FoundingBinding => 3
    case Bumping => 2
    case Committing(_) => 1
    case Done(_) => 0
  }

  lemma TurnShortens(f: Facts, ses: Session)
    requires !ses.pc.Done?
    ensures var turn := Decide(f, ses.action, ses.pc);
            !turn.Finish? ==> Remaining(ses.(pc := turn.pc)) < Remaining(ses)
  {
    if !ses.pc.Bumping? && !ses.pc.Committing? {
      if ses.action.Bootstrap? {
        BootstrapTurnShortens(f, ses);
      } else {
        AuthorizedTurnShortens(f, ses);
      }
    }
  }

  lemma BootstrapTurnShortens(f: Facts, ses: Session)
    requires ses.action.Bootstrap?
    ensures var turn := DecideBootstrap(f, ses.action.subject, ses.pc);
            !turn.Finish? ==> Remaining(ses.(pc := turn.pc)) < Remaining(ses)
  {
  }

  lemma AuthorizedTurnShortens(f: Facts, ses: Session)
    requires !ses.action.Bootstrap?
    ensures var turn := DecideAuthorized(f, ses.action, ses.pc);
            !turn.Finish? ==> Remaining(ses.(pc := turn.pc)) < Remaining(ses)
  {
    match ses.pc {
      case Inspecting(_) => InspectionShortens(f, ses);
      case Clearing => ClearingShortens(f, ses);
      case Granting(_) => GrantingShortens(f, ses);
      case _ =>
    }
  }

  lemma ClearingShortens(f: Facts, ses: Session)
    requires !ses.action.Bootstrap? && ses.pc.Clearing?
    ensures var turn := DecideAuthorized(f, ses.action, ses.pc);
            !turn.Finish? ==> Remaining(ses.(pc := turn.pc)) < Remaining(ses)
  {
    if ses.action.SetPermissions? {
      assert |Sorted(ses.action.permissions)| == |ses.action.permissions|;
    }
  }

  lemma GrantingShortens(f: Facts, ses: Session)
    requires !ses.action.Bootstrap? && ses.pc.Granting?
    ensures var turn := DecideAuthorized(f, ses.action, ses.pc);
            !turn.Finish? ==> Remaining(ses.(pc := turn.pc)) < Remaining(ses)
  {
  }

  lemma InspectionShortens(f: Facts, ses: Session)
    requires !ses.action.Bootstrap? && ses.pc.Inspecting?
    ensures var turn := DecideAuthorized(f, ses.action, ses.pc);
            !turn.Finish? ==> Remaining(ses.(pc := turn.pc)) < Remaining(ses)
  {
  }

  lemma StatementsRunOut(t: Tables, ses: Session)
    requires !ses.pc.Done?
    ensures Remaining(Advance(t, ses)) < Remaining(ses)
    ensures Advance(t, ses).scope == ses.scope && Advance(t, ses).action == ses.action
  {
    var visible := PutAll(t, ses.scope, ses.writes);
    if visible.Some? {
      var f := Read(visible.value, ses.scope, ses.action);
      TurnShortens(f, ses);
      TakeKeeps(visible.value, ses, Decide(f, ses.action, ses.pc));
    }
  }

  lemma TakeKeeps(v: Tables, ses: Session, turn: Turn)
    requires !turn.Finish? ==> Remaining(ses.(pc := turn.pc)) < Remaining(ses)
    requires !ses.pc.Done?
    ensures Remaining(Take(v, ses, turn)) < Remaining(ses)
    ensures Take(v, ses, turn).scope == ses.scope && Take(v, ses, turn).action == ses.action
  {
  }

  /** The tables and the reply that a session leaves when nobody else writes. */
  function Alone(t: Tables, ses: Session): (Tables, Reply)
    decreases Remaining(ses)
  {
    match ses.pc
    case Done(reply) => (t, reply)
    case Committing(mutation) =>
      (match PutAll(t, ses.scope, ses.writes)
       case None => (t, Failed(DatabaseFailure))
       case Some(v) => (v, Accepted(mutation)))
    case _ =>
      StatementsRunOut(t, ses);
      Alone(t, Advance(t, ses))
  }

  // ----- What a session knows -----

  ghost predicate Admitted(p: Option<Policy>, a: Action)
  {
    !a.Bootstrap? && p.Some? && Holds(p.value, a.actor, a.Needs())
  }

  ghost predicate OnRole(p: Option<Policy>, a: Action)
  {
    Admitted(p, a) && !a.CreateRole? && a.role in p.value.roles
  }

  ghost function WithGrants(p: Policy, role: string, granted: set<string>): Policy
    requires role in p.roles
  {
    p.(roles := p.roles[role := p.roles[role].(permissions := granted)])
  }

  // The bootstrap role with some of its grants, before its binding.
  function Seeded(subject: string, granted: set<string>): Policy
  {
    Policy(subject, 0, map[BOOTSTRAP_ROLE_ID := Role(BOOTSTRAP_ROLE_NAME, true, granted)], {})
  }

  function Elements(list: seq<string>): set<string>
  {
    set x | x in list
  }

  /** The values a session has read are still those of its scope's policy, and its uncommitted
      rows turn that policy into the intended one. */
  ghost predicate Knows(p: Option<Policy>, ses: Session)
  {
    var a, made := ses.action, ActAll(p, ses.writes);
    match ses.pc
    case Opening => ses.writes == [] && !a.Bootstrap?
    case Authorizing(revision) => ses.writes == [] && !a.Bootstrap? && p.Some? && revision == p.value.revision
    case InsertingRole => ses.writes == [] && a.CreateRole? && Admitted(p, a)
    case Inspecting(revision) => ses.writes == [] && Admitted(p, a) && !a.CreateRole? && revision == p.value.revision
    case Comparing(revision) =>
      ses.writes == [] && a.SetPermissions? && OnRole(p, a)
          && !p.value.roles[a.role].protected && revision == p.value.revision
    case Clearing => ses.writes == [] && a.SetPermissions? && Judge(p, a).Change?
    case Granting(rest) =>
      && rest != [] && Ascending(rest) && Elements(rest) <= (if a.SetPermissions? then a.permissions else {})
      && a.SetPermissions? && Judge(p, a).Change?
      && made == Becomes(Some(WithGrants(p.value, a.role, a.permissions - Elements(rest))))
    case Removing => ses.writes == [] && a.DeleteRole? && Judge(p, a).Change?
    case Assigning(revision) => ses.writes == [] && a.AssignRole? && OnRole(p, a) && revision == p.value.revision
    case Checking(revision, protected) =>
      ses.writes == [] && a.RevokeRole? && OnRole(p, a) && revision == p.value.revision
      && protected == p.value.roles[a.role].protected
    case Counting =>
      ses.writes == [] && a.RevokeRole? && OnRole(p, a) && p.value.roles[a.role].protected
      && Binding(a.subject, a.role) in p.value.bindings
    case Unbinding => ses.writes == [] && a.RevokeRole? && Judge(p, a).Change?
    case Founding => ses.writes == [] && a.Bootstrap?
    case Reading => ses.writes == [] && a.Bootstrap? && p.Some?
    case Verifying(revision) =>
      ses.writes == [] && a.Bootstrap? && p.Some? && p.value.bootstrapSubject == a.subject
          && revision == p.value.revision
    case FoundingRole => a.Bootstrap? && p.None? && made == Becomes(Some(Policy(a.subject, 0, map[], {})))
    case FoundingGrants(rest) =>
      a.Bootstrap? && p.None?
      && ((rest == [ROLES_MANAGE, BINDINGS_MANAGE] && made == Becomes(Some(Seeded(a.subject, {}))))
          || (rest == [BINDINGS_MANAGE] && made == Becomes(Some(Seeded(a.subject, {ROLES_MANAGE})))))
    case FoundingBinding =>
      a.Bootstrap? && p.None? && made == Becomes(Some(Seeded(a.subject, {ROLES_MANAGE, BINDINGS_MANAGE})))
    case Bumping => Judge(p, a).Change? && made == Becomes(Some(Judge(p, a).policy))
    case Committing(mutation) => made.Becomes? && Apply(p, a) == (made.policy, Accepted(mutation))
    case Done(_) => ses.writes == []
  }

  /** What a statement keeps: the session's knowledge, or, when it ends the session, the reply
      of the abstract step, with a commit exactly when the reply accepts. */
  ghost predicate Progresses(p: Option<Policy>, ses: Session, next: Session)
  {
    if next.pc.Done? then
      next.writes == [] && next.pc.reply == Apply(p, ses.action).1 && (ses.pc.Committing? <==> next.pc.reply.Accepted?)
    else
      Knows(p, next) && !ses.pc.Committing?
  }

  lemma StartKnows(p: Option<Policy>, scope: ScopeKey, action: Action)
    ensures Knows(p, Start(scope, action))
  {
  }

  // ----- Reading the rows is reading the policy -----

  /** The facts are those of the visible policy. */
  ghost predicate Agrees(f: Facts, q: Option<Policy>, a: Action)
  {
    && f.revision == (if q.None? then None else Some(q.value.revision))
    && (q.Some? ==>
          var p := q.value;
          && p.revision >= 0
          && f.owner == p.bootstrapSubject
          && (a.Bootstrap? ==> (f.bootstrapComplete <==> BootstrapStands(p)))
          && (!a.Bootstrap? ==>
                && (f.allowed <==> Holds(p, a.actor, a.Needs()))
                && (f.roleExists <==> a.role in p.roles)
                && (f.roleExists ==>
                   f.protected == p.roles[a.role].protected && f.granted == p.roles[a.role].permissions))
          && (a.AssignRole? || a.RevokeRole? ==>
                && (f.bound <==> Binding(a.subject, a.role) in p.bindings)
                && (f.bound ==> (f.atMostOneBinding <==> Holders(p, a.role) == {a.subject}))))
  }

  lemma ReadAgrees(v: Tables, s: ScopeKey, a: Action)
    requires Schema(v)
    ensures Agrees(Read(v, s, a), Lookup(v, s), a)
  {
    if s in v.scopes {
      if a.Bootstrap? {
        BootstrapJoinAgrees(v, s);
      } else {
        AllowedAgrees(v, s, a.actor, a.Needs());
        QueriesAgree(v, s, "", a.role);
        if a.AssignRole? || a.RevokeRole? {
          QueriesAgree(v, s, a.subject, a.role);
          if Bound(v, s, a.subject, a.role) {
            CountFindsLastHolder(v, s, a.subject, a.role);
          }
        }
      }
    }
  }

  lemma BootstrapJoinAgrees(t: Tables, s: ScopeKey)
    requires Schema(t) && s in t.scopes
    ensures BootstrapJoin(t, s) <==> BootstrapStands(Lookup(t, s).value)
  {
    ManagePermissionsDiffer();
    QueriesAgree(t, s, "", BOOTSTRAP_ROLE_ID);
    HoldersAreBindingRows(t, s, BOOTSTRAP_ROLE_ID);
    PairCounted(GrantedPermissions(t, s, BOOTSTRAP_ROLE_ID) * {ROLES_MANAGE, BINDINGS_MANAGE},
        ROLES_MANAGE, BINDINGS_MANAGE);
  }

  // ----- Every statement keeps the knowledge -----

  /** What a turn must preserve, in terms of the committed policy `p` and the visible one `q`. */
  ghost predicate TurnKeeps(p: Option<Policy>, q: Option<Policy>, ses: Session, turn: Turn)
  {
    match turn
    case Goto(pc) => Knows(p, ses.(pc := pc)) && !pc.Done? && !ses.pc.Committing?
    case Finish(reply) => reply == Apply(p, ses.action).1 && (ses.pc.Committing? <==> reply.Accepted?)
    case Issue(w, pc) =>
      && !ses.pc.Committing? && !pc.Done?
      && if Act(q, w).Violation? then Apply(p, ses.action).1 == Failed(DatabaseFailure)
         else Knows(p, ses.(pc := pc, writes := ses.writes + [w]))
  }

  lemma DecideKeeps(p: Option<Policy>, q: Option<Policy>, f: Facts, ses: Session)
    requires Knows(p, ses) && !ses.pc.Done?
    requires ActAll(p, ses.writes) == Becomes(q) && Agrees(f, q, ses.action)
    ensures TurnKeeps(p, q, ses, Decide(f, ses.action, ses.pc))
  {
    if ses.pc.Bumping? {
      BumpKeeps(p, q, f, ses);
    } else if ses.pc.Committing? {
      CommitKeeps(p, q, f, ses);
    } else if ses.action.Bootstrap? {
      DecideBootstrapKeeps(p, q, f, ses);
    } else {
      DecideAuthorizedKeeps(p, q, f, ses);
    }
  }

  lemma DecideBootstrapKeeps(p: Option<Policy>, q: Option<Policy>, f: Facts, ses: Session)
    requires ses.action.Bootstrap? && !ses.pc.Bumping? && !ses.pc.Committing?
    requires Knows(p, ses) && !ses.pc.Done?
    requires ActAll(p, ses.writes) == Becomes(q) && Agrees(f, q, ses.action)
    ensures TurnKeeps(p, q, ses, Decide(f, ses.action, ses.pc))
  {
    match ses.pc {
      case Founding => FoundKeeps(p, q, f, ses);
      case FoundingRole => FoundRoleKeeps(p, q, f, ses);
      case FoundingGrants(_) => SeedKeeps(p, q, ses);
      case FoundingBinding => FoundBindingKeeps(p, q, f, ses);
      case Reading => RepeatKeeps(p, q, f, ses);
      case Verifying(_) => RepeatKeeps(p, q, f, ses);
      case _ =>
    }
  }

  lemma DecideAuthorizedKeeps(p: Option<Policy>, q: Option<Policy>, f: Facts, ses: Session)
    requires !ses.action.Bootstrap? && !ses.pc.Bumping? && !ses.pc.Committing?
    requires Knows(p, ses) && !ses.pc.Done?
    requires ActAll(p, ses.writes) == Becomes(q) && Agrees(f, q, ses.action)
    ensures TurnKeeps(p, q, ses, Decide(f, ses.action, ses.pc))
  {
    match ses.pc {
      case Opening => OpenKeeps(p, q, f, ses);
      case Authorizing(_) => OpenKeeps(p, q, f, ses);
      case InsertingRole => CreateKeeps(p, q, f, ses);
      case Inspecting(_) => InspectKeeps(p, q, f, ses);
      case Comparing(_) => CompareKeeps(p, q, f, ses);
      case Clearing => ClearKeeps(p, ses);
      case Granting(_) => GrantKeeps(p, q, ses);
      case Removing => RemoveKeeps(p, q, f, ses);
      case Assigning(_) => AssignKeeps(p, q, f, ses);
      case Checking(_, _) => RevokeKeeps(p, q, f, ses);
      case Counting => RevokeKeeps(p, q, f, ses);
      case Unbinding => UnbindKeeps(p, q, f, ses);
      case _ =>
    }
  }

  lemma BumpKeeps(p: Option<Policy>, q: Option<Policy>, f: Facts, ses: Session)
    requires Knows(p, ses) && ses.pc.Bumping?
    requires ActAll(p, ses.writes) == Becomes(q) && Agrees(f, q, ses.action)
    ensures TurnKeeps(p, q, ses, Decide(f, ses.action, ses.pc))
  {
    var target := Judge(p, ses.action).policy;
    ActOneMore(p, ses.writes, BumpRevision);
    BumpedIsApplied(p, ses.action, target);
    assert Decide(f, ses.action, ses.pc) == Issue(BumpRevision, Committing(Mutation(true, target.revision + 1)));
  }

  lemma BumpedIsApplied(p: Option<Policy>, a: Action, target: Policy)
    requires Judge(p, a) == Change(target)
    ensures if Act(Some(target), BumpRevision).Violation? then Apply(p, a) == (p, Failed(DatabaseFailure))
            else Apply(p, a) == (Act(Some(target), BumpRevision).policy, Accepted(Mutation(true, target.revision + 1)))
  {
  }

  lemma CommitKeeps(p: Option<Policy>, q: Option<Policy>, f: Facts, ses: Session)
    requires Knows(p, ses) && ses.pc.Committing?
    ensures TurnKeeps(p, q, ses, Decide(f, ses.action, ses.pc))
  {
  }

  lemma FoundKeeps(p: Option<Policy>, q: Option<Policy>, f: Facts, ses: Session)
    requires Knows(p, ses) && ses.pc.Founding?
    requires ActAll(p, ses.writes) == Becomes(q) && Agrees(f, q, ses.action)
    ensures TurnKeeps(p, q, ses, Decide(f, ses.action, ses.pc))
  {
    if p.None? {
      AbsentScopeFounded(ses);
      assert Decide(f, ses.action, ses.pc) == Issue(InsertScope(ses.action.subject), FoundingRole);
    } else {
      assert Decide(f, ses.action, ses.pc) == Goto(Reading);
    }
  }

  lemma AbsentScopeFounded(ses: Session)
    requires Knows(None, ses) && ses.pc.Founding?
    ensures var w := InsertScope(ses.action.subject);
            Act(None, w).Becomes? && Knows(None, ses.(pc := FoundingRole, writes := ses.writes + [w]))
  {
    ActOneMore(None, ses.writes, InsertScope(ses.action.subject));
  }

  lemma FoundRoleKeeps(p: Option<Policy>, q: Option<Policy>, f: Facts, ses: Session)
    requires Knows(p, ses) && ses.pc.FoundingRole?
    requires ActAll(p, ses.writes) == Becomes(q) && Agrees(f, q, ses.action)
    ensures TurnKeeps(p, q, ses, Decide(f, ses.action, ses.pc))
  {
    ActOneMore(p, ses.writes, InsertRole(BOOTSTRAP_ROLE_ID, BOOTSTRAP_ROLE_NAME, true));
  }

  lemma FoundBindingKeeps(p: Option<Policy>, q: Option<Policy>, f: Facts, ses: Session)
    requires Knows(p, ses) && ses.pc.FoundingBinding?
    requires ActAll(p, ses.writes) == Becomes(q) && Agrees(f, q, ses.action)
    ensures TurnKeeps(p, q, ses, Decide(f, ses.action, ses.pc))
  {
    var subject := ses.action.subject;
    var w := InsertBinding(subject, BOOTSTRAP_ROLE_ID);
    SeededBound(subject);
    ActOneMore(p, ses.writes, w);
    assert Judge(p, ses.action) == Change(InitialPolicy(subject));
    assert Decide(f, ses.action, ses.pc) == Issue(w, Bumping);
    assert Knows(p, ses.(pc := Bumping, writes := ses.writes + [w]));
  }

  lemma SeededBound(subject: string)
    ensures Act(Some(Seeded(subject, {ROLES_MANAGE, BINDINGS_MANAGE})), InsertBinding(subject, BOOTSTRAP_ROLE_ID))
            == Becomes(Some(InitialPolicy(subject)))
  {
    var founder := Binding(subject, BOOTSTRAP_ROLE_ID);
    assert {} + {founder} == {founder};
  }

  lemma RepeatKeeps(p: Option<Policy>, q: Option<Policy>, f: Facts, ses: Session)
    requires Knows(p, ses) && (ses.pc.Reading? || ses.pc.Verifying?)
    requires ActAll(p, ses.writes) == Becomes(q) && Agrees(f, q, ses.action)
    ensures TurnKeeps(p, q, ses, Decide(f, ses.action, ses.pc))
  {
  }

  lemma OpenKeeps(p: Option<Policy>, q: Option<Policy>, f: Facts, ses: Session)
    requires Knows(p, ses) && (ses.pc.Opening? || ses.pc.Authorizing?)
    requires ActAll(p, ses.writes) == Becomes(q) && Agrees(f, q, ses.action)
    ensures TurnKeeps(p, q, ses, Decide(f, ses.action, ses.pc))
  {
  }

  lemma InspectKeeps(p: Option<Policy>, q: Option<Policy>, f: Facts, ses: Session)
    requires Knows(p, ses) && ses.pc.Inspecting?
    requires ActAll(p, ses.writes) == Becomes(q) && Agrees(f, q, ses.action)
    ensures TurnKeeps(p, q, ses, Decide(f, ses.action, ses.pc))
  {
  }

  lemma CompareKeeps(p: Option<Policy>, q: Option<Policy>, f: Facts, ses: Session)
    requires Knows(p, ses) && ses.pc.Comparing?
    requires ActAll(p, ses.writes) == Becomes(q) && Agrees(f, q, ses.action)
    ensures TurnKeeps(p, q, ses, Decide(f, ses.action, ses.pc))
  {
  }

  lemma CreateKeeps(p: Option<Policy>, q: Option<Policy>, f: Facts, ses: Session)
    requires Knows(p, ses) && ses.pc.InsertingRole?
    requires ActAll(p, ses.writes) == Becomes(q) && Agrees(f, q, ses.action)
    ensures TurnKeeps(p, q, ses, Decide(f, ses.action, ses.pc))
  {
    ActOneMore(p, ses.writes, InsertRole(ses.action.role, ses.action.name, false));
  }

  lemma RemoveKeeps(p: Option<Policy>, q: Option<Policy>, f: Facts, ses: Session)
    requires Knows(p, ses) && ses.pc.Removing?
    requires ActAll(p, ses.writes) == Becomes(q) && Agrees(f, q, ses.action)
    ensures TurnKeeps(p, q, ses, Decide(f, ses.action, ses.pc))
  {
  }

  lemma UnbindKeeps(p: Option<Policy>, q: Option<Policy>, f: Facts, ses: Session)
    requires Knows(p, ses) && ses.pc.Unbinding?
    requires ActAll(p, ses.writes) == Becomes(q) && Agrees(f, q, ses.action)
    ensures TurnKeeps(p, q, ses, Decide(f, ses.action, ses.pc))
  {
    ActOneMore(p, ses.writes, DeleteBinding(ses.action.subject, ses.action.role));
  }

  lemma AssignKeeps(p: Option<Policy>, q: Option<Policy>, f: Facts, ses: Session)
    requires Knows(p, ses) && ses.pc.Assigning?
    requires ActAll(p, ses.writes) == Becomes(q) && Agrees(f, q, ses.action)
    ensures TurnKeeps(p, q, ses, Decide(f, ses.action, ses.pc))
  {
    ActOneMore(p, ses.writes, InsertBinding(ses.action.subject, ses.action.role));
  }

  lemma RevokeKeeps(p: Option<Policy>, q: Option<Policy>, f: Facts, ses: Session)
    requires Knows(p, ses) && (ses.pc.Checking? || ses.pc.Counting?)
    requires ActAll(p, ses.writes) == Becomes(q) && Agrees(f, q, ses.action)
    ensures TurnKeeps(p, q, ses, Decide(f, ses.action, ses.pc))
  {
  }

  /** What replacing the grants of a role amounts to. */
  lemma SetVerdict(p: Option<Policy>, a: Action)
    requires a.SetPermissions? && Judge(p, a).Change?
    ensures p.Some? && a.role in p.value.roles
    ensures Judge(p, a).policy == WithGrants(p.value, a.role, a.permissions)
  {
  }

  lemma ClearKeeps(p: Option<Policy>, ses: Session)
    requires Knows(p, ses) && ses.pc.Clearing?
    ensures var w := DeleteGrants(ses.action.role);
            && Act(p, w).Becomes?
            && Knows(p, ses.(pc := NextGrant(Sorted(ses.action.permissions)), writes := ses.writes + [w]))
  {
    var a := ses.action;
    SetVerdict(p, a);
    Cleared(p, a.role);
    SortedIsAscending(a.permissions);
    var list := Sorted(a.permissions);
    assert Elements(list) == a.permissions;
    assert a.permissions - a.permissions == {};
    assert [] + [DeleteGrants(a.role)] == [DeleteGrants(a.role)];
    if list == [] {
      assert a.permissions == {};
    }
  }

  lemma Cleared(p: Option<Policy>, r: string)
    requires p.Some? && r in p.value.roles
    ensures Act(p, DeleteGrants(r)) == Becomes(Some(WithGrants(p.value, r, {})))
    ensures ActAll(p, [DeleteGrants(r)]) == Becomes(Some(WithGrants(p.value, r, {})))
  {
  }

  // The grants inserted so far, before and after the next one.
  lemma OneGrantLess(all: set<string>, rest: seq<string>)
    requires rest != [] && Ascending(rest) && Elements(rest) <= all
    ensures all - Elements(rest[1..]) == all - Elements(rest) + {rest[0]}
    ensures rest[0] !in all - Elements(rest) && Elements(rest[1..]) <= all && Ascending(rest[1..])
    ensures rest[1..] == [] ==> all - Elements(rest[1..]) == all
  {
    NotInTail(rest);
    assert rest == [rest[0]] + rest[1..];
    assert Elements(rest) == {rest[0]} + Elements(rest[1..]);
  }

  lemma GrantKeeps(p: Option<Policy>, q: Option<Policy>, ses: Session)
    requires Knows(p, ses) && ses.pc.Granting? && ActAll(p, ses.writes) == Becomes(q)
    ensures var w := InsertGrants(ses.action.role, {ses.pc.rest[0]});
            && Act(q, w).Becomes?
            && Knows(p, ses.(pc := NextGrant(ses.pc.rest[1..]), writes := ses.writes + [w]))
  {
    var a, rest := ses.action, ses.pc.rest;
    OneGrantLess(a.permissions, rest);
    SetVerdict(p, a);
    ActOneMore(p, ses.writes, InsertGrants(a.role, {rest[0]}));
    var done, now := a.permissions - Elements(rest), a.permissions - Elements(rest[1..]);
    Granted(WithGrants(p.value, a.role, done), WithGrants(p.value, a.role, now), a.role, {rest[0]});
  }

  lemma SeedKeeps(p: Option<Policy>, q: Option<Policy>, ses: Session)
    requires Knows(p, ses) && ses.pc.FoundingGrants? && ActAll(p, ses.writes) == Becomes(q)
    ensures var rest := ses.pc.rest;
            var w := InsertGrants(BOOTSTRAP_ROLE_ID, {rest[0]});
            && Act(q, w).Becomes?
            && Knows(p, ses.(pc := if |rest| == 1 then FoundingBinding else FoundingGrants(rest[1..]),
                             writes := ses.writes + [w]))
  {
    ManagePermissionsDiffer();
    var subject, rest := ses.action.subject, ses.pc.rest;
    var done := if |rest| == 2 then {} else {ROLES_MANAGE};
    ActOneMore(p, ses.writes, InsertGrants(BOOTSTRAP_ROLE_ID, {rest[0]}));
    Granted(Seeded(subject, done), Seeded(subject, done + {rest[0]}), BOOTSTRAP_ROLE_ID, {rest[0]});
    assert {} + {ROLES_MANAGE} == {ROLES_MANAGE};
    assert {ROLES_MANAGE} + {BINDINGS_MANAGE} == {ROLES_MANAGE, BINDINGS_MANAGE};
    assert |rest| == 2 ==> rest[1..] == [BINDINGS_MANAGE];
  }

  /** A session whose knowledge holds still knows what it needs after its next statement. */
  lemma AdvanceKnows(t: Tables, ses: Session)
    requires Schema(t) && Knows(Lookup(t, ses.scope), ses) && !ses.pc.Done?
    ensures Progresses(Lookup(t, ses.scope), ses, Advance(t, ses))
  {
    PutAllActs(t, ses.scope, ses.writes);
    MadeSomething(Lookup(t, ses.scope), ses);
    var v := PutAll(t, ses.scope, ses.writes).value;
    var f := Read(v, ses.scope, ses.action);
    ReadAgrees(v, ses.scope, ses.action);
    DecideKeeps(Lookup(t, ses.scope), Lookup(v, ses.scope), f, ses);
    TakeProgresses(Lookup(t, ses.scope), v, ses, Decide(f, ses.action, ses.pc));
  }

  lemma MadeSomething(p: Option<Policy>, ses: Session)
    requires Knows(p, ses)
    ensures ActAll(p, ses.writes).Becomes?
  {
  }

  lemma TakeProgresses(p: Option<Policy>, v: Tables, ses: Session, turn: Turn)
    requires Schema(v) && TurnKeeps(p, Lookup(v, ses.scope), ses, turn)
    ensures Progresses(p, ses, Take(v, ses, turn))
  {
    if turn.Issue? {
      PutActs(v, ses.scope, turn.write);
    }
  }

  lemma AloneTurns(t: Tables, ses: Session)
    requires !ses.pc.Done? && !ses.pc.Committing?
    ensures Alone(t, ses) == Alone(t, Advance(t, ses))
  {
  }

  lemma AloneCommits(t: Tables, ses: Session)
    requires Schema(t) && Knows(Lookup(t, ses.scope), ses) && ses.pc.Committing?
    ensures var (u, reply) := Alone(t, ses);
            && Schema(u)
            && View(u) == Store(View(t), ses.scope, Apply(Lookup(t, ses.scope), ses.action).0)
            && reply == Apply(Lookup(t, ses.scope), ses.action).1
  {
    PutAllActs(t, ses.scope, ses.writes);
  }

  lemma NothingStored(t: Tables, s: ScopeKey, a: Action)
    requires Schema(t) && !Apply(Lookup(t, s), a).1.Accepted?
    ensures View(t) == Store(View(t), s, Apply(Lookup(t, s), a).0)
  {
    PutAllActs(t, s, []);
  }

  /** Undisturbed, every operation is the abstract step, reply included. */
  lemma {:induction false} AloneIsApply(t: Tables, ses: Session)
    requires Schema(t) && Knows(Lookup(t, ses.scope), ses) && !ses.pc.Done?
    ensures var (u, reply) := Alone(t, ses);
            && Schema(u)
            && View(u) == Store(View(t), ses.scope, Apply(Lookup(t, ses.scope), ses.action).0)
            && reply == Apply(Lookup(t, ses.scope), ses.action).1
    decreases Remaining(ses)
  {
    if ses.pc.Committing? {
      AloneCommits(t, ses);
    } else {
      AdvanceKnows(t, ses);
      StatementsRunOut(t, ses);
      AloneTurns(t, ses);
      var next := Advance(t, ses);
      if next.pc.Done? {
        assert Alone(t, next) == (t, next.pc.reply);
        NothingStored(t, ses.scope, ses.action);
      } else {
        AloneIsApply(t, next);
      }
    }
  }
}
