/** The vocabulary shared by every layer: scopes, roles, bindings, the six administration
    operations and their replies, and `Apply`, the single abstract step that both backends
    must implement atomically. */
module AccessPolicy {

  datatype Option<+T> = None | Some(value: T)

  const BOOTSTRAP_ROLE_ID := "access-control.bootstrap-admin"
  const BOOTSTRAP_ROLE_NAME := "Bootstrap administrator"
  const ROLES_MANAGE := "access-control.roles.manage"
  const BINDINGS_MANAGE := "access-control.bindings.manage"

  // The largest value of a signed 64-bit revision column.
  const MAX_REVISION: int := 0x7fff_ffff_ffff_ffff

  datatype ScopeKey = ScopeKey(kind: string, id: string)

  datatype Role = Role(name: string, protected: bool, permissions: set<string>)

  datatype Binding = Binding(subject: string, role: string)

  datatype Policy = Policy(bootstrapSubject: string, revision: int,
                           roles: map<string, Role>, bindings: set<Binding>)

  type Policies = map<ScopeKey, Policy>

  datatype Action =
    | Bootstrap(subject: string)
    | CreateRole(actor: string, role: string, name: string)
    | SetPermissions(actor: string, role: string, permissions: set<string>)
    | DeleteRole(actor: string, role: string)
    | AssignRole(actor: string, subject: string, role: string)
    | RevokeRole(actor: string, subject: string, role: string)
  {
    /** The grant an actor needs for this operation. */
    function Needs(): string
    {
      if AssignRole? || RevokeRole? then BINDINGS_MANAGE else ROLES_MANAGE
    }
  }

  datatype DomainFailure =
    | Forbidden
    | ScopeAlreadyBootstrapped
    | ScopeNotBootstrapped
    | RoleAlreadyExists
    | RoleNotFound
    | ProtectedRole
    | ProtectedBinding

  // `changed` is also the `created` flag of a bootstrap.
  datatype Mutation = Mutation(changed: bool, revision: int)

  // A storage failure carries no domain answer: either the database refused or lost the
  // transaction, or it holds a policy that the operation does not accept.
  datatype StoreError = DatabaseFailure | InvalidStoredState

  datatype Reply =
    | Accepted(mutation: Mutation)
    | Rejected(failure: DomainFailure)
    | Failed(error: StoreError)

  /** The subjects bound to a role. */
  function Holders(p: Policy, role: string): set<string>
  {
    set b | b in p.bindings && b.role == role :: b.subject
  }

  /** Allow-only union: some bound role grants the permission. */
  predicate Holds(p: Policy, subject: string, permission: string)
  {
    exists b :: b in p.bindings && b.subject == subject && b.role in p.roles
                && permission in p.roles[b.role].permissions
  }

  function BootstrapRole(): Role
  {
    Role(BOOTSTRAP_ROLE_NAME, true, {ROLES_MANAGE, BINDINGS_MANAGE})
  }

  /** What a bootstrap writes, before its revision is advanced. */
  function InitialPolicy(subject: string): Policy
  {
    Policy(subject, 0, map[BOOTSTRAP_ROLE_ID := BootstrapRole()], {Binding(subject, BOOTSTRAP_ROLE_ID)})
  }

  /** The bootstrap policy still stands: the protected role is there, somebody holds it, and
      it grants both manage permissions. */
  predicate BootstrapStands(p: Policy)
  {
    && BOOTSTRAP_ROLE_ID in p.roles
    && p.roles[BOOTSTRAP_ROLE_ID].protected
    && Holders(p, BOOTSTRAP_ROLE_ID) != {}
    && {ROLES_MANAGE, BINDINGS_MANAGE} <= p.roles[BOOTSTRAP_ROLE_ID].permissions
  }

  // What an operation decides to do with the policy of its scope.
  datatype Verdict =
    | Deny(failure: DomainFailure)
    | Corrupt
    | Keep
    | Change(policy: Policy)

  function Judge(current: Option<Policy>, action: Action): Verdict
  {
    if action.Bootstrap? then
      JudgeBootstrap(current, action.subject)
    else if current.None? then
      Deny(ScopeNotBootstrapped)
    else if !Holds(current.value, action.actor, action.Needs()) then
      Deny(Forbidden)
    else
      JudgeAuthorized(current.value, action)
  }

  function JudgeBootstrap(current: Option<Policy>, subject: string): Verdict
  {
    match current
    case None => Change(InitialPolicy(subject))
    case Some(p) =>
      if p.bootstrapSubject != subject then Deny(ScopeAlreadyBootstrapped)
      else if BootstrapStands(p) then Keep
      else Corrupt
  }

  function JudgeAuthorized(p: Policy, action: Action): Verdict
    requires !action.Bootstrap?
  {
    if action.CreateRole? then
      if action.role in p.roles then Deny(RoleAlreadyExists)
      else Change(p.(roles := p.roles[action.role := Role(action.name, false, {})]))
    else if action.role !in p.roles then
      Deny(RoleNotFound)
    else
      var role := p.roles[action.role];
      match action
      case SetPermissions(_, id, permissions) =>
        if role.protected then Deny(ProtectedRole)
        else if role.permissions == permissions then Keep
        else Change(p.(roles := p.roles[id := role.(permissions := permissions)]))
      case DeleteRole(_, id) =>
        if role.protected then Deny(ProtectedRole)
        else Change(WithoutRole(p, id))
      case AssignRole(_, subject, id) =>
        if Binding(subject, id) in p.bindings then Keep
        else Change(p.(bindings := p.bindings + {Binding(subject, id)}))
      case RevokeRole(_, subject, id) =>
        if Binding(subject, id) !in p.bindings then Keep
        else if role.protected && Holders(p, id) == {subject} then Deny(ProtectedBinding)
        else Change(p.(bindings := p.bindings - {Binding(subject, id)}))
  }

  /** Deleting a role takes its grants and its bindings with it. */
  function WithoutRole(p: Policy, id: string): Policy
  {
    p.(roles := p.roles - {id}, bindings := (set b | b in p.bindings && b.role != id))
  }

  /** One operation on the policy of one scope, all or nothing: an effective change advances
      the revision once, and at the largest revision it fails and changes nothing. */
  function Apply(current: Option<Policy>, action: Action): (Option<Policy>, Reply)
  {
    match Judge(current, action)
    case Deny(failure) => (current, Rejected(failure))
    case Corrupt => (current, Failed(InvalidStoredState))
    case Keep => (current, Accepted(Mutation(false, RevisionOf(current))))
    case Change(p) =>
      if p.revision >= MAX_REVISION then (current, Failed(DatabaseFailure))
      else (Some(p.(revision := p.revision + 1)), Accepted(Mutation(true, p.revision + 1)))
  }

  // A scope that was never bootstrapped reads as revision 0.
  function RevisionOf(current: Option<Policy>): int
  {
    match current case None => 0 case Some(p) => p.revision
  }

  function Find(db: Policies, scope: ScopeKey): Option<Policy>
  {
    if scope in db then Some(db[scope]) else None
  }

  function Store(db: Policies, scope: ScopeKey, p: Option<Policy>): Policies
  {
    match p case None => db - {scope} case Some(q) => db[scope := q]
  }

  lemma ManagePermissionsDiffer()
    ensures ROLES_MANAGE != BINDINGS_MANAGE
  {
    assert ROLES_MANAGE[15] != BINDINGS_MANAGE[15];
  }
}
