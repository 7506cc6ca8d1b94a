/** The core service over any store: who is admitted, what is validated, how store failures are
    reported, and what may therefore be said about everything stored through it. */
module Service {
  import opened AccessPolicy
  import opened PolicyRuns
  import opened Identifiers
  import opened Directory
  import opened DirectoryReads
  import opened RevisionText
  import opened Ordering

  datatype Config = Config(bootstrapCallers: seq<string>, directoryCallers: seq<string>)

  // The calling Instance, and the subject of a verified actor assertion if there is one.
  datatype Context = Context(callerInstance: Option<string>, actor: Option<string>)

  datatype Request =
    | BootstrapScope(subject: string)
    | NewRole(role: string, name: string)
    | ReplacePermissions(role: string, permissions: seq<string>)
    | DropRole(role: string)
    | Assign(subject: string, role: string)
    | Revoke(subject: string, role: string)

  datatype Call = Call(context: Context, scope: ScopeKey, request: Request)

  datatype ErrorCode = Unauthenticated | InvalidRequest | InvalidPage | Reported(failure: DomainFailure)

  datatype Response<+T> = Responded(value: T) | DomainError(code: ErrorCode) | RuntimeError | Panicked

  datatype Outcome = Outcome(changed: bool, revision: string)

  // What becomes of a store operation: it answers, it fails before it has any effect, or it takes
  // its effect and its answer is lost. The service can tell neither failure from the other.
  datatype Fate = Heard | Prevented | Unheard

  datatype Served = Served(call: Call, fate: Fate)

  // ----- Administration -----

  predicate Admits(callers: seq<string>, context: Context)
  {
    context.callerInstance.Some? && context.callerInstance.value in callers
  }

  function AuthenticatedSubject(context: Context): Option<string>
  {
    if context.actor.Some? && ValidSubject(context.actor.value) then context.actor else None
  }

  predicate Admitted(config: Config, c: Call)
  {
    if c.request.BootstrapScope? then Admits(config.bootstrapCallers, c.context)
        else AuthenticatedSubject(c.context).Some?
  }

  function Distinct(permissions: seq<string>): set<string>
  {
    set p | p in permissions
  }

  predicate ValidCall(c: Call)
  {
    ValidScope(c.scope) &&
    match c.request
    case BootstrapScope(subject) => ValidSubject(subject)
    case NewRole(role, name) => ValidRoleId(role) && role != BOOTSTRAP_ROLE_ID && ValidDisplayName(name)
    case ReplacePermissions(role, permissions) =>
      && ValidRoleId(role)
      && |permissions| == |Distinct(permissions)|
      && |Distinct(permissions)| <= MAX_PERMISSIONS_PER_ROLE
      && forall p :: p in Distinct(permissions) ==> ValidPermission(p)
    case DropRole(role) => ValidRoleId(role)
    case Assign(subject, role) => ValidSubject(subject) && ValidRoleId(role)
    case Revoke(subject, role) => ValidSubject(subject) && ValidRoleId(role)
  }

  function ActionOf(c: Call): Action
    requires !c.request.BootstrapScope? ==> AuthenticatedSubject(c.context).Some?
  {
    match c.request
    case BootstrapScope(subject) => Bootstrap(subject)
    case NewRole(role, name) => CreateRole(AuthenticatedSubject(c.context).value, role, name)
    case ReplacePermissions(role, permissions) =>
      SetPermissions(AuthenticatedSubject(c.context).value, role, Distinct(permissions))
    case DropRole(role) => DeleteRole(AuthenticatedSubject(c.context).value, role)
    case Assign(subject, role) => AssignRole(AuthenticatedSubject(c.context).value, subject, role)
    case Revoke(subject, role) => RevokeRole(AuthenticatedSubject(c.context).value, subject, role)
  }

  function MapFailure(request: Request, f: DomainFailure): ErrorCode
  {
    match request
    case BootstrapScope(_) => if f.Forbidden? || f.ScopeAlreadyBootstrapped? then Reported(f) else InvalidRequest
    case NewRole(_, _) => if f.ScopeAlreadyBootstrapped? then InvalidRequest else Reported(f)
    case _ => if f.RoleAlreadyExists? || f.ScopeAlreadyBootstrapped? then InvalidRequest else Reported(f)
  }

  function RevisionString(revision: int): Option<string>
  {
    if revision < 0 then None else Some(Decimal(revision))
  }

  function OutcomeOf(request: Request, reply: Reply): Response<Outcome>
  {
    match reply
    case Failed(_) => RuntimeError
    case Rejected(f) => DomainError(MapFailure(request, f))
    case Accepted(m) =>
      var text := RevisionString(m.revision);
      if text.None? then RuntimeError else Responded(Outcome(m.changed, text.value))
  }

  function StoreReply(db: Policies, c: Command, fate: Fate): (Policies, Reply)
  {
    match fate
    case Heard => Step(db, c)
    case Prevented => (db, Failed(DatabaseFailure))
    case Unheard => (Step(db, c).0, Failed(DatabaseFailure))
  }

  // A call that gets as far as the store.
  predicate Reaches(config: Config, c: Call) { Admitted(config, c) && ValidCall(c) }

  function CommandOf(c: Call): Command
    requires !c.request.BootstrapScope? ==> AuthenticatedSubject(c.context).Some?
  {
    Command(c.scope, ActionOf(c))
  }

  /** What a call is refused with before it gets to the store. */
  function Refusal(config: Config, c: Call): ErrorCode
    requires !Reaches(config, c)
  {
    if Admitted(config, c) then InvalidRequest
    else if c.request.BootstrapScope? then Reported(Forbidden)
    else Unauthenticated
  }

  /** One administration call on the policies of a store. */
  function Administer(config: Config, db: Policies, c: Call, fate: Fate): (Policies, Response<Outcome>)
  {
    if !Reaches(config, c) then (db, DomainError(Refusal(config, c)))
    else
      var (next, reply) := StoreReply(db, CommandOf(c), fate);
      (next, OutcomeOf(c.request, reply))
  }

  function Serve(config: Config, history: seq<Served>): Policies
  {
    if history == [] then map[]
    else
      var last := history[|history|-1];
      Administer(config, Serve(config, history[..|history|-1]), last.call, last.fate).0
  }

  function Responses(config: Config, history: seq<Served>): (rs: seq<Response<Outcome>>)
    ensures |rs| == |history|
  {
    if history == [] then []
    else
      var init, last := history[..|history|-1], history[|history|-1];
      Responses(config, init) + [Administer(config, Serve(config, init), last.call, last.fate).1]
  }

  predicate TakesEffect(config: Config, s: Served) { Reaches(config, s.call) && s.fate != Prevented }

  /** The store operations that were executed for the calls of a history, in order. */
  function Executed(config: Config, history: seq<Served>): seq<Command>
  {
    if history == [] then []
    else
      var last := history[|history|-1];
      Executed(config, history[..|history|-1]) + (if TakesEffect(config, last) then [CommandOf(last.call)] else [])
  }

  /** Everything served is the run of exactly the admitted, valid calls that got through to the
      store, in order, whether or not the service heard back; so what holds of every run holds
      here. */
  lemma {:induction false} ServedIsRun(config: Config, history: seq<Served>)
    ensures Serve(config, history) == Run(map[], Executed(config, history))
  {
    if history != [] {
      var init, last := history[..|history|-1], history[|history|-1];
      ServedIsRun(config, init);
      if TakesEffect(config, last) {
        RunExtends(map[], Executed(config, init), CommandOf(last.call));
      } else {
        assert Executed(config, history) == Executed(config, init);
      }
    }
  }

  lemma {:induction false} ExecutedPrefix(config: Config, history: seq<Served>, i: nat)
    requires i <= |history|
    ensures Executed(config, history[..i]) <= Executed(config, history)
  {
    if i == |history| {
      assert history[..i] == history;
    } else {
      assert history[..|history|-1][..i] == history[..i];
      ExecutedPrefix(config, history[..|history|-1], i);
    }
  }

  lemma {:induction false} ResponseAt(config: Config, history: seq<Served>, i: nat)
    requires i < |history|
    ensures Responses(config, history)[i]
            == Administer(config, Serve(config, history[..i]), history[i].call, history[i].fate).1
  {
    if i < |history| - 1 {
      assert history[..|history|-1][..i] == history[..i];
      ResponseAt(config, history[..|history|-1], i);
    }
  }

  /** The response to a call that the store answered is the reply that the run of `ServedIsRun`
      gives to that call's own command. */
  lemma ResponsesAreReplies(config: Config, history: seq<Served>, i: nat)
    requires i < |history| && Reaches(config, history[i].call) && history[i].fate == Heard
    ensures var cs, k := Executed(config, history), |Executed(config, history[..i])|;
            && k < |cs| && cs[k] == CommandOf(history[i].call)
            && Responses(config, history)[i] == OutcomeOf(history[i].call.request, Replies(map[], cs)[k])
  {
    var cs, before := Executed(config, history), Executed(config, history[..i]);
    assert history[..i+1][..i] == history[..i];
    assert Executed(config, history[..i+1]) == before + [CommandOf(history[i].call)];
    ExecutedPrefix(config, history, i + 1);
    assert cs[..|before|] == before;
    ServedIsRun(config, history[..i]);
    ResponseAt(config, history, i);
    ReplyAt(map[], cs, |before|);
  }

  // ----- Everything stored is valid -----

  ghost predicate ValidRole(role: Role)
  {
    && ValidDisplayName(role.name)
    && |role.permissions| <= MAX_PERMISSIONS_PER_ROLE
    && forall p :: p in role.permissions ==> ValidPermission(p)
  }

  ghost predicate ValidPolicy(p: Policy)
  {
    && ValidSubject(p.bootstrapSubject)
    && (forall r :: r in p.roles ==> ValidRoleId(r) && ValidRole(p.roles[r]))
    && (forall b :: b in p.bindings ==> ValidSubject(b.subject) && ValidRoleId(b.role))
  }

  ghost predicate AllValid(db: Policies)
  {
    forall s :: s in db ==> ValidScope(s) && ValidPolicy(db[s])
  }

  // Neither white space nor a control character, and one byte long.
  predicate PlainChar(c: char) { 0x20 < c as int < 0x7F }

  predicate PlainOrSpace(s: string) { forall i :: 0 <= i < |s| ==> PlainChar(s[i]) || s[i] == ' ' }

  lemma PlainNameIsValid(name: string)
    requires 1 <= |name| <= MAX_ROLE_NAME_BYTES && PlainOrSpace(name)
    requires PlainChar(name[0]) && PlainChar(name[|name|-1])
    ensures ValidDisplayName(name)
  {
    assert !Padded(name);
    UnpaddedIsTrimmed(name);
    assert Ascii(name);
    AsciiByteLength(name);
  }

  lemma BootstrapNameIsValid()
    ensures ValidDisplayName(BOOTSTRAP_ROLE_NAME)
  {
    assert PlainOrSpace(BOOTSTRAP_ROLE_NAME);
    PlainNameIsValid(BOOTSTRAP_ROLE_NAME);
  }

  lemma InitialPolicyIsValid(subject: string)
    requires ValidSubject(subject)
    ensures ValidPolicy(InitialPolicy(subject))
  {
    BootstrapNameIsValid();
    BootstrapRoleIdIsValid();
    RolesManageIsValid();
    BindingsManageIsValid();
  }

  // What one operation may add to a valid policy.
  ghost predicate ExtendsValidly(p: Policy, q: Policy)
  {
    && q.bootstrapSubject == p.bootstrapSubject
    && (forall r :: r in q.roles ==>
       (r in p.roles && q.roles[r] == p.roles[r]) || (ValidRoleId(r) && ValidRole(q.roles[r])))
    && (forall b :: b in q.bindings ==> b in p.bindings || (ValidSubject(b.subject) && ValidRoleId(b.role)))
  }

  lemma ExtensionIsValid(p: Policy, q: Policy)
    requires ValidPolicy(p) && ExtendsValidly(p, q)
    ensures ValidPolicy(q)
  {
  }

  lemma NewContentIsValid(p: Policy, config: Config, c: Call)
    requires Admitted(config, c) && ValidCall(c) && !c.request.BootstrapScope? && ValidPolicy(p)
    requires JudgeAuthorized(p, ActionOf(c)).Change?
    ensures ExtendsValidly(p, JudgeAuthorized(p, ActionOf(c)).policy)
  {
    var q := JudgeAuthorized(p, ActionOf(c)).policy;
    match c.request {
      case NewRole(role, _) =>
        assert ValidRole(q.roles[role]);
      case ReplacePermissions(role, _) =>
        assert ValidRole(p.roles[role]);
        assert ValidRole(q.roles[role]);
      case _ =>
    }
  }

  lemma BootstrapVerdictIsValid(p: Option<Policy>, subject: string)
    requires ValidSubject(subject) && JudgeBootstrap(p, subject).Change?
    ensures ValidPolicy(JudgeBootstrap(p, subject).policy)
  {
    InitialPolicyIsValid(subject);
  }

  lemma VerdictIsValid(p: Option<Policy>, config: Config, c: Call)
    requires Admitted(config, c) && ValidCall(c) && (p.Some? ==> ValidPolicy(p.value))
    ensures Judge(p, ActionOf(c)).Change? ==> ValidPolicy(Judge(p, ActionOf(c)).policy)
  {
    if Judge(p, ActionOf(c)).Change? {
      if c.request.BootstrapScope? {
        BootstrapVerdictIsValid(p, c.request.subject);
      } else {
        NewContentIsValid(p.value, config, c);
        ExtensionIsValid(p.value, Judge(p, ActionOf(c)).policy);
      }
    }
  }

  lemma ApplyFollowsVerdict(p: Option<Policy>, a: Action)
    ensures Apply(p, a).0 == p
            || (Judge(p, a).Change?
               && Apply(p, a).0 == Some(Judge(p, a).policy.(revision := Judge(p, a).policy.revision + 1)))
  {
  }

  lemma AdvancedIsValid(q: Policy)
    requires ValidPolicy(q)
    ensures ValidPolicy(q.(revision := q.revision + 1))
  {
  }

  lemma ApplyKeepsValid(p: Option<Policy>, config: Config, c: Call)
    requires Admitted(config, c) && ValidCall(c) && (p.Some? ==> ValidPolicy(p.value))
    ensures var q := Apply(p, ActionOf(c)).0; q.Some? ==> ValidPolicy(q.value)
  {
    var a := ActionOf(c);
    VerdictIsValid(p, config, c);
    ApplyFollowsVerdict(p, a);
    if Judge(p, a).Change? {
      AdvancedIsValid(Judge(p, a).policy);
    }
  }

  lemma StoreKeepsValid(db: Policies, scope: ScopeKey, q: Option<Policy>)
    requires AllValid(db) && ValidScope(scope) && (q.Some? ==> ValidPolicy(q.value))
    ensures AllValid(Store(db, scope, q))
  {
  }

  lemma AdministerKeepsValid(config: Config, db: Policies, s: Served)
    requires AllValid(db)
    ensures AllValid(Administer(config, db, s.call, s.fate).0)
  {
    if TakesEffect(config, s) {
      var p := Find(db, s.call.scope);
      ApplyKeepsValid(p, config, s.call);
      StoreKeepsValid(db, s.call.scope, Apply(p, ActionOf(s.call)).0);
    }
  }

  /** In every state that calls can reach, each stored scope, subject, role id and permission is
      one that validation accepts, each stored name trims to a valid one, and no role has more
      than 256 permissions. */
  lemma {:induction false} EverythingStoredIsValid(config: Config, history: seq<Served>)
    ensures AllValid(Serve(config, history))
  {
    if history != [] {
      var init, last := history[..|history|-1], history[|history|-1];
      EverythingStoredIsValid(config, init);
      AdministerKeepsValid(config, Serve(config, init), last);
    }
  }

  // ----- Error reports are exact -----

  /** Which failures the step of each operation can answer with. */
  lemma FailuresOfStep(p: Option<Policy>, a: Action)
    requires Apply(p, a).1.Rejected?
    ensures var f := Apply(p, a).1.failure;
            match a
            case Bootstrap(_) => f == ScopeAlreadyBootstrapped
            case CreateRole(_, _, _) => f == ScopeNotBootstrapped || f == Forbidden || f == RoleAlreadyExists
            case AssignRole(_, _, _) => f == ScopeNotBootstrapped || f == Forbidden || f == RoleNotFound
            case RevokeRole(_, _, _) => f == ScopeNotBootstrapped || f == Forbidden
                || f == RoleNotFound || f == ProtectedBinding
            case _ => f == ScopeNotBootstrapped || f == Forbidden || f == RoleNotFound || f == ProtectedRole
  {
  }

  /** `InvalidRequest` is answered exactly to an admitted caller whose input validation rejects,
      never because a store failure fell into a mapping's last arm; every failure of the step
      is reported as itself, if the store's answer arrives. */
  lemma InvalidRequestMeansInvalid(config: Config, db: Policies, c: Call, fate: Fate)
    ensures Administer(config, db, c, fate).1 == DomainError(InvalidRequest) <==> Admitted(config, c) && !ValidCall(c)
    ensures Administer(config, db, c, fate).1 == DomainError(Unauthenticated) <==>
              !c.request.BootstrapScope? && !(c.context.actor.Some? && ValidSubject(c.context.actor.value))
    ensures Reaches(config, c) ==>
              forall f :: fate == Heard && Step(db, CommandOf(c)).1 == Rejected(f)
                          <==> Administer(config, db, c, fate).1 == DomainError(Reported(f))
  {
    if Reaches(config, c) && Apply(Find(db, c.scope), ActionOf(c)).1.Rejected? {
      FailuresOfStep(Find(db, c.scope), ActionOf(c));
    }
  }

  /** What every answer says about the policies, in every reachable state and whatever becomes of
      the store operation. A domain error has changed nothing. A response reports, as canonical
      decimal, the revision at which it left the scope, and whether it changed anything. A
      runtime error has left the old policies or those of the whole step, and it is answered
      exactly when the store's answer did not arrive or the revision would have overflowed. */
  lemma AnswersAreTruthful(config: Config, history: seq<Served>, c: Call, fate: Fate)
    ensures var db := Serve(config, history);
            var (next, response) := Administer(config, db, c, fate);
            && response != Panicked
            && (response.DomainError? ==> next == db)
            && (response.Responded? ==>
                  && c.scope in next
                  && Canonical(response.value.revision)
                  && ParseRevision(response.value.revision) == Some(next[c.scope].revision)
                  && (response.value.changed <==> next != db))
            && (response.RuntimeError? ==> Reaches(config, c) && (next == db || next == Step(db, CommandOf(c)).0))
            && (response.RuntimeError? <==>
                  Reaches(config, c) && (fate != Heard || (Overflows(db, CommandOf(c)) && next == db)))
  {
    if Reaches(config, c) {
      var db := Serve(config, history);
      ReachableSound(config, history);
      StepIsTruthful(db, CommandOf(c));
      var reply := Step(db, CommandOf(c)).1;
      if reply.Accepted? {
        RevisionRoundTrip(reply.mutation.revision, "");
      }
    }
  }

  // An effective operation at the largest revision.
  predicate Overflows(db: Policies, c: Command)
  {
    Judge(Find(db, c.scope), c.action).Change? && RevisionOf(Find(db, c.scope)) == MAX_REVISION
  }

  lemma ReachableSound(config: Config, history: seq<Served>)
    ensures AllSound(Serve(config, history))
  {
    ServedIsRun(config, history);
    RunKeepsSound(map[], Executed(config, history));
  }

  lemma ApplyIsTruthful(p: Option<Policy>, a: Action)
    requires p.Some? ==> Sound(p.value)
    ensures var (q, reply) := Apply(p, a);
            && (!reply.Accepted? ==> q == p)
            && (reply.Failed? <==> Judge(p, a).Change? && RevisionOf(p) == MAX_REVISION)
            && (reply.Accepted? ==>
                  && q.Some? && reply.mutation.revision == q.value.revision && 0 <= q.value.revision <= MAX_REVISION
                  && (reply.mutation.changed <==> q != p))
  {
    RevisionMovesWithContent(p, a);
    SoundFailsOnlyOnOverflow(p, a);
    ApplyKeepsSound(p, a);
  }

  lemma StoreMoves(db: Policies, scope: ScopeKey, q: Option<Policy>)
    ensures Store(db, scope, q) == db <==> q == Find(db, scope)
    ensures Find(Store(db, scope, q), scope) == q
  {
    assert Find(Store(db, scope, q), scope) == q;
  }

  lemma StepIsTruthful(db: Policies, c: Command)
    requires AllSound(db)
    ensures var (next, reply) := Step(db, c);
            && (!reply.Accepted? ==> next == db)
            && (reply.Failed? <==> Overflows(db, c))
            && (reply.Accepted? ==>
                  && c.scope in next && reply.mutation.revision == next[c.scope].revision
                  && 0 <= reply.mutation.revision <= MAX_REVISION
                  && (reply.mutation.changed <==> next != db))
  {
    ApplyIsTruthful(Find(db, c.scope), c.action);
    StoreMoves(db, c.scope, Apply(Find(db, c.scope), c.action).0);
  }

  // ----- Repeating a call after a runtime error -----

  /** The policies after the same call was made again and again. */
  function Repeated(config: Config, db: Policies, c: Call, fates: seq<Fate>): Policies
  {
    if fates == [] then db
    else Administer(config, Repeated(config, db, c, fates[..|fates|-1]), c, fates[|fates|-1]).0
  }

  /** However often a call is repeated, and whatever becomes of each attempt, it takes effect once:
      as soon as one attempt gets through to the store, the policies are those of one step. */
  lemma {:induction false} RepeatedActsOnce(config: Config, db: Policies, c: Call, fates: seq<Fate>)
    ensures Repeated(config, db, c, fates) ==
              if Reaches(config, c)
                  && (exists i :: 0 <= i < |fates| && fates[i] != Prevented) then Step(db, CommandOf(c)).0
              else db
  {
    if fates != [] {
      var init, last := fates[..|fates|-1], fates[|fates|-1];
      RepeatedActsOnce(config, db, c, init);
      assert fates == init + [last];
      if Reaches(config, c) {
        StepTwice(db, CommandOf(c));
        if i :| 0 <= i < |init| && init[i] != Prevented {
          assert fates[i] != Prevented;
        }
      }
    }
  }

  /** What a call answers whose effect is already there. */
  function RepeatAnswer(p: Policy, c: Call): Response<Outcome>
    requires p.revision >= 0 && (c.request.BootstrapScope? || c.context.actor.Some?)
  {
    var noChange := Responded(Outcome(false, Decimal(p.revision)));
    match c.request
    case BootstrapScope(_) => noChange
    case Assign(_, _) => noChange
    case ReplacePermissions(_, _) =>
      if Holds(p, c.context.actor.value, ROLES_MANAGE) then noChange else DomainError(Reported(Forbidden))
    case Revoke(_, _) =>
      if Holds(p, c.context.actor.value, BINDINGS_MANAGE) then noChange else DomainError(Reported(Forbidden))
    case NewRole(_, _) => DomainError(Reported(RoleAlreadyExists))
    case DropRole(_) =>
      DomainError(Reported(if Holds(p, c.context.actor.value, ROLES_MANAGE) then RoleNotFound else Forbidden))
  }

  lemma RepeatedStepAnswers(p: Option<Policy>, config: Config, c: Call)
    requires Reaches(config, c) && Apply(p, ActionOf(c)).1.Accepted?
    ensures var q := Apply(p, ActionOf(c)).0;
            q.Some? && (q.value.revision >= 0 ==>
                OutcomeOf(c.request, Apply(q, ActionOf(c)).1) == RepeatAnswer(q.value, c))
  {
    RetryIsSafe(p, ActionOf(c));
  }

  lemma EffectIsAccepted(db: Policies, c: Command)
    requires AllSound(db) && Step(db, c).0 != db
    ensures Apply(Find(db, c.scope), c.action).1.Accepted?
    ensures Find(Step(db, c).0, c.scope) == Apply(Find(db, c.scope), c.action).0
    ensures c.scope in Step(db, c).0 && Step(db, c).0[c.scope].revision >= 0
  {
    StepIsTruthful(db, c);
    StoreMoves(db, c.scope, Apply(Find(db, c.scope), c.action).0);
  }

  /** What the repeated call answers when it is heard after an attempt that had its effect and
      lost its answer: nothing changes a second time, and the answer is no change at the revision
      that the lost attempt left, or the refusal of an actor who has removed the own manage
      permission, or what a creation or deletion meets that is already done. */
  lemma RepeatedCallAnswers(config: Config, history: seq<Served>, c: Call, fate: Fate)
    requires Administer(config, Serve(config, history), c, fate).1.RuntimeError?
    requires Administer(config, Serve(config, history), c, fate).0 != Serve(config, history)
    ensures var next := Administer(config, Serve(config, history), c, fate).0;
            && c.scope in next && next[c.scope].revision >= 0 && (c.request.BootstrapScope? || c.context.actor.Some?)
            && Administer(config, next, c, Heard) == (next, RepeatAnswer(next[c.scope], c))
  {
    var db, cmd := Serve(config, history), CommandOf(c);
    ReachableSound(config, history);
    EffectIsAccepted(db, cmd);
    StepTwice(db, cmd);
    RepeatedStepAnswers(Find(db, c.scope), config, c);
  }

  /** Who can change anything: a configured bootstrap caller founds a scope that is not there,
      and otherwise the subject of a verified assertion that holds the manage permission its
      operation needs in that very scope. */
  lemma OnlyTheEntitledChange(config: Config, db: Policies, c: Call, fate: Fate)
    requires Administer(config, db, c, fate).0 != db
    ensures if c.request.BootstrapScope? then
              c.scope !in db && c.context.callerInstance.Some?
                  && c.context.callerInstance.value in config.bootstrapCallers
            else
              && c.scope in db && c.context.actor.Some? && ValidSubject(c.context.actor.value)
              && Holds(db[c.scope], c.context.actor.value,
                       if c.request.Assign? || c.request.Revoke? then "access-control.bindings.manage"
                       else "access-control.roles.manage")
  {
  }

  /** What a response promises about the scope, whether or not the call changed it. */
  lemma RespondedMeansDone(config: Config, db: Policies, c: Call, fate: Fate)
    requires Administer(config, db, c, fate).1.Responded?
    ensures var next := Administer(config, db, c, fate).0;
            && c.scope in next
            && var q := next[c.scope];
               match c.request
               case BootstrapScope(subject) => q.bootstrapSubject == subject
               case NewRole(role, name) => role in q.roles && q.roles[role] == Role(name, false, {})
               case ReplacePermissions(role, permissions) =>
                 role in q.roles && forall x :: x in q.roles[role].permissions <==> x in permissions
               case DropRole(role) => role !in q.roles
               case Assign(subject, role) => role in q.roles && Binding(subject, role) in q.bindings
               case Revoke(subject, role) => role in q.roles && Binding(subject, role) !in q.bindings
  {
    AcceptedMeansDone(Find(db, c.scope), ActionOf(c));
  }

  // ----- The directory -----

  datatype RolePage = RolePage(roles: seq<DirectoryRole>, nextCursor: Option<string>, revision: string)

  function MapListFailure(f: DomainFailure): ErrorCode
  {
    if f.ScopeNotBootstrapped? then Reported(f) else InvalidRequest
  }

  function MapGetFailure(f: DomainFailure): ErrorCode
  {
    if f.ScopeNotBootstrapped? || f.RoleNotFound? then Reported(f) else InvalidRequest
  }

  /** The page of a store as a response. A truncated page without a role would be a panic. */
  function RespondPage(page: Page): Response<RolePage>
  {
    if page.hasMore && page.roles == [] then Panicked
    else
      var text := RevisionString(page.revision);
      if text.None? then RuntimeError
      else Responded(RolePage(page.roles, NextCursor(page), text.value))
  }

  /** What a listing call is refused with before it gets to the store. */
  function ListRefusal(config: Config, context: Context, scope: ScopeKey, subject: Option<string>, limit: int,
                       cursor: Option<string>): (refusal: Option<ErrorCode>)
    ensures refusal.None? ==> 1 <= limit <= 100
  {
    if !Admits(config.directoryCallers, context) then Some(Reported(Forbidden))
    else if !ValidScope(scope) || (subject.Some? && !ValidSubject(subject.value)) then Some(InvalidRequest)
    else if ValidDirectoryPage(limit, cursor).None? then Some(InvalidPage)
    else None
  }

  function RespondListing(answer: Answer<Page>): Response<RolePage>
  {
    match answer
    case Declined(f) => DomainError(MapListFailure(f))
    case Broken(_) => RuntimeError
    case Answered(p) => RespondPage(p)
  }

  /** `list_roles`, or `list_subject_roles` when a subject is given. A read of the store may fail. */
  function ListRoles(config: Config, db: Policies, fails: bool, context: Context, scope: ScopeKey,
                     subject: Option<string>, limit: int, cursor: Option<string>): Response<RolePage>
  {
    var refusal := ListRefusal(config, context, scope, subject, limit, cursor);
    if refusal.Some? then DomainError(refusal.value)
    else if fails then RuntimeError
    else RespondListing(PageOn(Find(db, scope), Filter(None, subject), cursor, limit))
  }

  function GetRefusal(config: Config, context: Context, scope: ScopeKey, role: string): Option<ErrorCode>
  {
    if !Admits(config.directoryCallers, context) then Some(Reported(Forbidden))
    else if !ValidScope(scope) || !ValidRoleId(role) then Some(InvalidRequest)
    else None
  }

  function RespondRole(answer: Answer<(DirectoryRole, int)>): Response<(DirectoryRole, string)>
  {
    match answer
    case Declined(f) => DomainError(MapGetFailure(f))
    case Broken(_) => RuntimeError
    case Answered((found, revision)) =>
      var text := RevisionString(revision);
      if text.None? then RuntimeError else Responded((found, text.value))
  }

  function GetRole(config: Config, db: Policies, fails: bool, context: Context, scope: ScopeKey, role: string)
    : Response<(DirectoryRole, string)>
  {
    var refusal := GetRefusal(config, context, scope, role);
    if refusal.Some? then DomainError(refusal.value)
    else if fails then RuntimeError
    else RespondRole(RoleOn(Find(db, scope), role))
  }

  predicate ValidCheck(scope: ScopeKey, subject: string, permission: string)
  {
    ValidScope(scope) && ValidSubject(subject) && ValidPermission(permission)
  }

  function RespondDecision(answer: Answer<Decision>): Response<(bool, string)>
  {
    match answer
    case Answered(decision) =>
      var text := RevisionString(decision.revision);
      if text.None? then RuntimeError else Responded((decision.allowed, text.value))
    case _ => RuntimeError
  }

  function CheckPermission(db: Policies, fails: bool, scope: ScopeKey, subject: string, permission: string)
    : Response<(bool, string)>
  {
    if !ValidCheck(scope, subject, permission) then DomainError(InvalidRequest)
    else if fails then RuntimeError
    else RespondDecision(Answered(DecisionOn(Find(db, scope), subject, permission)))
  }

  /** The page of a valid policy becomes a response whose cursor, if it has one, is the id of the
      last of exactly `limit` roles, and is accepted as a cursor with any limit. */
  lemma PageResponds(p: Policy, f: Filter, cursor: Option<string>, limit: nat)
    requires ValidPolicy(p) && p.revision >= 0 && limit >= 1
    ensures var page := PageOf(p, f, cursor, limit);
            && RespondPage(page) == Responded(RolePage(page.roles, NextCursor(page), Decimal(page.revision)))
            && (page.hasMore <==> NextCursor(page).Some?)
            && (page.hasMore ==>
                  && |page.roles| == limit
                  && NextCursor(page) == Some(page.roles[limit-1].id)
                  && forall n :: 1 <= n <= 100 ==> ValidDirectoryPage(n, NextCursor(page)) == Some(n))
  {
    if PageOf(p, f, cursor, limit).hasMore {
      TruncatedPage(p, f, cursor, limit);
    }
  }

  lemma TruncatedPage(p: Policy, f: Filter, cursor: Option<string>, limit: nat)
    requires ValidPolicy(p) && limit >= 1 && PageOf(p, f, cursor, limit).hasMore
    ensures var page := PageOf(p, f, cursor, limit);
            && |page.roles| == limit && NextCursor(page) == Some(page.roles[limit-1].id)
            && ValidRoleId(page.roles[limit-1].id)
  {
    PageShape(p, f, cursor, limit);
    assert Ids(PageOf(p, f, cursor, limit).roles)[limit-1] in Upcoming(p, f, cursor);
  }

  lemma ReachablePolicy(config: Config, history: seq<Served>, scope: ScopeKey)
    requires scope in Serve(config, history)
    ensures Serve(config, history)[scope].revision >= 1 && ValidPolicy(Serve(config, history)[scope])
  {
    ReachableSound(config, history);
    EverythingStoredIsValid(config, history);
  }

  /** In every reachable state, a valid listing call of an admitted caller answers the page of the
      policy with a cursor as `PageResponds` says, or a runtime error exactly when the store's read
      failed, and never panics; `InvalidRequest` and `InvalidPage` mean that validation rejected
      the input. */
  lemma ListingIsPage(config: Config, history: seq<Served>, fails: bool,
                      context: Context, scope: ScopeKey, subject: Option<string>,
                      limit: int, cursor: Option<string>)
    ensures scope in Serve(config, history) ==> Serve(config, history)[scope].revision >= 1
    ensures var db := Serve(config, history);
            ListRoles(config, db, fails, context, scope, subject, limit, cursor) ==
              if !Admits(config.directoryCallers, context) then DomainError(Reported(Forbidden))
              else if !ValidScope(scope) || (subject.Some? && !ValidSubject(subject.value)) then
                DomainError(InvalidRequest)
              else if ValidDirectoryPage(limit, cursor).None? then DomainError(InvalidPage)
              else if fails then RuntimeError
              else if scope !in db then DomainError(Reported(ScopeNotBootstrapped))
              else var page := PageOf(db[scope], Filter(None, subject), cursor, limit);
                   Responded(RolePage(page.roles, NextCursor(page), Decimal(page.revision)))
  {
    var db := Serve(config, history);
    if scope in db {
      ReachablePolicy(config, history, scope);
      if !ValidDirectoryPage(limit, cursor).None? {
        PageResponds(db[scope], Filter(None, subject), cursor, limit);
      }
    }
  }

  /** In every reachable state, looking a role up answers the role with its grants in order and
      the revision it had them at, or precisely the check that failed. */
  lemma GetRoleIsRole(config: Config, history: seq<Served>, fails: bool,
                      context: Context, scope: ScopeKey, role: string)
    ensures scope in Serve(config, history) ==> Serve(config, history)[scope].revision >= 1
    ensures var db := Serve(config, history);
            GetRole(config, db, fails, context, scope, role) ==
              if !Admits(config.directoryCallers, context) then DomainError(Reported(Forbidden))
              else if !ValidScope(scope) || !ValidRoleId(role) then DomainError(InvalidRequest)
              else if fails then RuntimeError
              else if scope !in db then DomainError(Reported(ScopeNotBootstrapped))
              else if role !in db[scope].roles then DomainError(Reported(RoleNotFound))
              else Responded((Entry(db[scope], role), Decimal(db[scope].revision)))
  {
    if scope in Serve(config, history) {
      ReachablePolicy(config, history, scope);
    }
  }

  /** In every reachable state, a valid permission check answers the policy's decision at its
      revision; where no scope was bootstrapped it denies at revision 0. */
  lemma CheckIsDecision(config: Config, history: seq<Served>, fails: bool,
                        scope: ScopeKey, subject: string, permission: string)
    ensures scope in Serve(config, history) ==> Serve(config, history)[scope].revision >= 1
    ensures var db := Serve(config, history);
            CheckPermission(db, fails, scope, subject, permission) ==
              if !ValidCheck(scope, subject, permission) then DomainError(InvalidRequest)
              else if fails then RuntimeError
              else if scope in db then Responded((Holds(db[scope], subject, permission), Decimal(db[scope].revision)))
              else Responded((false, "0"))
  {
    if scope in Serve(config, history) {
      ReachablePolicy(config, history, scope);
    }
    assert Decimal(0) == "0";
  }

  // ----- A client of the directory -----

  /** Role ids that went through the service are bounded ASCII texts. */
  lemma StoredIdsAreBounded(p: Policy)
    requires ValidPolicy(p)
    ensures BoundedIds(p, MAX_ROLE_ID_BYTES)
  {
    forall r | r in p.roles ensures Bounded(r, MAX_ROLE_ID_BYTES) {
      OpaqueIdGrammar(r, MAX_ROLE_ID_BYTES);
    }
  }

  /** The policy of a scope after the calls `world(i)` have been served. */
  function PolicyWhen(config: Config, world: nat -> seq<Served>, scope: ScopeKey): nat -> Option<Policy>
  {
    (i: nat) => Find(Serve(config, world(i)), scope)
  }

  /** An admitted client that follows `next_cursor` to the end, while any other calls are served
      between its pages: it ends, its cursors are never rejected, and what it has read is a chain
      of pages, complete unless the scope was missing or the read of a page failed. */
  method ListEverything(config: Config, world: nat -> seq<Served>,
                        fails: nat -> bool, context: Context, scope: ScopeKey,
                        subject: Option<string>, limit: int)
    returns (roles: seq<DirectoryRole>, complete: bool, ghost pages: seq<Page>)
    requires Admits(config.directoryCallers, context)
    requires ValidScope(scope) && (subject.Some? ==> ValidSubject(subject.value)) && 1 <= limit <= 100
    ensures Follows(PolicyWhen(config, world, scope), Filter(None, subject), limit, pages) && roles == Roles(pages)
    ensures complete <==> !Unfinished(pages)
    ensures !complete ==> fails(|pages|) || scope !in Serve(config, world(|pages|))
  {
    ghost var policies, f, width := PolicyWhen(config, world, scope), Filter(None, subject), MAX_ROLE_ID_BYTES;
    var cursor, n: nat := None, 0;
    roles, pages := [], [];
    while true
      invariant n == |pages| && roles == Roles(pages)
      invariant Follows(policies, f, limit, pages) && Unfinished(pages)
      invariant cursor == Resume(pages)
      invariant cursor.Some? ==> Bounded(cursor.value, width) && ValidRoleId(cursor.value)
      invariant Position(cursor, width) <= Power(0x81, width)
      decreases Power(0x81, width) - Position(cursor, width)
    {
      PageRead(config, world, fails, context, scope, subject, limit, cursor, pages);
      var response := ListRoles(config, Serve(config, world(n)), fails(n), context, scope, subject, limit, cursor);
      if !response.Responded? {
        return roles, false, pages;
      }
      pages := pages + [PageOf(Serve(config, world(n))[scope], f, cursor, limit)];
      roles, n := roles + response.value.roles, n + 1;
      if response.value.nextCursor.None? {
        return roles, true, pages;
      }
      cursor := response.value.nextCursor;
    }
  }

  /** One turn of the client's loop. */
  lemma PageRead(config: Config, world: nat -> seq<Served>, fails: nat -> bool, context: Context, scope: ScopeKey,
                 subject: Option<string>, limit: nat, cursor: Option<string>, pages: seq<Page>)
    requires Admits(config.directoryCallers, context)
    requires ValidScope(scope) && (subject.Some? ==> ValidSubject(subject.value)) && 1 <= limit <= 100
    requires cursor == Resume(pages) && Unfinished(pages)
    requires Follows(PolicyWhen(config, world, scope), Filter(None, subject), limit, pages)
    requires cursor.Some? ==> Bounded(cursor.value, MAX_ROLE_ID_BYTES) && ValidRoleId(cursor.value)
    ensures var n, db := |pages|, Serve(config, world(|pages|));
            var response := ListRoles(config, db, fails(n), context, scope, subject, limit, cursor);
            && (response.Responded? <==> !fails(n) && scope in db)
            && (response.Responded? ==>
                  var page, next := PageOf(db[scope], Filter(None, subject), cursor, limit), response.value.nextCursor;
                  && response.value.roles == page.roles
                  && Follows(PolicyWhen(config, world, scope), Filter(None, subject), limit, pages + [page])
                  && Roles(pages + [page]) == Roles(pages) + page.roles && Resume(pages + [page]) == next
                  && (Unfinished(pages + [page]) <==> next.Some?)
                  && (next.Some? ==>
                        && ValidRoleId(next.value) && Bounded(next.value, MAX_ROLE_ID_BYTES)
                        && Position(cursor, MAX_ROLE_ID_BYTES) < Position(next, MAX_ROLE_ID_BYTES)
                        && Position(next, MAX_ROLE_ID_BYTES) <= Power(0x81, MAX_ROLE_ID_BYTES)))
  {
    var f, history := Filter(None, subject), world(|pages|);
    ListingIsPage(config, history, fails(|pages|), context, scope, subject, limit, cursor);
    if scope in Serve(config, history) {
      FollowsOneMore(PolicyWhen(config, world, scope), f, limit, pages, Serve(config, history)[scope]);
      NextPage(config, history, scope, f, cursor, limit);
    }
  }

  lemma NextPage(config: Config, history: seq<Served>, scope: ScopeKey, f: Filter, cursor: Option<string>, limit: nat)
    requires scope in Serve(config, history) && limit >= 1
    requires cursor.Some? ==> Bounded(cursor.value, MAX_ROLE_ID_BYTES)
    ensures var page, width := PageOf(Serve(config, history)[scope], f, cursor, limit), MAX_ROLE_ID_BYTES;
            && (page.hasMore <==> NextCursor(page).Some?)
            && (page.hasMore ==>
                  && ValidRoleId(NextCursor(page).value) && Bounded(NextCursor(page).value, width)
                  && Position(cursor, width) < Position(NextCursor(page), width) <= Power(0x81, width))
  {
    var p := Serve(config, history)[scope];
    ReachablePolicy(config, history, scope);
    StoredIdsAreBounded(p);
    PageResponds(p, f, cursor, limit);
    if PageOf(p, f, cursor, limit).hasMore {
      CursorAdvances(p, f, cursor, limit, MAX_ROLE_ID_BYTES);
      assert ValidDirectoryPage(1, NextCursor(PageOf(p, f, cursor, limit))) == Some(1);
    }
  }

  /** Decision and directory agree: when the scope has the policy `p` throughout while a client
      lists the roles of a subject to the end, a valid check at any of these moments answers exactly
      whether one of the roles that the client has read grants the permission, at the revision that
      its pages report. */
  lemma CheckAgreesWithListing(config: Config, world: nat -> seq<Served>, scope: ScopeKey, subject: string,
                               permission: string, limit: nat, pages: seq<Page>, p: Policy, n: nat)
    requires limit >= 1 && Follows(PolicyWhen(config, world, scope), SubjectFilter(subject), limit, pages)
    requires !Unfinished(pages) && Steady(PolicyWhen(config, world, scope), |pages|, p)
    requires n < |pages| && ValidCheck(scope, subject, permission)
    ensures pages[n].revision == p.revision >= 0
    ensures var granted := exists k :: 0 <= k < |Roles(pages)| && permission in Roles(pages)[k].permissions;
            CheckPermission(Serve(config, world(n)), false, scope, subject, permission)
            == Responded((granted, Decimal(p.revision)))
  {
    var policies := PolicyWhen(config, world, scope);
    PageAt(policies, SubjectFilter(subject), limit, pages, n);
    assert policies(n) == Some(p);
    DecisionAgreesWithPages(policies, subject, permission, limit, pages, p);
    CheckIsDecision(config, world(n), false, scope, subject, permission);
  }

  // ----- What validation lets through -----

  /** Comparing the number of permissions with the number of distinct ones finds repetitions. */
  lemma {:induction false} DistinctCount(permissions: seq<string>)
    ensures |Distinct(permissions)| <= |permissions|
    ensures |Distinct(permissions)| == |permissions| <==>
              forall i, j :: 0 <= i < j < |permissions| ==> permissions[i] != permissions[j]
  {
    if permissions != [] {
      var init, last := permissions[..|permissions|-1], permissions[|permissions|-1];
      DistinctCount(init);
      assert permissions == init + [last];
      assert Distinct(permissions) == Distinct(init) + {last};
      if last in init {
        assert Distinct(permissions) == Distinct(init);
        var i :| 0 <= i < |init| && init[i] == last;
        assert permissions[i] == permissions[|permissions|-1];
      } else {
        assert forall i :: 0 <= i < |init| ==> init[i] in init;
        assert forall i, j :: 0 <= i < j < |init| ==> init[i] == permissions[i] && init[j] == permissions[j];
      }
    }
  }

  /** A replacement of permissions is valid exactly when scope and role id are, and it lists at
      most 256 valid permissions, none of them twice. */
  lemma ReplacementGrammar(c: Call)
    requires c.request.ReplacePermissions?
    ensures ValidCall(c) <==>
              && ValidScope(c.scope) && ValidRoleId(c.request.role)
              && |c.request.permissions| <= 256
              && (forall i :: 0 <= i < |c.request.permissions| ==> ValidPermission(c.request.permissions[i]))
              && (forall i, j :: 0 <= i < j < |c.request.permissions| ==>
                 c.request.permissions[i] != c.request.permissions[j])
  {
    DistinctCount(c.request.permissions);
  }

  // ----- How long stored names are -----

  /** Every stored name, in every reachable state: its trimmed text has at most 200 bytes and the
      rest is the white space around it, so the stored name is within the bound exactly when that
      white space fits into what the trimmed text leaves; without any it always is. */
  lemma StoredNameLength(config: Config, history: seq<Served>, scope: ScopeKey, role: string)
    requires scope in Serve(config, history) && role in Serve(config, history)[scope].roles
    ensures var name := Serve(config, history)[scope].roles[role].name;
            && ByteLength(name) == ByteLength(Trim(name)) + OuterBytes(name) && ByteLength(Trim(name)) <= 200
            && (ByteLength(name) <= 200 <==> OuterBytes(name) <= 200 - ByteLength(Trim(name)))
            && (!Padded(name) ==> ByteLength(name) <= 200)
  {
    EverythingStoredIsValid(config, history);
    var p := Serve(config, history)[scope];
    assert ValidRole(p.roles[role]);
    AcceptedNameLength(p.roles[role].name);
  }

  // The same role creation under another name.
  function Renamed(c: Call, name: string): Call
    requires c.request.NewRole?
  {
    c.(request := NewRole(c.request.role, name))
  }

  lemma RenamedAnswersAlike(config: Config, db: Policies, c: Call, fate: Fate, name: string)
    requires c.request.NewRole? && (Reaches(config, c) ==> ValidDisplayName(name))
    requires Administer(config, db, c, fate).1.Responded?
    ensures Administer(config, db, Renamed(c, name), fate).1 == Administer(config, db, c, fate).1
  {
  }

  /** A role creation that gets a response stores the name as it came. Padding any acceptable name
      with spaces is accepted too, and stores a name over the bound as soon as the spaces exceed
      what the name leaves. */
  lemma PaddedNameIsStored(config: Config, db: Policies, c: Call, fate: Fate, n: nat)
    requires c.request.NewRole? && !Padded(c.request.name) && Administer(config, db, c, fate).1.Responded?
    ensures var padded := Renamed(c, Spaces(n) + c.request.name);
            var (next, response) := Administer(config, db, padded, fate);
            && response == Administer(config, db, c, fate).1
            && c.scope in next && c.request.role in next[c.scope].roles
            && next[c.scope].roles[c.request.role].name == Spaces(n) + c.request.name
            && (ByteLength(next[c.scope].roles[c.request.role].name) > 200 <==> n > 200 - ByteLength(c.request.name))
  {
    var name := Spaces(n) + c.request.name;
    PaddingIsAccepted(c.request.name, n);
    RenamedAnswersAlike(config, db, c, fate, name);
    RespondedMeansDone(config, db, Renamed(c, name), fate);
  }

  /** So no bound holds of stored names: some reachable state has a longer one. */
  lemma StoredNamesAreUnbounded(n: nat)
    ensures exists config: Config, history: seq<Served>, scope: ScopeKey, role: string ::
      && scope in Serve(config, history) && role in Serve(config, history)[scope].roles
      && ByteLength(Serve(config, history)[scope].roles[role].name) > n
  {
    var config, scope := Config(["host"], []), ScopeKey("org", "one");
    var context := Context(Some("host"), Some("owner"));
    var found := Call(context, scope, BootstrapScope("owner"));
    var create := Call(context, scope, NewRole("editor", "Editor"));
    var padded := Renamed(create, Spaces(n) + "Editor");
    ExampleIsValid(config, scope, context);
    var one, two := [Served(found, Heard)], [Served(found, Heard), Served(padded, Heard)];
    assert one[..0] == [] && two[..1] == one;
    var p := InitialPolicy("owner").(revision := 1);
    assert Find(Serve(config, one), scope) == Some(p);
    FounderHolds("owner", p);
    assert BOOTSTRAP_ROLE_ID[0] != "editor"[0];
    assert Administer(config, Serve(config, one), create, Heard).1.Responded?;
    PaddedNameIsStored(config, Serve(config, one), create, Heard, n);
    SpacesAreTrimmed(n, "Editor");
    AsciiByteLength("Editor");
    assert Serve(config, two)[scope].roles["editor"].name == Spaces(n) + "Editor";
  }

  lemma ExampleTextsAreValid()
    ensures ValidScope(ScopeKey("org", "one")) && ValidSubject("owner") && ValidRoleId("editor")
  {
    assert AllOpaque("one") && AllOpaque("owner") && AllOpaque("editor");
    OpaqueIdGrammar("one", MAX_SCOPE_ID_BYTES);
    OpaqueIdGrammar("owner", MAX_SUBJECT_BYTES);
    OpaqueIdGrammar("editor", MAX_ROLE_ID_BYTES);
    ScopeKindGrammar("org");
  }

  lemma ExampleIsValid(config: Config, scope: ScopeKey, context: Context)
    requires config == Config(["host"], []) && scope == ScopeKey("org", "one")
    requires context == Context(Some("host"), Some("owner"))
    ensures Reaches(config, Call(context, scope, BootstrapScope("owner")))
    ensures Reaches(config, Call(context, scope, NewRole("editor", "Editor"))) && !Padded("Editor")
  {
    ExampleTextsAreValid();
    PlainNameIsValid("Editor");
    assert BOOTSTRAP_ROLE_ID[0] != "editor"[0];
  }
}
