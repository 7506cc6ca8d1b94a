/** What holds in every state that any sequence of operations can reach, starting from an
    empty database, and what consecutive states have to do with each other. */
module PolicyRuns {
  import opened AccessPolicy

  datatype Command = Command(scope: ScopeKey, action: Action)

  function Step(db: Policies, c: Command): (Policies, Reply)
  {
    var (p, reply) := Apply(Find(db, c.scope), c.action);
    (Store(db, c.scope, p), reply)
  }

  function Run(db: Policies, cs: seq<Command>): Policies
  {
    if cs == [] then db else Step(Run(db, cs[..|cs|-1]), cs[|cs|-1]).0
  }

  function Replies(db: Policies, cs: seq<Command>): (rs: seq<Reply>)
    ensures |rs| == |cs|
  {
    if cs == [] then [] else Replies(db, cs[..|cs|-1]) + [Step(Run(db, cs[..|cs|-1]), cs[|cs|-1]).1]
  }

  predicate Effective(r: Reply)
  {
    r.Accepted? && r.mutation.changed
  }

  /** How many operations of a run changed a scope, judging by their replies. */
  function EffectiveCount(db: Policies, cs: seq<Command>, scope: ScopeKey): nat
  {
    if cs == [] then 0
    else
      var last := cs[|cs|-1];
      EffectiveCount(db, cs[..|cs|-1], scope)
      + (if last.scope == scope && Effective(Step(Run(db, cs[..|cs|-1]), last).1) then 1 else 0)
  }

  lemma RunExtends(db: Policies, cs: seq<Command>, c: Command)
    ensures Run(db, cs + [c]) == Step(Run(db, cs), c).0
    ensures Replies(db, cs + [c]) == Replies(db, cs) + [Step(Run(db, cs), c).1]
  {
    assert (cs + [c])[..|cs|] == cs;
  }

  // ----- The invariant of every reachable policy -----

  /** Bindings name existing roles; the bootstrap role is the only protected role, has exactly
      the two manage permissions, and somebody holds it. */
  ghost predicate Sound(p: Policy)
  {
    && 1 <= p.revision <= MAX_REVISION
    && (forall b :: b in p.bindings ==> b.role in p.roles)
    && BOOTSTRAP_ROLE_ID in p.roles
    && p.roles[BOOTSTRAP_ROLE_ID] == BootstrapRole()
    && (forall r :: r in p.roles && p.roles[r].protected ==> r == BOOTSTRAP_ROLE_ID)
    && Holders(p, BOOTSTRAP_ROLE_ID) != {}
  }

  ghost predicate AllSound(db: Policies)
  {
    forall s :: s in db ==> Sound(db[s])
  }

  lemma ApplyKeepsSound(p: Option<Policy>, a: Action)
    requires p.Some? ==> Sound(p.value)
    ensures Apply(p, a).0.Some? ==> Sound(Apply(p, a).0.value)
  {
    var q := Apply(p, a).0;
    if Judge(p, a).Change? && q != p {
      if a.Bootstrap? {
        assert Binding(a.subject, BOOTSTRAP_ROLE_ID) in q.value.bindings;
        assert a.subject in Holders(q.value, BOOTSTRAP_ROLE_ID);
      } else {
        var keeper := KeptHolder(p.value, a);
        assert Binding(keeper, BOOTSTRAP_ROLE_ID) in q.value.bindings;
        assert keeper in Holders(q.value, BOOTSTRAP_ROLE_ID);
      }
    }
  }

  /** Whatever an accepted change does, some administrator keeps the bootstrap binding. */
  lemma KeptHolder(p: Policy, a: Action) returns (keeper: string)
    requires Sound(p) && !a.Bootstrap? && Judge(Some(p), a).Change?
    ensures Binding(keeper, BOOTSTRAP_ROLE_ID) in Judge(Some(p), a).policy.bindings
  {
    var holders := Holders(p, BOOTSTRAP_ROLE_ID);
    if a.RevokeRole? && a.role == BOOTSTRAP_ROLE_ID {
      assert a.subject in holders by {
        assert Binding(a.subject, a.role) in p.bindings;
      }
      assert holders != {a.subject};
      keeper :| keeper in holders && keeper != a.subject;
    } else {
      keeper :| keeper in holders;
    }
  }

  lemma {:induction false} RunKeepsSound(db: Policies, cs: seq<Command>)
    requires AllSound(db)
    ensures AllSound(Run(db, cs))
  {
    if cs != [] {
      RunKeepsSound(db, cs[..|cs|-1]);
      var c := cs[|cs|-1];
      ApplyKeepsSound(Find(Run(db, cs[..|cs|-1]), c.scope), c.action);
    }
  }

  /** No lockout, in every reachable state: the bootstrap role is the one protected role, it
      grants exactly the two manage permissions, and some subject holds both of them; and
      repeating the bootstrap as its original subject is always accepted as a no-op. */
  lemma NoLockout(cs: seq<Command>, scope: ScopeKey)
    requires scope in Run(map[], cs)
    ensures var p := Run(map[], cs)[scope];
            && BOOTSTRAP_ROLE_ID in p.roles
            && p.roles[BOOTSTRAP_ROLE_ID].permissions == {ROLES_MANAGE, BINDINGS_MANAGE}
            && (forall r :: r in p.roles ==> (p.roles[r].protected <==> r == BOOTSTRAP_ROLE_ID))
            && (exists admin :: Holds(p, admin, ROLES_MANAGE) && Holds(p, admin, BINDINGS_MANAGE))
            && Apply(Some(p), Bootstrap(p.bootstrapSubject)) == (Some(p), Accepted(Mutation(false, p.revision)))
  {
    RunKeepsSound(map[], cs);
    var p := Run(map[], cs)[scope];
    var admin :| admin in Holders(p, BOOTSTRAP_ROLE_ID);
    assert Binding(admin, BOOTSTRAP_ROLE_ID) in p.bindings;
    assert Holds(p, admin, ROLES_MANAGE) && Holds(p, admin, BINDINGS_MANAGE);
  }

  /** Every binding of a reachable policy names an existing role, so a role that is created,
      even under the id of a deleted one, starts with no grants and no holders. */
  lemma NewRoleIsBare(cs: seq<Command>, c: Command)
    requires c.action.CreateRole? && Effective(Step(Run(map[], cs), c).1)
    ensures var p := Step(Run(map[], cs), c).0[c.scope];
            && (forall b :: b in p.bindings ==> b.role in p.roles)
            && p.roles[c.action.role] == Role(c.action.name, false, {})
            && Holders(p, c.action.role) == {}
  {
    RunKeepsSound(map[], cs);
    ApplyKeepsSound(Find(Run(map[], cs), c.scope), c.action);
  }

  // ----- The revision as a version stamp -----

  // The policy without its revision.
  function Content(p: Option<Policy>): Option<Policy>
  {
    match p case None => None case Some(q) => Some(q.(revision := 0))
  }

  /** One operation moves the revision exactly when it changes the content, exactly when its
      reply says so; it moves it by one, and the reply carries the resulting revision. */
  lemma RevisionMovesWithContent(p: Option<Policy>, a: Action)
    ensures var (q, reply) := Apply(p, a);
            && (Effective(reply) <==> Content(q) != Content(p))
            && (Effective(reply) <==> q != p)
            && RevisionOf(q) == RevisionOf(p) + (if Effective(reply) then 1 else 0)
            && (reply.Accepted? ==> reply.mutation.revision == RevisionOf(q))
  {
    if Judge(p, a).Change? && p.Some? {
      var before, after := p.value, Judge(p, a).policy;
      match a {
        case Bootstrap(_) =>
        case CreateRole(_, r, _) => assert r !in before.roles && r in after.roles;
        case SetPermissions(_, r, _) => assert before.roles[r] != after.roles[r];
        case DeleteRole(_, r) => assert r in before.roles && r !in after.roles;
        case AssignRole(_, s, r) => assert Binding(s, r) !in before.bindings && Binding(s, r) in after.bindings;
        case RevokeRole(_, s, r) => assert Binding(s, r) in before.bindings && Binding(s, r) !in after.bindings;
      }
    }
  }

  lemma {:induction false} RevisionCountsChanges(cs: seq<Command>, scope: ScopeKey)
    ensures RevisionOf(Find(Run(map[], cs), scope)) == EffectiveCount(map[], cs, scope)
  {
    if cs != [] {
      var before, c := cs[..|cs|-1], cs[|cs|-1];
      RevisionCountsChanges(before, scope);
      RevisionMovesWithContent(Find(Run(map[], before), c.scope), c.action);
    }
  }

  /** Two reads of a scope in one run that see the same revision see the same policy. */
  lemma {:induction false} SameRevisionSamePolicy(db: Policies, cs: seq<Command>, i: nat, scope: ScopeKey)
    requires i <= |cs|
    ensures RevisionOf(Find(Run(db, cs[..i]), scope)) <= RevisionOf(Find(Run(db, cs), scope))
    ensures RevisionOf(Find(Run(db, cs[..i]), scope)) == RevisionOf(Find(Run(db, cs), scope))
            ==> Find(Run(db, cs[..i]), scope) == Find(Run(db, cs), scope)
  {
    if i == |cs| {
      assert cs[..i] == cs;
    } else {
      var before, c := cs[..|cs|-1], cs[|cs|-1];
      assert before[..i] == cs[..i];
      SameRevisionSamePolicy(db, before, i, scope);
      RevisionMovesWithContent(Find(Run(db, before), c.scope), c.action);
    }
  }

  // ----- Isolation and authority -----

  lemma StepLeavesOtherScopes(db: Policies, c: Command, other: ScopeKey)
    requires other != c.scope
    ensures Find(Step(db, c).0, other) == Find(db, other)
  {
  }

  ghost predicate Powerless(p: Option<Policy>, c: Command)
  {
    && !c.action.Bootstrap?
    && (p.Some? ==> !Holds(p.value, c.action.actor, ROLES_MANAGE) && !Holds(p.value, c.action.actor, BINDINGS_MANAGE))
  }

  /** Authority is never acquired from below: a run in which everybody who acts on a scope
      starts without either manage permission there leaves that scope as it was, whatever
      happens in other scopes. */
  lemma {:induction false} PowerlessRunChangesNothing(db: Policies, cs: seq<Command>, scope: ScopeKey)
    requires forall i :: 0 <= i < |cs| && cs[i].scope == scope ==> Powerless(Find(db, scope), cs[i])
    ensures Find(Run(db, cs), scope) == Find(db, scope)
  {
    if cs != [] {
      var before, c := cs[..|cs|-1], cs[|cs|-1];
      assert forall i :: 0 <= i < |before| ==> before[i] == cs[i];
      PowerlessRunChangesNothing(db, before, scope);
      if c.scope != scope {
        StepLeavesOtherScopes(Run(db, before), c, scope);
      }
    }
  }

  lemma {:induction false} ScopesPersist(db: Policies, cs: seq<Command>, i: nat, scope: ScopeKey)
    requires i <= |cs| && scope in Run(db, cs[..i])
    ensures scope in Run(db, cs)
  {
    if i < |cs| {
      assert cs[..|cs|-1][..i] == cs[..i];
      ScopesPersist(db, cs[..|cs|-1], i, scope);
    } else {
      assert cs[..i] == cs;
    }
  }

  lemma {:induction false} ReplyAt(db: Policies, cs: seq<Command>, i: nat)
    requires i < |cs|
    ensures Replies(db, cs)[i] == Step(Run(db, cs[..i]), cs[i]).1
  {
    if i < |cs| - 1 {
      assert cs[..|cs|-1][..i] == cs[..i];
      ReplyAt(db, cs[..|cs|-1], i);
    }
  }

  lemma EffectiveLeavesScope(db: Policies, cs: seq<Command>, i: nat)
    requires i < |cs| && Effective(Replies(db, cs)[i])
    ensures cs[i].scope in Run(db, cs[..i+1])
  {
    ReplyAt(db, cs, i);
    assert cs[..i+1][..i] == cs[..i];
  }

  lemma BootstrapMeetsNoScope(db: Policies, cs: seq<Command>, j: nat)
    requires j < |cs| && cs[j].action.Bootstrap? && Effective(Replies(db, cs)[j])
    ensures cs[j].scope !in Run(db, cs[..j])
  {
    ReplyAt(db, cs, j);
  }

  /** A scope is created at most once in any run. */
  lemma ScopeCreatedOnce(db: Policies, cs: seq<Command>, i: nat, j: nat)
    requires i < j < |cs| && cs[i].scope == cs[j].scope
    requires cs[i].action.Bootstrap? && Effective(Replies(db, cs)[i])
    ensures !(cs[j].action.Bootstrap? && Effective(Replies(db, cs)[j]))
  {
    EffectiveLeavesScope(db, cs, i);
    assert cs[..j][..i+1] == cs[..i+1];
    ScopesPersist(db, cs[..j], i + 1, cs[i].scope);
    if cs[j].action.Bootstrap? && Effective(Replies(db, cs)[j]) {
      BootstrapMeetsNoScope(db, cs, j);
      assert false;
    }
  }

  /** Effective bootstraps are what scopes come from: a scope that appears in a run was founded
      by one of its commands. */
  lemma {:induction false} ScopeWasFounded(db: Policies, cs: seq<Command>, scope: ScopeKey) returns (i: nat)
    requires scope !in db && scope in Run(db, cs)
    ensures i < |cs| && Founds(cs[i], Replies(db, cs)[i], scope)
  {
    var before, c := cs[..|cs|-1], cs[|cs|-1];
    if scope in Run(db, before) {
      i := ScopeWasFounded(db, before, scope);
    } else {
      i := |before|;
      assert c.scope == scope by {
        if c.scope != scope { StepLeavesOtherScopes(Run(db, before), c, scope); }
      }
    }
  }

  predicate Founds(c: Command, reply: Reply, scope: ScopeKey)
  {
    c.scope == scope && c.action.Bootstrap? && Effective(reply)
  }

  /** In a run over an absent scope, once somebody has tried to bootstrap it, somebody has. */
  lemma FirstBootstrapFounds(db: Policies, cs: seq<Command>, k: nat, scope: ScopeKey) returns (i: nat)
    requires k < |cs| && cs[k].scope == scope && cs[k].action.Bootstrap? && scope !in db
    ensures i <= k && Founds(cs[i], Replies(db, cs)[i], scope)
  {
    ReplyAt(db, cs, k);
    if scope in Run(db, cs[..k]) {
      i := ScopeWasFounded(db, cs[..k], scope);
      ReplyAt(db, cs[..k], i);
      ReplyAt(db, cs, i);
      assert cs[..k][..i] == cs[..i];
    } else {
      i := k;
    }
  }

  /** A scope that is there cannot be founded. */
  lemma PresentIsNotFounded(db: Policies, cs: seq<Command>, k: nat, scope: ScopeKey)
    requires k < |cs| && scope in db
    ensures !Founds(cs[k], Replies(db, cs)[k], scope)
  {
    ReplyAt(db, cs, k);
    assert cs[..k][..0] == [];
    ScopesPersist(db, cs[..k], 0, scope);
  }

  lemma SoundFailsOnlyOnOverflow(p: Option<Policy>, a: Action)
    requires p.Some? ==> Sound(p.value)
    ensures Apply(p, a).1.Failed? ==> Apply(p, a).1 == Failed(DatabaseFailure) && RevisionOf(p) == MAX_REVISION
  {
  }

  /** In a run from an empty database the only failure without a domain answer is the revision
      overflow: no operation ever finds its policy corrupt. */
  lemma RunFailsOnlyOnOverflow(cs: seq<Command>, i: nat)
    requires i < |cs|
    ensures Replies(map[], cs)[i].Failed? ==>
              && Replies(map[], cs)[i] == Failed(DatabaseFailure)
              && RevisionOf(Find(Run(map[], cs[..i]), cs[i].scope)) == MAX_REVISION
  {
    ReplyAt(map[], cs, i);
    RunKeepsSound(map[], cs[..i]);
    SoundFailsOnlyOnOverflow(Find(Run(map[], cs[..i]), cs[i].scope), cs[i].action);
  }

  // ----- What an accepted operation achieves -----

  /** The same policy but for one role. */
  ghost predicate SameButRole(p: Policy, q: Policy, r: string)
  {
    q.bootstrapSubject == p.bootstrapSubject && q.roles - {r} == p.roles - {r}
  }

  /** After an accepted operation, effective or not, the scope is as the caller asked, and
      everything the caller did not name is as it was; and nobody but a holder of the needed
      grant, or the subject that founds the scope, gets that far. */
  lemma AcceptedMeansDone(p: Option<Policy>, a: Action)
    requires Apply(p, a).1.Accepted?
    ensures Apply(p, a).0.Some?
    ensures !a.Bootstrap? ==>
              p.Some?
              && Holds(p.value, a.actor, if a.AssignRole? || a.RevokeRole? then "access-control.bindings.manage"
                                         else "access-control.roles.manage")
    ensures var q := Apply(p, a).0.value;
            match a
            case Bootstrap(subject) =>
              && q.bootstrapSubject == subject
              && (p.Some? ==> q == p.value)
              && (p.None? ==> Holds(q, subject, ROLES_MANAGE) && Holds(q, subject, BINDINGS_MANAGE))
            case CreateRole(_, r, name) =>
              && r !in p.value.roles && r in q.roles && q.roles[r] == Role(name, false, {})
              && SameButRole(p.value, q, r) && q.bindings == p.value.bindings
            case SetPermissions(_, r, permissions) =>
              && r in p.value.roles && !p.value.roles[r].protected
              && r in q.roles && q.roles[r] == p.value.roles[r].(permissions := permissions)
              && SameButRole(p.value, q, r) && q.bindings == p.value.bindings
            case DeleteRole(_, r) =>
              && r in p.value.roles && !p.value.roles[r].protected && r !in q.roles && SameButRole(p.value, q, r)
              && forall b :: b in q.bindings <==> b in p.value.bindings && b.role != r
            case AssignRole(_, subject, r) =>
              && r in p.value.roles && q.roles == p.value.roles && q.bootstrapSubject == p.value.bootstrapSubject
              && forall b :: b in q.bindings <==> b in p.value.bindings || b == Binding(subject, r)
            case RevokeRole(_, subject, r) =>
              && r in p.value.roles && q.roles == p.value.roles && q.bootstrapSubject == p.value.bootstrapSubject
              && forall b :: b in q.bindings <==> b in p.value.bindings && b != Binding(subject, r)
  {
    var q := Apply(p, a).0.value;
    match a {
      case Bootstrap(subject) =>
        if p.None? {
          FounderHolds(subject, q);
        }
      case CreateRole(_, r, _) => assert q.roles - {r} == p.value.roles - {r};
      case SetPermissions(_, r, permissions) => assert q.roles - {r} == p.value.roles - {r};
      case DeleteRole(_, r) => assert q.roles - {r} == p.value.roles - {r};
      case _ =>
    }
  }

  lemma FounderHolds(subject: string, q: Policy)
    requires q.roles == InitialPolicy(subject).roles && q.bindings == InitialPolicy(subject).bindings
    ensures Holds(q, subject, ROLES_MANAGE) && Holds(q, subject, BINDINGS_MANAGE)
  {
    assert Binding(subject, BOOTSTRAP_ROLE_ID) in q.bindings;
  }

  // ----- Retrying after an ambiguous commit -----

  /** An operation that is repeated leaves what it left the first time. */
  lemma StepTwice(db: Policies, c: Command)
    ensures Step(Step(db, c).0, c).0 == Step(db, c).0
  {
    var p := Find(db, c.scope);
    if Apply(p, c.action).1.Accepted? {
      RetryIsSafe(p, c.action);
    }
  }

  /** What the same operation answers when it is sent again after it took effect: nothing
      changes a second time, and the actor is refused only if the first time removed the
      actor's own manage permission. */
  lemma RetryIsSafe(p: Option<Policy>, a: Action)
    requires Apply(p, a).1.Accepted?
    ensures var q := Apply(p, a).0;
            && q.Some?
            && Apply(q, a) == (q,
                 var noChange := Accepted(Mutation(false, q.value.revision));
                 match a
                 case Bootstrap(_) => noChange
                 case AssignRole(_, _, _) => noChange
                 case SetPermissions(actor, _, _) =>
                   if Holds(q.value, actor, ROLES_MANAGE) then noChange else Rejected(Forbidden)
                 case RevokeRole(actor, _, _) =>
                   if Holds(q.value, actor, BINDINGS_MANAGE) then noChange else Rejected(Forbidden)
                 case CreateRole(_, _, _) => Rejected(RoleAlreadyExists)
                 case DeleteRole(actor, _) =>
                   Rejected(if Holds(q.value, actor, ROLES_MANAGE) then RoleNotFound else Forbidden))
  {
    var q := Apply(p, a).0;
    if Judge(p, a).Change? {
      if a.Bootstrap? {
        assert Binding(a.subject, BOOTSTRAP_ROLE_ID) in q.value.bindings;
        assert a.subject in Holders(q.value, BOOTSTRAP_ROLE_ID);
      } else if a.AssignRole? || a.CreateRole? {
        var b :| b in p.value.bindings && b.subject == a.actor && b.role in p.value.roles
                 && a.Needs() in p.value.roles[b.role].permissions;
        assert b in q.value.bindings;
        assert Holds(q.value, a.actor, a.Needs());
      }
    }
  }

  // ----- Repeating an operation after others have committed -----

  /** The fact that an accepted operation has brought about. */
  ghost predicate Stands(p: Policy, a: Action)
  {
    match a
    case Bootstrap(subject) => p.bootstrapSubject == subject
    case CreateRole(_, r, _) => r in p.roles
    case SetPermissions(_, r, permissions) => r in p.roles && p.roles[r].permissions == permissions
    case DeleteRole(_, r) => r !in p.roles
    case AssignRole(_, subject, r) => Binding(subject, r) in p.bindings
    case RevokeRole(_, subject, r) => Binding(subject, r) !in p.bindings
  }

  /** The operations that can take that fact back. Nothing takes back a bootstrap. */
  predicate Undoes(u: Action, a: Action)
  {
    match a
    case Bootstrap(_) => false
    case CreateRole(_, r, _) => u.DeleteRole? && u.role == r
    case SetPermissions(_, r, permissions) =>
      (u.SetPermissions? && u.role == r && u.permissions != permissions) || (u.DeleteRole? && u.role == r)
    case DeleteRole(_, r) => u.CreateRole? && u.role == r
    case AssignRole(_, subject, r) =>
      (u.RevokeRole? && u.subject == subject && u.role == r) || (u.DeleteRole? && u.role == r)
    case RevokeRole(_, subject, r) => u.AssignRole? && u.subject == subject && u.role == r
  }

  lemma AcceptedStands(p: Option<Policy>, a: Action)
    requires Apply(p, a).1.Accepted?
    ensures Apply(p, a).0.Some? && Stands(Apply(p, a).0.value, a)
  {
    AcceptedMeansDone(p, a);
  }

  /** The fact ends exactly with an effective operation that undoes it. */
  lemma OnlyUndoingEndsIt(p: Policy, a: Action, u: Action)
    requires Stands(p, a)
    ensures Apply(Some(p), u).0.Some?
    ensures !Stands(Apply(Some(p), u).0.value, a) <==> Undoes(u, a) && Effective(Apply(Some(p), u).1)
  {
  }

  /** What it takes for a repeated operation to change something: the fact no longer stands, the
      actor still holds the permission, the role is there and may be changed, and the revision can
      advance. */
  ghost predicate CanActAgain(p: Policy, a: Action)
  {
    && !Stands(p, a) && p.revision < MAX_REVISION
    && match a
       case Bootstrap(_) => false
       case CreateRole(actor, _, _) => Holds(p, actor, ROLES_MANAGE)
       case SetPermissions(actor, r, _) => Holds(p, actor, ROLES_MANAGE) && r in p.roles && !p.roles[r].protected
       case DeleteRole(actor, r) => Holds(p, actor, ROLES_MANAGE) && !p.roles[r].protected
       case AssignRole(actor, _, r) => Holds(p, actor, BINDINGS_MANAGE) && r in p.roles
       case RevokeRole(actor, subject, r) =>
         && Holds(p, actor, BINDINGS_MANAGE) && r in p.roles
         && !(p.roles[r].protected && Holders(p, r) == {subject})
  }

  /** The exact condition under which an operation changes a policy that is there. */
  lemma ActsAgainExactly(p: Policy, a: Action)
    requires p.revision <= MAX_REVISION
    ensures Apply(Some(p), a).0 != Some(p) <==> CanActAgain(p, a)
  {
    RevisionMovesWithContent(Some(p), a);
  }

  // Some command of a run took back what `c` had brought about.
  ghost predicate UndoneIn(db: Policies, cs: seq<Command>, c: Command)
  {
    exists i :: 0 <= i < |cs| && cs[i].scope == c.scope && Undoes(cs[i].action, c.action)
        && Effective(Replies(db, cs)[i])
  }

  /** A fact stands through any run in which no effective command undoes it. */
  lemma {:induction false} StandsThroughRun(db: Policies, cs: seq<Command>, c: Command)
    requires c.scope in db && Stands(db[c.scope], c.action) && !UndoneIn(db, cs, c)
    ensures c.scope in Run(db, cs) && Stands(Run(db, cs)[c.scope], c.action)
  {
    if cs != [] {
      var before, last := cs[..|cs|-1], cs[|cs|-1];
      assert forall i :: 0 <= i < |before| ==> before[i] == cs[i] && Replies(db, before)[i] == Replies(db, cs)[i];
      StandsThroughRun(db, before, c);
      if last.scope == c.scope {
        assert Replies(db, cs)[|cs|-1] == Step(Run(db, before), last).1;
        OnlyUndoingEndsIt(Run(db, before)[c.scope], c.action, last.action);
      } else {
        StepLeavesOtherScopes(Run(db, before), last, c.scope);
      }
    }
  }

  /** A late repetition: after an accepted operation and any run of others, the same operation
      changes nothing, unless an effective operation in between undid just what it had done; and
      then it changes something exactly when `CanActAgain` says so. A bootstrap is never undone. */
  lemma LateRepeatActsOnlyIfUndone(cs: seq<Command>, c: Command, between: seq<Command>)
    requires Step(Run(map[], cs), c).1.Accepted?
    ensures var db := Step(Run(map[], cs), c).0;
            var end := Run(db, between);
            && c.scope in end
            && (Step(end, c).0 != end <==> CanActAgain(end[c.scope], c.action))
            && (Step(end, c).0 != end ==> UndoneIn(db, between, c))
            && (c.action.Bootstrap? ==> Step(end, c) == (end, Accepted(Mutation(false, end[c.scope].revision))))
  {
    var db := Step(Run(map[], cs), c).0;
    var end := Run(db, between);
    AcceptedStands(Find(Run(map[], cs), c.scope), c.action);
    RunKeepsSound(map[], cs);
    ApplyKeepsSound(Find(Run(map[], cs), c.scope), c.action);
    RunKeepsSound(db, between);
    assert between[..0] == [];
    ScopesPersist(db, between, 0, c.scope);
    StepMovesPolicy(end, c);
    ActsAgainExactly(end[c.scope], c.action);
    if !UndoneIn(db, between, c) {
      StandsThroughRun(db, between, c);
    }
    if c.action.Bootstrap? {
      SoundBootstrapStands(end[c.scope]);
    }
  }

  lemma StepMovesPolicy(db: Policies, c: Command)
    requires c.scope in db
    ensures Step(db, c).0 != db <==> Apply(Some(db[c.scope]), c.action).0 != Some(db[c.scope])
  {
    assert Find(Step(db, c).0, c.scope) == Apply(Some(db[c.scope]), c.action).0;
    assert Find(db, c.scope) == Some(db[c.scope]);
  }

  lemma SoundBootstrapStands(p: Policy)
    requires Sound(p)
    ensures BootstrapStands(p)
  {
  }

  /** At the largest revision an effective operation fails and changes nothing, and every
      other operation answers as at any other revision. */
  lemma LargestRevision(p: Policy, a: Action)
    requires p.revision == MAX_REVISION
    ensures Apply(Some(p), a).0 == Some(p)
    ensures var lower := Apply(Some(p.(revision := 1)), a).1;
            Apply(Some(p), a).1 ==
              if Effective(lower) then Failed(DatabaseFailure)
              else if lower.Accepted? then Accepted(Mutation(false, MAX_REVISION))
              else lower
  {
    var low := p.(revision := 1);
    assert Holders(low, BOOTSTRAP_ROLE_ID) == Holders(p, BOOTSTRAP_ROLE_ID);
    if !a.Bootstrap? {
      HoldsIgnoresRevision(p, low, a.actor, a.Needs());
      if !a.CreateRole? {
        assert Holders(low, a.role) == Holders(p, a.role);
      }
    }
  }

  lemma HoldsIgnoresRevision(p: Policy, q: Policy, subject: string, permission: string)
    requires p.roles == q.roles && p.bindings == q.bindings
    ensures Holds(p, subject, permission) == Holds(q, subject, permission)
  {
  }
}
