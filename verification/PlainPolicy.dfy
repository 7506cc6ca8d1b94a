/** What the operations answer, said in plain terms: with the literal texts and numbers of the
    source, on the fields of a policy. */
module PlainPolicy {
  import opened AccessPolicy
  import opened PolicyRuns

  /** Some role that the subject is bound to grants the permission. */
  predicate Granted(p: Policy, subject: string, permission: string)
  {
    exists role :: role in p.roles && Binding(subject, role) in p.bindings && permission in p.roles[role].permissions
  }

  lemma GrantedIsHeld(p: Policy, subject: string, permission: string)
    ensures Granted(p, subject, permission) <==> Holds(p, subject, permission)
  {
    if Holds(p, subject, permission) {
      var b :| b in p.bindings && b.subject == subject && b.role in p.roles
               && permission in p.roles[b.role].permissions;
      assert b == Binding(subject, b.role);
    }
  }

  /** Founding a scope, in full: revision 1, the one protected role with its two grants, and its
      one holder. */
  lemma Founding(subject: string)
    ensures var admin := "access-control.bootstrap-admin";
            Apply(None, Bootstrap(subject)) ==
              (Some(Policy(subject, 1,
                           map[admin := Role("Bootstrap administrator", true,
                                             {"access-control.roles.manage", "access-control.bindings.manage"})],
                           {Binding(subject, admin)})),
               Accepted(Mutation(true, 1)))
  {
  }

  /** A repeated bootstrap, in full: it is refused to another subject, and otherwise accepted
      without a change exactly when the protected role still stands with a holder and both grants. */
  lemma FoundingAgain(p: Policy, subject: string)
    ensures var admin := "access-control.bootstrap-admin";
            var stands := && admin in p.roles && p.roles[admin].protected
                          && (exists holder :: Binding(holder, admin) in p.bindings)
                          && "access-control.roles.manage" in p.roles[admin].permissions
                          && "access-control.bindings.manage" in p.roles[admin].permissions;
            Apply(Some(p), Bootstrap(subject)) ==
              (Some(p), if p.bootstrapSubject != subject then Rejected(ScopeAlreadyBootstrapped)
                        else if stands then Accepted(Mutation(false, p.revision))
                        else Failed(InvalidStoredState))
  {
    if holder :| Binding(holder, BOOTSTRAP_ROLE_ID) in p.bindings {
      assert Binding(holder, BOOTSTRAP_ROLE_ID).subject in Holders(p, BOOTSTRAP_ROLE_ID);
    }
    if holder :| holder in Holders(p, BOOTSTRAP_ROLE_ID) {
      assert Binding(holder, BOOTSTRAP_ROLE_ID) in p.bindings;
    }
  }

  /** The permission that an operation needs, by its text. */
  function NeededText(a: Action): string
    requires !a.Bootstrap?
  {
    match a
    case CreateRole(_, _, _) => "access-control.roles.manage"
    case SetPermissions(_, _, _) => "access-control.roles.manage"
    case DeleteRole(_, _) => "access-control.roles.manage"
    case AssignRole(_, _, _) => "access-control.bindings.manage"
    case RevokeRole(_, _, _) => "access-control.bindings.manage"
  }

  /** Who is refused: exactly those who are not bound to a role that grants the permission with the
      operation's literal text, and whatever is accepted was asked for by one who is. */
  lemma ForbiddenExactly(p: Policy, a: Action)
    requires !a.Bootstrap?
    ensures a.CreateRole? || a.SetPermissions? || a.DeleteRole? ==>
              (Apply(Some(p), a).1 == Rejected(Forbidden)
               <==> !exists role :: role in p.roles && Binding(a.actor, role) in p.bindings
                                    && "access-control.roles.manage" in p.roles[role].permissions)
    ensures a.AssignRole? || a.RevokeRole? ==>
              (Apply(Some(p), a).1 == Rejected(Forbidden)
               <==> !exists role :: role in p.roles && Binding(a.actor, role) in p.bindings
                                    && "access-control.bindings.manage" in p.roles[role].permissions)
    ensures Apply(None, a).1 == Rejected(ScopeNotBootstrapped)
  {
    GrantedIsHeld(p, a.actor, a.Needs());
    assert Granted(p, a.actor, a.Needs()) <==>
      exists role :: role in p.roles && Binding(a.actor, role) in p.bindings && a.Needs() in p.roles[role].permissions;
  }

  /** Every refusal on a scope that is there, exactly: a missing permission first, then a role that
      exists or is missing, then a protected role or the last binding of one. */
  lemma RefusalsExactly(p: Policy, a: Action)
    requires !a.Bootstrap?
    ensures var reply, may := Apply(Some(p), a).1, Granted(p, a.actor, NeededText(a));
            && (reply == Rejected(Forbidden) <==> !may)
            && (reply == Rejected(RoleAlreadyExists) <==> may && a.CreateRole? && a.role in p.roles)
            && (reply == Rejected(RoleNotFound) <==> may && !a.CreateRole? && a.role !in p.roles)
            && (reply == Rejected(ProtectedRole) <==>
                  may && (a.SetPermissions? || a.DeleteRole?) && a.role in p.roles && p.roles[a.role].protected)
            && (reply == Rejected(ProtectedBinding) <==>
                  && may && a.RevokeRole? && a.role in p.roles && p.roles[a.role].protected
                  && Binding(a.subject, a.role) in p.bindings
                  && forall other :: Binding(other, a.role) in p.bindings ==> other == a.subject)
            && reply != Rejected(ScopeNotBootstrapped) && reply != Rejected(ScopeAlreadyBootstrapped)
  {
    GrantedIsHeld(p, a.actor, a.Needs());
    if a.RevokeRole? && Binding(a.subject, a.role) in p.bindings {
      LastHolderExactly(p, a.subject, a.role);
    }
  }

  lemma LastHolderExactly(p: Policy, subject: string, role: string)
    requires Binding(subject, role) in p.bindings
    ensures Holders(p, role) == {subject} <==> forall other :: Binding(other, role) in p.bindings ==> other == subject
  {
    forall other ensures other in Holders(p, role) <==> Binding(other, role) in p.bindings {
      if Binding(other, role) in p.bindings {
        assert Binding(other, role).subject in Holders(p, role);
      }
    }
  }

  /** What is accepted, exactly, and whether it is a change: the operation is admitted, its role is
      there (or, for a creation, is not), and it is a change unless its fact stands already. A change
      advances the revision by one, up to 9223372036854775807, where it fails. */
  lemma AcceptancesExactly(p: Policy, a: Action)
    requires !a.Bootstrap?
    ensures var reply := Apply(Some(p), a).1;
            var admitted := !reply.Rejected?;
            var change := match a
                          case CreateRole(_, _, _) => true
                          case SetPermissions(_, r, permissions) =>
                            r in p.roles && p.roles[r].permissions != permissions
                          case DeleteRole(_, _) => true
                          case AssignRole(_, subject, r) => Binding(subject, r) !in p.bindings
                          case RevokeRole(_, subject, r) => Binding(subject, r) in p.bindings;
            admitted ==>
              reply == if !change then Accepted(Mutation(false, p.revision))
                       else if p.revision < 9223372036854775807 then Accepted(Mutation(true, p.revision + 1))
                       else Failed(DatabaseFailure)
  {
  }

  /** Reachable policies, in literals: the one protected role, its grants, and a subject bound to it
      who may do everything. */
  lemma AlwaysAdministered(cs: seq<Command>, scope: ScopeKey)
    requires scope in Run(map[], cs)
    ensures var p, admin := Run(map[], cs)[scope], "access-control.bootstrap-admin";
            && admin in p.roles
            && p.roles[admin] == Role("Bootstrap administrator", true,
                                      {"access-control.roles.manage", "access-control.bindings.manage"})
            && (forall r :: r in p.roles && p.roles[r].protected ==> r == admin)
            && (exists holder :: Binding(holder, admin) in p.bindings)
            && 1 <= p.revision <= 9223372036854775807
  {
    RunKeepsSound(map[], cs);
    var p := Run(map[], cs)[scope];
    var holder :| holder in Holders(p, BOOTSTRAP_ROLE_ID);
    assert Binding(holder, BOOTSTRAP_ROLE_ID) in p.bindings;
  }
}
