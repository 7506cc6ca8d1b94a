/** What the service answers, said in plain terms: who is admitted, which requests are invalid, and
    what checks and listings answer, in the literal alphabets, bounds and texts of the source. */
module PlainService {
  import opened AccessPolicy
  import opened PolicyRuns
  import opened Ordering
  import opened RevisionText
  import opened Identifiers
  import opened Directory
  import opened DirectoryReads
  import opened Service
  import opened PlainPolicy

  // ----- Administration -----

  /** The calling Instance is one of the given ones. */
  predicate Among(callers: seq<string>, context: Context)
  {
    exists i :: 0 <= i < |callers| && context.callerInstance == Some(callers[i])
  }

  lemma AmongIsAdmitted(callers: seq<string>, context: Context)
    ensures Among(callers, context) <==> Admits(callers, context)
  {
  }

  /** Who is not admitted: a bootstrap caller that is not among the configured ones,
      wherever it would stand among them, and nobody else hears it of a bootstrap; and for every
      other request whoever presents no subject of 1 to 512 characters of the alphabet. */
  lemma AdmissionExactly(config: Config, db: Policies, c: Call, fate: Fate)
    ensures c.request.BootstrapScope? ==>
              (Administer(config, db, c, fate).1 == DomainError(Reported(Forbidden))
               <==> !Among(config.bootstrapCallers, c.context))
    ensures Administer(config, db, c, fate).1 == DomainError(Unauthenticated) <==>
              !c.request.BootstrapScope? && !(c.context.actor.Some? && Word(c.context.actor.value, 512, ALPHABET))
  {
    AmongIsAdmitted(config.bootstrapCallers, c.context);
    if c.context.actor.Some? {
      IdentifierWords(c.context.actor.value);
    }
    InvalidRequestMeansInvalid(config, db, c, fate);
    if c.request.BootstrapScope? && Reaches(config, c) {
      BootstrapNotForbidden(config, db, c, fate);
    }
  }

  lemma BootstrapNotForbidden(config: Config, db: Policies, c: Call, fate: Fate)
    requires c.request.BootstrapScope? && Reaches(config, c)
    ensures Administer(config, db, c, fate).1 != DomainError(Reported(Forbidden))
  {
    if Apply(Find(db, c.scope), ActionOf(c)).1.Rejected? {
      FailuresOfStep(Find(db, c.scope), ActionOf(c));
    }
  }

  /** Which requests are answered `InvalidRequest`: those of an admitted caller whose scope, subject,
      role id, name or permissions are not as the source demands of just that request. A role may not
      be created under the reserved id; it may be assigned, revoked and named everywhere else. */
  lemma InvalidRequestExactly(config: Config, db: Policies, c: Call, fate: Fate)
    ensures var caller := if c.request.BootstrapScope? then
                            Among(config.bootstrapCallers, c.context)
                          else c.context.actor.Some? && Word(c.context.actor.value, 512, ALPHABET);
            var scope := KindWord(c.scope.kind) && Word(c.scope.id, 512, ALPHABET);
            var input := match c.request
                         case BootstrapScope(subject) => Word(subject, 512, ALPHABET)
                         case NewRole(role, name) =>
                           Word(role, 128, ALPHABET) && role != "access-control.bootstrap-admin" && NameWord(name)
                         case ReplacePermissions(role, permissions) =>
                           && Word(role, 128, ALPHABET) && |permissions| <= 256
                           && (forall i :: 0 <= i < |permissions| ==>
                                 Word(permissions[i], 200, ALPHABET) && '.' in permissions[i])
                           && (forall i, j :: 0 <= i < j < |permissions| ==> permissions[i] != permissions[j])
                         case DropRole(role) => Word(role, 128, ALPHABET)
                         case Assign(subject, role) => Word(subject, 512, ALPHABET) && Word(role, 128, ALPHABET)
                         case Revoke(subject, role) => Word(subject, 512, ALPHABET) && Word(role, 128, ALPHABET);
            Administer(config, db, c, fate).1 == DomainError(InvalidRequest) <==> caller && !(scope && input)
  {
    AmongIsAdmitted(config.bootstrapCallers, c.context);
    InvalidRequestMeansInvalid(config, db, c, fate);
    ScopeWords(c.scope);
    RequestWords(c);
    if c.context.actor.Some? {
      IdentifierWords(c.context.actor.value);
    }
  }

  lemma ScopeWords(s: ScopeKey)
    ensures ValidScope(s) <==> KindWord(s.kind) && Word(s.id, 512, ALPHABET)
  {
    IdentifierWords(s.kind);
    IdentifierWords(s.id);
  }

  ghost predicate PlainInput(request: Request)
  {
    match request
    case BootstrapScope(subject) => Word(subject, 512, ALPHABET)
    case NewRole(role, name) =>
      Word(role, 128, ALPHABET) && role != "access-control.bootstrap-admin" && NameWord(name)
    case ReplacePermissions(role, permissions) =>
      && Word(role, 128, ALPHABET) && |permissions| <= 256
      && (forall i :: 0 <= i < |permissions| ==> Word(permissions[i], 200, ALPHABET) && '.' in permissions[i])
      && (forall i, j :: 0 <= i < j < |permissions| ==> permissions[i] != permissions[j])
    case DropRole(role) => Word(role, 128, ALPHABET)
    case Assign(subject, role) => Word(subject, 512, ALPHABET) && Word(role, 128, ALPHABET)
    case Revoke(subject, role) => Word(subject, 512, ALPHABET) && Word(role, 128, ALPHABET)
  }

  lemma RequestWords(c: Call)
    ensures ValidCall(c) <==> ValidScope(c.scope) && PlainInput(c.request)
  {
    match c.request {
      case BootstrapScope(subject) => IdentifierWords(subject);
      case NewRole(role, name) =>
        IdentifierWords(role);
        DisplayNameWords(name);
      case ReplacePermissions(role, permissions) =>
        IdentifierWords(role);
        ReplacementGrammar(c);
        forall i | 0 <= i < |permissions|
          ensures ValidPermission(permissions[i]) <==> Word(permissions[i], 200, ALPHABET) && '.' in permissions[i]
        {
          IdentifierWords(permissions[i]);
        }
      case DropRole(role) => IdentifierWords(role);
      case Assign(subject, role) =>
        IdentifierWords(subject);
        IdentifierWords(role);
      case Revoke(subject, role) =>
        IdentifierWords(subject);
        IdentifierWords(role);
    }
  }

  /** The first answer of a scope: a configured caller's bootstrap of an absent scope, once heard,
      creates it and says so at revision "1". */
  lemma FirstAnswer(config: Config, db: Policies, c: Call)
    requires Reaches(config, c) && c.request.BootstrapScope? && c.scope !in db
    ensures Administer(config, db, c, Heard).1 == Responded(Outcome(true, "1"))
    ensures c.scope in Administer(config, db, c, Heard).0
  {
    Founding(c.request.subject);
    DecimalDigits(1);
    assert ["0123456789"[1]] == "1";
  }

  // ----- Checks -----

  /** What a permission check answers in every reachable state, when its read does not fail:
      `InvalidRequest` exactly to inputs that are not words of their alphabets and lengths, and
      otherwise whether some role bound to the subject grants the permission, at the revision of the
      scope; where there is no scope, no at revision "0". */
  lemma CheckAnswers(config: Config, history: seq<Served>, scope: ScopeKey, subject: string, permission: string)
    ensures scope in Serve(config, history) ==> Serve(config, history)[scope].revision >= 1
    ensures var db := Serve(config, history);
            CheckPermission(db, false, scope, subject, permission) ==
              if !(&& KindWord(scope.kind) && Word(scope.id, 512, ALPHABET) && Word(subject, 512, ALPHABET)
                   && Word(permission, 200, ALPHABET) && '.' in permission)
              then DomainError(InvalidRequest)
              else if scope !in db then Responded((false, "0"))
              else Responded((exists role :: && role in db[scope].roles
                                             && Binding(subject, role) in db[scope].bindings
                                             && permission in db[scope].roles[role].permissions,
                              Decimal(db[scope].revision)))
  {
    ScopeWords(scope);
    IdentifierWords(subject);
    IdentifierWords(permission);
    CheckIsDecision(config, history, false, scope, subject, permission);
    if scope in Serve(config, history) {
      GrantedIsHeld(Serve(config, history)[scope], subject, permission);
    }
  }

  // ----- The directory -----

  /** Which directory calls are refused, and as what. */
  lemma ListingRefusedExactly(config: Config, db: Policies, fails: bool, context: Context, scope: ScopeKey,
                              subject: Option<string>, limit: int, cursor: Option<string>)
    ensures var caller := Among(config.directoryCallers, context);
            var request := && KindWord(scope.kind) && Word(scope.id, 512, ALPHABET)
                           && (subject.Some? ==> Word(subject.value, 512, ALPHABET));
            var page := 1 <= limit <= 100 && (cursor.Some? ==> Word(cursor.value, 128, ALPHABET));
            var response := ListRoles(config, db, fails, context, scope, subject, limit, cursor);
            && (response == DomainError(Reported(Forbidden)) <==> !caller)
            && (response == DomainError(InvalidRequest) <==> caller && !request)
            && (response == DomainError(InvalidPage) <==> caller && request && !page)
            && (response == DomainError(Reported(ScopeNotBootstrapped)) <==>
                  caller && request && page && !fails && scope !in db)
  {
    ListRefusalWords(config, context, scope, subject, limit, cursor);
    StoreDeclines(db, scope, subject, limit, cursor);
  }

  lemma StoreDeclines(db: Policies, scope: ScopeKey, subject: Option<string>, limit: int, cursor: Option<string>)
    ensures limit >= 0 ==>
              var answer := RespondListing(PageOn(Find(db, scope), Filter(None, subject), cursor, limit));
              if scope !in db then answer == DomainError(Reported(ScopeNotBootstrapped)) else !answer.DomainError?
  {
  }

  lemma ListRefusalWords(config: Config, context: Context, scope: ScopeKey, subject: Option<string>, limit: int,
                         cursor: Option<string>)
    ensures ListRefusal(config, context, scope, subject, limit, cursor) ==
              if !Among(config.directoryCallers, context)
              then Some(Reported(Forbidden))
              else if !(KindWord(scope.kind) && Word(scope.id, 512, ALPHABET)
                        && (subject.Some? ==> Word(subject.value, 512, ALPHABET))) then Some(InvalidRequest)
              else if !(1 <= limit <= 100 && (cursor.Some? ==> Word(cursor.value, 128, ALPHABET))) then
                Some(InvalidPage)
              else None
  {
    AmongIsAdmitted(config.directoryCallers, context);
    ScopeWords(scope);
    if subject.Some? {
      IdentifierWords(subject.value);
    }
    DirectoryPageWords(limit, cursor);
  }

  lemma GetRefusedExactly(config: Config, db: Policies, fails: bool, context: Context, scope: ScopeKey, role: string)
    ensures var caller := Among(config.directoryCallers, context);
            var request := KindWord(scope.kind) && Word(scope.id, 512, ALPHABET) && Word(role, 128, ALPHABET);
            var response := GetRole(config, db, fails, context, scope, role);
            && (response == DomainError(Reported(Forbidden)) <==> !caller)
            && (response == DomainError(InvalidRequest) <==> caller && !request)
            && (response == DomainError(Reported(ScopeNotBootstrapped)) <==>
                  caller && request && !fails && scope !in db)
            && (response == DomainError(Reported(RoleNotFound)) <==>
                  caller && request && !fails && scope in db && role !in db[scope].roles)
  {
    AmongIsAdmitted(config.directoryCallers, context);
    ScopeWords(scope);
    IdentifierWords(role);
  }

  // ----- One page, on characters -----

  /** Each role of a page is one of the policy, bound to the subject if one is given, with the
      role's own columns and permissions, and past the cursor: the cursor is a proper prefix of its
      id, or has the smaller code at the first place where they differ. */
  lemma PagedRole(p: Policy, subject: Option<string>, cursor: Option<string>, limit: nat, i: nat)
    requires i < |PageOf(p, Filter(None, subject), cursor, limit).roles|
    ensures var role := PageOf(p, Filter(None, subject), cursor, limit).roles[i];
            && role.id in p.roles
            && role.name == p.roles[role.id].name && role.protected == p.roles[role.id].protected
            && (forall x :: x in role.permissions <==> x in p.roles[role.id].permissions)
            && |role.permissions| == |p.roles[role.id].permissions|
            && (subject.Some? ==> Binding(subject.value, role.id) in p.bindings)
            && (cursor.Some? ==>
                  CodesAscend(cursor.value, role.id))
  {
    var all := Sorted(Upcoming(p, Filter(None, subject), cursor));
    assert all[i] in Upcoming(p, Filter(None, subject), cursor);
    if cursor.Some? {
      BeforeByCharacters(cursor.value, all[i]);
    }
  }

  /** The ids of a page ascend, and so do the permissions of each of its roles. */
  lemma PagedInOrder(p: Policy, f: Filter, cursor: Option<string>, limit: nat, i: nat, j: nat)
    requires i < j < |PageOf(p, f, cursor, limit).roles|
    ensures CodesAscend(PageOf(p, f, cursor, limit).roles[i].id, PageOf(p, f, cursor, limit).roles[j].id)
  {
    SortedByCharacters(Upcoming(p, f, cursor), i, j);
  }

  lemma PagedPermissionsInOrder(p: Policy, f: Filter, cursor: Option<string>, limit: nat, i: nat, m: nat, n: nat)
    requires i < |PageOf(p, f, cursor, limit).roles|
    requires m < n < |PageOf(p, f, cursor, limit).roles[i].permissions|
    ensures var role := PageOf(p, f, cursor, limit).roles[i];
            CodesAscend(role.permissions[m], role.permissions[n])
  {
    var all := Sorted(Upcoming(p, f, cursor));
    assert all[i] in Upcoming(p, f, cursor);
    SortedByCharacters(p.roles[all[i]].permissions, m, n);
  }

  /** A role past the cursor, bound to the subject if one is given, that is not on the page comes
      after the last one of it, and the page is full. */
  lemma UnpagedRole(p: Policy, subject: Option<string>, cursor: Option<string>, limit: nat, r: string)
    requires limit >= 1 && r in p.roles && (subject.Some? ==> Binding(subject.value, r) in p.bindings)
    requires cursor.Some? ==>
               CodesAscend(cursor.value, r)
    requires forall i :: 0 <= i < |PageOf(p, Filter(None, subject), cursor, limit).roles| ==>
               PageOf(p, Filter(None, subject), cursor, limit).roles[i].id != r
    ensures var page := PageOf(p, Filter(None, subject), cursor, limit);
            && |page.roles| == limit && NextCursor(page) == Some(page.roles[limit-1].id)
            && CodesAscend(page.roles[limit-1].id, r)
  {
    IsUpcoming(p, subject, cursor, r);
    BeyondThePage(p, Filter(None, subject), cursor, limit, r);
    BeforeByCharacters(LastId(PageOf(p, Filter(None, subject), cursor, limit)), r);
  }

  lemma IsUpcoming(p: Policy, subject: Option<string>, cursor: Option<string>, r: string)
    requires r in p.roles && (subject.Some? ==> Binding(subject.value, r) in p.bindings)
    requires cursor.Some? ==> CodesAscend(cursor.value, r)
    ensures r in Upcoming(p, Filter(None, subject), cursor)
  {
    if cursor.Some? {
      BeforeByCharacters(cursor.value, r);
    }
  }

  lemma BeyondThePage(p: Policy, f: Filter, cursor: Option<string>, limit: nat, r: string)
    requires limit >= 1 && r in Upcoming(p, f, cursor)
    requires forall i :: 0 <= i < |PageOf(p, f, cursor, limit).roles| ==> PageOf(p, f, cursor, limit).roles[i].id != r
    ensures var page := PageOf(p, f, cursor, limit);
            page.hasMore && |page.roles| == limit && Before(LastId(page), r)
  {
    PageShape(p, f, cursor, limit);
    assert r !in Ids(PageOf(p, f, cursor, limit).roles);
  }

  // ----- What a listing answers -----

  /** The page that a listing has answered. */
  predicate Answers(response: Response<RolePage>, page: Page)
  {
    page.revision >= 0 && response == Responded(RolePage(page.roles, NextCursor(page), Decimal(page.revision)))
  }

  lemma ListingAnswersPage(config: Config, history: seq<Served>, context: Context, scope: ScopeKey,
                           subject: Option<string>, limit: int, cursor: Option<string>)
    requires ListRoles(config, Serve(config, history), false, context, scope, subject, limit, cursor).Responded?
    ensures limit >= 1 && scope in Serve(config, history)
    ensures Answers(ListRoles(config, Serve(config, history), false, context, scope, subject, limit, cursor),
                    PageOf(Serve(config, history)[scope], Filter(None, subject), cursor, limit))
  {
    ListingIsPage(config, history, false, context, scope, subject, limit, cursor);
  }

  /** What a listing holds, in every reachable state: ids that ascend character by character, past
      the cursor, each a role of the scope that the subject, if given, is bound to, with the role's
      own columns and exactly its permissions, which ascend as well. */
  lemma ListedRoles(config: Config, history: seq<Served>, context: Context, scope: ScopeKey,
                    subject: Option<string>, limit: int, cursor: Option<string>, i: nat, j: nat)
    requires var response := ListRoles(config, Serve(config, history), false, context, scope, subject, limit, cursor);
             response.Responded? && i < j < |response.value.roles|
    ensures scope in Serve(config, history)
    ensures var p := Serve(config, history)[scope];
            var response := ListRoles(config, Serve(config, history), false, context, scope, subject, limit, cursor);
            var a, b := response.value.roles[i], response.value.roles[j];
            && a.id in p.roles && (subject.Some? ==> Binding(subject.value, a.id) in p.bindings)
            && a.name == p.roles[a.id].name && a.protected == p.roles[a.id].protected
            && (forall x :: x in a.permissions <==> x in p.roles[a.id].permissions)
            && CodesAscend(a.id, b.id)
  {
    ListingAnswersPage(config, history, context, scope, subject, limit, cursor);
    var p := Serve(config, history)[scope];
    PagedRole(p, subject, cursor, limit, i);
    PagedInOrder(p, Filter(None, subject), cursor, limit, i, j);
  }
}
