/** The four policy tables of either backend, the row statements that administration uses,
    and the simulation between the tables and the abstract policies: each statement acts on
    the policy of its scope alone, and is refused by a constraint exactly when `Act` says. */
module Relational {
  import opened AccessPolicy

  datatype ScopeRow = ScopeRow(bootstrapSubject: string, revision: int)
  datatype RoleKey = RoleKey(scope: ScopeKey, role: string)
  datatype RoleRow = RoleRow(name: string, protected: bool)
  datatype GrantRow = GrantRow(scope: ScopeKey, role: string, permission: string)
  datatype BindingRow = BindingRow(scope: ScopeKey, subject: string, role: string)

  // A map from the primary key to the other columns, or a set where every column is in the key.
  datatype Tables = Tables(scopes: map<ScopeKey, ScopeRow>, roles: map<RoleKey, RoleRow>,
                           grants: set<GrantRow>, bindings: set<BindingRow>)

  const EMPTY_TABLES := Tables(map[], map[], {}, {})

  /** Foreign keys and the revision CHECK. */
  ghost predicate Schema(t: Tables)
  {
    && (forall s :: s in t.scopes ==> 0 <= t.scopes[s].revision <= MAX_REVISION)
    && (forall k :: k in t.roles ==> k.scope in t.scopes)
    && (forall g :: g in t.grants ==> RoleKey(g.scope, g.role) in t.roles)
    && (forall b :: b in t.bindings ==> RoleKey(b.scope, b.role) in t.roles)
  }

  // One row statement within a scope.
  datatype Write =
    | InsertScope(subject: string)
    | InsertRole(role: string, name: string, protected: bool)
    | InsertGrants(role: string, permissions: set<string>)
    | InsertBinding(subject: string, role: string)
    | DeleteGrants(role: string)
    | RemoveRole(role: string)
    | DeleteBinding(subject: string, role: string)
    | BumpRevision

  /** The tables after one statement, or None when a primary key, foreign key or CHECK
      constraint refuses it. */
  function Put(t: Tables, s: ScopeKey, w: Write): Option<Tables>
  {
    match w
    case InsertScope(subject) =>
      if s in t.scopes then None
      else Some(t.(scopes := t.scopes[s := ScopeRow(subject, 0)]))
    case InsertRole(r, name, protected) =>
      if s !in t.scopes || RoleKey(s, r) in t.roles then None
      else Some(t.(roles := t.roles[RoleKey(s, r) := RoleRow(name, protected)]))
    case InsertGrants(r, permissions) =>
      if permissions != {} && RoleKey(s, r) !in t.roles then None
      else if exists p :: p in permissions && GrantRow(s, r, p) in t.grants then None
      else Some(t.(grants := t.grants + set p | p in permissions :: GrantRow(s, r, p)))
    case InsertBinding(subject, r) =>
      if RoleKey(s, r) !in t.roles || BindingRow(s, subject, r) in t.bindings then None
      else Some(t.(bindings := t.bindings + {BindingRow(s, subject, r)}))
    case DeleteGrants(r) =>
      Some(t.(grants := (set g | g in t.grants && !(g.scope == s && g.role == r))))
    case RemoveRole(r) =>
      // ON DELETE CASCADE
      Some(t.(roles := t.roles - {RoleKey(s, r)},
              grants := (set g | g in t.grants && !(g.scope == s && g.role == r)),
              bindings := (set b | b in t.bindings && !(b.scope == s && b.role == r))))
    case DeleteBinding(subject, r) =>
      Some(t.(bindings := t.bindings - {BindingRow(s, subject, r)}))
    case BumpRevision =>
      if s !in t.scopes then Some(t)
      else if t.scopes[s].revision + 1 > MAX_REVISION then None
      else Some(t.(scopes := t.scopes[s := t.scopes[s].(revision := t.scopes[s].revision + 1)]))
  }

  // ----- Queries -----

  predicate ScopeExists(t: Tables, s: ScopeKey) { s in t.scopes }

  predicate RoleExists(t: Tables, s: ScopeKey, r: string) { RoleKey(s, r) in t.roles }

  predicate RoleIsProtected(t: Tables, s: ScopeKey, r: string)
  {
    RoleKey(s, r) in t.roles && t.roles[RoleKey(s, r)].protected
  }

  predicate Bound(t: Tables, s: ScopeKey, subject: string, r: string)
  {
    BindingRow(s, subject, r) in t.bindings
  }

  function BindingCount(t: Tables, s: ScopeKey, r: string): nat
  {
    |set b | b in t.bindings && b.scope == s && b.role == r|
  }

  function GrantedPermissions(t: Tables, s: ScopeKey, r: string): set<string>
  {
    set g | g in t.grants && g.scope == s && g.role == r :: g.permission
  }

  /** Bindings joined with grants on (scope, role). */
  predicate Allowed(t: Tables, s: ScopeKey, subject: string, permission: string)
  {
    exists b :: b in t.bindings && b.scope == s && b.subject == subject
                && GrantRow(s, b.role, permission) in t.grants
  }

  // ----- The policy a scope's rows stand for -----

  function RoleAt(t: Tables, k: RoleKey): Role
    requires k in t.roles
  {
    Role(t.roles[k].name, t.roles[k].protected, GrantedPermissions(t, k.scope, k.role))
  }

  function RolesAt(t: Tables, s: ScopeKey): (m: map<string, Role>)
    ensures forall r :: r in m <==> RoleKey(s, r) in t.roles
    ensures forall r :: r in m ==> m[r] == RoleAt(t, RoleKey(s, r))
  {
    var ids := set k | k in t.roles && k.scope == s :: k.role;
    assert forall r :: r in ids ==> RoleKey(s, r) in t.roles;
    assert forall r :: RoleKey(s, r) in t.roles ==> RoleKey(s, r).role in ids;
    map r | r in ids :: RoleAt(t, RoleKey(s, r))
  }

  function BindingsAt(t: Tables, s: ScopeKey): (bs: set<Binding>)
    ensures forall subject, r :: Binding(subject, r) in bs <==> BindingRow(s, subject, r) in t.bindings
  {
    var bs := set b | b in t.bindings && b.scope == s :: Binding(b.subject, b.role);
    assert forall subject, r :: BindingRow(s, subject, r) in t.bindings ==>
      Binding(BindingRow(s, subject, r).subject, BindingRow(s, subject, r).role) in bs;
    bs
  }

  function Lookup(t: Tables, s: ScopeKey): Option<Policy>
  {
    if s !in t.scopes then None
    else Some(Policy(t.scopes[s].bootstrapSubject, t.scopes[s].revision, RolesAt(t, s), BindingsAt(t, s)))
  }

  function View(t: Tables): (db: Policies)
    ensures forall s :: Find(db, s) == Lookup(t, s)
  {
    map s | s in t.scopes :: Lookup(t, s).value
  }

  // ----- What a statement means for the policy -----

  datatype Effect = Violation | Becomes(policy: Option<Policy>)

  function Act(current: Option<Policy>, w: Write): Effect
  {
    match current
    case None => (match w
                  case InsertScope(subject) => Becomes(Some(Policy(subject, 0, map[], {})))
                  case InsertRole(_, _, _) => Violation
                  case InsertGrants(_, permissions) => if permissions == {} then Becomes(None) else Violation
                  case InsertBinding(_, _) => Violation
                  case _ => Becomes(None))
    case Some(p) =>
      match w
      case InsertScope(_) => Violation
      case InsertRole(r, name, protected) =>
        if r in p.roles then Violation
        else Becomes(Some(p.(roles := p.roles[r := Role(name, protected, {})])))
      case InsertGrants(r, permissions) =>
        if permissions == {} then Becomes(Some(p))
        else if r !in p.roles || !(permissions !! p.roles[r].permissions) then Violation
        else Becomes(Some(p.(roles := p.roles[r := p.roles[r].(permissions := p.roles[r].permissions + permissions)])))
      case InsertBinding(subject, r) =>
        if r !in p.roles || Binding(subject, r) in p.bindings then Violation
        else Becomes(Some(p.(bindings := p.bindings + {Binding(subject, r)})))
      case DeleteGrants(r) =>
        if r !in p.roles then Becomes(Some(p))
        else Becomes(Some(p.(roles := p.roles[r := p.roles[r].(permissions := {})])))
      case RemoveRole(r) => Becomes(Some(WithoutRole(p, r)))
      case DeleteBinding(subject, r) => Becomes(Some(p.(bindings := p.bindings - {Binding(subject, r)})))
      case BumpRevision =>
        if p.revision + 1 > MAX_REVISION then Violation else Becomes(Some(p.(revision := p.revision + 1)))
  }

  // ----- The simulation -----

  lemma PutKeepsSchema(t: Tables, s: ScopeKey, w: Write)
    requires Schema(t) && Put(t, s, w).Some?
    ensures Schema(Put(t, s, w).value)
  {
  }

  lemma PutLeavesOtherScopes(t: Tables, s: ScopeKey, w: Write, other: ScopeKey)
    requires other != s && Put(t, s, w).Some?
    ensures Lookup(Put(t, s, w).value, other) == Lookup(t, other)
  {
    var u := Put(t, s, w).value;
    forall r | RoleKey(other, r) in t.roles
      ensures RoleKey(other, r) in u.roles && RoleAt(u, RoleKey(other, r)) == RoleAt(t, RoleKey(other, r))
    {
      SameGrants(t, u, other, r);
    }
    assert RolesAt(u, other) == RolesAt(t, other);
    SameBindings(BindingsAt(u, other), BindingsAt(t, other));
  }

  lemma SameGrants(t: Tables, u: Tables, s: ScopeKey, r: string)
    requires forall p :: GrantRow(s, r, p) in t.grants <==> GrantRow(s, r, p) in u.grants
    ensures GrantedPermissions(t, s, r) == GrantedPermissions(u, s, r)
  {
    forall p ensures p in GrantedPermissions(t, s, r) <==> p in GrantedPermissions(u, s, r) {
      GrantedPermissionsHas(t, s, r, p);
      GrantedPermissionsHas(u, s, r, p);
    }
  }

  lemma GrantedPermissionsHas(t: Tables, s: ScopeKey, r: string, p: string)
    ensures p in GrantedPermissions(t, s, r) <==> GrantRow(s, r, p) in t.grants
  {
    if GrantRow(s, r, p) in t.grants {
      assert GrantRow(s, r, p).permission in GrantedPermissions(t, s, r);
    }
  }

  lemma SameBindings(a: set<Binding>, b: set<Binding>)
    requires forall subject, r :: Binding(subject, r) in a <==> Binding(subject, r) in b
    ensures a == b
  {
    forall x ensures x in a <==> x in b {
      assert x == Binding(x.subject, x.role);
    }
  }

  lemma PutActs(t: Tables, s: ScopeKey, w: Write)
    requires Schema(t)
    ensures Put(t, s, w).None? <==> Act(Lookup(t, s), w).Violation?
    ensures Put(t, s, w).Some? ==>
      && Schema(Put(t, s, w).value)
      && Lookup(Put(t, s, w).value, s) == Act(Lookup(t, s), w).policy
      && View(Put(t, s, w).value) == Store(View(t), s, Act(Lookup(t, s), w).policy)
  {
    PutRefused(t, s, w);
    if Put(t, s, w).Some? {
      var u := Put(t, s, w).value;
      PutKeepsSchema(t, s, w);
      PutLookup(t, s, w);
      forall other | other != s ensures Lookup(u, other) == Lookup(t, other) {
        PutLeavesOtherScopes(t, s, w, other);
      }
      ViewStored(t, u, s);
    }
  }

  /** The constraints refuse a statement exactly when its meaning is a violation. */
  lemma PutRefused(t: Tables, s: ScopeKey, w: Write)
    requires Schema(t)
    ensures Put(t, s, w).None? <==> Act(Lookup(t, s), w).Violation?
  {
    if w.InsertGrants? && RoleKey(s, w.role) in t.roles {
      forall p ensures p in GrantedPermissions(t, s, w.role) <==> GrantRow(s, w.role, p) in t.grants {
        GrantedPermissionsHas(t, s, w.role, p);
      }
    }
  }

  lemma ViewStored(t: Tables, u: Tables, s: ScopeKey)
    requires forall other :: other != s ==> Lookup(u, other) == Lookup(t, other)
    ensures View(u) == Store(View(t), s, Lookup(u, s))
  {
    forall other ensures Find(View(u), other) == Find(Store(View(t), s, Lookup(u, s)), other) {
      assert Find(View(u), other) == Lookup(u, other) && Find(View(t), other) == Lookup(t, other);
    }
    SamePolicies(View(u), Store(View(t), s, Lookup(u, s)));
  }

  lemma SamePolicies(a: Policies, b: Policies)
    requires forall s :: Find(a, s) == Find(b, s)
    ensures a == b
  {
    forall s ensures s in a <==> s in b { assert Find(a, s) == Find(b, s); }
    forall s | s in a ensures a[s] == b[s] { assert Find(a, s) == Find(b, s); }
  }

  lemma PutLookup(t: Tables, s: ScopeKey, w: Write)
    requires Schema(t) && Put(t, s, w).Some? && Act(Lookup(t, s), w).Becomes?
    ensures Lookup(Put(t, s, w).value, s) == Act(Lookup(t, s), w).policy
  {
    if Act(Lookup(t, s), w).policy.Some? {
      ScopeAfterPut(t, s, w);
      RolesAfterPut(t, s, w);
      BindingsAfterPut(t, s, w);
    }
  }

  lemma ScopeAfterPut(t: Tables, s: ScopeKey, w: Write)
    requires Schema(t) && Put(t, s, w).Some? && Act(Lookup(t, s), w).Becomes? && Act(Lookup(t, s), w).policy.Some?
    ensures var u, q := Put(t, s, w).value, Act(Lookup(t, s), w).policy.value;
            s in u.scopes && u.scopes[s] == ScopeRow(q.bootstrapSubject, q.revision)
  {
  }

  lemma RolesAfterPut(t: Tables, s: ScopeKey, w: Write)
    requires Schema(t) && Put(t, s, w).Some? && Act(Lookup(t, s), w).Becomes? && Act(Lookup(t, s), w).policy.Some?
    ensures RolesAt(Put(t, s, w).value, s) == Act(Lookup(t, s), w).policy.value.roles
  {
    var roles, after := RolesAt(Put(t, s, w).value, s), Act(Lookup(t, s), w).policy.value.roles;
    RoleIdsAfterPut(t, s, w);
    forall r | r in roles ensures roles[r] == after[r] {
      RoleAfterPut(t, s, w, r);
    }
  }

  lemma RoleIdsAfterPut(t: Tables, s: ScopeKey, w: Write)
    requires Schema(t) && Put(t, s, w).Some? && Act(Lookup(t, s), w).Becomes? && Act(Lookup(t, s), w).policy.Some?
    ensures forall r :: RoleKey(s, r) in Put(t, s, w).value.roles <==> r in Act(Lookup(t, s), w).policy.value.roles
  {
  }

  lemma BindingsAfterPut(t: Tables, s: ScopeKey, w: Write)
    requires Schema(t) && Put(t, s, w).Some? && Act(Lookup(t, s), w).Becomes? && Act(Lookup(t, s), w).policy.Some?
    ensures BindingsAt(Put(t, s, w).value, s) == Act(Lookup(t, s), w).policy.value.bindings
  {
    SameBindings(BindingsAt(Put(t, s, w).value, s), Act(Lookup(t, s), w).policy.value.bindings);
  }

  lemma RoleAfterPut(t: Tables, s: ScopeKey, w: Write, r: string)
    requires Schema(t) && Put(t, s, w).Some? && Act(Lookup(t, s), w).Becomes? && Act(Lookup(t, s), w).policy.Some?
    requires RoleKey(s, r) in Put(t, s, w).value.roles && r in Act(Lookup(t, s), w).policy.value.roles
    ensures RoleAt(Put(t, s, w).value, RoleKey(s, r)) == Act(Lookup(t, s), w).policy.value.roles[r]
  {
    var u, role := Put(t, s, w).value, Act(Lookup(t, s), w).policy.value.roles[r];
    forall p ensures p in GrantedPermissions(u, s, r) <==> p in role.permissions {
      GrantedPermissionsHas(u, s, r, p);
      GrantedPermissionsHas(t, s, r, p);
    }
    assert GrantedPermissions(u, s, r) == role.permissions;
  }

  // ----- Queries agree with the policy -----

  lemma QueriesAgree(t: Tables, s: ScopeKey, subject: string, r: string)
    requires Schema(t) && s in t.scopes
    ensures var p := Lookup(t, s).value;
            && (RoleExists(t, s, r) <==> r in p.roles)
            && (RoleIsProtected(t, s, r) <==> r in p.roles && p.roles[r].protected)
            && (Bound(t, s, subject, r) <==> Binding(subject, r) in p.bindings)
            && (r in p.roles ==> p.roles[r].permissions == GrantedPermissions(t, s, r))
  {
  }

  lemma AllowedAgrees(t: Tables, s: ScopeKey, subject: string, permission: string)
    requires Schema(t) && s in t.scopes
    ensures Allowed(t, s, subject, permission) <==> Holds(Lookup(t, s).value, subject, permission)
  {
    var p := Lookup(t, s).value;
    if Allowed(t, s, subject, permission) {
      var b :| b in t.bindings && b.scope == s && b.subject == subject && GrantRow(s, b.role, permission) in t.grants;
      GrantedPermissionsHas(t, s, b.role, permission);
      assert b == BindingRow(s, subject, b.role);
      assert Binding(subject, b.role) in p.bindings;
      assert RoleKey(s, b.role) in t.roles;
    }
    if Holds(p, subject, permission) {
      var b :| b in p.bindings && b.subject == subject && b.role in p.roles
          && permission in p.roles[b.role].permissions;
      assert b == Binding(subject, b.role);
      GrantedPermissionsHas(t, s, b.role, permission);
      assert BindingRow(s, subject, b.role) in t.bindings;
    }
  }

  /** Counting rows answers whether a bound subject is the last one. */
  lemma CountFindsLastHolder(t: Tables, s: ScopeKey, subject: string, r: string)
    requires s in t.scopes && Bound(t, s, subject, r)
    ensures BindingCount(t, s, r) <= 1 <==> Holders(Lookup(t, s).value, r) == {subject}
  {
    var p := Lookup(t, s).value;
    var rows := set b | b in t.bindings && b.scope == s && b.role == r;
    var mine := BindingRow(s, subject, r);
    assert mine in rows;
    assert Binding(subject, r) in p.bindings;
    assert subject in Holders(p, r);
    if |rows| <= 1 {
      SingletonOf(rows, mine);
      forall x | x in Holders(p, r) ensures x == subject {
        assert Binding(x, r) in p.bindings;
        assert BindingRow(s, x, r) in rows;
      }
    }
    if Holders(p, r) == {subject} {
      forall x | x in rows ensures x == mine {
        assert x == BindingRow(s, x.subject, r);
        assert Binding(x.subject, r) in p.bindings;
        assert x.subject in Holders(p, r);
      }
      assert rows == {mine};
    }
  }

  lemma HoldersAreBindingRows(t: Tables, s: ScopeKey, r: string)
    requires s in t.scopes
    ensures (exists b :: b in t.bindings && b.scope == s && b.role == r) <==> Holders(Lookup(t, s).value, r) != {}
  {
    var p := Lookup(t, s).value;
    if b :| b in t.bindings && b.scope == s && b.role == r {
      assert b == BindingRow(s, b.subject, r);
      assert Binding(b.subject, r) in p.bindings;
      assert b.subject in Holders(p, r);
    }
    if x :| x in Holders(p, r) {
      assert Binding(x, r) in p.bindings;
      assert BindingRow(s, x, r) in t.bindings;
    }
  }

  lemma PairCounted<T>(found: set<T>, one: T, two: T)
    requires one != two && found <= {one, two}
    ensures |found| == 2 <==> one in found && two in found
  {
    if one in found && two in found {
      assert found == {one, two};
    } else if one in found {
      assert found == {one};
    } else if two in found {
      assert found == {two};
    } else {
      assert found == {};
    }
  }

  lemma SingletonOf<T>(xs: set<T>, x: T)
    requires x in xs && |xs| <= 1
    ensures xs == {x}
  {
    assert |xs - {x}| == 0;
  }

  // ----- Statement sequences -----

  function PutAll(t: Tables, s: ScopeKey, ws: seq<Write>): Option<Tables>
  {
    if ws == [] then Some(t)
    else
      var before := PutAll(t, s, ws[..|ws|-1]);
      if before.None? then None else Put(before.value, s, ws[|ws|-1])
  }

  function ActAll(p: Option<Policy>, ws: seq<Write>): Effect
  {
    if ws == [] then Becomes(p)
    else
      var before := ActAll(p, ws[..|ws|-1]);
      if before.Violation? then Violation else Act(before.policy, ws[|ws|-1])
  }

  lemma PutOneMore(t: Tables, s: ScopeKey, ws: seq<Write>, w: Write)
    ensures PutAll(t, s, ws + [w]) == var before := PutAll(t, s, ws);
            if before.None? then None else Put(before.value, s, w)
  {
    assert (ws + [w])[..|ws|] == ws;
  }

  lemma ActOneMore(p: Option<Policy>, ws: seq<Write>, w: Write)
    ensures ActAll(p, ws + [w]) == var before := ActAll(p, ws);
            if before.Violation? then Violation else Act(before.policy, w)
  {
    assert (ws + [w])[..|ws|] == ws;
  }

  /** Any sequence of row statements on one scope acts on that scope's policy alone, and it is
      refused exactly when its meaning is. */
  lemma {:induction false} PutAllActs(t: Tables, s: ScopeKey, ws: seq<Write>)
    requires Schema(t)
    ensures PutAll(t, s, ws).None? <==> ActAll(Lookup(t, s), ws).Violation?
    ensures PutAll(t, s, ws).Some? ==>
      && Schema(PutAll(t, s, ws).value)
      && Lookup(PutAll(t, s, ws).value, s) == ActAll(Lookup(t, s), ws).policy
      && View(PutAll(t, s, ws).value) == Store(View(t), s, ActAll(Lookup(t, s), ws).policy)
  {
    if ws == [] {
      assert Find(View(t), s) == Lookup(t, s);
      SamePolicies(View(t), Store(View(t), s, Lookup(t, s)));
    } else {
      var before := ws[..|ws|-1];
      PutAllActs(t, s, before);
      if PutAll(t, s, before).Some? {
        PutActs(PutAll(t, s, before).value, s, ws[|ws|-1]);
        StoreTwice(View(t), s, ActAll(Lookup(t, s), before).policy,
            Act(ActAll(Lookup(t, s), before).policy, ws[|ws|-1]));
      }
    }
  }

  lemma StoreTwice(db: Policies, s: ScopeKey, p: Option<Policy>, e: Effect)
    ensures e.Becomes? ==> Store(Store(db, s, p), s, e.policy) == Store(db, s, e.policy)
  {
    if e.Becomes? {
      SamePolicies(Store(Store(db, s, p), s, e.policy), Store(db, s, e.policy));
    }
  }

  /** The row statements of an effective operation, in the order both backends issue them,
      except that PostgreSQL inserts grants one by one. */
  function WritesOf(a: Action): seq<Write>
  {
    match a
    case Bootstrap(subject) =>
      [InsertScope(subject), InsertRole(BOOTSTRAP_ROLE_ID, BOOTSTRAP_ROLE_NAME, true),
       InsertGrants(BOOTSTRAP_ROLE_ID, {ROLES_MANAGE}), InsertGrants(BOOTSTRAP_ROLE_ID, {BINDINGS_MANAGE}),
       InsertBinding(subject, BOOTSTRAP_ROLE_ID)]
    case CreateRole(_, r, name) => [InsertRole(r, name, false)]
    case SetPermissions(_, r, permissions) => [DeleteGrants(r), InsertGrants(r, permissions)]
    case DeleteRole(_, r) => [RemoveRole(r)]
    case AssignRole(_, subject, r) => [InsertBinding(subject, r)]
    case RevokeRole(_, subject, r) => [DeleteBinding(subject, r)]
  }

  /** The statements carry out the verdict, and the revision bump that follows them is the
      only one of them that a constraint can refuse. */
  lemma WritesCarryOut(p: Option<Policy>, a: Action)
    requires Judge(p, a).Change?
    ensures ActAll(p, WritesOf(a)) == Becomes(Some(Judge(p, a).policy))
    ensures ActAll(p, WritesOf(a) + [BumpRevision]) ==
              if Apply(p, a).1.Failed? then Violation else Becomes(Apply(p, a).0)
  {
    var ws := WritesOf(a);
    ActOneMore(p, ws, BumpRevision);
    match a {
      case Bootstrap(subject) => BootstrapWrites(subject);
      case SetPermissions(_, _, _) => SetWrites(p, a);
      case _ =>
        assert ws[..0] == [];
        assert ActAll(p, ws) == Act(p, ws[0]);
    }
  }

  lemma SetWrites(p: Option<Policy>, a: Action)
    requires a.SetPermissions? && Judge(p, a).Change?
    ensures ActAll(p, WritesOf(a)) == Becomes(Some(Judge(p, a).policy))
  {
    var ws, r := WritesOf(a), a.role;
    assert ws[..1] == [DeleteGrants(r)] && ws[..1][..0] == [];
    var cleared := Act(p, ws[0]).policy;
    assert ActAll(p, ws[..1]) == Becomes(cleared);
    var q := Judge(p, a).policy;
    assert q.roles[r].permissions == {} + a.permissions;
    assert q.roles == cleared.value.roles[r := cleared.value.roles[r].(permissions := {} + a.permissions)];
  }

  /** Statements that lead through the given policies, one after the other. */
  lemma {:induction false} ActEach(p: Option<Policy>, ws: seq<Write>, ps: seq<Option<Policy>>)
    requires |ps| == |ws| + 1 && ps[0] == p
    requires forall k :: 0 <= k < |ws| ==> Act(ps[k], ws[k]) == Becomes(ps[k+1])
    ensures ActAll(p, ws) == Becomes(ps[|ws|])
  {
    if ws != [] {
      ActEach(p, ws[..|ws|-1], ps[..|ws|]);
    }
  }

  lemma BootstrapWrites(subject: string)
    ensures ActAll(None, WritesOf(Bootstrap(subject))) == Becomes(Some(InitialPolicy(subject)))
  {
    ManagePermissionsDiffer();
    var p1 := Policy(subject, 0, map[], {});
    var p2 := p1.(roles := map[BOOTSTRAP_ROLE_ID := Role(BOOTSTRAP_ROLE_NAME, true, {})]);
    var p3 := p1.(roles := map[BOOTSTRAP_ROLE_ID := Role(BOOTSTRAP_ROLE_NAME, true, {ROLES_MANAGE})]);
    var p4 := p1.(roles := map[BOOTSTRAP_ROLE_ID := BootstrapRole()]);
    assert p1.roles[BOOTSTRAP_ROLE_ID := Role(BOOTSTRAP_ROLE_NAME, true, {})] == p2.roles;
    assert {} + {ROLES_MANAGE} == {ROLES_MANAGE}
        && {ROLES_MANAGE} + {BINDINGS_MANAGE} == {ROLES_MANAGE, BINDINGS_MANAGE};
    Granted(p2, p3, BOOTSTRAP_ROLE_ID, {ROLES_MANAGE});
    Granted(p3, p4, BOOTSTRAP_ROLE_ID, {BINDINGS_MANAGE});
    assert {} + {Binding(subject, BOOTSTRAP_ROLE_ID)} == {Binding(subject, BOOTSTRAP_ROLE_ID)};
    ActEach(None, WritesOf(Bootstrap(subject)),
        [None, Some(p1), Some(p2), Some(p3), Some(p4), Some(InitialPolicy(subject))]);
  }

  lemma Granted(p: Policy, q: Policy, r: string, permissions: set<string>)
    requires r in p.roles && permissions !! p.roles[r].permissions
    requires q == p.(roles := q.roles) && q.roles.Keys == p.roles.Keys
    requires forall x :: x in p.roles && x != r ==> q.roles[x] == p.roles[x]
    requires q.roles[r] == p.roles[r].(permissions := q.roles[r].permissions)
    requires q.roles[r].permissions == p.roles[r].permissions + permissions
    ensures Act(Some(p), InsertGrants(r, permissions)) == Becomes(Some(q))
  {
    if permissions == {} {
      assert q.roles[r].permissions == p.roles[r].permissions;
      assert q.roles == p.roles;
    } else {
      assert q.roles == p.roles[r := p.roles[r].(permissions := p.roles[r].permissions + permissions)];
    }
  }
}
