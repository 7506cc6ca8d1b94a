/** The D1 backend: every operation is compiled to one batch that captures its decision in the
    workspace, gates its writes on it, and returns a receipt; the batch as a whole is the
    abstract step. */
module D1Store {
  import opened AccessPolicy
  import opened Relational
  import opened RevisionText
  import opened D1Batch

  // ----- Decoding a receipt -----

  datatype Parsed<+T> = Parsed(value: T) | Malformed

  function Column(row: Row, key: string): Value
  {
    if key in row then row[key] else Null
  }

  function Revision(row: Row): Parsed<int>
  {
    match Column(row, "revision")
    case Text(text) => (var v := ParseRevision(text); if v.Some? then Parsed(v.value) else Malformed)
    case _ => Malformed
  }

  function Flag(row: Row, key: string): Parsed<bool>
  {
    match Column(row, key)
    case Integer(i) => if i == 0 then Parsed(false) else if i == 1 then Parsed(true) else Malformed
    case _ => Malformed
  }

  function Domain(row: Row): Parsed<Option<DomainFailure>>
  {
    match Column(row, "failure")
    case Null => if "failure" in row then Parsed(None) else Malformed
    case Integer(_) => Malformed
    case Text(text) =>
      if text == "scope_missing" then Parsed(Some(ScopeNotBootstrapped))
      else if text == "scope_exists" then Parsed(Some(ScopeAlreadyBootstrapped))
      else if text == "forbidden" then Parsed(Some(Forbidden))
      else if text == "role_exists" then Parsed(Some(RoleAlreadyExists))
      else if text == "role_missing" then Parsed(Some(RoleNotFound))
      else if text == "protected_role" then Parsed(Some(ProtectedRole))
      else if text == "protected_binding" then Parsed(Some(ProtectedBinding))
      else Malformed
  }

  /** The second to last result must be one row; what it says becomes the reply. */
  function Decode(results: seq<seq<Row>>): Reply
  {
    if |results| < 2 || |results[|results|-2]| != 1 then Failed(InvalidStoredState)
    else
      var row := results[|results|-2][0];
      match Domain(row)
      case Malformed => Failed(InvalidStoredState)
      case Parsed(Some(failure)) => Rejected(failure)
      case Parsed(None) =>
        var changed, revision := Flag(row, "changed"), Revision(row);
        if changed.Malformed? || revision.Malformed? then Failed(InvalidStoredState)
        else Accepted(Mutation(changed.value, revision.value))
  }

  function FailureText(f: DomainFailure): string
  {
    match f
    case Forbidden => "forbidden"
    case ScopeAlreadyBootstrapped => "scope_exists"
    case ScopeNotBootstrapped => "scope_missing"
    case RoleAlreadyExists => "role_exists"
    case RoleNotFound => "role_missing"
    case ProtectedRole => "protected_role"
    case ProtectedBinding => "protected_binding"
  }

  /** Every failure survives the wire, and the one decision without a domain failure does not
      decode as one. */
  lemma FailureRoundTrip(row: Row, f: DomainFailure)
    requires Column(row, "failure") == Text(FailureText(f))
    ensures Domain(row) == Parsed(Some(f))
  {
    assert "scope_exists"[0] != "role_missing"[0];
  }

  lemma CorruptDecodesAsNothing(row: Row)
    requires Column(row, "failure") == Text("invalid_bootstrap")
    ensures Domain(row) == Malformed
  {
    assert "invalid_bootstrap"[0] != "protected_binding"[0];
  }

  // ----- Compiling an operation -----

  function InputOf(a: Action): Input
  {
    match a
    case Bootstrap(subject) => Input(None, Some(subject), None, None, None)
    case CreateRole(actor, r, name) => Input(Some(actor), None, Some(r), Some(name), None)
    case SetPermissions(actor, r, permissions) => Input(Some(actor), None, Some(r), None, Some(permissions))
    case DeleteRole(actor, r) => Input(Some(actor), None, Some(r), None, None)
    case AssignRole(actor, subject, r) => Input(Some(actor), Some(subject), Some(r), None, None)
    case RevokeRole(actor, subject, r) => Input(Some(actor), Some(subject), Some(r), None, None)
  }

  function FailureArms(a: Action): seq<Arm>
  {
    if a.Bootstrap? then
      [When(And(ScopePresent, OwnedByAnother), "scope_exists"),
       When(And(ScopePresent, Not(BootstrapComplete)), "invalid_bootstrap")]
    else
      var permission := if a.AssignRole? || a.RevokeRole? then BINDINGS_MANAGE else ROLES_MANAGE;
      [When(Not(ScopePresent), "scope_missing"), When(Not(ActorHolds(permission)), "forbidden")] + SpecificArms(a)
  }

  function SpecificArms(a: Action): seq<Arm>
    requires !a.Bootstrap?
  {
    match a
    case CreateRole(_, _, _) => [When(RolePresent, "role_exists")]
    case SetPermissions(_, _, _) => [When(Not(RolePresent), "role_missing"), When(RoleProtected, "protected_role")]
    case DeleteRole(_, _) => [When(Not(RolePresent), "role_missing"), When(RoleProtected, "protected_role")]
    case AssignRole(_, _, _) => [When(Not(RolePresent), "role_missing")]
    case RevokeRole(_, _, _) =>
      [When(Not(RolePresent), "role_missing"),
       When(And(And(RoleProtected, SubjectBound), AtMostOneBinding), "protected_binding")]
  }

  function ChangedCondition(a: Action): Condition
  {
    match a
    case Bootstrap(_) => Not(ScopePresent)
    case AssignRole(_, _, _) => Not(SubjectBound)
    case RevokeRole(_, _, _) => SubjectBound
    case SetPermissions(_, _, _) => GrantsDiffer
    case _ => Always
  }

  /** The gated writes of an operation, ending with the revision bump. */
  function Templates(a: Action): seq<Template>
  {
    (match a
     case Bootstrap(_) => [NewScope, NewBootstrapRole, NewBootstrapGrant(ROLES_MANAGE),
                           NewBootstrapGrant(BINDINGS_MANAGE), NewBootstrapBinding]
     case CreateRole(_, _, _) => [NewRole]
     case SetPermissions(_, _, _) => [ClearGrants, NewGrants]
     case DeleteRole(_, _) => [DropRole]
     case AssignRole(_, _, _) => [NewBinding]
     case RevokeRole(_, _, _) => [DropBinding])
    + [AdvanceRevision]
  }

  function Prologue(scope: ScopeKey, a: Action): seq<Statement>
  {
    [ClearWorkspace, OpenWorkspace(scope, InputOf(a)), Capture(FailureArms(a), ChangedCondition(a))]
  }

  function BatchFor(scope: ScopeKey, a: Action): seq<Statement>
  {
    Prologue(scope, a) + GatedAll(Templates(a)) + [ReadReceipt, ClearWorkspace]
  }

  // ----- The captured decision is the abstract verdict -----

  function Captured(t: Tables, scope: ScopeKey, a: Action): Operation
  {
    var o := Operation(scope, InputOf(a), None, 0, 0);
    o.(failure := CaseOf(FailureArms(a), t, o),
       changed := if Evaluate(ChangedCondition(a), t, o) then 1 else 0,
       revision := RevisionOrZero(t, scope))
  }

  /** What the capture leaves in the workspace, as the abstract verdict. */
  ghost predicate Says(o: Operation, current: Option<Policy>, verdict: Verdict)
  {
    && o.revision == RevisionOf(current)
    && match verdict
       case Deny(f) => o.failure == Some(FailureText(f))
       case Corrupt => o.failure == Some("invalid_bootstrap")
       case Keep => o.failure == None && o.changed == 0
       case Change(_) => o.failure == None && o.changed == 1
  }

  lemma CaptureIsVerdict(t: Tables, scope: ScopeKey, a: Action)
    requires Schema(t)
    ensures Says(Captured(t, scope, a), Lookup(t, scope), Judge(Lookup(t, scope), a))
  {
    if a.Bootstrap? {
      BootstrapCapture(t, scope, a);
    } else {
      AuthorizedCapture(t, scope, a);
    }
  }

  lemma AuthorizedCapture(t: Tables, scope: ScopeKey, a: Action)
    requires Schema(t) && !a.Bootstrap?
    ensures Says(Captured(t, scope, a), Lookup(t, scope), Judge(Lookup(t, scope), a))
  {
    var o, arms := Operation(scope, InputOf(a), None, 0, 0), FailureArms(a);
    assert arms == [arms[0], arms[1]] + SpecificArms(a);
    CaseOfPrefix(arms[0], arms[1], SpecificArms(a), t, o);
    assert Evaluate(arms[0].condition, t, o) == (scope !in t.scopes);
    assert Evaluate(arms[1].condition, t, o) == !Allowed(t, scope, a.actor, a.Needs());
    if scope in t.scopes {
      AllowedAgrees(t, scope, a.actor, a.Needs());
      AuthorizedVerdict(t, o, a);
    }
  }

  lemma BootstrapCapture(t: Tables, scope: ScopeKey, a: Action)
    requires Schema(t) && a.Bootstrap?
    ensures Says(Captured(t, scope, a), Lookup(t, scope), Judge(Lookup(t, scope), a))
  {
    var o, arms := Operation(scope, InputOf(a), None, 0, 0), FailureArms(a);
    CaseOfTwo(arms, t, o);
    assert Evaluate(ChangedCondition(a), t, o) == (scope !in t.scopes);
    assert Evaluate(arms[0].condition, t, o) == Evaluate(OwnedByAnother, t, o);
    assert Evaluate(Not(BootstrapComplete), t, o) == !Evaluate(BootstrapComplete, t, o);
    assert Evaluate(arms[1].condition, t, o) == (scope in t.scopes && !Evaluate(BootstrapComplete, t, o));
    if scope in t.scopes {
      BootstrapCompleteAgrees(t, scope);
    }
  }

  lemma CaseOfPrefix(one: Arm, two: Arm, rest: seq<Arm>, t: Tables, o: Operation)
    ensures CaseOf([one, two] + rest, t, o) ==
              if Evaluate(one.condition, t, o) then Some(one.failure)
              else if Evaluate(two.condition, t, o) then Some(two.failure)
              else CaseOf(rest, t, o)
  {
  }

  lemma CaseOfTwo(arms: seq<Arm>, t: Tables, o: Operation)
    requires 1 <= |arms| <= 2
    ensures CaseOf(arms, t, o) ==
              if Evaluate(arms[0].condition, t, o) then Some(arms[0].failure)
              else if |arms| == 2 && Evaluate(arms[1].condition, t, o) then Some(arms[1].failure)
              else None
  {
    if |arms| == 2 {
      assert arms[1..] == [arms[1]] && arms[1..][1..] == [];
    }
  }

  /** What the specific arms and the changed column say about an authorized operation. */
  ghost predicate SaysVerdict(failure: Option<string>, changed: bool, verdict: Verdict)
  {
    match verdict
    case Deny(f) => failure == Some(FailureText(f))
    case Corrupt => false
    case Keep => failure == None && !changed
    case Change(_) => failure == None && changed
  }

  lemma AuthorizedVerdict(t: Tables, o: Operation, a: Action)
    requires Schema(t) && o.scope in t.scopes && !a.Bootstrap? && o.input == InputOf(a)
    ensures SaysVerdict(CaseOf(SpecificArms(a), t, o), Evaluate(ChangedCondition(a), t, o),
                        JudgeAuthorized(Lookup(t, o.scope).value, a))
  {
    match a {
      case SetPermissions(_, _, _) => SetVerdict(t, o, a);
      case AssignRole(_, _, _) => AssignVerdict(t, o, a);
      case RevokeRole(_, _, _) => RevocationVerdict(t, o, a);
      case CreateRole(_, _, _) => RoleVerdict(t, o, a);
      case DeleteRole(_, _) => RoleVerdict(t, o, a);
    }
  }

  lemma RoleVerdict(t: Tables, o: Operation, a: Action)
    requires Schema(t) && o.scope in t.scopes && (a.CreateRole? || a.DeleteRole?) && o.input == InputOf(a)
    ensures SaysVerdict(CaseOf(SpecificArms(a), t, o), Evaluate(ChangedCondition(a), t, o),
                        JudgeAuthorized(Lookup(t, o.scope).value, a))
  {
    CaseOfTwo(SpecificArms(a), t, o);
    RoleConditions(t, o, a.role);
  }

  lemma SetVerdict(t: Tables, o: Operation, a: Action)
    requires Schema(t) && o.scope in t.scopes && a.SetPermissions? && o.input == InputOf(a)
    ensures SaysVerdict(CaseOf(SpecificArms(a), t, o), Evaluate(ChangedCondition(a), t, o),
                        JudgeAuthorized(Lookup(t, o.scope).value, a))
  {
    CaseOfTwo(SpecificArms(a), t, o);
    RoleConditions(t, o, a.role);
    QueriesAgree(t, o.scope, "", a.role);
    SetsDiffer(GrantedPermissions(t, o.scope, a.role), a.permissions);
  }

  lemma AssignVerdict(t: Tables, o: Operation, a: Action)
    requires Schema(t) && o.scope in t.scopes && a.AssignRole? && o.input == InputOf(a)
    ensures SaysVerdict(CaseOf(SpecificArms(a), t, o), Evaluate(ChangedCondition(a), t, o),
                        JudgeAuthorized(Lookup(t, o.scope).value, a))
  {
    CaseOfTwo(SpecificArms(a), t, o);
    RoleConditions(t, o, a.role);
    QueriesAgree(t, o.scope, a.subject, a.role);
  }

  lemma RevocationVerdict(t: Tables, o: Operation, a: Action)
    requires Schema(t) && o.scope in t.scopes && a.RevokeRole? && o.input == InputOf(a)
    ensures SaysVerdict(CaseOf(SpecificArms(a), t, o), Evaluate(ChangedCondition(a), t, o),
                        JudgeAuthorized(Lookup(t, o.scope).value, a))
  {
    CaseOfTwo(SpecificArms(a), t, o);
    RoleConditions(t, o, a.role);
    if RoleExists(t, o.scope, a.role) {
      RevokeVerdict(t, o, a.subject, a.role);
    }
  }

  lemma SetsDiffer(a: set<string>, b: set<string>)
    ensures a - b != {} || b - a != {} <==> a != b
  {
    if a - b == {} && b - a == {} {
      forall x ensures x in a <==> x in b {
        assert x !in a - b && x !in b - a;
      }
    }
  }

  lemma RoleConditions(t: Tables, o: Operation, r: string)
    requires Schema(t) && o.scope in t.scopes && o.input.role == Some(r)
    ensures var p := Lookup(t, o.scope).value;
            && (Evaluate(RolePresent, t, o) <==> r in p.roles)
            && (Evaluate(Not(RolePresent), t, o) <==> r !in p.roles)
            && (Evaluate(RoleProtected, t, o) <==> r in p.roles && p.roles[r].protected)
  {
    QueriesAgree(t, o.scope, "", r);
  }

  lemma RevokeVerdict(t: Tables, o: Operation, subject: string, r: string)
    requires Schema(t) && o.scope in t.scopes && RoleExists(t, o.scope, r)
    requires o.input.subject == Some(subject) && o.input.role == Some(r)
    ensures var p := Lookup(t, o.scope).value;
            && (Evaluate(SubjectBound, t, o) <==> Binding(subject, r) in p.bindings)
            && (Evaluate(And(And(RoleProtected, SubjectBound), AtMostOneBinding), t, o)
                <==> Binding(subject, r) in p.bindings && p.roles[r].protected && Holders(p, r) == {subject})
  {
    QueriesAgree(t, o.scope, subject, r);
    assert Evaluate(And(RoleProtected, SubjectBound), t, o)
        == (RoleIsProtected(t, o.scope, r) && Bound(t, o.scope, subject, r));
    assert Evaluate(And(And(RoleProtected, SubjectBound), AtMostOneBinding), t, o)
        == (Evaluate(And(RoleProtected, SubjectBound), t, o) && BindingCount(t, o.scope, r) <= 1);
    if Bound(t, o.scope, subject, r) {
      CountFindsLastHolder(t, o.scope, subject, r);
    }
  }

  // ----- The batch refines the step -----

  lemma PrologueCaptures(db: Db, scope: ScopeKey, a: Action)
    ensures RunBatch(db, Prologue(scope, a))
            == Committed(Db(db.tables, Some(Captured(db.tables, scope, a))), [[], [], []])
  {
    var batch, blank := Prologue(scope, a), Operation(scope, InputOf(a), None, 0, 0);
    var cleared, blankDb := Db(db.tables, None), Db(db.tables, Some(blank));
    assert Execute(blankDb, batch[2]) == Done(Db(db.tables, Some(Captured(db.tables, scope, a))), []);
    RunThree(db, batch[0], batch[1], batch[2], cleared, blankDb, Db(db.tables, Some(Captured(db.tables, scope, a))));
  }

  lemma TemplatesRender(a: Action)
    ensures forall i :: 0 <= i < |Templates(a)| ==> !Render(Templates(a)[i], InputOf(a)).NotNullRefuses?
  {
  }

  lemma RowsOneMore(ts: seq<Template>, last: Template, i: Input)
    ensures RowsOf(ts + [last], i) ==
              RowsOf(ts, i) + (if Render(last, i).OneWrite? then [Render(last, i).write] else [])
  {
    assert (ts + [last])[..|ts|] == ts;
  }

  lemma RowsOfOne(one: Template, i: Input)
    requires Render(one, i).OneWrite?
    ensures RowsOf([one], i) == [Render(one, i).write]
  {
  }

  /** The gated statements of an operation amount to its row statements and the bump. */
  lemma TemplatesMean(p: Option<Policy>, a: Action)
    ensures ActAll(p, RowsOf(Templates(a), InputOf(a))) == ActAll(p, WritesOf(a) + [BumpRevision])
  {
    match a {
      case Bootstrap(subject) => BootstrapRows(subject);
      case SetPermissions(_, _, _) => SetRows(p, a);
      case _ => SingleRow(a);
    }
  }

  lemma SetRows(p: Option<Policy>, a: Action)
    requires a.SetPermissions?
    ensures ActAll(p, RowsOf(Templates(a), InputOf(a))) == ActAll(p, WritesOf(a) + [BumpRevision])
  {
    SetTemplates(a);
    if a.permissions == {} {
      EmptyInsertIsVacuous(p, a.role);
    }
  }

  lemma SetTemplates(a: Action)
    requires a.SetPermissions?
    ensures RowsOf(Templates(a), InputOf(a)) ==
              (if a.permissions == {} then [DeleteGrants(a.role)] else WritesOf(a)) + [BumpRevision]
  {
    var i := InputOf(a);
    RowsOfOne(ClearGrants, i);
    RowsOneMore([ClearGrants], NewGrants, i);
    assert [ClearGrants] + [NewGrants] == [ClearGrants, NewGrants];
    RowsOneMore([ClearGrants, NewGrants], AdvanceRevision, i);
    assert [DeleteGrants(a.role)] + [InsertGrants(a.role, a.permissions)] == WritesOf(a);
  }

  lemma SingleRow(a: Action)
    requires !a.Bootstrap? && !a.SetPermissions?
    ensures RowsOf(Templates(a), InputOf(a)) == WritesOf(a) + [BumpRevision]
  {
    var one, i := Templates(a)[0], InputOf(a);
    RowsOfOne(one, i);
    RowsOneMore([one], AdvanceRevision, i);
    assert WritesOf(a) == [Render(one, i).write];
    assert Templates(a) == [one] + [AdvanceRevision];
  }

  lemma BootstrapRows(subject: string)
    ensures RowsOf(Templates(Bootstrap(subject)), InputOf(Bootstrap(subject)))
            == WritesOf(Bootstrap(subject)) + [BumpRevision]
  {
    var i := InputOf(Bootstrap(subject));
    var t1 := [NewScope];
    var t2 := t1 + [NewBootstrapRole];
    var t3 := t2 + [NewBootstrapGrant(ROLES_MANAGE)];
    var t4 := t3 + [NewBootstrapGrant(BINDINGS_MANAGE)];
    var t5 := t4 + [NewBootstrapBinding];
    RowsOfOne(NewScope, i);
    RowsOneMore(t1, NewBootstrapRole, i);
    RowsOneMore(t2, NewBootstrapGrant(ROLES_MANAGE), i);
    RowsOneMore(t3, NewBootstrapGrant(BINDINGS_MANAGE), i);
    RowsOneMore(t4, NewBootstrapBinding, i);
    RowsOneMore(t5, AdvanceRevision, i);
    assert Templates(Bootstrap(subject)) == t5 + [AdvanceRevision];
    assert RowsOf(t5, i) == WritesOf(Bootstrap(subject));
  }

  lemma EmptyInsertIsVacuous(p: Option<Policy>, r: string)
    ensures ActAll(p, [DeleteGrants(r)] + [BumpRevision])
            == ActAll(p, [DeleteGrants(r), InsertGrants(r, {})] + [BumpRevision])
  {
    ActOneMore(p, [DeleteGrants(r)], BumpRevision);
    ActOneMore(p, [DeleteGrants(r), InsertGrants(r, {})], BumpRevision);
    ActOneMore(p, [DeleteGrants(r)], InsertGrants(r, {}));
    assert [DeleteGrants(r)] + [InsertGrants(r, {})] == [DeleteGrants(r), InsertGrants(r, {})];
  }

  /** Where the batch stands before its receipt is read. */
  lemma WritesRefineStep(db: Db, scope: ScopeKey, a: Action)
    requires Schema(db.tables)
    ensures var end, current := RunBatch(db, Prologue(scope, a) + GatedAll(Templates(a))), Lookup(db.tables, scope);
            && (end.Aborted? <==> Judge(current, a).Change? && RevisionOf(current) == MAX_REVISION)
            && (end.Committed? ==>
                  && end.db.workspace == Some(Captured(db.tables, scope, a))
                  && Schema(end.db.tables)
                  && View(end.db.tables) == Store(View(db.tables), scope, Apply(current, a).0)
                  && (!Judge(current, a).Change? ==> end.db.tables == db.tables)
                  && |end.results| == 3 + |Templates(a)|)
  {
    CaptureIsVerdict(db.tables, scope, a);
    PrologueCaptures(db, scope, a);
    TemplatesRender(a);
    GatedStatements(db, Prologue(scope, a), Templates(a));
    if Judge(Lookup(db.tables, scope), a).Change? {
      OpenGate(db.tables, scope, a);
    } else {
      NothingChanged(db.tables, scope);
    }
  }

  /** What the gated statements do when the decision is a change. */
  lemma OpenGate(t: Tables, scope: ScopeKey, a: Action)
    requires Schema(t) && Judge(Lookup(t, scope), a).Change?
    ensures var current, end := Lookup(t, scope), PutAll(t, scope, RowsOf(Templates(a), InputOf(a)));
            && (end.None? <==> RevisionOf(current) == MAX_REVISION)
            && (end.Some? ==> Schema(end.value) && View(end.value) == Store(View(t), scope, Apply(current, a).0))
  {
    var current := Lookup(t, scope);
    PutAllActs(t, scope, RowsOf(Templates(a), InputOf(a)));
    TemplatesMean(current, a);
    WritesCarryOut(current, a);
    ChangeKeepsRevision(current, a);
    ChangeAnswers(current, a);
  }

  lemma ChangeAnswers(current: Option<Policy>, a: Action)
    requires Judge(current, a).Change? && 0 <= RevisionOf(current) <= MAX_REVISION
    ensures Apply(current, a).1.Failed? <==> RevisionOf(current) == MAX_REVISION
    ensures Apply(current, a).1.Failed? || Apply(current, a).1.Accepted?
  {
    ChangeKeepsRevision(current, a);
  }

  lemma ReceiptEndsBatch(db: Db, middle: seq<Statement>)
    ensures RunBatch(db, middle).Aborted? ==> RunBatch(db, middle + [ReadReceipt, ClearWorkspace]).Aborted?
    ensures RunBatch(db, middle).Committed? && RunBatch(db, middle).db.workspace.Some? ==>
      var d, o := RunBatch(db, middle).db, RunBatch(db, middle).db.workspace.value;
      RunBatch(db, middle + [ReadReceipt, ClearWorkspace])
      == Committed(d.(workspace := None), RunBatch(db, middle).results + [[Receipt(o)]] + [[]])
  {
    RunOneMore(db, middle, ReadReceipt);
    RunOneMore(db, middle + [ReadReceipt], ClearWorkspace);
    assert middle + [ReadReceipt] + [ClearWorkspace] == middle + [ReadReceipt, ClearWorkspace];
  }

  /** The whole batch, from any tables that satisfy the schema and any leftover workspace,
      aborts exactly when an effective change meets the largest revision, so no primary key,
      foreign key or NOT NULL constraint is ever what refuses it. */
  lemma BatchAbortsOnlyOnOverflow(db: Db, scope: ScopeKey, a: Action)
    requires Schema(db.tables)
    ensures RunBatch(db, BatchFor(scope, a)).Aborted?
            <==> Judge(Lookup(db.tables, scope), a).Change? && RevisionOf(Lookup(db.tables, scope)) == MAX_REVISION
  {
    BatchBeforeReceipt(db, scope, a);
  }

  lemma BatchBeforeReceipt(db: Db, scope: ScopeKey, a: Action)
    requires Schema(db.tables)
    ensures var end, current := RunBatch(db, BatchFor(scope, a)), Lookup(db.tables, scope);
            && (end.Aborted? <==> Judge(current, a).Change? && RevisionOf(current) == MAX_REVISION)
            && (end.Committed? ==>
                  && end.db.workspace == None
                  && Schema(end.db.tables)
                  && View(end.db.tables) == Store(View(db.tables), scope, Apply(current, a).0)
                  && (!Judge(current, a).Change? ==> end.db.tables == db.tables)
                  && |end.results| >= 2
                  && end.results[|end.results|-2] == [Receipt(Captured(db.tables, scope, a))])
  {
    var middle := Prologue(scope, a) + GatedAll(Templates(a));
    WritesRefineStep(db, scope, a);
    assert BatchFor(scope, a) == middle + [ReadReceipt, ClearWorkspace];
    ReceiptEndsBatch(db, middle);
  }

  /** The batch refines the abstract step: if it commits, it leaves the policies of the step
      and an empty workspace, it has written nothing unless the decision was a change, and its
      receipt decodes to the reply of the step; if it aborts, the step fails without effect. */
  lemma BatchRefinesStep(db: Db, scope: ScopeKey, a: Action)
    requires Schema(db.tables)
    ensures var end, current := RunBatch(db, BatchFor(scope, a)), Lookup(db.tables, scope);
            && (end.Aborted? ==> Apply(current, a) == (current, Failed(DatabaseFailure)))
            && (end.Committed? ==>
                  && end.db.workspace == None
                  && Schema(end.db.tables)
                  && View(end.db.tables) == Store(View(db.tables), scope, Apply(current, a).0)
                  && (!Judge(current, a).Change? ==> end.db.tables == db.tables)
                  && Decode(end.results) == Apply(current, a).1)
  {
    BatchBeforeReceipt(db, scope, a);
    var end, current := RunBatch(db, BatchFor(scope, a)), Lookup(db.tables, scope);
    if end.Committed? {
      ReceiptDecodes(db.tables, scope, a, end.results);
    } else {
      OverflowFails(current, a);
    }
  }

  lemma OverflowFails(current: Option<Policy>, a: Action)
    requires Judge(current, a).Change? && RevisionOf(current) == MAX_REVISION
    ensures Apply(current, a) == (current, Failed(DatabaseFailure))
  {
    ChangeKeepsRevision(current, a);
  }

  lemma ChangeKeepsRevision(current: Option<Policy>, a: Action)
    requires Judge(current, a).Change?
    ensures Judge(current, a).policy.revision == RevisionOf(current)
  {
  }

  lemma ReceiptDecodes(t: Tables, scope: ScopeKey, a: Action, results: seq<seq<Row>>)
    requires Schema(t)
    requires |results| >= 2 && results[|results|-2] == [Receipt(Captured(t, scope, a))]
    requires Judge(Lookup(t, scope), a).Change? ==> RevisionOf(Lookup(t, scope)) < MAX_REVISION
    ensures Decode(results) == Apply(Lookup(t, scope), a).1
  {
    var current := Lookup(t, scope);
    CaptureIsVerdict(t, scope, a);
    if Judge(current, a).Change? {
      ChangeKeepsRevision(current, a);
    }
    SaidDecodes(Captured(t, scope, a), current, Judge(current, a), results);
  }

  /** The receipt of a decision decodes to the reply that the decision calls for. */
  lemma SaidDecodes(o: Operation, current: Option<Policy>, verdict: Verdict, results: seq<seq<Row>>)
    requires Says(o, current, verdict) && 0 <= o.revision <= MAX_REVISION && (o.changed == 0 || o.changed == 1)
    requires verdict.Change? ==> o.revision < MAX_REVISION
    requires |results| >= 2 && results[|results|-2] == [Receipt(o)]
    ensures Decode(results) ==
              match verdict
              case Deny(f) => Rejected(f)
              case Corrupt => Failed(InvalidStoredState)
              case Keep => Accepted(Mutation(false, o.revision))
              case Change(_) => Accepted(Mutation(true, o.revision + 1))
  {
    var row := Receipt(o);
    ReceiptColumns(o);
    match verdict {
      case Deny(f) => FailureRoundTrip(row, f);
      case Corrupt => CorruptDecodesAsNothing(row);
      case Keep =>
      case Change(_) =>
    }
  }

  lemma ReceiptColumns(o: Operation)
    requires 0 <= o.revision && (o.changed == 0 || o.changed == 1)
    requires o.failure.None? ==> o.revision + o.changed <= MAX_REVISION
    ensures Column(Receipt(o), "failure") == if o.failure.None? then Null else Text(o.failure.value)
    ensures o.failure.None? ==> Domain(Receipt(o)) == Parsed(None)
    ensures Flag(Receipt(o), "changed") == Parsed(o.changed == 1)
    ensures o.failure.None? ==> Revision(Receipt(o)) == Parsed(o.revision + o.changed)
  {
    var row := Receipt(o);
    assert "failure"[0] != "changed"[0] && "failure"[0] != "revision"[0] && "changed"[0] != "revision"[0];
    assert row["changed"] == Integer(o.changed);
    if o.failure.None? {
      RevisionRoundTrip(o.revision + o.changed, "");
    }
  }

  // ----- The store -----

  /** The batch as a transaction: what it leaves and what its results say, in one place. */
  lemma TransactionIsStep(db: Db, scope: ScopeKey, a: Action)
    requires Schema(db.tables)
    ensures var (q, reply) := Apply(Lookup(db.tables, scope), a);
            match RunBatch(db, BatchFor(scope, a))
            case Aborted => reply == Failed(DatabaseFailure) && View(db.tables) == Store(View(db.tables), scope, q)
            case Committed(d, results) =>
              && d.workspace == None && Schema(d.tables) && Decode(results) == reply
              && View(d.tables) == Store(View(db.tables), scope, q)
              && (!reply.Accepted? ==> d.tables == db.tables)
  {
    var current := Lookup(db.tables, scope);
    BatchAbortsOnlyOnOverflow(db, scope, a);
    BatchRefinesStep(db, scope, a);
    NothingChanged(db.tables, scope);
    if Judge(current, a).Change? {
      ChangeAnswers(current, a);
    }
  }

  // What becomes of a submitted batch: it never arrives, its result arrives, or it is executed
  // and the result is lost.
  datatype Delivery = NotSent | Delivered | ReplyLost

  class D1Database {
    var db: Db

    constructor ()
      ensures db == Db(EMPTY_TABLES, None)
    {
      db := Db(EMPTY_TABLES, None);
    }

    /** One transaction: the statements in order, and the old state back if one is refused. */
    method Batch(batch: seq<Statement>) returns (results: Option<seq<seq<Row>>>)
      modifies this
      ensures match RunBatch(old(db), batch)
              case Aborted => db == old(db) && results == None
              case Committed(d, rows) => db == d && results == Some(rows)
    {
      var saved := db;
      var rows := [];
      for i := 0 to |batch|
        invariant RunBatch(old(db), batch[..i]) == Committed(db, rows)
        invariant saved == old(db)
      {
        assert batch[..i+1] == batch[..i] + [batch[i]];
        RunOneMore(saved, batch[..i], batch[i]);
        match Execute(db, batch[i])
        case Refused =>
          RunAborted(saved, batch, i + 1);
          db := saved;
          return None;
        case Done(next, out) =>
          db := next;
          rows := rows + [out];
      }
      assert batch[..|batch|] == batch;
      results := Some(rows);
    }

    /** Compiles an operation into its batch. */
    method Compile(scope: ScopeKey, action: Action) returns (batch: seq<Statement>)
      ensures batch == BatchFor(scope, action)
    {
      batch := [ClearWorkspace, OpenWorkspace(scope, InputOf(action))];
      batch := batch + [Capture(FailureArms(action), ChangedCondition(action))];
      match action {
        case Bootstrap(_) =>
          batch := batch + [Gated(NewScope)];
          batch := batch + [Gated(NewBootstrapRole)];
          var permissions := [ROLES_MANAGE, BINDINGS_MANAGE];
          for i := 0 to 2
            invariant batch == Prologue(scope, action) + GatedAll(Templates(action)[..2 + i])
          {
            batch := batch + [Gated(NewBootstrapGrant(permissions[i]))];
          }
          batch := batch + [Gated(NewBootstrapBinding)];
        case CreateRole(_, _, _) =>
          batch := batch + [Gated(NewRole)];
        case SetPermissions(_, _, _) =>
          batch := batch + [Gated(ClearGrants)];
          batch := batch + [Gated(NewGrants)];
        case DeleteRole(_, _) =>
          batch := batch + [Gated(DropRole)];
        case AssignRole(_, _, _) =>
          batch := batch + [Gated(NewBinding)];
        case RevokeRole(_, _, _) =>
          batch := batch + [Gated(DropBinding)];
      }
      batch := batch + [Gated(AdvanceRevision)];
      batch := batch + [ReadReceipt];
      batch := batch + [ClearWorkspace];
    }

    /** One administration operation. Whatever the delivery, the policies are the old ones or
        those of the whole step; a reply that arrives is the reply of the step. */
    method Mutation(scope: ScopeKey, action: Action, delivery: Delivery) returns (reply: Reply)
      requires Schema(db.tables)
      modifies this
      ensures Schema(db.tables)
      ensures delivery == NotSent ==> db == old(db) && reply == Failed(DatabaseFailure)
      ensures delivery != NotSent ==>
                View(db.tables) == Store(View(old(db.tables)), scope, Apply(Lookup(old(db.tables), scope), action).0)
      ensures delivery == ReplyLost ==> reply == Failed(DatabaseFailure)
      ensures delivery == Delivered ==> reply == Apply(Lookup(old(db.tables), scope), action).1
      ensures delivery == Delivered && (reply.Rejected? || reply.Failed?) ==> db.tables == old(db.tables)
      ensures db.workspace == None || db == old(db)
    {
      var batch := Compile(scope, action);
      TransactionIsStep(db, scope, action);
      if delivery == NotSent {
        return Failed(DatabaseFailure);
      }
      var results := Batch(batch);
      if results.None? || delivery == ReplyLost {
        return Failed(DatabaseFailure);
      }
      reply := Decode(results.value);
    }
  }

  lemma NothingChanged(t: Tables, scope: ScopeKey)
    ensures View(t) == Store(View(t), scope, Lookup(t, scope))
  {
  }
}
