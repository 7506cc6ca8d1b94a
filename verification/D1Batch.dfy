/** The batch language of the D1 store: SQL statements over the policy tables and a one-row
    workspace, and the interpreter that runs a batch as one transaction. */
module D1Batch {
  import opened AccessPolicy
  import opened Relational
  import opened RevisionText

  // The workspace row. Columns that the operation does not use are NULL.
  datatype Operation = Operation(scope: ScopeKey, input: Input, failure: Option<string>, changed: int, revision: int)

  datatype Input = Input(actor: Option<string>, subject: Option<string>, role: Option<string>,
                         name: Option<string>, permissions: Option<set<string>>)

  datatype Db = Db(tables: Tables, workspace: Option<Operation>)

  // Conditions of the captured decision, read off the workspace row and the policy tables.
  datatype Condition =
    | Always
    | Not(c: Condition)
    | And(a: Condition, b: Condition)
    | ScopePresent
    | OwnedByAnother
    | BootstrapComplete
    | ActorHolds(permission: string)
    | RolePresent
    | RoleProtected
    | SubjectBound
    | AtMostOneBinding
    | GrantsDiffer

  // One arm of a CASE expression: the first arm whose condition holds gives the failure.
  datatype Arm = When(condition: Condition, failure: string)

  // Row statements, with their columns taken from the workspace row.
  datatype Template =
    | NewScope
    | NewBootstrapRole
    | NewBootstrapGrant(permission: string)
    | NewBootstrapBinding
    | NewRole
    | ClearGrants
    | NewGrants
    | DropRole
    | NewBinding
    | DropBinding
    | AdvanceRevision

  datatype Statement =
    | ClearWorkspace
    | OpenWorkspace(scope: ScopeKey, input: Input)
    | Capture(arms: seq<Arm>, changed: Condition)
    | Gated(template: Template)
    | ReadReceipt

  datatype Value = Null | Integer(i: int) | Text(text: string)
  type Row = map<string, Value>

  // ----- Evaluating the decision -----

  predicate Evaluate(c: Condition, t: Tables, o: Operation)
  {
    match c
    case Always => true
    case Not(x) => !Evaluate(x, t, o)
    case And(x, y) => Evaluate(x, t, o) && Evaluate(y, t, o)
    case ScopePresent => ScopeExists(t, o.scope)
    case OwnedByAnother =>
      o.scope in t.scopes && o.input.subject.Some? && t.scopes[o.scope].bootstrapSubject != o.input.subject.value
    case BootstrapComplete => BootstrapIsComplete(t, o.scope)
    case ActorHolds(permission) => o.input.actor.Some? && Allowed(t, o.scope, o.input.actor.value, permission)
    case RolePresent => o.input.role.Some? && RoleExists(t, o.scope, o.input.role.value)
    case RoleProtected => o.input.role.Some? && RoleIsProtected(t, o.scope, o.input.role.value)
    case SubjectBound =>
      o.input.role.Some? && o.input.subject.Some? && Bound(t, o.scope, o.input.subject.value, o.input.role.value)
    case AtMostOneBinding => o.input.role.None? || BindingCount(t, o.scope, o.input.role.value) <= 1
    case GrantsDiffer =>
      var granted := if o.input.role.None? then {} else GrantedPermissions(t, o.scope, o.input.role.value);
      var wanted := if o.input.permissions.None? then {} else o.input.permissions.value;
      granted - wanted != {} || wanted - granted != {}
  }

  function CaseOf(arms: seq<Arm>, t: Tables, o: Operation): Option<string>
  {
    if arms == [] then None
    else if Evaluate(arms[0].condition, t, o) then Some(arms[0].failure)
    else CaseOf(arms[1..], t, o)
  }

  // ----- Running a batch -----

  datatype Rendered = NotNullRefuses | NoRow | OneWrite(write: Write)

  /** A template with the workspace columns filled in. */
  function Render(template: Template, i: Input): Rendered
  {
    match template
    case NewScope => if i.subject.None? then NotNullRefuses else OneWrite(InsertScope(i.subject.value))
    case NewBootstrapRole => OneWrite(InsertRole(BOOTSTRAP_ROLE_ID, BOOTSTRAP_ROLE_NAME, true))
    case NewBootstrapGrant(permission) => OneWrite(InsertGrants(BOOTSTRAP_ROLE_ID, {permission}))
    case NewBootstrapBinding =>
      if i.subject.None? then NotNullRefuses else OneWrite(InsertBinding(i.subject.value, BOOTSTRAP_ROLE_ID))
    case NewRole =>
      if i.role.None? || i.name.None? then NotNullRefuses else OneWrite(InsertRole(i.role.value, i.name.value, false))
    case ClearGrants => if i.role.None? then NoRow else OneWrite(DeleteGrants(i.role.value))
    case NewGrants =>
      if i.permissions.None? || i.permissions.value == {} then NoRow
      else if i.role.None? then NotNullRefuses
      else OneWrite(InsertGrants(i.role.value, i.permissions.value))
    case DropRole => if i.role.None? then NoRow else OneWrite(RemoveRole(i.role.value))
    case NewBinding =>
      if i.role.None? || i.subject.None? then NotNullRefuses
      else OneWrite(InsertBinding(i.subject.value, i.role.value))
    case DropBinding =>
      if i.role.None? || i.subject.None? then NoRow else OneWrite(DeleteBinding(i.subject.value, i.role.value))
    case AdvanceRevision => OneWrite(BumpRevision)
  }

  /** The captured gate: admitted, and effective. */
  predicate Applies(o: Operation) { o.failure.None? && o.changed == 1 }

  function RevisionOrZero(t: Tables, s: ScopeKey): int
  {
    if s in t.scopes then t.scopes[s].revision else 0
  }

  // SQLite turns an integer sum that overflows into a real number.
  function IntegerText(n: nat): string
  {
    if n <= MAX_REVISION then Decimal(n) else "9.22337203685478e+18"
  }

  function Receipt(o: Operation): Row
  {
    map["failure" := if o.failure.None? then Null else Text(o.failure.value),
        "changed" := Integer(o.changed),
        "revision" := Text(var n := o.revision + (if o.failure.None? then o.changed else 0);
                           if n < 0 then "-" + IntegerText(-n) else IntegerText(n))]
  }

  datatype Executed = Refused | Done(db: Db, rows: seq<Row>)

  function Execute(db: Db, stmt: Statement): Executed
  {
    match stmt
    case ClearWorkspace => Done(db.(workspace := None), [])
    case OpenWorkspace(scope, input) =>
      if db.workspace.Some? then Refused
      else Done(db.(workspace := Some(Operation(scope, input, None, 0, 0))), [])
    case Capture(arms, changed) =>
      if db.workspace.None? then Done(db, [])
      else
        var o := db.workspace.value;
        Done(db.(workspace := Some(o.(
               failure := CaseOf(arms, db.tables, o),
               changed := if Evaluate(changed, db.tables, o) then 1 else 0,
               revision := RevisionOrZero(db.tables, o.scope)))), [])
    case Gated(template) =>
      if db.workspace.None? || !Applies(db.workspace.value) then Done(db, [])
      else (match Render(template, db.workspace.value.input)
            case NotNullRefuses => Refused
            case NoRow => Done(db, [])
            case OneWrite(w) =>
              var t := Put(db.tables, db.workspace.value.scope, w);
              if t.None? then Refused else Done(db.(tables := t.value), []))
    case ReadReceipt => Done(db, if db.workspace.None? then [] else [Receipt(db.workspace.value)])
  }

  datatype Outcome = Aborted | Committed(db: Db, results: seq<seq<Row>>)

  /** All statements in order, or none of them. */
  function RunBatch(db: Db, batch: seq<Statement>): Outcome
  {
    if batch == [] then Committed(db, [])
    else
      match RunBatch(db, batch[..|batch|-1])
      case Aborted => Aborted
      case Committed(d, results) =>
        match Execute(d, batch[|batch|-1])
        case Refused => Aborted
        case Done(e, rows) => Committed(e, results + [rows])
  }

  lemma RunOneMore(db: Db, batch: seq<Statement>, stmt: Statement)
    ensures RunBatch(db, batch + [stmt]) ==
              match RunBatch(db, batch)
              case Aborted => Aborted
              case Committed(d, results) =>
                match Execute(d, stmt)
                case Refused => Aborted
                case Done(e, rows) => Committed(e, results + [rows])
  {
    assert (batch + [stmt])[..|batch|] == batch;
  }

  lemma {:induction false} RunAborted(db: Db, batch: seq<Statement>, i: nat)
    requires i <= |batch| && RunBatch(db, batch[..i]).Aborted?
    ensures RunBatch(db, batch).Aborted?
  {
    if i < |batch| {
      assert batch[..|batch|-1][..i] == batch[..i];
      RunAborted(db, batch[..|batch|-1], i);
    } else {
      assert batch[..i] == batch;
    }
  }

  function GatedAll(templates: seq<Template>): (batch: seq<Statement>)
    ensures |batch| == |templates|
    ensures forall i :: 0 <= i < |templates| ==> batch[i] == Gated(templates[i])
  {
    seq(|templates|, i requires 0 <= i < |templates| => Gated(templates[i]))
  }

  function RowsOf(templates: seq<Template>, i: Input): seq<Write>
  {
    if templates == [] then []
    else
      var init := RowsOf(templates[..|templates|-1], i);
      match Render(templates[|templates|-1], i)
      case OneWrite(w) => init + [w]
      case _ => init
  }

  lemma RunThree(db: Db, a: Statement, b: Statement, c: Statement, d1: Db, d2: Db, d3: Db)
    requires Execute(db, a) == Done(d1, []) && Execute(d1, b) == Done(d2, []) && Execute(d2, c) == Done(d3, [])
    ensures RunBatch(db, [a, b, c]) == Committed(d3, [[], [], []])
  {
    RunOneMore(db, [], a);
    RunOneMore(db, [a], b);
    RunOneMore(db, [a, b], c);
    assert [] + [a] == [a] && [a] + [b] == [a, b] && [a, b] + [c] == [a, b, c];
  }

  /** After a capture that left the row `o` over the tables `t`, the statements so far stand where
      the given row statements lead. */
  ghost predicate Stands(end: Outcome, t: Tables, o: Operation, ws: seq<Write>, statements: nat)
  {
    && (end.Aborted? <==> PutAll(t, o.scope, ws).None?)
    && (end.Committed? ==> end.db == Db(PutAll(t, o.scope, ws).value, Some(o)) && |end.results| == statements)
  }

  lemma GatedOneMore(db: Db, batch: seq<Statement>, t: Tables, o: Operation, ws: seq<Write>, template: Template)
    requires Stands(RunBatch(db, batch), t, o, ws, |batch|) && !Render(template, o.input).NotNullRefuses?
    ensures var more := Applies(o) && Render(template, o.input).OneWrite?;
            Stands(RunBatch(db, batch + [Gated(template)]), t, o,
                   if more then ws + [Render(template, o.input).write] else ws, |batch| + 1)
  {
    RunOneMore(db, batch, Gated(template));
    if Applies(o) && Render(template, o.input).OneWrite? {
      PutOneMore(t, o.scope, ws, Render(template, o.input).write);
    }
  }

  /** Nothing after the capture changes the workspace row, so the gate is decided once; while it
      is shut every gated statement is vacuous; while it is open they issue their row
      statements on the scope of the workspace. */
  lemma {:induction false} GatedStatements(db: Db, before: seq<Statement>, templates: seq<Template>)
    requires RunBatch(db, before).Committed? && RunBatch(db, before).db.workspace.Some?
    requires forall i :: 0 <= i < |templates| ==>
               !Render(templates[i], RunBatch(db, before).db.workspace.value.input).NotNullRefuses?
    ensures var d, o := RunBatch(db, before).db, RunBatch(db, before).db.workspace.value;
            var ws := if Applies(o) then RowsOf(templates, o.input) else [];
            Stands(RunBatch(db, before + GatedAll(templates)), d.tables, o, ws, |before| + |templates|)
  {
    var d, o := RunBatch(db, before).db, RunBatch(db, before).db.workspace.value;
    if templates == [] {
      ResultPerStatement(db, before);
      assert before + GatedAll(templates) == before;
    } else {
      var init, last := templates[..|templates|-1], templates[|templates|-1];
      GatedStatements(db, before, init);
      assert before + GatedAll(templates) == before + GatedAll(init) + [Gated(last)];
      GatedOneMore(db, before + GatedAll(init), d.tables, o, if Applies(o) then RowsOf(init, o.input) else [], last);
    }
  }

  lemma {:induction false} ResultPerStatement(db: Db, batch: seq<Statement>)
    ensures RunBatch(db, batch).Committed? ==> |RunBatch(db, batch).results| == |batch|
  {
    if batch != [] {
      ResultPerStatement(db, batch[..|batch|-1]);
    }
  }

  /** EXISTS protected role, EXISTS binding, and both manage grants counted among the rows. */
  predicate BootstrapIsComplete(t: Tables, s: ScopeKey)
  {
    && RoleIsProtected(t, s, BOOTSTRAP_ROLE_ID)
    && (exists b :: b in t.bindings && b.scope == s && b.role == BOOTSTRAP_ROLE_ID)
    && |set g | g in t.grants && g.scope == s && g.role == BOOTSTRAP_ROLE_ID
              && (g.permission == ROLES_MANAGE || g.permission == BINDINGS_MANAGE)| == 2
  }

  lemma BootstrapCompleteAgrees(t: Tables, s: ScopeKey)
    requires Schema(t) && s in t.scopes
    ensures BootstrapIsComplete(t, s) <==> BootstrapStands(Lookup(t, s).value)
  {
    ManagePermissionsDiffer();
    var p := Lookup(t, s).value;
    QueriesAgree(t, s, "", BOOTSTRAP_ROLE_ID);
    GrantedPermissionsHas(t, s, BOOTSTRAP_ROLE_ID, ROLES_MANAGE);
    GrantedPermissionsHas(t, s, BOOTSTRAP_ROLE_ID, BINDINGS_MANAGE);
    HoldersAreBindingRows(t, s, BOOTSTRAP_ROLE_ID);
    var one, two := GrantRow(s, BOOTSTRAP_ROLE_ID, ROLES_MANAGE), GrantRow(s, BOOTSTRAP_ROLE_ID, BINDINGS_MANAGE);
    var found := set g | g in t.grants && g.scope == s && g.role == BOOTSTRAP_ROLE_ID
                         && (g.permission == ROLES_MANAGE || g.permission == BINDINGS_MANAGE);
    assert found <= {one, two};
    PairCounted(found, one, two);
  }
}
