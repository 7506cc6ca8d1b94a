/** The read operations of both backends as queries over their tables, and what they amount to
    on the policy of a scope. */
module DirectoryReads {
  import opened AccessPolicy
  import opened Ordering
  import opened PolicyRuns
  import opened Relational
  import opened RevisionText
  import opened D1Batch
  import opened D1Store
  import opened Directory

  datatype Answer<+T> = Answered(value: T) | Declined(failure: DomainFailure) | Broken(error: StoreError)

  datatype Decision = Decision(allowed: bool, revision: int)

  // ----- The answers, on policies -----

  /** A scope that was never bootstrapped allows nothing, at revision 0. */
  function DecisionOn(p: Option<Policy>, subject: string, permission: string): Decision
  {
    match p
    case None => Decision(false, 0)
    case Some(q) => Decision(Holds(q, subject, permission), q.revision)
  }

  function PageOn(p: Option<Policy>, f: Filter, cursor: Option<string>, limit: nat): Answer<Page>
  {
    if p.None? then Declined(ScopeNotBootstrapped) else Answered(PageOf(p.value, f, cursor, limit))
  }

  function RoleOn(p: Option<Policy>, role: string): Answer<(DirectoryRole, int)>
  {
    if p.None? then Declined(ScopeNotBootstrapped)
    else if role !in p.value.roles then Declined(RoleNotFound)
    else Answered((Entry(p.value, role), p.value.revision))
  }

  // ----- D1 -----

  // A result row, with its JSON array of permissions read as a list.
  datatype Record = Record(columns: Row, permissions: seq<string>)

  // CAST(.. AS TEXT)
  function IntegerColumn(n: int): Value
  {
    Text(if n < 0 then "-" + Decimal(-n) else Decimal(n))
  }

  function FlagColumn(b: bool): Value { Integer(if b then 1 else 0) }

  function RolesSelected(t: Tables, s: ScopeKey, f: Filter, cursor: Option<string>): (ids: set<string>)
    ensures forall r :: r in ids ==> RoleKey(s, r) in t.roles
  {
    set k | k in t.roles && k.scope == s && (f.role.None? || k.role == f.role.value)
            && (f.subject.None? || Bound(t, s, f.subject.value, k.role)) && Past(cursor, k.role) :: k.role
  }

  function RoleRecord(t: Tables, s: ScopeKey, r: string): Record
    requires s in t.scopes && RoleKey(s, r) in t.roles
  {
    var row := t.roles[RoleKey(s, r)];
    Record(map["revision" := IntegerColumn(t.scopes[s].revision), "role_id" := Text(r),
               "name" := Text(row.name), "protected" := FlagColumn(row.protected)],
           Sorted(GrantedPermissions(t, s, r)))
  }

  /** The directory query: the scope LEFT JOINed with its selected roles, ordered and limited;
      without any role there is one row with NULLs. */
  function DirectoryRecords(t: Tables, s: ScopeKey, f: Filter, cursor: Option<string>, rowLimit: nat): seq<Record>
  {
    if s !in t.scopes then []
    else
      var all := Sorted(RolesSelected(t, s, f, cursor));
      var ids := Prefix(all, rowLimit);
      assert forall i :: 0 <= i < |ids| ==> ids[i] == all[i] && all[i] in RolesSelected(t, s, f, cursor);
      if ids == [] then
        [Record(map["revision" := IntegerColumn(t.scopes[s].revision),
            "role_id" := Null, "name" := Null, "protected" := Null], [])]
      else
        seq(|ids|, i requires 0 <= i < |ids| => RoleRecord(t, s, ids[i]))
  }

  function WithRole(records: seq<Record>): seq<Record>
  {
    if records == [] then []
    else WithRole(records[..|records|-1])
         + (if Column(records[|records|-1].columns, "role_id").Null? then [] else [records[|records|-1]])
  }

  function DecodeRole(r: Record): Parsed<DirectoryRole>
  {
    var id, name, protected := Column(r.columns, "role_id"), Column(r.columns, "name"), Flag(r.columns, "protected");
    if !id.Text? || !name.Text? || protected.Malformed? then Malformed
    else Parsed(DirectoryRole(id.text, name.text, protected.value, r.permissions))
  }

  /** All rows, or the first error. */
  function DecodeRoles(records: seq<Record>): Parsed<seq<DirectoryRole>>
  {
    if records == [] then Parsed([])
    else
      var init := DecodeRoles(records[..|records|-1]);
      var last := DecodeRole(records[|records|-1]);
      if init.Malformed? || last.Malformed? then Malformed else Parsed(init.value + [last.value])
  }

  function D1Directory(t: Tables, s: ScopeKey, f: Filter, cursor: Option<string>, limit: nat): Answer<Page>
  {
    DecodePage(DirectoryRecords(t, s, f, cursor, limit + 1), limit)
  }

  function DecodePage(records: seq<Record>, limit: nat): Answer<Page>
  {
    if records == [] then Declined(ScopeNotBootstrapped)
    else
      var values := WithRole(records);
      var roles, revision := DecodeRoles(Prefix(values, limit)), Revision(records[0].columns);
      if roles.Malformed? || revision.Malformed? then Broken(InvalidStoredState)
      else Answered(Page(roles.value, revision.value, |values| > limit))
  }

  function D1GetRole(t: Tables, s: ScopeKey, role: string): Answer<(DirectoryRole, int)>
  {
    match D1Directory(t, s, Filter(Some(role), None), None, 1)
    case Declined(failure) => Declined(failure)
    case Broken(error) => Broken(error)
    case Answered(page) => if page.roles == [] then Declined(RoleNotFound) else Answered((page.roles[0], page.revision))
  }

  function D1CheckPermission(t: Tables, s: ScopeKey, subject: string, permission: string): Answer<Decision>
  {
    if s !in t.scopes then Answered(Decision(false, 0))
    else
      var row := map["revision" := IntegerColumn(t.scopes[s].revision),
          "allowed" := FlagColumn(Allowed(t, s, subject, permission))];
      var allowed, revision := Flag(row, "allowed"), Revision(row);
      if allowed.Malformed? || revision.Malformed? then Broken(InvalidStoredState)
      else Answered(Decision(allowed.value, revision.value))
  }

  lemma RevisionColumnReads(row: Row, n: nat)
    requires n <= MAX_REVISION && "revision" in row && row["revision"] == IntegerColumn(n)
    ensures Revision(row) == Parsed(n)
  {
    RevisionRoundTrip(n, "");
  }

  lemma ColumnsDiffer()
    ensures "revision" != "role_id" && "revision" != "name" && "revision" != "protected" && "revision" != "allowed"
    ensures "role_id" != "name" && "role_id" != "protected" && "name" != "protected"
  {
  }

  lemma SelectedAreRemaining(t: Tables, s: ScopeKey, f: Filter, cursor: Option<string>)
    requires Schema(t) && s in t.scopes
    ensures RolesSelected(t, s, f, cursor) == Upcoming(Lookup(t, s).value, f, cursor)
  {
    var p := Lookup(t, s).value;
    forall r ensures r in RolesSelected(t, s, f, cursor) <==> r in Upcoming(p, f, cursor) {
      if r in Upcoming(p, f, cursor) {
        assert RoleKey(s, r) in t.roles && RoleKey(s, r).role in RolesSelected(t, s, f, cursor);
      }
    }
  }

  lemma RecordDecodes(t: Tables, s: ScopeKey, r: string)
    requires Schema(t) && s in t.scopes && RoleKey(s, r) in t.roles
    ensures DecodeRole(RoleRecord(t, s, r)) == Parsed(Entry(Lookup(t, s).value, r))
    ensures Revision(RoleRecord(t, s, r).columns) == Parsed(t.scopes[s].revision)
    ensures !Column(RoleRecord(t, s, r).columns, "role_id").Null?
  {
    ColumnsDiffer();
    RevisionColumnReads(RoleRecord(t, s, r).columns, t.scopes[s].revision);
  }

  lemma {:induction false} AllHaveRole(records: seq<Record>)
    requires forall i :: 0 <= i < |records| ==> !Column(records[i].columns, "role_id").Null?
    ensures WithRole(records) == records
  {
    if records != [] {
      AllHaveRole(records[..|records|-1]);
    }
  }

  lemma {:induction false} AllDecode(records: seq<Record>, roles: seq<DirectoryRole>)
    requires |records| == |roles| && forall i :: 0 <= i < |records| ==> DecodeRole(records[i]) == Parsed(roles[i])
    ensures DecodeRoles(records) == Parsed(roles)
  {
    if records != [] {
      AllDecode(records[..|records|-1], roles[..|records|-1]);
      assert roles == roles[..|records|-1] + [roles[|records|-1]];
    }
  }

  /** The rows of the directory query are the records of the first selected roles. */
  lemma RecordsOfRoles(t: Tables, s: ScopeKey, f: Filter, cursor: Option<string>, rowLimit: nat)
    requires Schema(t) && s in t.scopes && rowLimit >= 1 && RolesSelected(t, s, f, cursor) != {}
    ensures var p, all := Lookup(t, s).value, Sorted(RolesSelected(t, s, f, cursor));
            var records := DirectoryRecords(t, s, f, cursor, rowLimit);
            && |records| == |Prefix(all, rowLimit)| >= 1
            && (forall i :: 0 <= i < |all| ==> all[i] in p.roles)
            && (forall i :: 0 <= i < |records| ==> DecodeRole(records[i]) == Parsed(Entry(p, all[i])))
            && WithRole(records) == records
            && Revision(records[0].columns) == Parsed(p.revision)
  {
    var p, all := Lookup(t, s).value, Sorted(RolesSelected(t, s, f, cursor));
    var records := DirectoryRecords(t, s, f, cursor, rowLimit);
    forall i | 0 <= i < |all| ensures all[i] in p.roles {
      assert all[i] in RolesSelected(t, s, f, cursor);
    }
    forall i | 0 <= i < |records|
      ensures !Column(records[i].columns, "role_id").Null? && DecodeRole(records[i]) == Parsed(Entry(p, all[i]))
    {
      assert records[i] == RoleRecord(t, s, all[i]);
      RecordDecodes(t, s, all[i]);
    }
    AllHaveRole(records);
    RecordDecodes(t, s, all[0]);
  }

  /** The page of a D1 query is the page of the policy: same roles, same order, same grants, the
      revision of the same moment, and `has_more` exactly when something lies beyond. */
  lemma D1DirectoryIsPage(t: Tables, s: ScopeKey, f: Filter, cursor: Option<string>, limit: nat)
    requires Schema(t)
    ensures D1Directory(t, s, f, cursor, limit) == PageOn(Lookup(t, s), f, cursor, limit)
  {
    if s in t.scopes {
      SelectedAreRemaining(t, s, f, cursor);
      if RolesSelected(t, s, f, cursor) == {} {
        NoRoleRecord(t, s, f, cursor, limit);
      } else {
        FullDirectoryIsPage(t, s, f, cursor, limit);
      }
    }
  }

  lemma FullDirectoryIsPage(t: Tables, s: ScopeKey, f: Filter, cursor: Option<string>, limit: nat)
    requires Schema(t) && s in t.scopes && RolesSelected(t, s, f, cursor) != {}
    requires RolesSelected(t, s, f, cursor) == Upcoming(Lookup(t, s).value, f, cursor)
    ensures D1Directory(t, s, f, cursor, limit) == Answered(PageOf(Lookup(t, s).value, f, cursor, limit))
  {
    var p, records := Lookup(t, s).value, DirectoryRecords(t, s, f, cursor, limit + 1);
    var all := Sorted(Upcoming(p, f, cursor));
    RecordsOfRoles(t, s, f, cursor, limit + 1);
    RecordsArePage(records, p, all, limit);
  }

  lemma RecordsArePage(records: seq<Record>, p: Policy, all: seq<string>, limit: nat)
    requires forall i :: 0 <= i < |all| ==> all[i] in p.roles
    requires |records| == |Prefix(all, limit + 1)| >= 1 && WithRole(records) == records
    requires forall i :: 0 <= i < |records| ==> DecodeRole(records[i]) == Parsed(Entry(p, all[i]))
    requires Revision(records[0].columns) == Parsed(p.revision)
    ensures DecodePage(records, limit) == Answered(Page(Entries(p, Prefix(all, limit)), p.revision, |all| > limit))
  {
    var shown, roles := Prefix(records, limit), Entries(p, Prefix(all, limit));
    assert DecodeRoles(shown) == Parsed(roles) by {
      forall i | 0 <= i < |shown| ensures DecodeRole(shown[i]) == Parsed(roles[i]) {
        assert shown[i] == records[i];
      }
      AllDecode(shown, roles);
    }
    PageDecodes(records, limit, roles, p.revision);
  }

  lemma PageDecodes(records: seq<Record>, limit: nat, roles: seq<DirectoryRole>, revision: int)
    requires records != [] && WithRole(records) == records
    requires DecodeRoles(Prefix(records, limit)) == Parsed(roles) && Revision(records[0].columns) == Parsed(revision)
    ensures DecodePage(records, limit) == Answered(Page(roles, revision, |records| > limit))
  {
  }

  lemma NoRoleRecord(t: Tables, s: ScopeKey, f: Filter, cursor: Option<string>, limit: nat)
    requires Schema(t) && s in t.scopes && RolesSelected(t, s, f, cursor) == {}
    ensures D1Directory(t, s, f, cursor, limit) == Answered(Page([], t.scopes[s].revision, false))
  {
    var records := DirectoryRecords(t, s, f, cursor, limit + 1);
    ColumnsDiffer();
    assert Column(records[0].columns, "role_id").Null? && WithRole(records) == [] by {
      assert records[..0] == [];
    }
    RevisionColumnReads(records[0].columns, t.scopes[s].revision);
  }

  lemma D1GetRoleIsRole(t: Tables, s: ScopeKey, role: string)
    requires Schema(t)
    ensures D1GetRole(t, s, role) == RoleOn(Lookup(t, s), role)
  {
    D1DirectoryIsPage(t, s, Filter(Some(role), None), None, 1);
    if s in t.scopes {
      SingleRolePage(Lookup(t, s).value, role);
    }
  }

  lemma SingleRolePage(p: Policy, role: string)
    ensures PageOf(p, Filter(Some(role), None), None, 1).roles == if role in p.roles then [Entry(p, role)] else []
  {
    var f := Filter(Some(role), None);
    var ids := Sorted(Upcoming(p, f, None));
    if role in p.roles {
      assert Upcoming(p, f, None) == {role};
      assert ids[0] in Upcoming(p, f, None);
    } else {
      assert Upcoming(p, f, None) == {};
    }
  }

  lemma D1CheckIsDecision(t: Tables, s: ScopeKey, subject: string, permission: string)
    requires Schema(t)
    ensures D1CheckPermission(t, s, subject, permission) == Answered(DecisionOn(Lookup(t, s), subject, permission))
  {
    if s in t.scopes {
      ColumnsDiffer();
      AllowedAgrees(t, s, subject, permission);
      var row := map["revision" := IntegerColumn(t.scopes[s].revision),
          "allowed" := FlagColumn(Allowed(t, s, subject, permission))];
      RevisionColumnReads(row, t.scopes[s].revision);
    }
  }

  // ----- PostgreSQL -----

  function PgCheckPermission(t: Tables, s: ScopeKey, subject: string, permission: string): Answer<Decision>
  {
    if s !in t.scopes then Answered(Decision(false, 0))
    else if t.scopes[s].revision < 0 then Broken(InvalidStoredState)
    else Answered(Decision(Allowed(t, s, subject, permission), t.scopes[s].revision))
  }

  lemma PgCheckIsDecision(t: Tables, s: ScopeKey, subject: string, permission: string)
    requires Schema(t)
    ensures PgCheckPermission(t, s, subject, permission) == Answered(DecisionOn(Lookup(t, s), subject, permission))
  {
    if s in t.scopes {
      AllowedAgrees(t, s, subject, permission);
    }
  }

  // One row of the role query: the role's columns and its aggregated grants.
  function PgRole(t: Tables, s: ScopeKey, r: string): DirectoryRole
    requires RoleKey(s, r) in t.roles
  {
    DirectoryRole(r, t.roles[RoleKey(s, r)].name, t.roles[RoleKey(s, r)].protected, Sorted(GrantedPermissions(t, s, r)))
  }

  function PgGetRole(t: Tables, s: ScopeKey, role: string): Answer<(DirectoryRole, int)>
  {
    if s !in t.scopes then Declined(ScopeNotBootstrapped)
    else if t.scopes[s].revision < 0 then Broken(InvalidStoredState)
    else if RoleKey(s, role) !in t.roles then Declined(RoleNotFound)
    else Answered((PgRole(t, s, role), t.scopes[s].revision))
  }

  lemma PgGetRoleIsRole(t: Tables, s: ScopeKey, role: string)
    requires Schema(t)
    ensures PgGetRole(t, s, role) == RoleOn(Lookup(t, s), role)
  {
  }

  /** The roles of the listing query: all of the scope's, or those joined with the bindings of a
      subject. */
  function PgRoleIds(t: Tables, s: ScopeKey, subject: Option<string>): (ids: set<string>)
    ensures forall r :: r in ids ==> RoleKey(s, r) in t.roles
  {
    if subject.None? then set k | k in t.roles && k.scope == s :: k.role
    else
      set b | b in t.bindings && b.scope == s && b.subject == subject.value && RoleKey(s, b.role) in t.roles :: b.role
  }

  function PgSelected(t: Tables, s: ScopeKey, subject: Option<string>, cursor: Option<string>): set<string>
  {
    set r | r in PgRoleIds(t, s, subject) && Past(cursor, r)
  }

  function PgRoleRows(t: Tables, s: ScopeKey, subject: Option<string>,
                      cursor: Option<string>, rowLimit: nat): seq<DirectoryRole>
  {
    var all := Sorted(PgSelected(t, s, subject, cursor));
    var ids := Prefix(all, rowLimit);
    assert forall i :: 0 <= i < |ids| ==> ids[i] == all[i] && all[i] in PgSelected(t, s, subject, cursor);
    seq(|ids|, i requires 0 <= i < |ids| => PgRole(t, s, ids[i]))
  }

  lemma PgSelectedAreRemaining(t: Tables, s: ScopeKey, subject: Option<string>, cursor: Option<string>)
    requires Schema(t) && s in t.scopes
    ensures PgSelected(t, s, subject, cursor) == Upcoming(Lookup(t, s).value, Filter(None, subject), cursor)
  {
    var p, f := Lookup(t, s).value, Filter(None, subject);
    forall r ensures r in PgRoleIds(t, s, subject) <==> r in Listed(p, f) {
      if r in Listed(p, f) {
        assert RoleKey(s, r) in t.roles && RoleKey(s, r).role == r;
        if subject.Some? {
          assert BindingRow(s, subject.value, r) in t.bindings && BindingRow(s, subject.value, r).role == r;
        }
      }
    }
  }

  datatype Isolation = ReadCommitted | RepeatableRead

  /** A read-only transaction among writers: `world(i)` holds the committed tables of moment i. */
  class ReadTransaction {
    const world: nat -> Tables
    const isolation: Isolation
    var snapshot: Option<Tables>

    constructor (world: nat -> Tables, isolation: Isolation)
      ensures this.world == world && this.isolation == isolation && snapshot == None
    {
      this.world := world;
      this.isolation := isolation;
      this.snapshot := None;
    }

    /** The tables that a query sees when it runs at the given moment. */
    method Query(moment: nat) returns (t: Tables)
      modifies this
      ensures t == if isolation == RepeatableRead && old(snapshot).Some? then old(snapshot).value else world(moment)
      ensures snapshot == if old(snapshot).Some? then old(snapshot) else Some(world(moment))
    {
      if isolation == RepeatableRead && snapshot.Some? {
        t := snapshot.value;
      } else {
        t := world(moment);
      }
      if snapshot.None? {
        snapshot := Some(t);
      }
    }
  }

  // A page made of a revision read from one state of the tables and of roles read from another.
  function PgPage(head: Tables, body: Tables, s: ScopeKey, subject: Option<string>, cursor: Option<string>, limit: nat)
    : Answer<Page>
  {
    if s !in head.scopes then Declined(ScopeNotBootstrapped)
    else if head.scopes[s].revision < 0 then Broken(InvalidStoredState)
    else
      var rows := PgRoleRows(body, s, subject, cursor, limit + 1);
      Answered(Page(Prefix(rows, limit), head.scopes[s].revision, |rows| > limit))
  }

  /** The two queries of a page, at two moments, at either isolation level. */
  method ReadPage(world: nat -> Tables, isolation: Isolation, first: nat, second: nat, s: ScopeKey,
                  subject: Option<string>, cursor: Option<string>, limit: nat)
    returns (r: Answer<Page>)
    ensures r == PgPage(world(first), world(if isolation == RepeatableRead then first else second),
            s, subject, cursor, limit)
  {
    var transaction := new ReadTransaction(world, isolation);
    var t := transaction.Query(first);
    if s !in t.scopes {
      return Declined(ScopeNotBootstrapped);
    }
    var policyRevision := t.scopes[s].revision;
    if policyRevision < 0 {
      return Broken(InvalidStoredState);
    }
    t := transaction.Query(second);
    var roles := PgRoleRows(t, s, subject, cursor, limit + 1);
    var hasMore := |roles| > limit;
    if |roles| > limit {
      roles := roles[..limit];
    }
    r := Answered(Page(roles, policyRevision, hasMore));
  }

  /** The PostgreSQL page: its two queries run at two moments, and it is the page of the first,
      whatever is committed in between. */
  method ListDirectoryRoles(world: nat -> Tables, first: nat, second: nat, s: ScopeKey, subject: Option<string>,
                            cursor: Option<string>, limit: nat)
    returns (r: Answer<Page>)
    requires first <= second && Schema(world(first))
    ensures r == PageOn(Lookup(world(first), s), Filter(None, subject), cursor, limit)
  {
    r := ReadPage(world, RepeatableRead, first, second, s, subject, cursor, limit);
    if s in world(first).scopes {
      RowsArePage(world(first), s, subject, cursor, limit);
    }
  }

  lemma RowsArePage(t: Tables, s: ScopeKey, subject: Option<string>, cursor: Option<string>, limit: nat)
    requires Schema(t) && s in t.scopes
    ensures var rows, page := PgRoleRows(t, s, subject, cursor, limit + 1),
                              PageOf(Lookup(t, s).value, Filter(None, subject), cursor, limit);
            Prefix(rows, limit) == page.roles && (|rows| > limit <==> page.hasMore)
  {
    PgSelectedAreRemaining(t, s, subject, cursor);
    var rows := PgRoleRows(t, s, subject, cursor, limit + 1);
    var all := Sorted(PgSelected(t, s, subject, cursor));
    forall i | 0 <= i < |all| ensures RoleKey(s, all[i]) in t.roles {
      assert all[i] in PgSelected(t, s, subject, cursor);
    }
    assert |rows| == |Prefix(all, limit + 1)| && forall i :: 0 <= i < |rows| ==> rows[i] == PgRole(t, s, all[i]);
    PrefixOfRows(t, s, rows, all, limit);
  }

  lemma PrefixOfRows(t: Tables, s: ScopeKey, rows: seq<DirectoryRole>, all: seq<string>, limit: nat)
    requires Schema(t) && s in t.scopes && (forall i :: 0 <= i < |all| ==> RoleKey(s, all[i]) in t.roles)
    requires |rows| == |Prefix(all, limit + 1)| && forall i :: 0 <= i < |rows| ==> rows[i] == PgRole(t, s, all[i])
    ensures Prefix(rows, limit) == Entries(Lookup(t, s).value, Prefix(all, limit))
    ensures |rows| > limit <==> |all| > limit
  {
    var p, shown := Lookup(t, s).value, Prefix(all, limit);
    forall i | 0 <= i < |shown| ensures rows[i] == Entry(p, shown[i]) {
      assert shown[i] == all[i];
    }
  }

  /** Tables that hold what a sequence of operations makes of empty ones. */
  ghost predicate Reached(t: Tables, cs: seq<Command>)
  {
    Schema(t) && View(t) == Run(map[], cs)
  }

  function TablesAfter(t: Tables, s: ScopeKey, ws: seq<Write>): Tables
  {
    match PutAll(t, s, ws) case None => t case Some(u) => u
  }

  /** The tables that an effective operation leaves are those of its step. */
  lemma EffectiveTables(t: Tables, s: ScopeKey, a: Action, cs: seq<Command>)
    requires Reached(t, cs) && Judge(Lookup(t, s), a).Change? && Apply(Lookup(t, s), a).1.Accepted?
    ensures Reached(TablesAfter(t, s, WritesOf(a) + [BumpRevision]), cs + [Command(s, a)])
    ensures Lookup(TablesAfter(t, s, WritesOf(a) + [BumpRevision]), s) == Apply(Lookup(t, s), a).0
  {
    PutAllActs(t, s, WritesOf(a) + [BumpRevision]);
    WritesCarryOut(Lookup(t, s), a);
    RunExtends(map[], cs, Command(s, a));
    assert Find(View(t), s) == Lookup(t, s);
  }

  const FOUNDER := "owner"
  const EDITOR := CreateRole(FOUNDER, "editor", "Editor")

  /** What the second operation of the example starts from. */
  lemma FounderCreatesEditor(p: Policy)
    requires p == InitialPolicy(FOUNDER).(revision := 1)
    ensures Judge(Some(p), EDITOR).Change? && Apply(Some(p), EDITOR).1 == Accepted(Mutation(true, 2))
    ensures Listed(p, EVERY_ROLE) == {BOOTSTRAP_ROLE_ID}
    ensures var q := Apply(Some(p), EDITOR).0; q.Some? && Listed(q.value, EVERY_ROLE) == {BOOTSTRAP_ROLE_ID, "editor"}
  {
    FounderHolds(FOUNDER, p);
    assert BOOTSTRAP_ROLE_ID[0] != "editor"[0];
  }

  /** Without the snapshot a page could be the page of no moment: at READ COMMITTED, with the
      founder of a scope creating a role between the two queries, the page pairs the revision of
      the first moment with the roles of the second. */
  method ReadTornPage(s: ScopeKey) returns (r: Answer<Page>, ghost before: Tables, ghost after: Tables)
    ensures Reached(before, [Command(s, Bootstrap(FOUNDER))])
    ensures Reached(after, [Command(s, Bootstrap(FOUNDER)), Command(s, EDITOR)])
    ensures r != PageOn(Lookup(before, s), EVERY_ROLE, None, 100)
            && r != PageOn(Lookup(after, s), EVERY_ROLE, None, 100)
  {
    var t := TablesAfter(EMPTY_TABLES, s, WritesOf(Bootstrap(FOUNDER)) + [BumpRevision]);
    var u := TablesAfter(t, s, WritesOf(EDITOR) + [BumpRevision]);
    TornStates(s, t, u);
    r := ReadPage((i: nat) => if i == 0 then t else u, ReadCommitted, 0, 1, s, None, None, 100);
    before, after := t, u;
    TornPage(s, t, u);
  }

  lemma TornStates(s: ScopeKey, t: Tables, u: Tables)
    requires t == TablesAfter(EMPTY_TABLES, s, WritesOf(Bootstrap(FOUNDER)) + [BumpRevision])
    requires u == TablesAfter(t, s, WritesOf(EDITOR) + [BumpRevision])
    ensures Reached(t, [Command(s, Bootstrap(FOUNDER))])
            && Reached(u, [Command(s, Bootstrap(FOUNDER)), Command(s, EDITOR)])
    ensures Lookup(t, s) == Some(InitialPolicy(FOUNDER).(revision := 1))
    ensures Lookup(u, s) == Apply(Lookup(t, s), EDITOR).0
  {
    assert View(EMPTY_TABLES) == map[];
    EffectiveTables(EMPTY_TABLES, s, Bootstrap(FOUNDER), []);
    assert [] + [Command(s, Bootstrap(FOUNDER))] == [Command(s, Bootstrap(FOUNDER))];
    FounderCreatesEditor(Lookup(t, s).value);
    EffectiveTables(t, s, EDITOR, [Command(s, Bootstrap(FOUNDER))]);
    assert [Command(s, Bootstrap(FOUNDER))] + [Command(s, EDITOR)]
        == [Command(s, Bootstrap(FOUNDER)), Command(s, EDITOR)];
  }

  lemma TornPage(s: ScopeKey, t: Tables, u: Tables)
    requires Schema(t) && Schema(u) && Lookup(t, s) == Some(InitialPolicy(FOUNDER).(revision := 1))
    requires Lookup(u, s) == Apply(Lookup(t, s), EDITOR).0
    ensures var torn := PgPage(t, u, s, None, None, 100);
            torn != PageOn(Lookup(t, s), EVERY_ROLE, None, 100) && torn != PageOn(Lookup(u, s), EVERY_ROLE, None, 100)
  {
    var p, q := Lookup(t, s).value, Lookup(u, s).value;
    EditorCounts(p);
    RowsArePage(u, s, None, None, 100);
    assert PageOn(Lookup(t, s), EVERY_ROLE, None, 100) == Answered(PageOf(p, EVERY_ROLE, None, 100));
    assert PageOn(Lookup(u, s), EVERY_ROLE, None, 100) == Answered(PageOf(q, EVERY_ROLE, None, 100));
  }

  lemma EditorCounts(p: Policy)
    requires p == InitialPolicy(FOUNDER).(revision := 1)
    ensures |PageOf(p, EVERY_ROLE, None, 100).roles| == 1
    ensures var q := Apply(Some(p), EDITOR).0;
            q.Some? && |PageOf(q.value, EVERY_ROLE, None, 100).roles| == 2 && q.value.revision == 2
  {
    FounderCreatesEditor(p);
    assert |{BOOTSTRAP_ROLE_ID, "editor"}| == 2 by { assert BOOTSTRAP_ROLE_ID[0] != "editor"[0]; }
    WholeListing(p, 100);
    WholeListing(Apply(Some(p), EDITOR).0.value, 100);
  }

  lemma WholeListing(p: Policy, limit: nat)
    requires |Listed(p, EVERY_ROLE)| <= limit
    ensures |PageOf(p, EVERY_ROLE, None, limit).roles| == |Listed(p, EVERY_ROLE)|
  {
    assert Upcoming(p, EVERY_ROLE, None) == Listed(p, EVERY_ROLE);
  }
}
