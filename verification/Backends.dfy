/** The two backends side by side: whatever operations they are given, they answer alike and
    hold the same policies, and what is read from one is what is read from the other. */
module Backends {
  import opened AccessPolicy
  import opened PolicyRuns
  import opened Relational
  import opened Directory
  import opened DirectoryReads
  import D1Store
  import PgStore
  import Service

  lemma StepIsLookup(t: Tables, u: Tables, c: Command)
    requires View(u) == Store(View(t), c.scope, Apply(Lookup(t, c.scope), c.action).0)
    ensures (View(u), Apply(Lookup(t, c.scope), c.action).1) == Step(View(t), c)
  {
    assert Find(View(t), c.scope) == Lookup(t, c.scope);
  }

  // ----- Both store operations are the step -----

  method SubmitToD1(d1: D1Store.D1Database, c: Command, delivery: D1Store.Delivery) returns (reply: Reply)
    requires Schema(d1.db.tables)
    modifies d1
    ensures Schema(d1.db.tables)
    ensures (View(d1.db.tables), reply) == Service.StoreReply(View(old(d1.db.tables)), c, FateOf(delivery))
  {
    ghost var t := d1.db.tables;
    reply := d1.Mutation(c.scope, c.action, delivery);
    if delivery != D1Store.NotSent {
      StepIsLookup(t, d1.db.tables, c);
    }
  }

  function FateOf(delivery: D1Store.Delivery): Service.Fate
  {
    match delivery
    case NotSent => Service.Prevented
    case Delivered => Service.Heard
    case ReplyLost => Service.Unheard
  }

  method SubmitToPg(pg: PgStore.PgServer, c: Command, fault: PgStore.Fault)
    returns (reply: Reply, ghost fate: Service.Fate)
    requires Schema(pg.committed)
    modifies pg
    ensures Schema(pg.committed)
    ensures (View(pg.committed), reply) == Service.StoreReply(View(old(pg.committed)), c, fate)
    ensures fault == PgStore.NoFault ==> fate == Service.Heard
  {
    ghost var t := pg.committed;
    reply := PgStore.Perform(pg, c.scope, c.action, fault);
    fate := if fault == PgStore.NoFault || reply != Failed(DatabaseFailure) then Service.Heard
            else if View(pg.committed) == View(t) then Service.Prevented
            else Service.Unheard;
    if fate != Service.Prevented {
      StepIsLookup(t, pg.committed, c);
    }
  }

  // ----- The service over either of them -----

  /** An administration call served from D1 is one served from the policies its tables stand for,
      with the fate that the delivery of the batch gives it. */
  method AdministerOnD1(config: Service.Config, d1: D1Store.D1Database, c: Service.Call, delivery: D1Store.Delivery)
    returns (response: Service.Response<Service.Outcome>)
    requires Schema(d1.db.tables)
    modifies d1
    ensures Schema(d1.db.tables)
    ensures (View(d1.db.tables), response) == Service.Administer(config, View(old(d1.db.tables)), c, FateOf(delivery))
  {
    if !Service.Reaches(config, c) {
      return Service.DomainError(Service.Refusal(config, c));
    }
    var reply := SubmitToD1(d1, Service.CommandOf(c), delivery);
    response := Service.OutcomeOf(c.request, reply);
  }

  /** And one served from PostgreSQL, whichever statement or commit reply the connection loses. */
  method AdministerOnPg(config: Service.Config, pg: PgStore.PgServer, c: Service.Call, fault: PgStore.Fault)
    returns (response: Service.Response<Service.Outcome>, ghost fate: Service.Fate)
    requires Schema(pg.committed)
    modifies pg
    ensures Schema(pg.committed)
    ensures (View(pg.committed), response) == Service.Administer(config, View(old(pg.committed)), c, fate)
    ensures fault == PgStore.NoFault ==> fate == Service.Heard
  {
    if !Service.Reaches(config, c) {
      return Service.DomainError(Service.Refusal(config, c)), Service.Heard;
    }
    var reply;
    reply, fate := SubmitToPg(pg, Service.CommandOf(c), fault);
    response := Service.OutcomeOf(c.request, reply);
  }

  /** A listing served from D1 is one served from the policies its tables stand for. */
  method ListRolesOnD1(config: Service.Config, d1: D1Store.D1Database, fails: bool, context: Service.Context,
                       scope: ScopeKey, subject: Option<string>, limit: int, cursor: Option<string>)
    returns (response: Service.Response<Service.RolePage>)
    requires Schema(d1.db.tables)
    ensures response == Service.ListRoles(config, View(d1.db.tables), fails, context, scope, subject, limit, cursor)
  {
    var refusal := Service.ListRefusal(config, context, scope, subject, limit, cursor);
    if refusal.Some? {
      return Service.DomainError(refusal.value);
    }
    if fails {
      return Service.RuntimeError;
    }
    var answer := D1Directory(d1.db.tables, scope, Filter(None, subject), cursor, limit);
    D1DirectoryIsPage(d1.db.tables, scope, Filter(None, subject), cursor, limit);
    assert Find(View(d1.db.tables), scope) == Lookup(d1.db.tables, scope);
    response := Service.RespondListing(answer);
  }

  /** And one served from PostgreSQL, from the policies of its first query's moment, whatever is
      committed before its second. */
  method ListRolesOnPg(config: Service.Config, world: nat -> Tables, first: nat, second: nat, fails: bool,
                       context: Service.Context, scope: ScopeKey, subject: Option<string>, limit: int,
                       cursor: Option<string>)
    returns (response: Service.Response<Service.RolePage>)
    requires first <= second && Schema(world(first))
    ensures response == Service.ListRoles(config, View(world(first)), fails, context, scope, subject, limit, cursor)
  {
    var refusal := Service.ListRefusal(config, context, scope, subject, limit, cursor);
    if refusal.Some? {
      return Service.DomainError(refusal.value);
    }
    if fails {
      return Service.RuntimeError;
    }
    var answer := ListDirectoryRoles(world, first, second, scope, subject, cursor, limit);
    assert Find(View(world(first)), scope) == Lookup(world(first), scope);
    response := Service.RespondListing(answer);
  }

  /** Looking a role up, on either backend, is the service's lookup on the policies of its tables. */
  lemma GetRoleOnEither(config: Service.Config, t: Tables, context: Service.Context, scope: ScopeKey, role: string)
    requires Schema(t)
    ensures var served := Service.GetRole(config, View(t), false, context, scope, role);
            Service.GetRefusal(config, context, scope, role).None? ==>
              served == Service.RespondRole(D1GetRole(t, scope, role))
              && served == Service.RespondRole(PgGetRole(t, scope, role))
  {
    assert Find(View(t), scope) == Lookup(t, scope);
    D1GetRoleIsRole(t, scope, role);
    PgGetRoleIsRole(t, scope, role);
  }

  /** And so is a permission check. */
  lemma CheckOnEither(t: Tables, scope: ScopeKey, subject: string, permission: string)
    requires Schema(t)
    ensures var served := Service.CheckPermission(View(t), false, scope, subject, permission);
            Service.ValidCheck(scope, subject, permission) ==>
              served == Service.RespondDecision(D1CheckPermission(t, scope, subject, permission))
              && served == Service.RespondDecision(PgCheckPermission(t, scope, subject, permission))
  {
    assert Find(View(t), scope) == Lookup(t, scope);
    D1CheckIsDecision(t, scope, subject, permission);
    PgCheckIsDecision(t, scope, subject, permission);
  }

  // ----- Side by side -----

  /** Any sequence of operations, from empty databases: the same replies, with the same failures,
      `changed` flags and revisions, and the same policies, on both. */
  method Exercise(cs: seq<Command>)
    returns (d1: D1Store.D1Database, pg: PgStore.PgServer, d1Replies: seq<Reply>, pgReplies: seq<Reply>)
    ensures d1Replies == pgReplies == Replies(map[], cs)
    ensures View(d1.db.tables) == View(pg.committed) == Run(map[], cs)
  {
    d1 := new D1Store.D1Database();
    pg := new PgStore.PgServer();
    d1Replies, pgReplies := [], [];
    assert View(EMPTY_TABLES) == map[];
    for i := 0 to |cs|
      invariant fresh(d1) && fresh(pg)
      invariant Schema(d1.db.tables) && Schema(pg.committed)
      invariant View(d1.db.tables) == View(pg.committed) == Run(map[], cs[..i])
      invariant d1Replies == pgReplies == Replies(map[], cs[..i])
    {
      var d1Reply := SubmitToD1(d1, cs[i], D1Store.Delivered);
      var pgReply, _ := SubmitToPg(pg, cs[i], PgStore.NoFault);
      assert cs[..i+1] == cs[..i] + [cs[i]];
      RunExtends(map[], cs[..i], cs[i]);
      d1Replies, pgReplies := d1Replies + [d1Reply], pgReplies + [pgReply];
    }
    assert cs[..|cs|] == cs;
  }

  /** Databases that hold the same policies give the same decisions and the same roles, grants
      in the same order. */
  lemma ReadsAgree(d1: Tables, pg: Tables, s: ScopeKey, subject: string, permission: string, role: string)
    requires Schema(d1) && Schema(pg) && View(d1) == View(pg)
    ensures D1CheckPermission(d1, s, subject, permission) == PgCheckPermission(pg, s, subject, permission)
    ensures D1GetRole(d1, s, role) == PgGetRole(pg, s, role)
  {
    assert Find(View(d1), s) == Lookup(d1, s) && Find(View(pg), s) == Lookup(pg, s);
    D1CheckIsDecision(d1, s, subject, permission);
    PgCheckIsDecision(pg, s, subject, permission);
    D1GetRoleIsRole(d1, s, role);
    PgGetRoleIsRole(pg, s, role);
  }

  /** And the same pages: the PostgreSQL one, read while others commit, is the one of its first
      query's moment. */
  method PagesAgree(d1: Tables, world: nat -> Tables, first: nat, second: nat, s: ScopeKey, subject: Option<string>,
                    cursor: Option<string>, limit: nat)
    returns (d1Page: Answer<Page>, pgPage: Answer<Page>)
    requires first <= second && Schema(d1) && Schema(world(first)) && View(d1) == View(world(first))
    ensures d1Page == pgPage
  {
    assert Find(View(d1), s) == Lookup(d1, s) && Find(View(world(first)), s) == Lookup(world(first), s);
    D1DirectoryIsPage(d1, s, Filter(None, subject), cursor, limit);
    d1Page := D1Directory(d1, s, Filter(None, subject), cursor, limit);
    pgPage := ListDirectoryRoles(world, first, second, s, subject, cursor, limit);
  }
}
