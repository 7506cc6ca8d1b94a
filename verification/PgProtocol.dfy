/** Any number of PostgreSQL sessions, interleaved statement by statement: the scope row lock,
    the wait on an uncommitted scope row, disconnections, and commits whose reply is lost.
    Every interleaving is equivalent to the serial order in which the sessions ended. */
module PgProtocol {
  import opened AccessPolicy
  import opened PolicyRuns
  import opened Relational
  import opened PgProgram

  datatype Entry = Entry(id: nat, command: Command, reply: Reply)

  // `locks` maps a scope to the session that holds its row: by FOR UPDATE, or by having
  // inserted it. `log` records the sessions in the order in which their effect was settled.
  datatype Cluster = Cluster(committed: Tables, locks: map<ScopeKey, nat>, sessions: map<nat, Session>, log: seq<Entry>)

  datatype Event =
    | Begin(id: nat, scope: ScopeKey, action: Action)
    | Execute(id: nat)
    | Disconnect(id: nat)
    | CommitUnheard(id: nat)

  // A statement that takes the row lock when it finds the row.
  predicate LocksRow(pc: Pc) { pc.Opening? || pc.Reading? }

  // A session that has updated its scope row and not yet ended.
  predicate HasUpdated(c: Cluster, id: nat)
  {
    id in c.sessions && BumpRevision in c.sessions[id].writes
  }

  /** Whether the next statement has to wait for another session: FOR UPDATE waits for the lock
      of a committed row, and an insert of a scope waits for an uncommitted insert of it, or for
      an uncommitted update of the row that it conflicts with. */
  predicate Waits(c: Cluster, ses: Session)
  {
    && ses.scope in c.locks
    && ((LocksRow(ses.pc) && ses.scope in c.committed.scopes)
        || (ses.pc.Founding? && (ses.scope !in c.committed.scopes || HasUpdated(c, c.locks[ses.scope]))))
  }

  predicate Acquires(c: Cluster, ses: Session)
  {
    (LocksRow(ses.pc) && ses.scope in c.committed.scopes) || (ses.pc.Founding? && ses.scope !in c.committed.scopes)
  }

  // The session holds the lock of its scope from acquiring it until it ends.
  predicate HoldsLock(pc: Pc) { !LocksRow(pc) && !pc.Founding? && !pc.Done? }

  function Release(locks: map<ScopeKey, nat>, s: ScopeKey, id: nat): map<ScopeKey, nat>
  {
    if s in locks && locks[s] == id then locks - {s} else locks
  }

  /** A session ends: its lock is released, and, if its effect is settled by a reply, it is
      entered in the log. */
  function Settle(c: Cluster, id: nat, ses: Session, committed: Tables, heard: Reply, settled: Option<Reply>): Cluster
  {
    c.(committed := committed,
       locks := Release(c.locks, ses.scope, id),
       sessions := c.sessions[id := End(ses, heard)],
       log := if settled.None? then c.log else c.log + [Entry(id, Command(ses.scope, ses.action), settled.value)])
  }

  predicate Active(c: Cluster, id: nat) { id in c.sessions && !c.sessions[id].pc.Done? }

  /** One event. An event that cannot happen leaves the cluster as it is. */
  function Happen(c: Cluster, e: Event): Cluster
  {
    match e
    case Begin(id, scope, action) =>
      if id in c.sessions then c else c.(sessions := c.sessions[id := Start(scope, action)])
    case Execute(id) => if !Active(c, id) || Waits(c, c.sessions[id]) then c else Turned(c, id)
    case Disconnect(id) =>
      if !Active(c, id) then c
      else Settle(c, id, c.sessions[id], c.committed, Failed(DatabaseFailure), None)
    case CommitUnheard(id) =>
      if !Active(c, id) || !c.sessions[id].pc.Committing? then c
      else
        var ses := c.sessions[id];
        var v := PutAll(c.committed, ses.scope, ses.writes);
        if v.None? then c
        else Settle(c, id, ses, v.value, Failed(DatabaseFailure), Some(Accepted(ses.pc.mutation)))
  }

  /** The next statement of a session that does not have to wait. */
  function Turned(c: Cluster, id: nat): Cluster
    requires Active(c, id)
  {
    var ses := c.sessions[id];
    var next := Advance(c.committed, ses);
    if next.pc.Done? then
      var v := PutAll(c.committed, ses.scope, ses.writes);
      var committed := if ses.pc.Committing? && v.Some? then v.value else c.committed;
      Settle(c, id, ses, committed, next.pc.reply, Some(next.pc.reply))
    else
      c.(sessions := c.sessions[id := next],
         locks := if Acquires(c, ses) then c.locks[ses.scope := id] else c.locks)
  }

  function After(c: Cluster, events: seq<Event>): Cluster
  {
    if events == [] then c else Happen(After(c, events[..|events|-1]), events[|events|-1])
  }

  // ----- The invariant -----

  function Commands(log: seq<Entry>): (cs: seq<Command>)
    ensures |cs| == |log|
    ensures forall i :: 0 <= i < |log| ==> cs[i] == log[i].command
  {
    seq(|log|, i requires 0 <= i < |log| => log[i].command)
  }

  /** The log, run serially, ends in the given policies with the logged replies. */
  ghost predicate SerialLog(initial: Policies, log: seq<Entry>, db: Policies)
  {
    && Run(initial, Commands(log)) == db
    && forall i :: 0 <= i < |log| ==> Replies(initial, Commands(log))[i] == log[i].reply
  }

  ghost predicate Serial(initial: Policies, c: Cluster)
  {
    SerialLog(initial, c.log, View(c.committed))
  }

  /** A lock is held by an active session of its scope, and every session past its lock
      statement holds it: two sessions in the middle of one scope are the same session. */
  ghost predicate LocksHeld(c: Cluster)
  {
    && (forall s :: s in c.locks ==> c.locks[s] in c.sessions && c.sessions[c.locks[s]].scope == s
                                     && HoldsLock(c.sessions[c.locks[s]].pc))
    && (forall id :: id in c.sessions && HoldsLock(c.sessions[id].pc) ==>
          c.sessions[id].scope in c.locks && c.locks[c.sessions[id].scope] == id)
  }

  ghost predicate AllKnow(c: Cluster)
  {
    forall id :: id in c.sessions ==> Knows(Lookup(c.committed, c.sessions[id].scope), c.sessions[id])
  }

  // Ended, and not with a database failure.
  predicate Answered(pc: Pc) { pc.Done? && pc.reply != Failed(DatabaseFailure) }

  /** Every ended session that got an answer is in the log with that answer, nobody else is,
      and nobody is there twice. */
  ghost predicate Logged(c: Cluster)
  {
    && (forall i :: 0 <= i < |c.log| ==>
          && c.log[i].id in c.sessions
          && var ses := c.sessions[c.log[i].id];
             && ses.pc.Done?
             && c.log[i].command == Command(ses.scope, ses.action)
             && (ses.pc.reply == c.log[i].reply || ses.pc.reply == Failed(DatabaseFailure)))
    && (forall i, j :: 0 <= i < j < |c.log| ==> c.log[i].id != c.log[j].id)
    && (forall id :: id in c.sessions && Answered(c.sessions[id].pc) ==>
          exists i :: 0 <= i < |c.log| && c.log[i].id == id)
  }

  ghost predicate Inv(initial: Policies, c: Cluster)
  {
    && Schema(c.committed) && LocksHeld(c) && AllKnow(c) && Logged(c) && Serial(initial, c)
  }

  // ----- Ending a session -----

  /** What it takes to settle a session: either nothing is committed and nothing is logged, or
      the logged reply and the committed tables are those of the abstract step. */
  ghost predicate Settles(c: Cluster, id: nat, committed: Tables, heard: Reply, settled: Option<Reply>)
  {
    && Active(c, id)
    && Schema(committed)
    && var ses := c.sessions[id];
       && (committed != c.committed ==> HoldsLock(ses.pc))
       && match settled
          case None => committed == c.committed && heard == Failed(DatabaseFailure)
          case Some(reply) =>
            && (View(committed), reply) == Step(View(c.committed), Command(ses.scope, ses.action))
            && (heard == reply || heard == Failed(DatabaseFailure))
  }

  lemma SettleKeepsLocks(c: Cluster, id: nat, committed: Tables, heard: Reply, settled: Option<Reply>)
    requires LocksHeld(c) && Active(c, id)
    ensures LocksHeld(Settle(c, id, c.sessions[id], committed, heard, settled))
  {
  }

  lemma StepLookups(t: Tables, u: Tables, cmd: Command, s: ScopeKey)
    requires View(u) == Step(View(t), cmd).0
    ensures s != cmd.scope ==> Lookup(u, s) == Lookup(t, s)
    ensures Lookup(t, s).Some? ==> Lookup(u, s).Some?
  {
    assert Find(View(u), s) == Lookup(u, s) && Find(View(t), s) == Lookup(t, s);
    if s != cmd.scope {
      StepLeavesOtherScopes(View(t), cmd, s);
    }
  }

  lemma SettleKeepsKnowledge(c: Cluster, id: nat, committed: Tables, heard: Reply, settled: Option<Reply>)
    requires LocksHeld(c) && AllKnow(c) && Settles(c, id, committed, heard, settled)
    ensures AllKnow(Settle(c, id, c.sessions[id], committed, heard, settled))
  {
    var ses := c.sessions[id];
    var after := Settle(c, id, ses, committed, heard, settled);
    forall other | other in after.sessions
      ensures Knows(Lookup(after.committed, after.sessions[other].scope), after.sessions[other])
    {
      if other != id && committed != c.committed {
        StepLookups(c.committed, committed, Command(ses.scope, ses.action), c.sessions[other].scope);
        BystanderKnows(Lookup(c.committed, c.sessions[other].scope),
            Lookup(committed, c.sessions[other].scope), c.sessions[other]);
      }
    }
  }

  /** A session without the lock depends on nothing that a commit in its scope can change. */
  lemma BystanderKnows(p: Option<Policy>, q: Option<Policy>, ses: Session)
    requires Knows(p, ses) && (q == p || !HoldsLock(ses.pc))
    requires p.Some? ==> q.Some?
    ensures Knows(q, ses)
  {
  }

  lemma SettleKeepsLog(c: Cluster, id: nat, heard: Reply, settled: Option<Reply>, after: Cluster)
    requires Logged(c) && Active(c, id)
    requires settled.None? ==> heard == Failed(DatabaseFailure)
    requires settled.Some? ==> heard == settled.value || heard == Failed(DatabaseFailure)
    requires after.sessions == c.sessions[id := End(c.sessions[id], heard)]
    requires after.log == if settled.None? then c.log
                          else c.log + [Entry(id, Command(c.sessions[id].scope, c.sessions[id].action), settled.value)]
    ensures Logged(after)
  {
    forall i | 0 <= i < |c.log| ensures c.log[i].id != id && after.log[i] == c.log[i] {
      assert c.sessions[c.log[i].id].pc.Done?;
    }
    forall x | x in after.sessions && Answered(after.sessions[x].pc)
      ensures exists i :: 0 <= i < |after.log| && after.log[i].id == x
    {
      if x == id {
        assert after.log[|c.log|].id == id;
      } else {
        var i :| 0 <= i < |c.log| && c.log[i].id == x;
        assert after.log[i].id == x;
      }
    }
  }

  lemma SerialLogExtends(initial: Policies, log: seq<Entry>, db: Policies, entry: Entry, next: Policies)
    requires SerialLog(initial, log, db) && (next, entry.reply) == Step(db, entry.command)
    ensures SerialLog(initial, log + [entry], next)
  {
    assert Commands(log + [entry]) == Commands(log) + [entry.command];
    RunExtends(initial, Commands(log), entry.command);
  }

  lemma SettleKeepsSerial(initial: Policies, c: Cluster, id: nat,
                          committed: Tables, heard: Reply, settled: Option<Reply>)
    requires Serial(initial, c) && Settles(c, id, committed, heard, settled)
    ensures Serial(initial, Settle(c, id, c.sessions[id], committed, heard, settled))
  {
    if settled.Some? {
      var ses := c.sessions[id];
      SerialLogExtends(initial, c.log, View(c.committed),
          Entry(id, Command(ses.scope, ses.action), settled.value), View(committed));
    }
  }

  lemma SettleKeepsInv(initial: Policies, c: Cluster, id: nat, committed: Tables, heard: Reply, settled: Option<Reply>)
    requires Inv(initial, c) && Settles(c, id, committed, heard, settled)
    ensures Inv(initial, Settle(c, id, c.sessions[id], committed, heard, settled))
  {
    SettleKeepsLocks(c, id, committed, heard, settled);
    SettleKeepsKnowledge(c, id, committed, heard, settled);
    SettleKeepsLog(c, id, heard, settled, Settle(c, id, c.sessions[id], committed, heard, settled));
    SettleKeepsSerial(initial, c, id, committed, heard, settled);
  }

  // ----- Every event keeps the invariant -----

  /** The rows a session commits are the abstract step, whether or not it hears so. */
  lemma CommitSettles(c: Cluster, id: nat, heard: Reply)
    requires Schema(c.committed) && AllKnow(c) && Active(c, id) && c.sessions[id].pc.Committing?
    requires heard == Accepted(c.sessions[id].pc.mutation) || heard == Failed(DatabaseFailure)
    ensures var ses := c.sessions[id];
            var v := PutAll(c.committed, ses.scope, ses.writes);
            v.Some? && Settles(c, id, v.value, heard, Some(Accepted(ses.pc.mutation)))
  {
    CommittedIsStep(c.committed, c.sessions[id]);
  }

  lemma CommittedIsStep(t: Tables, ses: Session)
    requires Schema(t) && Knows(Lookup(t, ses.scope), ses) && ses.pc.Committing?
    ensures var v := PutAll(t, ses.scope, ses.writes);
            && v.Some? && Schema(v.value)
            && (View(v.value), Accepted(ses.pc.mutation)) == Step(View(t), Command(ses.scope, ses.action))
  {
    PutAllActs(t, ses.scope, ses.writes);
    assert Find(View(t), ses.scope) == Lookup(t, ses.scope);
  }

  lemma TurnedKeepsInv(initial: Policies, c: Cluster, id: nat)
    requires Inv(initial, c) && Active(c, id) && !Waits(c, c.sessions[id])
    ensures Inv(initial, Turned(c, id))
  {
    var ses := c.sessions[id];
    var next := Advance(c.committed, ses);
    AdvanceKnows(c.committed, ses);
    StatementsRunOut(c.committed, ses);
    if next.pc.Done? {
      if ses.pc.Committing? {
        CommitSettles(c, id, next.pc.reply);
        SettleKeepsInv(initial, c, id, PutAll(c.committed, ses.scope, ses.writes).value,
            next.pc.reply, Some(next.pc.reply));
      } else {
        NothingStored(c.committed, ses.scope, ses.action);
        assert Find(View(c.committed), ses.scope) == Lookup(c.committed, ses.scope);
        SettleKeepsInv(initial, c, id, c.committed, next.pc.reply, Some(next.pc.reply));
      }
    } else {
      LockDiscipline(c, ses);
      MoveKeepsInv(initial, c, id, next);
    }
  }

  /** Past its lock statement a session stays locked, and only the statement that found or
      created the row gets it there. */
  lemma LockDiscipline(c: Cluster, ses: Session)
    requires Schema(c.committed) && Knows(Lookup(c.committed, ses.scope), ses) && !ses.pc.Done?
    ensures var next := Advance(c.committed, ses);
            !next.pc.Done? ==> (HoldsLock(next.pc) <==> HoldsLock(ses.pc) || Acquires(c, ses))
  {
    var visible := PutAll(c.committed, ses.scope, ses.writes);
    if visible.Some? {
      var f := Read(visible.value, ses.scope, ses.action);
      DecideLocks(f, ses);
      TakeGoes(visible.value, ses, Decide(f, ses.action, ses.pc));
    }
  }

  // Where a turn that does not end the session takes its lock.
  ghost predicate TakesLock(f: Facts, pc: Pc, turn: Turn)
  {
    !turn.Finish? ==>
      && (HoldsLock(turn.pc) <==> HoldsLock(pc) || LocksRow(pc) || (pc.Founding? && f.revision.None?))
      && (LocksRow(pc) ==> f.revision.Some?) && !turn.pc.Done?
  }

  lemma DecideLocks(f: Facts, ses: Session)
    requires !ses.pc.Done?
    requires (ses.pc.Founding? || ses.pc.Reading? ==> ses.action.Bootstrap?)
            && (ses.pc.Opening? ==> !ses.action.Bootstrap?)
    ensures TakesLock(f, ses.pc, Decide(f, ses.action, ses.pc))
  {
    if !ses.pc.Bumping? && !ses.pc.Committing? {
      if ses.action.Bootstrap? {
        BootstrapLocks(f, ses);
      } else {
        AuthorizedLocks(f, ses);
      }
    }
  }

  lemma BootstrapLocks(f: Facts, ses: Session)
    requires ses.action.Bootstrap? && !ses.pc.Opening? && !ses.pc.Done?
    ensures TakesLock(f, ses.pc, DecideBootstrap(f, ses.action.subject, ses.pc))
  {
  }

  lemma AuthorizedLocks(f: Facts, ses: Session)
    requires !ses.action.Bootstrap? && !ses.pc.Founding? && !ses.pc.Reading? && !ses.pc.Done?
    ensures TakesLock(f, ses.pc, DecideAuthorized(f, ses.action, ses.pc))
  {
    if ses.pc.Inspecting? {
      InspectionLocks(f, ses);
    } else if ses.pc.Clearing? || ses.pc.Granting? {
      GrantLocks(f, ses);
    } else if ses.pc.Assigning? || ses.pc.Checking? || ses.pc.Counting? || ses.pc.Unbinding? {
      BindingLocks(f, ses);
    }
  }

  lemma GrantLocks(f: Facts, ses: Session)
    requires !ses.action.Bootstrap? && (ses.pc.Clearing? || ses.pc.Granting?)
    ensures TakesLock(f, ses.pc, DecideAuthorized(f, ses.action, ses.pc))
  {
  }

  lemma BindingLocks(f: Facts, ses: Session)
    requires !ses.action.Bootstrap?
    requires ses.pc.Assigning? || ses.pc.Checking? || ses.pc.Counting? || ses.pc.Unbinding?
    ensures TakesLock(f, ses.pc, DecideAuthorized(f, ses.action, ses.pc))
  {
  }

  lemma InspectionLocks(f: Facts, ses: Session)
    requires !ses.action.Bootstrap? && ses.pc.Inspecting?
    ensures TakesLock(f, ses.pc, DecideAuthorized(f, ses.action, ses.pc))
  {
  }

  lemma TakeGoes(v: Tables, ses: Session, turn: Turn)
    ensures !Take(v, ses, turn).pc.Done? && !turn.Finish? ==> Take(v, ses, turn).pc == turn.pc
    ensures turn.Finish? ==> Take(v, ses, turn).pc.Done?
  {
  }

  lemma MoveKeepsInv(initial: Policies, c: Cluster, id: nat, next: Session)
    requires Inv(initial, c) && Active(c, id) && !Waits(c, c.sessions[id])
    requires next.scope == c.sessions[id].scope && !next.pc.Done?
    requires Knows(Lookup(c.committed, next.scope), next)
    requires HoldsLock(next.pc) <==> HoldsLock(c.sessions[id].pc) || Acquires(c, c.sessions[id])
    ensures var ses := c.sessions[id];
            Inv(initial, c.(sessions := c.sessions[id := next],
                            locks := if Acquires(c, ses) then c.locks[ses.scope := id] else c.locks))
  {
    var ses := c.sessions[id];
    var after := c.(sessions := c.sessions[id := next],
                    locks := if Acquires(c, ses) then c.locks[ses.scope := id] else c.locks);
    MoveKeepsLocks(c, id, next, after);
    MoveKeepsKnowledge(c, id, after);
    MoveKeepsLog(c, id, after);
  }

  lemma MoveKeepsLocks(c: Cluster, id: nat, next: Session, after: Cluster)
    requires LocksHeld(c) && Active(c, id) && !Waits(c, c.sessions[id]) && next.scope == c.sessions[id].scope
    requires HoldsLock(next.pc) <==> HoldsLock(c.sessions[id].pc) || Acquires(c, c.sessions[id])
    requires after.sessions == c.sessions[id := next]
    requires after.locks == if Acquires(c, c.sessions[id]) then c.locks[next.scope := id] else c.locks
    ensures LocksHeld(after)
  {
  }

  lemma MoveKeepsKnowledge(c: Cluster, id: nat, after: Cluster)
    requires AllKnow(c) && after.committed == c.committed
    requires id in after.sessions && after.sessions == c.sessions[id := after.sessions[id]]
    requires Knows(Lookup(c.committed, after.sessions[id].scope), after.sessions[id])
    ensures AllKnow(after)
  {
    forall x | x in after.sessions && x != id
      ensures Knows(Lookup(after.committed, after.sessions[x].scope), after.sessions[x])
    {
      assert after.sessions[x] == c.sessions[x];
    }
  }

  lemma MoveKeepsLog(c: Cluster, id: nat, after: Cluster)
    requires Logged(c) && (id in c.sessions ==> !c.sessions[id].pc.Done?)
    requires after.log == c.log && id in after.sessions && after.sessions == c.sessions[id := after.sessions[id]]
    requires !after.sessions[id].pc.Done?
    ensures Logged(after)
  {
  }

  lemma BeginKeepsInv(initial: Policies, c: Cluster, id: nat, scope: ScopeKey, action: Action)
    requires Inv(initial, c) && id !in c.sessions
    ensures Inv(initial, c.(sessions := c.sessions[id := Start(scope, action)]))
  {
    var after := c.(sessions := c.sessions[id := Start(scope, action)]);
    StartKnows(Lookup(c.committed, scope), scope, action);
    BeginKeepsLocks(c, id, after);
    MoveKeepsKnowledge(c, id, after);
    MoveKeepsLog(c, id, after);
  }

  lemma BeginKeepsLocks(c: Cluster, id: nat, after: Cluster)
    requires LocksHeld(c) && id !in c.sessions && id in after.sessions && !HoldsLock(after.sessions[id].pc)
    requires after.locks == c.locks && after.sessions == c.sessions[id := after.sessions[id]]
    ensures LocksHeld(after)
  {
  }

  lemma HappenKeepsInv(initial: Policies, c: Cluster, e: Event)
    requires Inv(initial, c)
    ensures Inv(initial, Happen(c, e))
  {
    match e {
      case Begin(id, scope, action) =>
        if id !in c.sessions { BeginKeepsInv(initial, c, id, scope, action); }
      case Execute(id) =>
        if Active(c, id) && !Waits(c, c.sessions[id]) { TurnedKeepsInv(initial, c, id); }
      case Disconnect(id) =>
        if Active(c, id) {
          SettleKeepsInv(initial, c, id, c.committed, Failed(DatabaseFailure), None);
        }
      case CommitUnheard(id) =>
        if Active(c, id) && c.sessions[id].pc.Committing? {
          var ses := c.sessions[id];
          var v := PutAll(c.committed, ses.scope, ses.writes);
          if v.Some? {
            UnheardKeepsInv(initial, c, id, v.value, ses.pc.mutation);
          }
        }
    }
  }

  lemma UnheardKeepsInv(initial: Policies, c: Cluster, id: nat, v: Tables, mutation: Mutation)
    requires Inv(initial, c) && Active(c, id) && c.sessions[id].pc == Committing(mutation)
    requires PutAll(c.committed, c.sessions[id].scope, c.sessions[id].writes) == Some(v)
    ensures Inv(initial, Settle(c, id, c.sessions[id], v, Failed(DatabaseFailure), Some(Accepted(mutation))))
  {
    CommitSettles(c, id, Failed(DatabaseFailure));
    SettleKeepsInv(initial, c, id, v, Failed(DatabaseFailure), Some(Accepted(mutation)));
  }

  lemma {:induction false} AfterKeepsInv(initial: Policies, c: Cluster, events: seq<Event>)
    requires Inv(initial, c)
    ensures Inv(initial, After(c, events))
  {
    if events != [] {
      AfterKeepsInv(initial, c, events[..|events|-1]);
      HappenKeepsInv(initial, After(c, events[..|events|-1]), events[|events|-1]);
    }
  }

  // ----- The theorems -----

  function Fresh(t: Tables): Cluster { Cluster(t, map[], map[], []) }

  lemma FreshIsInv(t: Tables)
    requires Schema(t)
    ensures Inv(View(t), Fresh(t))
  {
    assert Commands([]) == [];
  }

  // Neither the connection of the session nor the reply to its commit is lost.
  predicate Unfaulted(events: seq<Event>, id: nat)
  {
    forall i :: 0 <= i < |events| ==> events[i] != Disconnect(id) && events[i] != CommitUnheard(id)
  }

  /** The session, if it has ended, is in the log with the reply that it heard. */
  ghost predicate HeardItsEntry(c: Cluster, id: nat)
  {
    id in c.sessions && c.sessions[id].pc.Done? ==>
      exists i :: 0 <= i < |c.log| && c.log[i].id == id && c.log[i].reply == c.sessions[id].pc.reply
  }

  lemma HappenKeepsHeard(c: Cluster, e: Event, id: nat)
    requires HeardItsEntry(c, id) && e != Disconnect(id) && e != CommitUnheard(id)
    ensures HeardItsEntry(Happen(c, e), id)
  {
    var after := Happen(c, e);
    if id in after.sessions && after.sessions[id].pc.Done? {
      if Active(c, id) {
        assert e == Execute(id);
        assert after.log[|c.log|].id == id && after.log[|c.log|].reply == after.sessions[id].pc.reply;
      } else {
        var i :| 0 <= i < |c.log| && c.log[i].id == id && c.log[i].reply == c.sessions[id].pc.reply;
        LogGrowsByOne(c, e);
        assert after.log[i] == c.log[i];
      }
    }
  }

  lemma {:induction false} UnfaultedHears(t: Tables, events: seq<Event>, id: nat)
    requires Unfaulted(events, id)
    ensures HeardItsEntry(After(Fresh(t), events), id)
  {
    if events != [] {
      var before := events[..|events|-1];
      assert forall i :: 0 <= i < |before| ==> before[i] == events[i];
      UnfaultedHears(t, before, id);
      HappenKeepsHeard(After(Fresh(t), before), events[|events|-1], id);
    }
  }

  /** The session has ended with the reply that the serial run gives it. */
  ghost predicate EndedSerially(t: Tables, c: Cluster, id: nat)
  {
    exists i :: 0 <= i < |c.log| && c.log[i].id == id && id in c.sessions
                && c.sessions[id].pc == Done(Replies(View(t), Commands(c.log))[i])
  }

  lemma UnfaultedEndsSerially(t: Tables, events: seq<Event>, id: nat)
    requires Schema(t) && Unfaulted(events, id)
    requires var c := After(Fresh(t), events); id in c.sessions && c.sessions[id].pc.Done?
    ensures EndedSerially(t, After(Fresh(t), events), id)
  {
    var c := After(Fresh(t), events);
    FreshIsInv(t);
    AfterKeepsInv(View(t), Fresh(t), events);
    UnfaultedHears(t, events, id);
    var i :| 0 <= i < |c.log| && c.log[i].id == id && c.log[i].reply == c.sessions[id].pc.reply;
    assert Replies(View(t), Commands(c.log))[i] == c.log[i].reply;
  }

  /** Serializability: whatever the interleaving, disconnections and lost replies, there is one
      serial order of the settled sessions, each at most once, which yields the committed
      policies and every reply that a session heard. A session whose connection and reply were
      not lost is in it with exactly its reply, failures included, so it never fails for being
      interleaved; one that heard a database failure for a lost connection has had its whole
      effect or none. */
  lemma Serializable(t: Tables, events: seq<Event>)
    requires Schema(t)
    ensures var c := After(Fresh(t), events);
            && Schema(c.committed)
            && Run(View(t), Commands(c.log)) == View(c.committed)
            && (forall i, j :: 0 <= i < j < |c.log| ==> c.log[i].id != c.log[j].id)
            && (forall i :: 0 <= i < |c.log| ==>
                  && c.log[i].id in c.sessions
                  && var ses := c.sessions[c.log[i].id];
                     && c.log[i].command == Command(ses.scope, ses.action)
                     && ses.pc.Done?
                        && (ses.pc.reply == Replies(View(t), Commands(c.log))[i]
                           || ses.pc.reply == Failed(DatabaseFailure)))
            && (forall id :: id in c.sessions && Answered(c.sessions[id].pc) ==>
                  exists i :: 0 <= i < |c.log| && c.log[i].id == id)
    ensures var c := After(Fresh(t), events);
            forall id :: id in c.sessions && c.sessions[id].pc.Done? && Unfaulted(events, id) ==>
                EndedSerially(t, c, id)
  {
    FreshIsInv(t);
    AfterKeepsInv(View(t), Fresh(t), events);
    var c := After(Fresh(t), events);
    forall id | id in c.sessions && c.sessions[id].pc.Done? && Unfaulted(events, id) ensures EndedSerially(t, c, id) {
      UnfaultedEndsSerially(t, events, id);
    }
  }

  lemma LogGrowsByOne(c: Cluster, e: Event)
    ensures c.log <= Happen(c, e).log
  {
  }

  /** The serial order respects real time: settled sessions keep their place, so a session that
      ended before another one began comes before it. */
  lemma {:induction false} LogGrows(c: Cluster, events: seq<Event>, i: nat)
    requires i <= |events|
    ensures After(c, events[..i]).log <= After(c, events).log
  {
    if i == |events| {
      assert events[..i] == events;
    } else {
      var before := events[..|events|-1];
      assert before[..i] == events[..i];
      LogGrows(c, before, i);
      LogGrowsByOne(After(c, before), events[|events|-1]);
    }
  }

  /** At every moment of an interleaving the committed policies are those of a prefix of its
      serial order, so a reader never sees anything but states of one serial run. */
  lemma CommittedIsPrefix(t: Tables, events: seq<Event>, i: nat) returns (k: nat)
    requires Schema(t) && i <= |events|
    ensures var log := After(Fresh(t), events).log;
            && k == |After(Fresh(t), events[..i]).log| <= |log|
            && View(After(Fresh(t), events[..i]).committed) == Run(View(t), Commands(log)[..k])
  {
    FreshIsInv(t);
    AfterKeepsInv(View(t), Fresh(t), events[..i]);
    LogGrows(Fresh(t), events, i);
    k := |After(Fresh(t), events[..i]).log|;
    assert Commands(After(Fresh(t), events[..i]).log) == Commands(After(Fresh(t), events).log)[..k];
  }

  /** The places in the log where the scope was created. */
  function Foundings(log: seq<Entry>, scope: ScopeKey): set<nat>
  {
    set i: nat | i < |log| && Founds(log[i].command, log[i].reply, scope)
  }

  predicate TriesToFound(log: seq<Entry>, scope: ScopeKey)
  {
    exists k :: 0 <= k < |log| && log[k].command.scope == scope && log[k].command.action.Bootstrap?
  }

  /** However many sessions bootstrap a scope at once, an absent scope is created exactly once as
      soon as one of them is settled, and a present one never. */
  lemma ScopeFoundedOnce(t: Tables, events: seq<Event>, scope: ScopeKey)
    requires Schema(t)
    ensures var log := After(Fresh(t), events).log;
            |Foundings(log, scope)| == if scope !in t.scopes && TriesToFound(log, scope) then 1 else 0
  {
    FreshIsInv(t);
    AfterKeepsInv(View(t), Fresh(t), events);
    var log := After(Fresh(t), events).log;
    FoundingsCounted(View(t), log, View(After(Fresh(t), events).committed), scope);
    assert Find(View(t), scope) == Lookup(t, scope);
  }

  lemma FoundingsCounted(db: Policies, log: seq<Entry>, end: Policies, scope: ScopeKey)
    requires SerialLog(db, log, end)
    ensures |Foundings(log, scope)| == if scope !in db && TriesToFound(log, scope) then 1 else 0
  {
    var cs := Commands(log);
    if scope in db {
      forall i: nat | i < |log| ensures i !in Foundings(log, scope) { PresentIsNotFounded(db, cs, i, scope); }
      assert Foundings(log, scope) == {};
    } else if TriesToFound(log, scope) {
      var k :| 0 <= k < |log| && log[k].command.scope == scope && log[k].command.action.Bootstrap?;
      var i := FirstBootstrapFounds(db, cs, k, scope);
      forall j | j in Foundings(log, scope) ensures j == i {
        if i < j { ScopeCreatedOnce(db, cs, i, j); }
        if j < i { ScopeCreatedOnce(db, cs, j, i); }
      }
      assert i in Foundings(log, scope);
      assert Foundings(log, scope) == {i};
    } else {
      assert Foundings(log, scope) == {};
    }
  }

  /** No lockout under concurrency, mutual revocations included: in every interleaving that
      starts from empty tables, the bootstrap role of every scope is its only protected role and
      keeps exactly the two manage permissions, some subject holds both, and repeating the
      bootstrap as its original subject is accepted as a no-op. */
  lemma ConcurrentNoLockout(events: seq<Event>, scope: ScopeKey)
    requires scope in After(Fresh(EMPTY_TABLES), events).committed.scopes
    ensures var p := Lookup(After(Fresh(EMPTY_TABLES), events).committed, scope).value;
            && BOOTSTRAP_ROLE_ID in p.roles
            && p.roles[BOOTSTRAP_ROLE_ID].permissions == {ROLES_MANAGE, BINDINGS_MANAGE}
            && (forall r :: r in p.roles ==> (p.roles[r].protected <==> r == BOOTSTRAP_ROLE_ID))
            && (exists admin :: Holds(p, admin, ROLES_MANAGE) && Holds(p, admin, BINDINGS_MANAGE))
            && Apply(Some(p), Bootstrap(p.bootstrapSubject)) == (Some(p), Accepted(Mutation(false, p.revision)))
  {
    var cs := SerialFromEmpty(events);
    var c := After(Fresh(EMPTY_TABLES), events);
    assert Find(View(c.committed), scope) == Lookup(c.committed, scope);
    NoLockout(cs, scope);
  }

  lemma SerialFromEmpty(events: seq<Event>) returns (cs: seq<Command>)
    ensures var c := After(Fresh(EMPTY_TABLES), events);
            cs == Commands(c.log) && Inv(map[], c) && Run(map[], cs) == View(c.committed)
  {
    FreshIsInv(EMPTY_TABLES);
    AfterKeepsInv(View(EMPTY_TABLES), Fresh(EMPTY_TABLES), events);
    assert View(EMPTY_TABLES) == map[];
    cs := Commands(After(Fresh(EMPTY_TABLES), events).log);
  }

  /** From empty tables no session of any interleaving ever hears that the stored policy is
      invalid. */
  lemma NobodyHearsCorruption(events: seq<Event>, id: nat)
    requires id in After(Fresh(EMPTY_TABLES), events).sessions
    ensures After(Fresh(EMPTY_TABLES), events).sessions[id].pc != Done(Failed(InvalidStoredState))
  {
    var cs := SerialFromEmpty(events);
    var c := After(Fresh(EMPTY_TABLES), events);
    if c.sessions[id].pc == Done(Failed(InvalidStoredState)) {
      var i :| 0 <= i < |c.log| && c.log[i].id == id;
      RunFailsOnlyOnOverflow(cs, i);
    }
  }

  /** Mutual exclusion: in every interleaving, two sessions that are both past their lock statement
      in one scope are the same session. */
  lemma OneSessionPerScope(t: Tables, events: seq<Event>, one: nat, two: nat)
    requires Schema(t)
    requires var c := After(Fresh(t), events);
             && one in c.sessions && two in c.sessions && c.sessions[one].scope == c.sessions[two].scope
             && HoldsLock(c.sessions[one].pc) && HoldsLock(c.sessions[two].pc)
    ensures one == two
  {
    FreshIsInv(t);
    AfterKeepsInv(View(t), Fresh(t), events);
  }

  /** An insert of a scope row is executed only when no session holds an uncommitted insert or update
      of that row. */
  lemma InsertMeetsNoUncommittedRow(initial: Policies, c: Cluster, id: nat, other: nat)
    requires Inv(initial, c) && Executes(c, Execute(id)) && c.sessions[id].pc.Founding?
    requires other in c.sessions && c.sessions[other].scope == c.sessions[id].scope
    ensures BumpRevision !in c.sessions[other].writes
    ensures c.sessions[id].scope !in c.committed.scopes ==> c.sessions[other].writes == []
  {
    assert Knows(Lookup(c.committed, c.sessions[other].scope), c.sessions[other]);
    if c.sessions[other].writes != [] {
      assert HoldsLock(c.sessions[other].pc);
    }
  }

  /** Sessions never deadlock: a session that waits, waits for one that can go on, because the
      holder of a lock needs no other. */
  lemma NoDeadlock(initial: Policies, c: Cluster, id: nat) returns (next: nat)
    requires Inv(initial, c) && Active(c, id)
    ensures Active(c, next) && !Waits(c, c.sessions[next])
    ensures next == id || (c.sessions[id].scope in c.locks && next == c.locks[c.sessions[id].scope])
  {
    next := if Waits(c, c.sessions[id]) then c.locks[c.sessions[id].scope] else id;
  }

  /** The statements that the listed sessions may still issue, together. */
  function Work(c: Cluster, ids: seq<nat>): nat
  {
    if ids == [] then 0
    else Work(c, ids[1..]) + (if ids[0] in c.sessions then Remaining(c.sessions[ids[0]]) else 0)
  }

  lemma TurnedSessions(c: Cluster, id: nat)
    requires Active(c, id)
    ensures var next := Advance(c.committed, c.sessions[id]);
            Turned(c, id).sessions == c.sessions[id := Ended(c.sessions[id], next)]
  {
  }

  lemma TurnedChangesOne(c: Cluster, id: nat) returns (next: Session)
    requires Active(c, id)
    ensures Turned(c, id).sessions == c.sessions[id := next] && Remaining(next) < Remaining(c.sessions[id])
  {
    var ses := c.sessions[id];
    var advanced := Advance(c.committed, ses);
    StatementsRunOut(c.committed, ses);
    TurnedSessions(c, id);
    next := Ended(ses, advanced);
    EndedIsShorter(ses, advanced);
  }

  function Ended(ses: Session, advanced: Session): Session
  {
    if advanced.pc.Done? then End(ses, advanced.pc.reply) else advanced
  }

  lemma EndedIsShorter(ses: Session, advanced: Session)
    requires Remaining(advanced) < Remaining(ses)
    ensures Remaining(Ended(ses, advanced)) < Remaining(ses)
  {
  }

  /** Each statement brings its session nearer to its end and leaves the others where they are. */
  lemma ExecuteShortens(c: Cluster, id: nat)
    requires Active(c, id) && !Waits(c, c.sessions[id])
    ensures var after := Happen(c, Execute(id));
            && id in after.sessions && Remaining(after.sessions[id]) < Remaining(c.sessions[id])
            && after.sessions.Keys == c.sessions.Keys
            && (forall x :: x in c.sessions && x != id ==> after.sessions[x] == c.sessions[x])
  {
    var next := TurnedChangesOne(c, id);
    assert c.sessions[id := next].Keys == c.sessions.Keys;
  }

  lemma {:induction false} WorkShrinks(c: Cluster, after: Cluster, id: nat, ids: seq<nat>)
    requires id in c.sessions && after.sessions.Keys == c.sessions.Keys
    requires Remaining(after.sessions[id]) < Remaining(c.sessions[id])
    requires forall x :: x in c.sessions && x != id ==> after.sessions[x] == c.sessions[x]
    ensures Work(after, ids) <= Work(c, ids)
    ensures id in ids ==> Work(after, ids) < Work(c, ids)
  {
    if ids != [] {
      WorkShrinks(c, after, id, ids[1..]);
    }
  }

  lemma ConsInit<T>(e: T, list: seq<T>)
    requires list != []
    ensures ([e] + list)[..|list|] == [e] + list[..|list|-1] && ([e] + list)[|list|] == list[|list|-1]
  {
  }

  lemma OneEvent(c: Cluster, e: Event)
    ensures After(c, [e]) == Happen(c, e)
  {
    assert [e][..0] == [];
  }

  lemma {:induction false} HappenFirst(c: Cluster, e: Event, events: seq<Event>)
    ensures After(c, [e] + events) == After(Happen(c, e), events)
  {
    if events == [] {
      OneEvent(c, e);
      assert [e] + events == [e];
    } else {
      HappenFirst(c, e, events[..|events|-1]);
      ConsInit(e, events);
    }
  }

  predicate AllEnded(c: Cluster) { forall id :: id in c.sessions ==> c.sessions[id].pc.Done? }

  predicate OnlyStatements(events: seq<Event>) { forall i :: 0 <= i < |events| ==> events[i].Execute? }

  lemma SomebodyGoesOn(initial: Policies, c: Cluster, ids: seq<nat>) returns (next: nat)
    requires Inv(initial, c) && !AllEnded(c) && forall id :: id in c.sessions ==> id in ids
    ensures var after := Happen(c, Execute(next));
            && Inv(initial, after) && Work(after, ids) < Work(c, ids) && after.sessions.Keys == c.sessions.Keys
  {
    var id :| id in c.sessions && !c.sessions[id].pc.Done?;
    next := NoDeadlock(initial, c, id);
    ExecuteShortens(c, next);
    WorkShrinks(c, Happen(c, Execute(next)), next, ids);
    HappenKeepsInv(initial, c, Execute(next));
  }

  lemma OneMoreStatement(c: Cluster, next: nat, rest: seq<Event>)
    requires OnlyStatements(rest) && AllEnded(After(Happen(c, Execute(next)), rest))
    ensures OnlyStatements([Execute(next)] + rest) && AllEnded(After(c, [Execute(next)] + rest))
  {
    HappenFirst(c, Execute(next), rest);
  }

  /** Everybody can finish: from every state there is a schedule of at most `Work` statements,
      without a single disconnection, after which every session has ended. */
  lemma {:induction false} EverybodyFinishes(initial: Policies, c: Cluster, ids: seq<nat>) returns (events: seq<Event>)
    requires Inv(initial, c) && forall id :: id in c.sessions ==> id in ids
    ensures OnlyStatements(events) && |events| <= Work(c, ids)
    ensures AllEnded(After(c, events))
    decreases Work(c, ids)
  {
    if AllEnded(c) {
      events := [];
    } else {
      var next := SomebodyGoesOn(initial, c, ids);
      var rest := EverybodyFinishes(initial, Happen(c, Execute(next)), ids);
      OneMoreStatement(c, next, rest);
      events := [Execute(next)] + rest;
    }
  }

  // Whether an event is a statement that gets executed.
  predicate Executes(c: Cluster, e: Event)
  {
    e.Execute? && Active(c, e.id) && !Waits(c, c.sessions[e.id])
  }

  function ExecutedCount(c: Cluster, events: seq<Event>): nat
  {
    if events == [] then 0
    else
      var before := events[..|events|-1];
      ExecutedCount(c, before) + (if Executes(After(c, before), events[|events|-1]) then 1 else 0)
  }

  /** No session can issue a statement. */
  predicate Stuck(c: Cluster) { forall id :: id in c.sessions ==> !Executes(c, Execute(id)) }

  lemma StuckMeansEnded(initial: Policies, c: Cluster)
    requires Inv(initial, c)
    ensures Stuck(c) <==> AllEnded(c)
  {
    if id :| id in c.sessions && !c.sessions[id].pc.Done? {
      var next := NoDeadlock(initial, c, id);
      assert Executes(c, Execute(next));
    }
  }

  lemma {:induction false} StatementsAreWork(c: Cluster, events: seq<Event>, ids: seq<nat>)
    requires OnlyStatements(events) && forall id :: id in c.sessions ==> id in ids
    ensures ExecutedCount(c, events) + Work(After(c, events), ids) <= Work(c, ids)
    ensures After(c, events).sessions.Keys == c.sessions.Keys
  {
    if events != [] {
      var before, last := events[..|events|-1], events[|events|-1];
      StatementsAreWork(c, before, ids);
      var d := After(c, before);
      if Executes(d, last) {
        ExecuteShortens(d, last.id);
        WorkShrinks(d, Happen(d, last), last.id, ids);
      } else {
        assert Happen(d, last) == d;
      }
    }
  }

  /** Every schedule ends: from any reachable state, however statements are scheduled, at most
      `Work` of them are executed, and when none can be, every session has ended. */
  lemma EveryScheduleEnds(t: Tables, events: seq<Event>, more: seq<Event>, ids: seq<nat>)
    requires Schema(t) && OnlyStatements(more)
    requires forall id :: id in After(Fresh(t), events).sessions ==> id in ids
    ensures var c := After(Fresh(t), events);
            && ExecutedCount(c, more) <= Work(c, ids)
            && (ExecutedCount(c, more) == Work(c, ids) ==> AllEnded(After(c, more)))
            && (Stuck(After(c, more)) <==> AllEnded(After(c, more)))
  {
    var c := After(Fresh(t), events);
    FreshIsInv(t);
    AfterKeepsInv(View(t), Fresh(t), events);
    AfterKeepsInv(View(t), c, more);
    StatementsAreWork(c, more, ids);
    StuckMeansEnded(View(t), After(c, more));
    if ExecutedCount(c, more) == Work(c, ids) {
      NoWorkMeansEnded(After(c, more), ids);
    }
  }

  lemma {:induction false} WorkCoversEach(c: Cluster, ids: seq<nat>, id: nat)
    requires id in ids && id in c.sessions
    ensures Remaining(c.sessions[id]) <= Work(c, ids)
  {
    if ids[0] != id {
      WorkCoversEach(c, ids[1..], id);
    }
  }

  lemma NoWorkMeansEnded(c: Cluster, ids: seq<nat>)
    requires Work(c, ids) == 0 && forall id :: id in c.sessions ==> id in ids
    ensures AllEnded(c)
  {
    forall id | id in c.sessions ensures c.sessions[id].pc.Done? {
      WorkCoversEach(c, ids, id);
    }
  }

  lemma Enumerated(ids: set<nat>) returns (list: seq<nat>)
    ensures forall id :: id in ids ==> id in list
  {
    if ids == {} {
      list := [];
    } else {
      var id :| id in ids;
      var rest := Enumerated(ids - {id});
      list := [id] + rest;
    }
  }

  lemma {:induction false} AfterBoth(c: Cluster, events: seq<Event>, more: seq<Event>)
    ensures After(c, events + more) == After(After(c, events), more)
  {
    if more == [] {
      assert events + more == events;
    } else {
      AfterBoth(c, events, more[..|more|-1]);
      assert (events + more)[..|events + more|-1] == events + more[..|more|-1];
    }
  }

  /** Progress: whatever has happened so far, locks and waits never keep the open sessions from
      ending, and every session whose connection and reply were not lost ends with the reply that
      the serial run gives it. */
  lemma OpenSessionsCanEnd(t: Tables, events: seq<Event>) returns (more: seq<Event>)
    requires Schema(t)
    ensures OnlyStatements(more)
    ensures var end := After(Fresh(t), events + more);
            AllEnded(end) && forall id :: id in end.sessions && Unfaulted(events, id) ==> EndedSerially(t, end, id)
  {
    FreshIsInv(t);
    AfterKeepsInv(View(t), Fresh(t), events);
    var c := After(Fresh(t), events);
    var ids := Enumerated(c.sessions.Keys);
    more := EverybodyFinishes(View(t), c, ids);
    AfterBoth(Fresh(t), events, more);
    var end := After(Fresh(t), events + more);
    forall id | id in end.sessions && Unfaulted(events, id) ensures EndedSerially(t, end, id) {
      assert Unfaulted(events + more, id);
      UnfaultedEndsSerially(t, events + more, id);
    }
  }
}
