/** The service under concurrency: calls that run as interleaved PostgreSQL sessions are served as
    in one serial history. */
module ConcurrentService {
  import opened AccessPolicy
  import opened PolicyRuns
  import opened Relational
  import opened PgProgram
  import opened PgProtocol
  import Service

  /** Every session is begun for one admitted, valid call. */
  ghost predicate BegunFor(config: Service.Config, calls: map<nat, Service.Call>, events: seq<Event>)
  {
    forall i :: 0 <= i < |events| && events[i].Begin? ==>
      && events[i].id in calls && Service.Reaches(config, calls[events[i].id])
      && Command(events[i].scope, events[i].action) == Service.CommandOf(calls[events[i].id])
  }

  ghost predicate SessionsServe(config: Service.Config, calls: map<nat, Service.Call>, c: Cluster)
  {
    forall id :: id in c.sessions ==>
      && id in calls && Service.Reaches(config, calls[id])
      && Command(c.sessions[id].scope, c.sessions[id].action) == Service.CommandOf(calls[id])
  }

  lemma HappenKeepsCommands(c: Cluster, e: Event, id: nat)
    requires id in c.sessions
    ensures var after := Happen(c, e);
            && id in after.sessions
            && after.sessions[id].scope == c.sessions[id].scope && after.sessions[id].action == c.sessions[id].action
  {
    if Active(c, id) {
      StatementsRunOut(c.committed, c.sessions[id]);
    }
  }

  lemma HappenBegins(c: Cluster, e: Event, id: nat)
    requires id !in c.sessions && id in Happen(c, e).sessions
    ensures e.Begin? && e.id == id && Happen(c, e).sessions[id] == Start(e.scope, e.action)
  {
  }

  lemma {:induction false} SessionsServeCalls(config: Service.Config, calls: map<nat, Service.Call>, t: Tables,
                                              events: seq<Event>)
    requires BegunFor(config, calls, events)
    ensures SessionsServe(config, calls, After(Fresh(t), events))
  {
    if events != [] {
      var before, last := events[..|events|-1], events[|events|-1];
      assert forall i :: 0 <= i < |before| ==> before[i] == events[i];
      SessionsServeCalls(config, calls, t, before);
      var c := After(Fresh(t), before);
      forall id | id in Happen(c, last).sessions
        ensures id in calls && Service.Reaches(config, calls[id])
        ensures Command(Happen(c, last).sessions[id].scope, Happen(c, last).sessions[id].action)
                == Service.CommandOf(calls[id])
      {
        if id in c.sessions {
          HappenKeepsCommands(c, last, id);
        } else {
          HappenBegins(c, last, id);
        }
      }
    }
  }

  /** The calls of the settled sessions, in the order in which they were settled. */
  function HistoryOf(calls: map<nat, Service.Call>, log: seq<Entry>): (history: seq<Service.Served>)
    requires forall i :: 0 <= i < |log| ==> log[i].id in calls
    ensures |history| == |log|
    ensures forall i :: 0 <= i < |log| ==> history[i] == Service.Served(calls[log[i].id], Service.Heard)
  {
    seq(|log|, i requires 0 <= i < |log| => Service.Served(calls[log[i].id], Service.Heard))
  }

  // A history of heard calls whose commands are the given ones.
  ghost predicate Carries(config: Service.Config, history: seq<Service.Served>, cs: seq<Command>)
  {
    && |history| == |cs|
    && forall i :: 0 <= i < |cs| ==>
         && Service.Reaches(config, history[i].call) && history[i].fate == Service.Heard
         && Service.CommandOf(history[i].call) == cs[i]
  }

  lemma {:induction false} AllExecuted(config: Service.Config, history: seq<Service.Served>, cs: seq<Command>)
    requires Carries(config, history, cs)
    ensures Service.Executed(config, history) == cs
  {
    if cs != [] {
      AllExecuted(config, history[..|cs|-1], cs[..|cs|-1]);
      assert cs == cs[..|cs|-1] + [cs[|cs|-1]];
    }
  }

  /** The reply that the session heard becomes the response that its call has in the history. */
  ghost predicate ServedIn(config: Service.Config, calls: map<nat, Service.Call>, c: Cluster,
                           history: seq<Service.Served>, id: nat)
  {
    && id in calls && id in c.sessions && c.sessions[id].pc.Done?
    && exists i :: 0 <= i < |history| && i < |c.log| && c.log[i].id == id && history[i].call == calls[id]
                   && Service.Responses(config, history)[i]
                      == Service.OutcomeOf(calls[id].request, c.sessions[id].pc.reply)
  }

  lemma ResponseInHistory(config: Service.Config, history: seq<Service.Served>, cs: seq<Command>, i: nat)
    requires Carries(config, history, cs) && i < |cs|
    ensures Service.Responses(config, history)[i] == Service.OutcomeOf(history[i].call.request, Replies(map[], cs)[i])
  {
    AllExecuted(config, history, cs);
    AllExecuted(config, history[..i], cs[..i]);
    Service.ResponsesAreReplies(config, history, i);
  }

  /** Concurrent calls are served as one serial history of the settled ones: it leads to the
      committed policies, and it gives every call whose session lost neither connection nor reply
      the response that the call got. */
  lemma ConcurrentCallsAreServed(config: Service.Config, calls: map<nat, Service.Call>, events: seq<Event>)
    returns (history: seq<Service.Served>)
    requires BegunFor(config, calls, events)
    ensures var c := After(Fresh(EMPTY_TABLES), events);
            && (forall i :: 0 <= i < |c.log| ==> c.log[i].id in calls)
            && history == HistoryOf(calls, c.log)
            && Service.Serve(config, history) == View(c.committed)
            && (forall id :: id in c.sessions && c.sessions[id].pc.Done? && Unfaulted(events, id) ==>
                  ServedIn(config, calls, c, history, id))
  {
    var c := After(Fresh(EMPTY_TABLES), events);
    history := SerialHistory(config, calls, events);
    forall id | id in c.sessions && c.sessions[id].pc.Done? && Unfaulted(events, id)
      ensures ServedIn(config, calls, c, history, id)
    {
      UnfaultedIsServed(config, calls, events, history, id);
    }
  }

  lemma SerialHistory(config: Service.Config, calls: map<nat, Service.Call>, events: seq<Event>)
    returns (history: seq<Service.Served>)
    requires BegunFor(config, calls, events)
    ensures var c := After(Fresh(EMPTY_TABLES), events);
            && (forall i :: 0 <= i < |c.log| ==> c.log[i].id in calls)
            && history == HistoryOf(calls, c.log)
            && Carries(config, history, Commands(c.log))
            && Service.Serve(config, history) == View(c.committed)
  {
    var cs := SerialFromEmpty(events);
    SessionsServeCalls(config, calls, EMPTY_TABLES, events);
    history := HistoryOf(calls, After(Fresh(EMPTY_TABLES), events).log);
    AllExecuted(config, history, cs);
    Service.ServedIsRun(config, history);
  }

  lemma UnfaultedIsServed(config: Service.Config, calls: map<nat, Service.Call>, events: seq<Event>,
                          history: seq<Service.Served>, id: nat)
    requires Unfaulted(events, id)
    requires var c := After(Fresh(EMPTY_TABLES), events);
             && id in c.sessions && c.sessions[id].pc.Done?
             && (forall i :: 0 <= i < |c.log| ==> c.log[i].id in calls)
             && history == HistoryOf(calls, c.log) && Carries(config, history, Commands(c.log))
    ensures ServedIn(config, calls, After(Fresh(EMPTY_TABLES), events), history, id)
  {
    var c := After(Fresh(EMPTY_TABLES), events);
    UnfaultedEndsSerially(EMPTY_TABLES, events, id);
    assert View(EMPTY_TABLES) == map[];
    var i :| 0 <= i < |c.log| && c.log[i].id == id
             && c.sessions[id].pc == Done(Replies(View(EMPTY_TABLES), Commands(c.log))[i]);
    ResponseInHistory(config, history, Commands(c.log), i);
  }

  /** So everything stored by concurrent calls is valid, in every interleaving. */
  lemma ConcurrentlyStoredIsValid(config: Service.Config, calls: map<nat, Service.Call>, events: seq<Event>)
    requires BegunFor(config, calls, events)
    ensures Service.AllValid(View(After(Fresh(EMPTY_TABLES), events).committed))
  {
    var history := ConcurrentCallsAreServed(config, calls, events);
    Service.EverythingStoredIsValid(config, history);
  }
}
