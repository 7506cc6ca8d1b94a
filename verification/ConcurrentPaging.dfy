/** A directory client that pages through a scope while PostgreSQL sessions commit around it. */
module ConcurrentPaging {
  import opened AccessPolicy
  import opened PolicyRuns
  import opened Relational
  import opened Directory
  import opened PgProtocol

  /** The policy of a scope after the first `n` events. */
  function PolicyAfter(t: Tables, events: seq<Event>, n: nat, scope: ScopeKey): Option<Policy>
    requires n <= |events|
  {
    Lookup(PgProtocol.After(Fresh(t), events[..n]).committed, scope)
  }

  // How many sessions were settled by the first `n` events.
  function SettledAfter(t: Tables, events: seq<Event>, n: nat): nat
    requires n <= |events|
  {
    |PgProtocol.After(Fresh(t), events[..n]).log|
  }

  lemma MomentIsSerial(t: Tables, events: seq<Event>, n: nat, scope: ScopeKey)
    requires Schema(t) && n <= |events|
    ensures var cs := Commands(PgProtocol.After(Fresh(t), events).log);
            && SettledAfter(t, events, n) <= |cs|
            && PolicyAfter(t, events, n, scope) == Find(Run(View(t), cs[..SettledAfter(t, events, n)]), scope)
  {
    var k := CommittedIsPrefix(t, events, n);
    var u := PgProtocol.After(Fresh(t), events[..n]).committed;
    assert Find(View(u), scope) == Lookup(u, scope);
  }

  lemma SettledGrows(t: Tables, events: seq<Event>, m: nat, n: nat)
    requires m <= n <= |events|
    ensures SettledAfter(t, events, m) <= SettledAfter(t, events, n)
  {
    LogGrows(Fresh(t), events[..n], m);
    assert events[..n][..m] == events[..m];
  }

  /** Pages read at successive moments of any interleaving, if they all report one revision, are
      together the sorted listing of the policy at that revision, each role with the grants it
      had there. */
  lemma PagesAmongWriters(t: Tables, events: seq<Event>, scope: ScopeKey, at: seq<nat>, world: nat -> Option<Policy>,
                          f: Filter, limit: nat, pages: seq<Page>)
    requires Schema(t) && limit >= 1 && Follows(world, f, limit, pages) && !Unfinished(pages)
    requires |at| == |pages| && (forall i :: 0 <= i < |at| ==> at[i] <= |events|)
    requires forall i, j :: 0 <= i < j < |at| ==> at[i] <= at[j]
    requires forall i :: 0 <= i < |at| ==> world(i) == PolicyAfter(t, events, at[i], scope)
    requires forall i :: 0 <= i < |pages| ==> pages[i].revision == pages[0].revision
    ensures world(0).Some? && Roles(pages) == Listing(world(0).value, f)
  {
    var cs := Commands(PgProtocol.After(Fresh(t), events).log);
    var ks := seq(|at|, i requires 0 <= i < |at| => SettledAfter(t, events, at[i]));
    forall i | 0 <= i < |at| ensures ks[i] <= |cs| && world(i) == Find(Run(View(t), cs[..ks[i]]), scope) {
      MomentIsSerial(t, events, at[i], scope);
    }
    forall i, j | 0 <= i < j < |at| ensures ks[i] <= ks[j] {
      SettledGrows(t, events, at[i], at[j]);
    }
    SameRevisionPagesAreListing(View(t), cs, scope, ks, world, f, limit, pages);
  }
}
