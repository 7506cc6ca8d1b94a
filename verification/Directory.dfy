/** Keyset paging over the roles of a scope: what one page holds, and what a client gets that
    follows `next_cursor` while other operations commit between its pages. */
module Directory {
  import opened AccessPolicy
  import opened Ordering
  import opened PolicyRuns

  datatype DirectoryRole = DirectoryRole(id: string, name: string, protected: bool, permissions: seq<string>)

  datatype Page = Page(roles: seq<DirectoryRole>, revision: int, hasMore: bool)

  // Which roles are asked for: a single one, those a subject is bound to, or all.
  datatype Filter = Filter(role: Option<string>, subject: Option<string>)

  const EVERY_ROLE := Filter(None, None)

  function SubjectFilter(subject: string): Filter { Filter(None, Some(subject)) }

  predicate Selects(f: Filter, p: Policy, r: string)
  {
    (f.role.None? || r == f.role.value) && (f.subject.None? || Binding(f.subject.value, r) in p.bindings)
  }

  function Listed(p: Policy, f: Filter): set<string>
  {
    set r | r in p.roles && Selects(f, p, r)
  }

  predicate Past(cursor: Option<string>, r: string) { cursor.None? || Before(cursor.value, r) }

  function Upcoming(p: Policy, f: Filter, cursor: Option<string>): set<string>
  {
    set r | r in Listed(p, f) && Past(cursor, r)
  }

  function Entry(p: Policy, r: string): DirectoryRole
    requires r in p.roles
  {
    DirectoryRole(r, p.roles[r].name, p.roles[r].protected, Sorted(p.roles[r].permissions))
  }

  function Entries(p: Policy, ids: seq<string>): (roles: seq<DirectoryRole>)
    requires forall i :: 0 <= i < |ids| ==> ids[i] in p.roles
    ensures |roles| == |ids|
    ensures forall i :: 0 <= i < |ids| ==> roles[i] == Entry(p, ids[i])
  {
    seq(|ids|, i requires 0 <= i < |ids| => Entry(p, ids[i]))
  }

  function Prefix<T>(list: seq<T>, n: nat): (s: seq<T>)
    ensures s <= list && |s| == if |list| <= n then |list| else n
  {
    if |list| <= n then list else list[..n]
  }

  /** The next `limit` roles past the cursor in ascending order, and whether there are more. */
  function PageOf(p: Policy, f: Filter, cursor: Option<string>, limit: nat): Page
  {
    var ids := Sorted(Upcoming(p, f, cursor));
    assert forall i :: 0 <= i < |ids| ==> ids[i] in Upcoming(p, f, cursor);
    Page(Entries(p, Prefix(ids, limit)), p.revision, |ids| > limit)
  }

  function Ids(roles: seq<DirectoryRole>): (ids: seq<string>)
    ensures |ids| == |roles|
    ensures forall i :: 0 <= i < |roles| ==> ids[i] == roles[i].id
  {
    seq(|roles|, i requires 0 <= i < |roles| => roles[i].id)
  }

  function LastId(page: Page): string
    requires page.roles != []
  {
    page.roles[|page.roles|-1].id
  }

  function NextCursor(page: Page): Option<string>
  {
    if page.hasMore && page.roles != [] then Some(LastId(page)) else None
  }

  // ----- One page -----

  /** What a page says about the roles past its cursor: it holds the first of them, and if it is
      truncated then it is full and the rest lies strictly past its last role. */
  lemma PageShape(p: Policy, f: Filter, cursor: Option<string>, limit: nat)
    requires limit >= 1
    ensures var page, rest := PageOf(p, f, cursor, limit), Upcoming(p, f, cursor);
            && Ascending(Ids(page.roles))
            && (forall r :: r in Ids(page.roles) ==> r in rest)
            && (forall r :: r in rest && r !in Ids(page.roles) ==>
               page.hasMore && page.roles != [] && Before(LastId(page), r))
            && (page.hasMore ==> |page.roles| == limit && exists r :: r in rest && Before(LastId(page), r))
            && (!page.hasMore ==> |page.roles| == |rest| <= limit)
  {
    var all, page := Sorted(Upcoming(p, f, cursor)), PageOf(p, f, cursor, limit);
    SortedIsAscending(Upcoming(p, f, cursor));
    assert Ids(page.roles) == Prefix(all, limit);
    forall r | r in all && r !in Ids(page.roles) ensures page.hasMore && page.roles != [] && Before(LastId(page), r) {
      var i :| 0 <= i < |all| && all[i] == r;
      assert i >= |Ids(page.roles)|;
    }
    if page.hasMore {
      assert all[limit] in Upcoming(p, f, cursor) && Before(LastId(page), all[limit]);
    }
  }

  // ----- Following the cursor -----

  /** The cursor with which a client goes on that has read these pages. */
  function Resume(pages: seq<Page>): Option<string>
  {
    if pages == [] then None else NextCursor(pages[|pages|-1])
  }

  predicate Unfinished(pages: seq<Page>) { pages == [] || pages[|pages|-1].hasMore }

  /** Page number i was read while the policy was `world(i)`, with the cursor that the page
      before it gave. */
  ghost predicate Follows(world: nat -> Option<Policy>, f: Filter, limit: nat, pages: seq<Page>)
  {
    pages == [] ||
    (var init := pages[..|pages|-1];
     && Follows(world, f, limit, init)
     && Unfinished(init)
     && world(|init|).Some?
     && pages[|init|] == PageOf(world(|init|).value, f, Resume(init), limit))
  }

  function Roles(pages: seq<Page>): seq<DirectoryRole>
  {
    if pages == [] then [] else Roles(pages[..|pages|-1]) + pages[|pages|-1].roles
  }

  lemma FollowsOneMore(world: nat -> Option<Policy>, f: Filter, limit: nat, pages: seq<Page>, p: Policy)
    requires Follows(world, f, limit, pages) && Unfinished(pages) && world(|pages|) == Some(p)
    ensures var page := PageOf(p, f, Resume(pages), limit);
            && Follows(world, f, limit, pages + [page])
            && Roles(pages + [page]) == Roles(pages) + page.roles
            && Resume(pages + [page]) == NextCursor(page)
            && (Unfinished(pages + [page]) <==> page.hasMore)
  {
    assert (pages + [PageOf(p, f, Resume(pages), limit)])[..|pages|] == pages;
  }

  lemma {:induction false} PageAt(world: nat -> Option<Policy>, f: Filter, limit: nat, pages: seq<Page>, i: nat)
    requires i < |pages| && Follows(world, f, limit, pages)
    ensures world(i).Some? && pages[i].revision == world(i).value.revision
  {
    if i < |pages| - 1 {
      PageAt(world, f, limit, pages[..|pages|-1], i);
    }
  }

  lemma IdsOfConcat(a: seq<DirectoryRole>, b: seq<DirectoryRole>)
    ensures Ids(a + b) == Ids(a) + Ids(b)
  {
  }

  lemma AscendingConcat(a: seq<string>, b: seq<string>)
    requires Ascending(a) && Ascending(b)
    requires a != [] && b != [] ==> Before(a[|a|-1], b[0])
    ensures Ascending(a + b)
  {
    forall i, j | 0 <= i < |a| && 0 <= j < |b| ensures Before(a[i], b[j]) {
      if i < |a| - 1 { BeforeIsTransitive(a[i], a[|a|-1], b[0]); }
      if j > 0 { BeforeIsTransitive(a[i], b[0], b[j]); }
    }
  }

  lemma IdsExtend(done: seq<DirectoryRole>, more: seq<DirectoryRole>, cursor: Option<string>)
    requires Ascending(Ids(done)) && Ascending(Ids(more))
    requires done == [] || cursor == Some(Ids(done)[|done|-1])
    requires forall r :: r in Ids(more) ==> Past(cursor, r)
    ensures Ascending(Ids(done + more))
  {
    IdsOfConcat(done, more);
    if more != [] {
      assert Ids(more)[0] in Ids(more);
    }
    AscendingConcat(Ids(done), Ids(more));
  }

  /** Roles in ascending order, the last of which is the cursor when more are to come. */
  ghost predicate UpTo(roles: seq<DirectoryRole>, cursor: Option<string>, more: bool)
  {
    Ascending(Ids(roles)) && (more ==> roles != [] && cursor == Some(Ids(roles)[|roles|-1]))
  }

  lemma PageExtends(done: seq<DirectoryRole>, cursor: Option<string>, p: Policy, f: Filter, limit: nat, page: Page)
    requires limit >= 1 && page == PageOf(p, f, cursor, limit)
    requires UpTo(done, cursor, done != [])
    ensures UpTo(done + page.roles, NextCursor(page), page.hasMore)
  {
    PageShape(p, f, cursor, limit);
    IdsExtend(done, page.roles, cursor);
  }

  ghost predicate CollectedUpTo(pages: seq<Page>)
  {
    UpTo(Roles(pages), Resume(pages), pages != [] && Unfinished(pages))
  }

  lemma CollectOneMore(init: seq<Page>, page: Page, p: Policy, f: Filter, limit: nat)
    requires limit >= 1 && Unfinished(init) && CollectedUpTo(init) && page == PageOf(p, f, Resume(init), limit)
    ensures CollectedUpTo(init + [page])
  {
    PageExtends(Roles(init), Resume(init), p, f, limit, page);
    assert (init + [page])[..|init|] == init;
  }

  /** What has been collected so far is in ascending order and ends at the cursor. */
  lemma {:induction false} CollectedAscends(world: nat -> Option<Policy>, f: Filter, limit: nat, pages: seq<Page>)
    requires limit >= 1 && Follows(world, f, limit, pages)
    ensures CollectedUpTo(pages)
  {
    if pages != [] {
      var init := pages[..|pages|-1];
      CollectedAscends(world, f, limit, init);
      CollectOneMore(init, pages[|init|], world(|init|).value, f, limit);
      assert init + [pages[|init|]] == pages;
    }
  }

  /** No role id is returned twice, whatever is committed between the pages. */
  lemma NoIdTwice(world: nat -> Option<Policy>, f: Filter, limit: nat, pages: seq<Page>, i: nat, j: nat)
    requires limit >= 1 && Follows(world, f, limit, pages)
    requires i < |Roles(pages)| && j < |Roles(pages)| && Roles(pages)[i].id == Roles(pages)[j].id
    ensures i == j
  {
    CollectedAscends(world, f, limit, pages);
    AscendingIsDistinct(Ids(Roles(pages)), i, j);
  }

  ghost predicate ListedThroughout(world: nat -> Option<Policy>, f: Filter, n: nat, r: string)
  {
    forall i :: 0 <= i < n ==> world(i).Some? && r in Listed(world(i).value, f)
  }

  /** A role that is listed at every page has been returned, or lies past the cursor. */
  lemma {:induction false} PresentIsReturned(world: nat -> Option<Policy>,
                                             f: Filter, limit: nat, pages: seq<Page>, r: string)
    requires limit >= 1 && Follows(world, f, limit, pages) && ListedThroughout(world, f, |pages|, r)
    ensures r in Ids(Roles(pages)) || (Unfinished(pages) && Past(Resume(pages), r))
  {
    if pages != [] {
      var init, last := pages[..|pages|-1], pages[|pages|-1];
      PresentIsReturned(world, f, limit, init, r);
      IdsOfConcat(Roles(init), last.roles);
      if r !in Ids(Roles(init)) {
        PageShape(world(|init|).value, f, Resume(init), limit);
        assert r in Upcoming(world(|init|).value, f, Resume(init));
      }
    }
  }

  lemma PageHoldsEntries(p: Policy, f: Filter, cursor: Option<string>, limit: nat, k: nat)
    requires k < |PageOf(p, f, cursor, limit).roles|
    ensures var role := PageOf(p, f, cursor, limit).roles[k];
            role.id in Listed(p, f) && role == Entry(p, role.id)
  {
    var ids := Sorted(Upcoming(p, f, cursor));
    assert ids[k] in Upcoming(p, f, cursor);
  }

  /** Every returned role was listed, as returned, when its page was read. */
  lemma {:induction false} ReturnedWasListed(world: nat -> Option<Policy>,
                                             f: Filter, limit: nat, pages: seq<Page>, k: nat)
    returns (i: nat)
    requires Follows(world, f, limit, pages) && k < |Roles(pages)|
    ensures i < |pages| && world(i).Some? && Roles(pages)[k].id in Listed(world(i).value, f)
    ensures Roles(pages)[k] == Entry(world(i).value, Roles(pages)[k].id)
  {
    var init := pages[..|pages|-1];
    if k < |Roles(init)| {
      i := ReturnedWasListed(world, f, limit, init, k);
    } else {
      i := |init|;
      PageHoldsEntries(world(i).value, f, Resume(init), limit, k - |Roles(init)|);
    }
  }

  /** A finished listing contains a role that was there throughout exactly once. */
  lemma PresentExactlyOnce(world: nat -> Option<Policy>, f: Filter, limit: nat, pages: seq<Page>, r: string)
    returns (k: nat)
    requires limit >= 1 && Follows(world, f, limit, pages) && !Unfinished(pages)
    requires ListedThroughout(world, f, |pages|, r)
    ensures k < |Roles(pages)| && Roles(pages)[k].id == r
    ensures forall j :: 0 <= j < |Roles(pages)| && Roles(pages)[j].id == r ==> j == k
  {
    PresentIsReturned(world, f, limit, pages, r);
    k :| 0 <= k < |Roles(pages)| && Ids(Roles(pages))[k] == r;
    forall j | 0 <= j < |Roles(pages)| && Roles(pages)[j].id == r ensures j == k {
      NoIdTwice(world, f, limit, pages, j, k);
    }
  }

  // ----- On an unchanging policy -----

  ghost predicate Steady(world: nat -> Option<Policy>, n: nat, p: Policy)
  {
    forall i :: 0 <= i < n ==> world(i) == Some(p)
  }

  function Listing(p: Policy, f: Filter): seq<DirectoryRole>
  {
    var ids := Sorted(Listed(p, f));
    assert forall i :: 0 <= i < |ids| ==> ids[i] in Listed(p, f);
    Entries(p, ids)
  }

  /** The pages of an unchanging policy are, end to end, its sorted listing. */
  lemma SteadyPagesAreListing(world: nat -> Option<Policy>, f: Filter, limit: nat, pages: seq<Page>, p: Policy)
    requires limit >= 1 && Follows(world, f, limit, pages) && !Unfinished(pages) && Steady(world, |pages|, p)
    ensures Roles(pages) == Listing(p, f)
  {
    var roles, ids := Roles(pages), Sorted(Listed(p, f));
    forall k | 0 <= k < |roles| ensures roles[k].id in Listed(p, f) && roles[k] == Entry(p, roles[k].id) {
      var i := ReturnedWasListed(world, f, limit, pages, k);
    }
    forall r ensures r in Ids(roles) <==> r in ids {
      if r in ids {
        PresentIsReturned(world, f, limit, pages, r);
      }
    }
    CollectedAscends(world, f, limit, pages);
    SortedIsAscending(Listed(p, f));
    AscendingIsUnique(Ids(roles), ids);
    forall k | 0 <= k < |roles| ensures roles[k] == Listing(p, f)[k] {
      assert Ids(roles)[k] == ids[k];
    }
  }

  lemma {:induction false} FullPages(world: nat -> Option<Policy>, f: Filter, limit: nat, pages: seq<Page>)
    requires limit >= 1 && Follows(world, f, limit, pages) && Unfinished(pages)
    ensures |Roles(pages)| == |pages| * limit
  {
    if pages != [] {
      var k := |pages| - 1;
      FullPages(world, f, limit, pages[..k]);
      PageShape(world(k).value, f, Resume(pages[..k]), limit);
      Distribute(k, limit);
    }
  }

  /** A page after a truncated one is not empty, unless the policy changed. */
  lemma LastPageHolds(p: Policy, f: Filter, cursor: Option<string>, limit: nat)
    requires limit >= 1 && PageOf(p, f, cursor, limit).hasMore
    ensures PageOf(p, f, NextCursor(PageOf(p, f, cursor, limit)), limit).roles != []
  {
    PageShape(p, f, cursor, limit);
    var page := PageOf(p, f, cursor, limit);
    var r :| r in Upcoming(p, f, cursor) && Before(LastId(page), r);
    assert r in Upcoming(p, f, NextCursor(page));
    PageShape(p, f, NextCursor(page), limit);
  }

  /** It takes as many pages as full pages are needed: n roles need ceil(n / limit) of them, and
      none need one. */
  lemma SteadyPageCount(world: nat -> Option<Policy>, f: Filter, limit: nat, pages: seq<Page>, p: Policy)
    requires limit >= 1 && Follows(world, f, limit, pages) && !Unfinished(pages) && Steady(world, |pages|, p)
    ensures var n := |Listed(p, f)|;
            |pages| == if n == 0 then 1 else (n + limit - 1) / limit
  {
    var last := PageSizes(world, f, limit, pages, p);
    CeilingIs(|Listed(p, f)|, limit, |pages| - 1, last);
  }

  lemma PageSizes(world: nat -> Option<Policy>, f: Filter, limit: nat, pages: seq<Page>, p: Policy) returns (last: nat)
    requires limit >= 1 && Follows(world, f, limit, pages) && !Unfinished(pages) && Steady(world, |pages|, p)
    ensures last <= limit && (|pages| > 1 ==> last > 0)
    ensures |Listed(p, f)| == (|pages| - 1) * limit + last
  {
    SteadyPagesAreListing(world, f, limit, pages, p);
    FullPages(world, f, limit, pages[..|pages|-1]);
    LastPageSize(world, f, limit, pages, p);
    last := |pages[|pages|-1].roles|;
    assert |Roles(pages)| == |Roles(pages[..|pages|-1])| + last;
  }

  lemma LastPageSize(world: nat -> Option<Policy>, f: Filter, limit: nat, pages: seq<Page>, p: Policy)
    requires limit >= 1 && Follows(world, f, limit, pages) && !Unfinished(pages) && Steady(world, |pages|, p)
    ensures |pages[|pages|-1].roles| <= limit
    ensures |pages| > 1 ==> pages[|pages|-1].roles != []
  {
    var init := pages[..|pages|-1];
    assert world(|init|) == Some(p);
    PageShape(p, f, Resume(init), limit);
    if init != [] {
      assert world(|init|-1) == Some(p);
      LastPageHolds(p, f, Resume(init[..|init|-1]), limit);
    }
  }

  lemma CeilingIs(n: nat, limit: nat, k: nat, last: nat)
    requires limit >= 1 && n == k * limit + last && last <= limit && (k > 0 ==> last > 0)
    ensures k + 1 == if n == 0 then 1 else (n + limit - 1) / limit
  {
    if n == 0 {
      Scale(1, k, limit);
    } else {
      QuotientIs(n + limit - 1, limit, k + 1, last - 1);
    }
  }

  lemma QuotientIs(m: nat, d: nat, q: nat, rest: nat)
    requires rest < d && m == q * d + rest
    ensures m / d == q
  {
    var other := m / d;
    Division(m, d);
    Distribute(other, d);
    Distribute(q, d);
    Cancel(other, q + 1, d);
    Cancel(q, other + 1, d);
  }

  lemma Division(m: nat, d: nat)
    requires d >= 1
    ensures m / d * d <= m < m / d * d + d
  {
  }

  lemma Distribute(a: nat, c: nat)
    ensures (a + 1) * c == a * c + c
  {
  }

  lemma Cancel(a: nat, b: nat, c: nat)
    ensures a * c < b * c ==> a < b
  {
    if b <= a {
      assert (a - b) * c >= 0;
    }
  }

  lemma Scale(a: nat, b: nat, c: nat)
    ensures a <= b ==> a * c <= b * c
  {
  }

  /** A decision agrees with the directory: a subject is allowed a permission exactly when some
      role in its listing grants it. */
  lemma DecisionAgreesWithListing(p: Policy, subject: string, permission: string)
    ensures Holds(p, subject, permission)
            <==> exists k :: 0 <= k < |Listing(p, SubjectFilter(subject))|
                             && permission in Listing(p, SubjectFilter(subject))[k].permissions
  {
    var f := SubjectFilter(subject);
    var ids := Sorted(Listed(p, f));
    if Holds(p, subject, permission) {
      var b :| b in p.bindings && b.subject == subject && b.role in p.roles
          && permission in p.roles[b.role].permissions;
      assert b == Binding(subject, b.role);
      assert b.role in ids;
      var k :| 0 <= k < |ids| && ids[k] == b.role;
      assert permission in Listing(p, f)[k].permissions;
    }
    if k :| 0 <= k < |Listing(p, f)| && permission in Listing(p, f)[k].permissions {
      assert ids[k] in Listed(p, f);
      assert Binding(subject, ids[k]) in p.bindings;
    }
  }

  /** And so with what a client has collected: on an unchanging policy, a subject is allowed a
      permission exactly when some role of its fully paged listing grants it. */
  lemma DecisionAgreesWithPages(world: nat -> Option<Policy>, subject: string, permission: string, limit: nat,
                                pages: seq<Page>, p: Policy)
    requires limit >= 1 && Follows(world, SubjectFilter(subject), limit, pages)
    requires !Unfinished(pages) && Steady(world, |pages|, p)
    ensures Holds(p, subject, permission)
            <==> exists k :: 0 <= k < |Roles(pages)| && permission in Roles(pages)[k].permissions
  {
    SteadyPagesAreListing(world, SubjectFilter(subject), limit, pages, p);
    DecisionAgreesWithListing(p, subject, permission);
  }

  // ----- While operations commit between the pages -----

  /** Pages read at successive moments of one run, if they all report one revision, are the
      sorted listing of the policy at that revision. */
  lemma SameRevisionPagesAreListing(db: Policies, cs: seq<Command>, scope: ScopeKey, at: seq<nat>,
                                    world: nat -> Option<Policy>, f: Filter, limit: nat, pages: seq<Page>)
    requires limit >= 1 && Follows(world, f, limit, pages) && !Unfinished(pages)
    requires |at| == |pages| && (forall i :: 0 <= i < |at| ==> at[i] <= |cs|)
    requires forall i, j :: 0 <= i < j < |at| ==> at[i] <= at[j]
    requires forall i :: 0 <= i < |at| ==> world(i) == Find(Run(db, cs[..at[i]]), scope)
    requires forall i :: 0 <= i < |pages| ==> pages[i].revision == pages[0].revision
    ensures world(0).Some? && Roles(pages) == Listing(world(0).value, f)
  {
    forall i | 0 <= i < |pages| ensures world(i) == world(0) {
      PageAt(world, f, limit, pages, i);
      PageAt(world, f, limit, pages, 0);
      assert cs[..at[i]][..at[0]] == cs[..at[0]];
      SameRevisionSamePolicy(db, cs[..at[i]], at[0], scope);
    }
    SteadyPagesAreListing(world, f, limit, pages, world(0).value);
  }

  // ----- The client loop ends -----

  function Power(base: nat, n: nat): nat
  {
    if n == 0 then 1 else base * Power(base, n - 1)
  }

  predicate Bounded(s: string, width: nat) { |s| <= width && forall i :: 0 <= i < |s| ==> s[i] as int < 0x80 }

  /** The position of a text of at most `width` ASCII characters among all such texts, read as a
      number whose digits are the characters, with 0 past the end. */
  function Rank(s: string, width: nat): nat
  {
    if width == 0 || s == "" then 0 else (s[0] as int + 1) * Power(0x81, width - 1) + Rank(s[1..], width - 1)
  }

  lemma {:induction false} RankIsBounded(s: string, width: nat)
    requires Bounded(s, width)
    ensures Rank(s, width) < Power(0x81, width)
    decreases width
  {
    if s != "" {
      RankIsBounded(s[1..], width - 1);
      var unit, c := Power(0x81, width - 1), s[0] as int + 1;
      assert c * unit + unit == (c + 1) * unit;
      Scale(c + 1, 0x81, unit);
    } else {
      PowerIsPositive(width);
    }
  }

  lemma {:induction false} PowerIsPositive(n: nat)
    ensures Power(0x81, n) > 0
  {
    if n > 0 { PowerIsPositive(n - 1); }
  }

  lemma {:induction false} RankIsMonotone(a: string, b: string, width: nat)
    requires Bounded(a, width) && Bounded(b, width) && Before(a, b)
    ensures Rank(a, width) < Rank(b, width)
    decreases width
  {
    PowerIsPositive(width - 1);
    var unit := Power(0x81, width - 1);
    if a == "" {
      Scale(1, b[0] as int + 1, unit);
    } else if a[0] == b[0] {
      RankIsMonotone(a[1..], b[1..], width - 1);
    } else {
      RankIsBounded(a[1..], width - 1);
      assert (a[0] as int + 1) * unit + unit == (a[0] as int + 2) * unit;
      Scale(a[0] as int + 2, b[0] as int + 1, unit);
    }
  }

  function Position(cursor: Option<string>, width: nat): nat
  {
    match cursor case None => 0 case Some(c) => 1 + Rank(c, width)
  }

  ghost predicate BoundedIds(p: Policy, width: nat)
  {
    forall r :: r in p.roles ==> Bounded(r, width)
  }

  /** A truncated page moves the cursor strictly forward, to the id of a role. */
  lemma CursorAdvances(p: Policy, f: Filter, cursor: Option<string>, limit: nat, width: nat)
    requires limit >= 1 && BoundedIds(p, width) && (cursor.Some? ==> Bounded(cursor.value, width))
    requires PageOf(p, f, cursor, limit).hasMore
    ensures var next := NextCursor(PageOf(p, f, cursor, limit));
            && next.Some? && Bounded(next.value, width) && Past(cursor, next.value)
            && Position(cursor, width) < Position(next, width) <= Power(0x81, width)
  {
    PageShape(p, f, cursor, limit);
    var page := PageOf(p, f, cursor, limit);
    var next := LastId(page);
    assert Ids(page.roles)[|page.roles|-1] in Upcoming(p, f, cursor);
    RankIsBounded(next, width);
    if cursor.Some? {
      RankIsMonotone(cursor.value, next, width);
    }
  }
}
