/** Bytewise text order and the ascending listing of a set of texts. Texts are sequences of
    Unicode scalar values; UTF-8 keeps their order, so comparing scalars compares bytes. */
module Ordering {

  /** Strictly before, lexicographically: a proper prefix comes first. */
  predicate Before(a: string, b: string)
  {
    if b == "" then false
    else if a == "" then true
    else a[0] < b[0] || (a[0] == b[0] && Before(a[1..], b[1..]))
  }

  lemma {:induction false} BeforeIsAsymmetric(a: string, b: string)
    ensures !(Before(a, b) && Before(b, a))
  {
    if a != "" && b != "" {
      BeforeIsAsymmetric(a[1..], b[1..]);
    }
  }

  lemma {:induction false} BeforeIsTotal(a: string, b: string)
    ensures a == b || Before(a, b) || Before(b, a)
  {
    if a != "" && b != "" && a[0] == b[0] {
      BeforeIsTotal(a[1..], b[1..]);
      assert a == [a[0]] + a[1..] && b == [b[0]] + b[1..];
    }
  }

  lemma {:induction false} BeforeIsTransitive(a: string, b: string, c: string)
    requires Before(a, b) && Before(b, c)
    ensures Before(a, c)
  {
    if a != "" && b[0] == c[0] && a[0] == b[0] {
      BeforeIsTransitive(a[1..], b[1..], c[1..]);
    }
  }

  // ----- The least element, and the sorted listing -----

  predicate IsLeast(m: string, s: set<string>)
  {
    m in s && forall x :: x in s ==> x == m || Before(m, x)
  }

  lemma {:induction false} LeastExists(s: set<string>)
    requires s != {}
    ensures exists m :: IsLeast(m, s)
    decreases |s|
  {
    var x :| x in s;
    if s == {x} {
      assert IsLeast(x, s);
    } else {
      assert s - {x} != {};
      LeastExists(s - {x});
      var m :| IsLeast(m, s - {x});
      BeforeIsTotal(m, x);
      if Before(x, m) {
        forall y | y in s && y != x ensures Before(x, y) {
          if y != m { BeforeIsTransitive(x, m, y); }
        }
        assert IsLeast(x, s);
      } else {
        assert IsLeast(m, s);
      }
    }
  }

  lemma LeastIsUnique(m: string, n: string, s: set<string>)
    requires IsLeast(m, s) && IsLeast(n, s)
    ensures m == n
  {
    BeforeIsAsymmetric(m, n);
  }

  function Least(s: set<string>): (m: string)
    requires s != {}
    ensures IsLeast(m, s)
  {
    LeastExists(s);
    assert forall m, n :: IsLeast(m, s) && IsLeast(n, s) ==> m == n by {
      forall m, n | IsLeast(m, s) && IsLeast(n, s) ensures m == n { LeastIsUnique(m, n, s); }
    }
    var m :| m in s && IsLeast(m, s);
    m
  }

  /** The elements of a set in ascending order. */
  function Sorted(s: set<string>): (list: seq<string>)
    ensures |list| == |s|
    ensures forall x :: x in list <==> x in s
    decreases |s|
  {
    if s == {} then []
    else
      var m := Least(s);
      [m] + Sorted(s - {m})
  }

  predicate Ascending(list: seq<string>)
  {
    forall i, j :: 0 <= i < j < |list| ==> Before(list[i], list[j])
  }

  lemma {:induction false} SortedIsAscending(s: set<string>)
    ensures Ascending(Sorted(s))
    decreases |s|
  {
    if s != {} {
      var m := Least(s);
      SortedIsAscending(s - {m});
      forall i, j | 0 <= i < j < |Sorted(s)| ensures Before(Sorted(s)[i], Sorted(s)[j]) {
        if i == 0 {
          assert Sorted(s)[j] in Sorted(s - {m});
        }
      }
    }
  }

  lemma AscendingIsDistinct(list: seq<string>, i: nat, j: nat)
    requires Ascending(list) && i < |list| && j < |list| && list[i] == list[j]
    ensures i == j
  {
    if i < j {
      BeforeIsAsymmetric(list[i], list[j]);
    } else if j < i {
      BeforeIsAsymmetric(list[j], list[i]);
    }
  }

  /** There is one ascending listing of a set. */
  lemma {:induction false} AscendingIsUnique(a: seq<string>, b: seq<string>)
    requires Ascending(a) && Ascending(b)
    requires forall x :: x in a <==> x in b
    ensures a == b
  {
    assert (a != [] ==> a[0] in a) && (b != [] ==> b[0] in b);
    if a != [] && b != [] {
      assert a[0] in b;
      assert b[0] in a;
      if a[0] != b[0] {
        BeforeIsAsymmetric(a[0], b[0]);
      }
      assert a == [a[0]] + a[1..] && b == [b[0]] + b[1..];
      NotInTail(a);
      NotInTail(b);
      forall x ensures x in a[1..] <==> x in b[1..] {
        assert x in a <==> x == a[0] || x in a[1..];
        assert x in b <==> x == b[0] || x in b[1..];
      }
      AscendingIsUnique(a[1..], b[1..]);
    }
  }

  lemma NotInTail(a: seq<string>)
    requires Ascending(a) && a != []
    ensures a[0] !in a[1..]
  {
    if a[0] in a[1..] {
      var i :| 0 <= i < |a[1..]| && a[1..][i] == a[0];
      AscendingIsDistinct(a, 0, i + 1);
    }
  }

  // ----- The order, character by character -----

  /** The first text is a proper prefix of the second, or has the smaller code at the first place
      where they differ. */
  predicate CodesAscend(a: string, b: string)
  {
    || (|a| < |b| && a == b[..|a|])
    || (exists k :: 0 <= k < |a| && k < |b| && a[..k] == b[..k] && a[k] as int < b[k] as int)
  }

  /** The bytewise order, on characters. */
  lemma {:induction false} BeforeByCharacters(a: string, b: string)
    ensures Before(a, b) <==> CodesAscend(a, b)
  {
    if a != "" && b != "" && a[0] == b[0] {
      BeforeByCharacters(a[1..], b[1..]);
      SharedFirst(a, b);
    } else if a != "" && b != "" {
      assert a[..0] == b[..0];
      if |a| < |b| {
        assert b[..|a|][0] == b[0];
      }
      forall k | 0 < k < |a| && k < |b| ensures a[..k] != b[..k] {
        assert a[..k][0] == a[0] && b[..k][0] == b[0];
      }
    }
  }

  // Texts that begin alike compare like the rest of them.
  lemma SharedFirst(a: string, b: string)
    requires a != "" && b != "" && a[0] == b[0]
    ensures |a| < |b| && a == b[..|a|] <==> |a[1..]| < |b[1..]| && a[1..] == b[1..][..|a[1..]|]
    ensures (exists k :: 0 <= k < |a| && k < |b| && a[..k] == b[..k] && a[k] as int < b[k] as int)
            <==> (exists k :: 0 <= k < |a[1..]| && k < |b[1..]| && a[1..][..k] == b[1..][..k]
                              && a[1..][k] as int < b[1..][k] as int)
  {
    assert a == [a[0]] + a[1..] && b == [b[0]] + b[1..];
    if |a| < |b| {
      assert b[..|a|] == [b[0]] + b[1..][..|a|-1];
    }
    if k :| 0 <= k < |a| && k < |b| && a[..k] == b[..k] && a[k] as int < b[k] as int {
      assert k > 0;
      assert a[1..][..k-1] == a[..k][1..] && b[1..][..k-1] == b[..k][1..];
      assert a[1..][k-1] as int < b[1..][k-1] as int;
    }
    if k :| 0 <= k < |a[1..]| && k < |b[1..]| && a[1..][..k] == b[1..][..k] && a[1..][k] as int < b[1..][k] as int {
      assert a[..k+1] == [a[0]] + a[1..][..k] && b[..k+1] == [b[0]] + b[1..][..k];
      assert a[k+1] as int < b[k+1] as int;
    }
  }

  /** The listing of a set, on characters: of any two of its texts, the first is a proper prefix of
      the second, or has the smaller code at the first place where they differ. */
  lemma SortedByCharacters(s: set<string>, i: nat, j: nat)
    requires i < j < |Sorted(s)|
    ensures var a, b := Sorted(s)[i], Sorted(s)[j];
            || (|a| < |b| && a == b[..|a|])
            || (exists k :: 0 <= k < |a| && k < |b| && a[..k] == b[..k] && a[k] as int < b[k] as int)
  {
    SortedIsAscending(s);
    BeforeByCharacters(Sorted(s)[i], Sorted(s)[j]);
  }

  /** The order that both backends are qualified against: upper case before lower case, `-` before
      `_`, a prefix first. */
  lemma QualifiedOrder()
    ensures Sorted({"Z", "a_", "a-", "A", "z", "access-control.bootstrap-admin"})
            == ["A", "Z", "a-", "a_", "access-control.bootstrap-admin", "z"]
  {
    var ids := {"Z", "a_", "a-", "A", "z", "access-control.bootstrap-admin"};
    var expected := ["A", "Z", "a-", "a_", "access-control.bootstrap-admin", "z"];
    forall k | 0 <= k < 5 ensures Before(expected[k], expected[k+1]) {
      FirstTwoDecide(expected[k], expected[k+1]);
    }
    StepsAscend(expected);
    SortedIsAscending(ids);
    assert forall x :: x in expected <==> x in ids;
    AscendingIsUnique(Sorted(ids), expected);
  }

  lemma FirstTwoDecide(a: string, b: string)
    requires a != "" && b != ""
    requires a[0] < b[0] || (a[0] == b[0] && |a| > 1 && |b| > 1 && a[1] < b[1])
    ensures Before(a, b)
  {
    if a[0] == b[0] {
      assert a[1..][0] == a[1] && b[1..][0] == b[1];
    }
  }

  lemma {:induction false} StepsAscend(list: seq<string>)
    requires forall k :: 0 <= k < |list| - 1 ==> Before(list[k], list[k+1])
    ensures Ascending(list)
  {
    forall i, j | 0 <= i < j < |list| ensures Before(list[i], list[j]) {
      ReachAscends(list, i, j);
    }
  }

  lemma {:induction false} ReachAscends(list: seq<string>, i: nat, j: nat)
    requires forall k :: 0 <= k < |list| - 1 ==> Before(list[k], list[k+1])
    requires i < j < |list|
    ensures Before(list[i], list[j])
  {
    assert Before(list[j-1], list[j-1+1]);
    if i < j - 1 {
      ReachAscends(list, i, j - 1);
      BeforeIsTransitive(list[i], list[j-1], list[j]);
    }
  }
}
