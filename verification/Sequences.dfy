// Sequences without repetition, and what is left of them when elements are taken out.
module Sequences {
  ghost predicate Differ<T>(s: seq<T>, i: nat, j: nat)
    requires i < |s| && j < |s|
  {
    s[i] != s[j]
  }

  ghost predicate NoDup<T>(s: seq<T>) {
    forall i: nat, j: nat :: i < j < |s| ==> Differ(s, i, j)
  }

  function Without<T(==)>(s: seq<T>, x: T): seq<T> {
    if s == [] then [] else if s[0] == x then s[1..] else [s[0]] + Without(s[1..], x)
  }

  lemma NoDupTail<T>(s: seq<T>)
    requires NoDup(s) && s != []
    ensures NoDup(s[1..]) && s[0] !in s[1..]
    ensures forall y :: y in s <==> y == s[0] || y in s[1..]
  {
    forall i: nat, j: nat | i < j < |s[1..]| ensures Differ(s[1..], i, j) {
      assert Differ(s, i + 1, j + 1);
    }
    forall k: nat | k < |s[1..]| ensures s[1..][k] != s[0] {
      assert Differ(s, 0, k + 1);
    }
    assert s == [s[0]] + s[1..];
  }

  lemma ConsNoDup<T>(x: T, s: seq<T>)
    requires NoDup(s) && x !in s
    ensures NoDup([x] + s)
    ensures forall y :: y in [x] + s <==> y == x || y in s
  {
    var t := [x] + s;
    forall i: nat, j: nat | i < j < |t| ensures Differ(t, i, j) {
      if i > 0 {
        assert Differ(s, i - 1, j - 1);
      } else {
        assert t[j] in s;
      }
    }
  }

  lemma NoDupParts<T>(a: seq<T>, b: seq<T>)
    requires NoDup(a + b)
    ensures NoDup(a) && NoDup(b) && forall x :: x in a ==> x !in b
  {
    forall i: nat, j: nat | i < j < |a| ensures Differ(a, i, j) {
      assert Differ(a + b, i, j);
    }
    forall i: nat, j: nat | i < j < |b| ensures Differ(b, i, j) {
      assert Differ(a + b, |a| + i, |a| + j);
    }
    forall i: nat, j: nat | i < |a| && j < |b| ensures a[i] != b[j] {
      assert Differ(a + b, i, |a| + j);
    }
  }

  lemma {:induction false} WithoutAt<T>(s: seq<T>, k: nat)
    requires NoDup(s) && k < |s|
    ensures Without(s, s[k]) == s[..k] + s[k + 1..]
  {
    if k > 0 {
      assert Differ(s, 0, k);
      NoDupTail(s);
      WithoutAt(s[1..], k - 1);
      assert s[..k] + s[k + 1..] == [s[0]] + (s[1..][..k - 1] + s[1..][k..]);
    }
  }

  lemma {:induction false} WithoutAbsent<T>(s: seq<T>, x: T)
    requires x !in s
    ensures Without(s, x) == s
  {
    if s != [] {
      assert s[0] in s;
      WithoutAbsent(s[1..], x);
    }
  }

  lemma {:induction false} WithoutElements<T>(s: seq<T>, x: T)
    requires NoDup(s)
    ensures NoDup(Without(s, x))
    ensures forall y :: y in Without(s, x) <==> y in s && y != x
  {
    if s != [] {
      NoDupTail(s);
      assert s == [s[0]] + s[1..];
      if s[0] != x {
        WithoutElements(s[1..], x);
        ConsNoDup(s[0], Without(s[1..], x));
      }
    }
  }

  lemma {:induction false} WithoutConcat<T>(a: seq<T>, b: seq<T>, x: T)
    requires NoDup(a + b)
    ensures Without(a + b, x) == Without(a, x) + Without(b, x)
  {
    if a == [] {
      assert a + b == b;
    } else {
      assert (a + b)[1..] == a[1..] + b;
      NoDupTail(a + b);
      if a[0] == x {
        assert x !in b;
        WithoutAbsent(b, x);
      } else {
        WithoutConcat(a[1..], b, x);
      }
    }
  }

  lemma NoDupAppend<T>(s: seq<T>, x: T)
    requires NoDup(s) && x !in s
    ensures NoDup(s + [x])
  {
    forall i: nat, j: nat | i < j < |s + [x]| ensures Differ(s + [x], i, j) {
      assert j < |s| ==> Differ(s, i, j);
    }
  }

  // Taking an element out by moving the first one into its place.
  function SwapRemoveFront<T>(s: seq<T>, k: nat): seq<T>
    requires k < |s|
  {
    s[k := s[0]][1..]
  }

  lemma SwapRemoveFrontRemoves<T>(s: seq<T>, k: nat)
    requires NoDup(s) && k < |s|
    ensures NoDup(SwapRemoveFront(s, k))
    ensures forall y :: y in SwapRemoveFront(s, k) <==> y in s && y != s[k]
  {
    var r := SwapRemoveFront(s, k);
    assert forall j: nat :: j < |r| ==> r[j] == if j + 1 == k then s[0] else s[j + 1];
    forall i: nat, j: nat | i < j < |r| ensures Differ(r, i, j) {
      assert Differ(s, i + 1, j + 1);
      if i + 1 == k {
        assert Differ(s, 0, j + 1);
      } else if j + 1 == k {
        assert Differ(s, 0, i + 1);
      }
    }
    forall y | y in s && y != s[k] ensures y in r {
      var j: nat :| j < |s| && s[j] == y;
      if j == 0 {
        assert r[k - 1] == y;
      } else {
        assert r[j - 1] == y;
      }
    }
    forall y | y in r ensures y in s && y != s[k] {
      var j: nat :| j < |r| && r[j] == y;
      if j + 1 == k {
        assert Differ(s, 0, k);
      } else {
        assert Differ(s, if j + 1 < k then j + 1 else k, if j + 1 < k then k else j + 1);
      }
    }
  }

  lemma {:induction false} NoDupCounts<T>(s: seq<T>, x: T)
    requires NoDup(s)
    ensures multiset(s)[x] == if x in s then 1 else 0
  {
    if s != [] {
      NoDupTail(s);
      NoDupCounts(s[1..], x);
      assert s == [s[0]] + s[1..];
    }
  }

  function Repeat<T>(x: T, n: nat): (s: seq<T>)
    ensures |s| == n && forall i :: 0 <= i < n ==> s[i] == x
  {
    seq(n, _ => x)
  }

  lemma Regroup<T>(a: seq<T>, b: seq<T>, c: seq<T>)
    ensures a + b + c == a + (b + c)
  {
  }

  lemma NothingBefore<T>(s: seq<T>)
    ensures [] + s == s
  {
  }
}
