/** Small facts about sequences, permutations and sorting shared by the other modules. */
module Sequences {

  lemma Pick<T>(s: set<T>) returns (x: T)
    requires |s| > 0
    ensures x in s
  {
    x :| x in s;
  }

  lemma {:induction false} MaxOf(s: set<int>) returns (m: int)
    requires |s| > 0
    ensures m in s && forall d <- s :: d <= m
  {
    m := Pick(s);
    var x := m;
    var rest := s - {x};
    assert forall d <- s :: d in rest || d == x;
    if |rest| > 0 {
      var top := MaxOf(rest);
      if x < top {
        m := top;
      }
    } else {
      assert rest == {};
    }
  }

  lemma MaxExists(s: set<int>)
    requires |s| > 0
    ensures exists m :: m in s && forall d <- s :: d <= m
  {
    var m := MaxOf(s);
  }

  function Without<T>(s: seq<T>, i: nat): seq<T>
    requires i < |s|
  {
    s[..i] + s[i + 1..]
  }

  lemma SplitAt<T>(s: seq<T>, i: nat)
    requires i < |s|
    ensures s == (s[..i] + [s[i]]) + s[i + 1..]
  {
  }

  lemma WithoutMultiset<T>(s: seq<T>, i: nat)
    requires i < |s|
    ensures multiset(s) == multiset(Without(s, i)) + multiset{s[i]}
  {
    assert s == s[..i] + [s[i]] + s[i + 1..];
  }

  /** Where a permutation holds the last element of a sequence. */
  lemma FindLast<T>(a: seq<T>, b: seq<T>) returns (i: nat)
    requires multiset(a) == multiset(b) && a != []
    ensures i < |b| && b[i] == a[|a| - 1]
    ensures multiset(a[..|a| - 1]) == multiset(Without(b, i))
  {
    var x := a[|a| - 1];
    assert a == a[..|a| - 1] + [x];
    assert x in multiset(b);
    i :| 0 <= i < |b| && b[i] == x;
    WithoutMultiset(b, i);
    assert multiset(a[..|a| - 1]) == multiset(a) - multiset{x};
    assert multiset(Without(b, i)) == multiset(b) - multiset{x};
  }

  ghost predicate Descending<T>(s: seq<T>, key: T -> real) {
    forall i, j :: 0 <= i < j < |s| ==> key(s[i]) >= key(s[j])
  }

  function InsertDescending<T>(s: seq<T>, x: T, key: T -> real): seq<T> {
    if s == [] || key(s[|s| - 1]) >= key(x) then s + [x]
    else InsertDescending(s[..|s| - 1], x, key) + [s[|s| - 1]]
  }

  lemma InsertKeepsBound<T>(s: seq<T>, x: T, key: T -> real, bound: real)
    requires key(x) >= bound && forall i :: 0 <= i < |s| ==> key(s[i]) >= bound
    ensures forall i :: 0 <= i < |InsertDescending(s, x, key)| ==> key(InsertDescending(s, x, key)[i]) >= bound
  {
  }

  lemma {:induction false} InsertIsDescending<T>(s: seq<T>, x: T, key: T -> real)
    requires Descending(s, key)
    ensures Descending(InsertDescending(s, x, key), key)
  {
    if s == [] || key(s[|s| - 1]) >= key(x) {
    } else {
      var front, last := s[..|s| - 1], s[|s| - 1];
      InsertIsDescending(front, x, key);
      InsertKeepsBound(front, x, key, key(last));
    }
  }

  lemma {:induction false} InsertAddsOne<T>(s: seq<T>, x: T, key: T -> real)
    ensures multiset(InsertDescending(s, x, key)) == multiset(s) + multiset{x}
  {
    if s != [] {
      InsertAddsOne(s[..|s| - 1], x, key);
      assert s == s[..|s| - 1] + [s[|s| - 1]];
    }
  }

  /**
   Stands for the library sort, which is not stable: a caller may rely on the order and
   on the elements being the same, and on nothing else.
   */
  method SortDescending<T>(s: seq<T>, key: T -> real) returns (r: seq<T>)
    ensures multiset(r) == multiset(s)
    ensures Descending(r, key)
  {
    r := [];
    for i := 0 to |s|
      invariant multiset(r) == multiset(s[..i])
      invariant Descending(r, key)
    {
      InsertIsDescending(r, s[i], key);
      InsertAddsOne(r, s[i], key);
      r := InsertDescending(r, s[i], key);
      assert s[..i + 1] == s[..i] + [s[i]];
    }
    assert s[..|s|] == s;
  }
}
