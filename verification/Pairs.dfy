/** All results of a partial pairing over lists, and the ways a program may enumerate them. */
module Pairs {
  import opened Sequences

  /** Everything `f` makes of a and the elements of ys. */
  function Row<T, U>(f: (T, T) -> seq<U>, a: T, ys: seq<T>): seq<U> {
    if ys == [] then [] else Row(f, a, ys[..|ys| - 1]) + f(a, ys[|ys| - 1])
  }

  /** Everything `f` makes of a pair from xs and ys: the declarative meaning of a pair enumeration. */
  function Cross<T, U>(f: (T, T) -> seq<U>, xs: seq<T>, ys: seq<T>): seq<U> {
    if xs == [] then [] else Cross(f, xs[..|xs| - 1], ys) + Row(f, xs[|xs| - 1], ys)
  }

  lemma RowStep<T, U>(f: (T, T) -> seq<U>, a: T, ys: seq<T>, y: T)
    ensures Row(f, a, ys + [y]) == Row(f, a, ys) + f(a, y)
  {
    assert (ys + [y])[..|ys|] == ys;
  }

  lemma CrossStep<T, U>(f: (T, T) -> seq<U>, xs: seq<T>, x: T, ys: seq<T>)
    ensures Cross(f, xs + [x], ys) == Cross(f, xs, ys) + Row(f, x, ys)
  {
    assert (xs + [x])[..|xs|] == xs;
  }

  lemma Associative<U>(a: seq<U>, b: seq<U>, c: seq<U>)
    ensures (a + b) + c == a + (b + c)
  {
  }

  lemma AppendLast<T>(a: seq<T>, b: seq<T>)
    requires b != []
    ensures a + b == (a + b[..|b| - 1]) + [b[|b| - 1]]
  {
  }

  lemma {:induction false} RowConcat<T, U>(f: (T, T) -> seq<U>, a: T, xs: seq<T>, ys: seq<T>)
    ensures Row(f, a, xs + ys) == Row(f, a, xs) + Row(f, a, ys)
    decreases |ys|
  {
    if ys == [] {
      assert xs + ys == xs;
    } else {
      var front, y := ys[..|ys| - 1], ys[|ys| - 1];
      RowConcat(f, a, xs, front);
      AppendLast(xs, ys);
      RowStep(f, a, xs + front, y);
      Associative(Row(f, a, xs), Row(f, a, front), f(a, y));
    }
  }

  lemma {:induction false} CrossConcat<T, U>(f: (T, T) -> seq<U>, xs: seq<T>, zs: seq<T>, ys: seq<T>)
    ensures Cross(f, xs + zs, ys) == Cross(f, xs, ys) + Cross(f, zs, ys)
    decreases |zs|
  {
    if zs == [] {
      assert xs + zs == xs;
    } else {
      var front, z := zs[..|zs| - 1], zs[|zs| - 1];
      CrossConcat(f, xs, front, ys);
      CrossStep(f, xs + front, z, ys);
      AppendLast(xs, zs);
      assert Cross(f, zs, ys) == Cross(f, front, ys) + Row(f, z, ys);
      Associative(Cross(f, xs, ys), Cross(f, front, ys), Row(f, z, ys));
    }
  }

  /** One element against one: just their results. */
  lemma CrossOne<T, U>(f: (T, T) -> seq<U>, x: T, y: T)
    ensures Cross(f, [x], [y]) == f(x, y)
  {
    assert [x][..0] == [] && [y][..0] == [];
    assert Row(f, x, [y]) == Row(f, x, []) + f(x, y);
    assert Cross(f, [x], [y]) == Cross(f, [], [y]) + Row(f, x, [y]);
  }

  // ---------- order does not matter ----------

  lemma {:induction false} RowPermutes<T, U>(f: (T, T) -> seq<U>, a: T, ys: seq<T>, zs: seq<T>)
    requires multiset(ys) == multiset(zs)
    ensures multiset(Row(f, a, ys)) == multiset(Row(f, a, zs))
    decreases |ys|
  {
    if ys == [] {
      assert |multiset(zs)| == 0;
    } else {
      var i := FindLast(ys, zs);
      RowPermutes(f, a, ys[..|ys| - 1], Without(zs, i));
      RowWithout(f, a, zs, i);
    }
  }

  lemma RowMiddle<T, U>(f: (T, T) -> seq<U>, a: T, xs: seq<T>, y: T, zs: seq<T>)
    ensures multiset(Row(f, a, (xs + [y]) + zs)) == multiset(Row(f, a, xs + zs)) + multiset(f(a, y))
  {
    RowConcat(f, a, xs, zs);
    RowConcat(f, a, xs + [y], zs);
    RowStep(f, a, xs, y);
  }

  lemma RowWithout<T, U>(f: (T, T) -> seq<U>, a: T, zs: seq<T>, i: nat)
    requires i < |zs|
    ensures multiset(Row(f, a, zs)) == multiset(Row(f, a, Without(zs, i))) + multiset(f(a, zs[i]))
  {
    var front, back := zs[..i], zs[i + 1..];
    SplitAt(zs, i);
    RowMiddle(f, a, front, zs[i], back);
  }

  lemma {:induction false} CrossPermutes<T, U>(f: (T, T) -> seq<U>, xs: seq<T>, zs: seq<T>, ys: seq<T>)
    requires multiset(xs) == multiset(zs)
    ensures multiset(Cross(f, xs, ys)) == multiset(Cross(f, zs, ys))
    decreases |xs|
  {
    if xs == [] {
      assert |multiset(zs)| == 0;
    } else {
      var i := FindLast(xs, zs);
      CrossPermutes(f, xs[..|xs| - 1], Without(zs, i), ys);
      CrossWithout(f, zs, i, ys);
    }
  }

  lemma CrossMiddle<T, U>(f: (T, T) -> seq<U>, xs: seq<T>, y: T, zs: seq<T>, ys: seq<T>)
    ensures multiset(Cross(f, (xs + [y]) + zs, ys)) == multiset(Cross(f, xs + zs, ys)) + multiset(Row(f, y, ys))
  {
    CrossConcat(f, xs, zs, ys);
    CrossConcat(f, xs + [y], zs, ys);
    CrossStep(f, xs, y, ys);
  }

  lemma CrossWithout<T, U>(f: (T, T) -> seq<U>, zs: seq<T>, i: nat, ys: seq<T>)
    requires i < |zs|
    ensures multiset(Cross(f, zs, ys)) == multiset(Cross(f, Without(zs, i), ys)) + multiset(Row(f, zs[i], ys))
  {
    var front, back := zs[..i], zs[i + 1..];
    SplitAt(zs, i);
    CrossMiddle(f, front, zs[i], back, ys);
  }

  lemma {:induction false} CrossPermutesRight<T, U>(f: (T, T) -> seq<U>, xs: seq<T>, ys: seq<T>, zs: seq<T>)
    requires multiset(ys) == multiset(zs)
    ensures multiset(Cross(f, xs, ys)) == multiset(Cross(f, xs, zs))
    decreases |xs|
  {
    if xs != [] {
      CrossPermutesRight(f, xs[..|xs| - 1], ys, zs);
      RowPermutes(f, xs[|xs| - 1], ys, zs);
    }
  }

  // ---------- parts that contribute nothing ----------

  lemma {:induction false} RowOfNothing<T, U>(f: (T, T) -> seq<U>, a: T, ys: seq<T>)
    requires forall i :: 0 <= i < |ys| ==> f(a, ys[i]) == []
    ensures Row(f, a, ys) == []
  {
    if ys != [] {
      RowOfNothing(f, a, ys[..|ys| - 1]);
    }
  }

  /** Pairs of different groups are never formed, so a row needs only its own group. */
  lemma {:induction false} RowWithinGroup<T, U>(f: (T, T) -> seq<U>, key: T -> string, a: T, ys: seq<T>)
    requires forall b :: key(b) != key(a) ==> f(a, b) == []
    ensures Row(f, a, ys) == Row(f, a, Group(key, ys, {key(a)}))
  {
    if ys != [] {
      var front, y := ys[..|ys| - 1], ys[|ys| - 1];
      RowWithinGroup(f, key, a, front);
      if key(y) == key(a) {
        RowStep(f, a, Group(key, front, {key(a)}), y);
      }
    }
  }

  /** The elements whose key lies in a set, in order. */
  function Group<T>(key: T -> string, xs: seq<T>, keys: set<string>): seq<T> {
    if xs == [] then []
    else
      var rest := Group(key, xs[..|xs| - 1], keys);
      if key(xs[|xs| - 1]) in keys then rest + [xs[|xs| - 1]] else rest
  }

  /** Group by group is the same as all at once. */
  lemma {:induction false} CrossByGroup<T, U>(f: (T, T) -> seq<U>, key: T -> string, xs: seq<T>, ys: seq<T>, done: set<string>, e: string)
    requires e !in done
    requires forall a, b :: key(a) != key(b) ==> f(a, b) == []
    ensures multiset(Cross(f, Group(key, xs, done + {e}), ys))
         == multiset(Cross(f, Group(key, xs, done), ys)) + multiset(Cross(f, Group(key, xs, {e}), Group(key, ys, {e})))
  {
    if xs != [] {
      var front, x := xs[..|xs| - 1], xs[|xs| - 1];
      var all, before, own := Group(key, front, done + {e}), Group(key, front, done), Group(key, front, {e});
      CrossByGroup(f, key, front, ys, done, e);
      if key(x) == e {
        RowWithinGroup(f, key, x, ys);
        GrowOwn(f, all, before, own, x, ys, Group(key, ys, {e}));
      } else if key(x) in done {
        GrowDone(f, all, before, x, ys, multiset(Cross(f, own, Group(key, ys, {e}))));
      }
    }
  }

  lemma GrowOwn<T, U>(f: (T, T) -> seq<U>, all: seq<T>, before: seq<T>, own: seq<T>, x: T, ys: seq<T>, group: seq<T>)
    requires multiset(Cross(f, all, ys)) == multiset(Cross(f, before, ys)) + multiset(Cross(f, own, group))
    requires Row(f, x, ys) == Row(f, x, group)
    ensures multiset(Cross(f, all + [x], ys)) == multiset(Cross(f, before, ys)) + multiset(Cross(f, own + [x], group))
  {
    CrossStep(f, all, x, ys);
    CrossStep(f, own, x, group);
  }

  lemma GrowDone<T, U>(f: (T, T) -> seq<U>, all: seq<T>, before: seq<T>, x: T, ys: seq<T>, own: multiset<U>)
    requires multiset(Cross(f, all, ys)) == multiset(Cross(f, before, ys)) + own
    ensures multiset(Cross(f, all + [x], ys)) == multiset(Cross(f, before + [x], ys)) + own
  {
    CrossStep(f, all, x, ys);
    CrossStep(f, before, x, ys);
  }

  lemma {:induction false} GroupAll<T>(key: T -> string, xs: seq<T>, keys: set<string>)
    requires forall i :: 0 <= i < |xs| ==> key(xs[i]) in keys
    ensures Group(key, xs, keys) == xs
  {
    if xs != [] {
      GroupAll(key, xs[..|xs| - 1], keys);
    }
  }

  lemma {:induction false} GroupNone<T>(key: T -> string, xs: seq<T>)
    ensures Group(key, xs, {}) == []
  {
    if xs != [] {
      GroupNone(key, xs[..|xs| - 1]);
    }
  }

  lemma {:induction false} GroupKeys<T>(key: T -> string, xs: seq<T>, keys: set<string>)
    ensures forall i :: 0 <= i < |Group(key, xs, keys)| ==> key(Group(key, xs, keys)[i]) in keys && Group(key, xs, keys)[i] in xs
  {
    if xs != [] {
      var front := xs[..|xs| - 1];
      GroupKeys(key, front, keys);
      assert xs == front + [xs[|xs| - 1]];
    }
  }

  // ---------- images and members ----------

  function Map<T, U>(g: T -> U, s: seq<T>): seq<U> {
    if s == [] then [] else Map(g, s[..|s| - 1]) + [g(s[|s| - 1])]
  }

  lemma {:induction false} MapConcat<T, U>(g: T -> U, a: seq<T>, b: seq<T>)
    ensures Map(g, a + b) == Map(g, a) + Map(g, b)
    decreases |b|
  {
    if b == [] {
      assert a + b == a;
    } else {
      var front, y := b[..|b| - 1], b[|b| - 1];
      MapConcat(g, a, front);
      AppendLast(a, b);
      assert ((a + front) + [y])[..|a + front|] == a + front;
      Associative(Map(g, a), Map(g, front), [g(y)]);
    }
  }

  lemma {:induction false} MapPermutes<T, U>(g: T -> U, a: seq<T>, b: seq<T>)
    requires multiset(a) == multiset(b)
    ensures multiset(Map(g, a)) == multiset(Map(g, b))
    decreases |a|
  {
    if a == [] {
      assert |multiset(b)| == 0;
    } else {
      var i := FindLast(a, b);
      MapPermutes(g, a[..|a| - 1], Without(b, i));
      MapWithout(g, b, i);
    }
  }

  lemma MapWithout<T, U>(g: T -> U, b: seq<T>, i: nat)
    requires i < |b|
    ensures multiset(Map(g, b)) == multiset(Map(g, Without(b, i))) + multiset{g(b[i])}
  {
    var front, back := b[..i], b[i + 1..];
    SplitAt(b, i);
    MapMiddle(g, front, b[i], back);
  }

  lemma MapMiddle<T, U>(g: T -> U, x: seq<T>, y: T, z: seq<T>)
    ensures multiset(Map(g, (x + [y]) + z)) == multiset(Map(g, x + z)) + multiset{g(y)}
  {
    MapConcat(g, x, z);
    MapConcat(g, x + [y], z);
    assert (x + [y])[..|x|] == x;
  }

  /**
   When the result of every image pair is the image of two other results, so is the
   enumeration over the images.
   */
  lemma {:induction false} RowImage<T, U, V, W>(f: (T, T) -> seq<U>, extra: (T, T) -> seq<U>, h: (V, V) -> seq<W>,
                                                m: T -> V, r: U -> W, a: T, ys: seq<T>)
    requires forall i :: 0 <= i < |ys| ==>
      multiset(h(m(a), m(ys[i]))) == multiset(Map(r, f(a, ys[i]))) + multiset(Map(r, extra(a, ys[i])))
    ensures multiset(Row(h, m(a), Map(m, ys))) == multiset(Map(r, Row(f, a, ys))) + multiset(Map(r, Row(extra, a, ys)))
  {
    if ys != [] {
      var front, y := ys[..|ys| - 1], ys[|ys| - 1];
      RowImage(f, extra, h, m, r, a, front);
      RowStep(h, m(a), Map(m, front), m(y));
      MapConcat(r, Row(f, a, front), f(a, y));
      MapConcat(r, Row(extra, a, front), extra(a, y));
    }
  }

  lemma {:induction false} CrossImage<T, U, V, W>(f: (T, T) -> seq<U>, extra: (T, T) -> seq<U>, h: (V, V) -> seq<W>,
                                                  m: T -> V, r: U -> W, xs: seq<T>, ys: seq<T>)
    requires forall i, j :: 0 <= i < |xs| && 0 <= j < |ys| ==>
      multiset(h(m(xs[i]), m(ys[j]))) == multiset(Map(r, f(xs[i], ys[j]))) + multiset(Map(r, extra(xs[i], ys[j])))
    ensures multiset(Cross(h, Map(m, xs), Map(m, ys)))
            == multiset(Map(r, Cross(f, xs, ys))) + multiset(Map(r, Cross(extra, xs, ys)))
  {
    if xs != [] {
      var front, x := xs[..|xs| - 1], xs[|xs| - 1];
      CrossImage(f, extra, h, m, r, front, ys);
      RowImage(f, extra, h, m, r, x, ys);
      CrossStep(h, Map(m, front), m(x), Map(m, ys));
      MapConcat(r, Cross(f, front, ys), Row(f, x, ys));
      MapConcat(r, Cross(extra, front, ys), Row(extra, x, ys));
    }
  }

  lemma {:induction false} RowMember<T, U>(f: (T, T) -> seq<U>, a: T, ys: seq<T>, u: U) returns (j: nat)
    requires u in Row(f, a, ys)
    ensures j < |ys| && u in f(a, ys[j])
  {
    var last := |ys| - 1;
    if u in f(a, ys[last]) {
      j := last;
    } else {
      j := RowMember(f, a, ys[..last], u);
    }
  }

  lemma {:induction false} CrossMember<T, U>(f: (T, T) -> seq<U>, xs: seq<T>, ys: seq<T>, u: U) returns (i: nat, j: nat)
    requires u in Cross(f, xs, ys)
    ensures i < |xs| && j < |ys| && u in f(xs[i], ys[j])
  {
    var last := |xs| - 1;
    if u in Row(f, xs[last], ys) {
      i := last;
      j := RowMember(f, xs[last], ys, u);
    } else {
      i, j := CrossMember(f, xs[..last], ys, u);
    }
  }

  lemma {:induction false} RowHas<T, U>(f: (T, T) -> seq<U>, a: T, ys: seq<T>, j: nat, u: U)
    requires j < |ys| && u in f(a, ys[j])
    ensures u in Row(f, a, ys)
  {
    if j < |ys| - 1 {
      RowHas(f, a, ys[..|ys| - 1], j, u);
    }
  }

  lemma {:induction false} CrossHas<T, U>(f: (T, T) -> seq<U>, xs: seq<T>, ys: seq<T>, i: nat, j: nat, u: U)
    requires i < |xs| && j < |ys| && u in f(xs[i], ys[j])
    ensures u in Cross(f, xs, ys)
  {
    if i < |xs| - 1 {
      CrossHas(f, xs[..|xs| - 1], ys, i, j, u);
    } else {
      RowHas(f, xs[i], ys, j, u);
    }
  }

  // ---------- triangular enumeration of a sorted list ----------

  lemma RowSkipsFront<T, U>(f: (T, T) -> seq<U>, a: T, front: seq<T>, back: seq<T>)
    requires forall i :: 0 <= i < |front| ==> f(a, front[i]) == []
    ensures Row(f, a, front + back) == Row(f, a, back)
  {
    RowConcat(f, a, front, back);
    RowOfNothing(f, a, front);
  }

  lemma RowSkipsBack<T, U>(f: (T, T) -> seq<U>, a: T, front: seq<T>, back: seq<T>)
    requires forall i :: 0 <= i < |back| ==> f(a, back[i]) == []
    ensures Row(f, a, front + back) == Row(f, a, front)
  {
    RowConcat(f, a, front, back);
    RowOfNothing(f, a, back);
  }

  /** A row over the whole list is the row over the later elements when the others give nothing. */
  lemma ForwardRow<T, U>(f: (T, T) -> seq<U>, g: seq<T>, k: nat)
    requires k < |g| && forall j :: 0 <= j <= k ==> f(g[k], g[j]) == []
    ensures Row(f, g[k], g) == Row(f, g[k], g[k + 1..])
  {
    assert g == g[..k + 1] + g[k + 1..];
    RowSkipsFront(f, g[k], g[..k + 1], g[k + 1..]);
  }

  /** Likewise for the earlier elements. */
  lemma BackwardRow<T, U>(f: (T, T) -> seq<U>, g: seq<T>, k: nat)
    requires k < |g| && forall j :: k <= j < |g| ==> f(g[k], g[j]) == []
    ensures Row(f, g[k], g) == Row(f, g[k], g[..k])
  {
    assert g == g[..k] + g[k..];
    RowSkipsBack(f, g[k], g[..k], g[k..]);
  }

  lemma CrossNext<T, U>(f: (T, T) -> seq<U>, g: seq<T>, k: nat)
    requires k < |g|
    ensures Cross(f, g[..k + 1], g) == Cross(f, g[..k], g) + Row(f, g[k], g)
  {
    assert g[..k + 1][..k] == g[..k];
  }
}
