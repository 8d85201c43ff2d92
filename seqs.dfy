/** Order-preserving sub-lists: the shape of every list comprehension
    `[x for x in xs if p(x)]` in the core. */
module Seqs {
  import opened Wrappers

  /** `[x for x in xs if p(x)]`, defined from the back so that it follows a
      loop over growing prefixes. */
  function Filter<T(==)>(xs: seq<T>, p: T -> bool): (r: seq<T>)
    ensures |r| <= |xs|
  {
    if xs == [] then []
    else Filter(xs[..|xs| - 1], p) + (if p(xs[|xs| - 1]) then [xs[|xs| - 1]] else [])
  }

  /** The filter keeps exactly the elements that satisfy the predicate. */
  lemma {:induction false} FilterMembers<T>(xs: seq<T>, p: T -> bool)
    ensures forall x :: x in Filter(xs, p) <==> x in xs && p(x)
    decreases |xs|
  {
    if xs != [] {
      FilterMembers(xs[..|xs| - 1], p);
      assert xs == xs[..|xs| - 1] + [xs[|xs| - 1]];
    }
  }

  /** `a` is obtained from `b` by deleting elements: order is preserved. */
  ghost predicate Sublist<T>(a: seq<T>, b: seq<T>)
    decreases |b|
  {
    if a == [] then true
    else if b == [] then false
    else (a[|a| - 1] == b[|b| - 1] && Sublist(a[..|a| - 1], b[..|b| - 1])) || Sublist(a, b[..|b| - 1])
  }

  lemma {:induction false} SublistRefl<T>(a: seq<T>)
    ensures Sublist(a, a)
    decreases |a|
  {
    if a != [] { SublistRefl(a[..|a| - 1]); }
  }

  lemma {:induction false} FilterSublist<T>(xs: seq<T>, p: T -> bool)
    ensures Sublist(Filter(xs, p), xs)
    decreases |xs|
  {
    if xs != [] {
      var init := xs[..|xs| - 1];
      FilterSublist(init, p);
      if p(xs[|xs| - 1]) {
        assert Filter(xs, p)[..|Filter(xs, p)| - 1] == Filter(init, p);
      } else {
        assert Filter(xs, p) == Filter(init, p);
      }
    }
  }

  lemma {:induction false} SublistTrans<T>(a: seq<T>, b: seq<T>, c: seq<T>)
    requires Sublist(a, b) && Sublist(b, c)
    ensures Sublist(a, c)
    decreases |c|
  {
    if a != [] && b != [] && c != [] {
      var a', b', c' := a[..|a| - 1], b[..|b| - 1], c[..|c| - 1];
      if b[|b| - 1] == c[|c| - 1] && Sublist(b', c') {
        if a[|a| - 1] == b[|b| - 1] && Sublist(a', b') {
          SublistTrans(a', b', c');
        } else {
          SublistTrans(a, b', c');
        }
      } else {
        SublistTrans(a, b, c');
      }
    }
  }

  /** Filtering twice by the same predicate is filtering once. */
  lemma {:induction false} FilterIdempotent<T>(xs: seq<T>, p: T -> bool)
    ensures Filter(Filter(xs, p), p) == Filter(xs, p)
    decreases |xs|
  {
    if xs != [] {
      var init, x := xs[..|xs| - 1], xs[|xs| - 1];
      FilterIdempotent(init, p);
      var f := Filter(init, p);
      assert Filter(xs, p) == f + (if p(x) then [x] else []);
      if p(x) {
        FilterSnoc(f, x, p);
      } else {
        assert Filter(xs, p) == f;
      }
    }
  }

  lemma {:induction false} FilterSnoc<T>(xs: seq<T>, x: T, p: T -> bool)
    ensures Filter(xs + [x], p) == Filter(xs, p) + (if p(x) then [x] else [])
  {
    assert (xs + [x])[..|xs|] == xs;
  }

  /** Filtering a list with a new first element. */
  lemma {:induction false} FilterCons<T>(x: T, xs: seq<T>, p: T -> bool)
    ensures Filter([x] + xs, p) == (if p(x) then [x] else []) + Filter(xs, p)
    decreases |xs|
  {
    if xs != [] {
      var init := xs[..|xs| - 1];
      FilterCons(x, init, p);
      assert ([x] + xs)[..|xs|] == [x] + init;
    }
  }

  /** A filter whose predicate holds of every element changes nothing. */
  lemma {:induction false} FilterAll<T>(xs: seq<T>, p: T -> bool)
    requires forall i :: 0 <= i < |xs| ==> p(xs[i])
    ensures Filter(xs, p) == xs
    decreases |xs|
  {
    if xs != [] {
      FilterAll(xs[..|xs| - 1], p);
      assert xs[..|xs| - 1] + [xs[|xs| - 1]] == xs;
    }
  }

  /** Every element kept satisfies the filter predicate. */
  lemma {:induction false} FilterSatisfies<T>(xs: seq<T>, p: T -> bool)
    ensures forall i :: 0 <= i < |Filter(xs, p)| ==> p(Filter(xs, p)[i])
    decreases |xs|
  {
    if xs != [] {
      FilterSatisfies(xs[..|xs| - 1], p);
    }
  }

  /** A property of every element survives filtering. */
  lemma {:induction false} FilterPreserves<T>(xs: seq<T>, p: T -> bool, q: T -> bool)
    requires forall i :: 0 <= i < |xs| ==> q(xs[i])
    ensures forall i :: 0 <= i < |Filter(xs, p)| ==> q(Filter(xs, p)[i])
    decreases |xs|
  {
    if xs != [] {
      FilterPreserves(xs[..|xs| - 1], p, q);
    }
  }

  /** Filters by predicates that agree on every element are equal. */
  lemma {:induction false} FilterExt<T>(xs: seq<T>, p: T -> bool, q: T -> bool)
    requires forall x :: p(x) == q(x)
    ensures Filter(xs, p) == Filter(xs, q)
    decreases |xs|
  {
    if xs != [] {
      FilterExt(xs[..|xs| - 1], p, q);
    }
  }

  /** Nothing satisfies `p`: the filter is empty. */
  lemma {:induction false} FilterNone<T>(xs: seq<T>, p: T -> bool)
    requires forall i :: 0 <= i < |xs| ==> !p(xs[i])
    ensures Filter(xs, p) == []
    decreases |xs|
  {
    if xs != [] {
      FilterNone(xs[..|xs| - 1], p);
    }
  }

  /** Filters by two predicates compose into one filter by their conjunction. */
  lemma {:induction false} FilterFilter<T>(xs: seq<T>, p: T -> bool, q: T -> bool, pq: T -> bool)
    requires forall x :: pq(x) == (p(x) && q(x))
    ensures Filter(Filter(xs, p), q) == Filter(xs, pq)
    decreases |xs|
  {
    if xs != [] {
      var init, x := xs[..|xs| - 1], xs[|xs| - 1];
      FilterFilter(init, p, q, pq);
      assert pq(x) == (p(x) && q(x));
      var f := Filter(init, p);
      assert Filter(xs, p) == f + (if p(x) then [x] else []);
      assert Filter(xs, pq) == Filter(init, pq) + (if pq(x) then [x] else []);
      if p(x) {
        FilterSnoc(f, x, q);
      } else {
        assert Filter(xs, p) == f;
        assert Filter(xs, pq) == Filter(init, pq);
      }
    }
  }

  /** No element occurs twice. */
  predicate NoDup<T(==)>(xs: seq<T>) {
    forall i, j :: 0 <= i < j < |xs| ==> xs[i] != xs[j]
  }

  lemma {:induction false} FilterNoDup<T>(xs: seq<T>, p: T -> bool)
    requires NoDup(xs)
    ensures NoDup(Filter(xs, p))
    decreases |xs|
  {
    if xs != [] {
      var init, x := xs[..|xs| - 1], xs[|xs| - 1];
      FilterNoDup(init, p);
      FilterMembers(init, p);
      assert x !in init;
    }
  }

  /** `[f(x) for x in xs]` */
  function Map<T, U>(xs: seq<T>, f: T -> U): (r: seq<U>)
    ensures |r| == |xs|
    ensures forall i :: 0 <= i < |xs| ==> r[i] == f(xs[i])
  {
    seq(|xs|, i requires 0 <= i < |xs| => f(xs[i]))
  }

  /** The pieces `f` gives for the elements of `xs`, joined in order. */
  function FlatMap<T, U>(xs: seq<T>, f: T -> seq<U>): seq<U> {
    if xs == [] then [] else FlatMap(xs[..|xs| - 1], f) + f(xs[|xs| - 1])
  }

  /** Each element of the joined pieces sits in the piece of some element. */
  lemma {:induction false} FlatMapAt<T, U>(xs: seq<T>, f: T -> seq<U>, k: nat) returns (j: nat, i: nat)
    requires k < |FlatMap(xs, f)|
    ensures j < |xs| && i < |f(xs[j])| && FlatMap(xs, f)[k] == f(xs[j])[i]
    decreases |xs|
  {
    var init := xs[..|xs| - 1];
    if k < |FlatMap(init, f)| {
      j, i := FlatMapAt(init, f, k);
    } else {
      j, i := |xs| - 1, k - |FlatMap(init, f)|;
    }
  }

  lemma FlatMapSnoc<T, U>(xs: seq<T>, f: T -> seq<U>, n: nat)
    requires n < |xs|
    ensures FlatMap(xs[..n + 1], f) == FlatMap(xs[..n], f) + f(xs[n])
  {
    assert xs[..n + 1][..n] == xs[..n];
  }

  /** No two elements share a key, as the keys of a dict. */
  predicate KeysDistinct<T>(xs: seq<T>, key: T -> string) {
    forall i, j :: 0 <= i < j < |xs| ==> key(xs[i]) != key(xs[j])
  }

  /** Where a kept element sits in the input. */
  lemma FilterIndex<T>(xs: seq<T>, p: T -> bool, y: T) returns (k: nat)
    requires y in Filter(xs, p)
    ensures k < |xs| && xs[k] == y
  {
    FilterMembers(xs, p);
    k :| 0 <= k < |xs| && xs[k] == y;
  }

  lemma {:induction false} FilterKeysDistinct<T>(xs: seq<T>, p: T -> bool, key: T -> string)
    requires KeysDistinct(xs, key)
    ensures KeysDistinct(Filter(xs, p), key)
    decreases |xs|
  {
    if xs != [] {
      var init, x := xs[..|xs| - 1], xs[|xs| - 1];
      FilterKeysDistinct(init, p, key);
      var f := Filter(init, p);
      forall i | 0 <= i < |f| ensures key(f[i]) != key(x) {
        var k := FilterIndex(init, p, f[i]);
        assert xs[k] == f[i];
      }
    }
  }

  lemma {:induction false} NoDupCount<T>(xs: seq<T>, v: T)
    requires NoDup(xs)
    ensures multiset(xs)[v] <= 1
    decreases |xs|
  {
    if xs != [] {
      var init := xs[..|xs| - 1];
      NoDupCount(init, v);
      assert xs == init + [xs[|xs| - 1]];
      if xs[|xs| - 1] == v {
        forall k | 0 <= k < |init| ensures init[k] != v {
          assert init[k] == xs[k];
        }
        assert multiset(init)[v] == 0;
      }
    }
  }

  /** Reordering keeps keys distinct. */
  lemma PermKeysDistinct<T>(xs: seq<T>, ys: seq<T>, key: T -> string)
    requires multiset(xs) == multiset(ys) && KeysDistinct(xs, key)
    ensures KeysDistinct(ys, key)
  {
    forall i, j | 0 <= i < j < |ys| ensures key(ys[i]) != key(ys[j]) {
      if key(ys[i]) == key(ys[j]) {
        assert ys[i] in multiset(xs) && ys[j] in multiset(xs);
        var a :| 0 <= a < |xs| && xs[a] == ys[i];
        var b :| 0 <= b < |xs| && xs[b] == ys[j];
        if a == b {
          var v := ys[i];
          assert ys == ys[..j] + ys[j..];
          assert v in ys[..j] && v in ys[j..] by {
            assert ys[..j][i] == v;
            assert ys[j..][0] == v;
          }
          assert multiset(ys)[v] == multiset(ys[..j])[v] + multiset(ys[j..])[v];
          assert NoDup(xs);
          NoDupCount(xs, v);
        }
      }
    }
  }

  /** Reordering keeps a list free of repeats. */
  lemma PermNoDup<T>(xs: seq<T>, ys: seq<T>)
    requires multiset(xs) == multiset(ys) && NoDup(xs)
    ensures NoDup(ys)
  {
    forall i, j | 0 <= i < j < |ys| ensures ys[i] != ys[j] {
      if ys[i] == ys[j] {
        var v := ys[i];
        assert ys == ys[..j] + ys[j..];
        assert ys[..j][i] == v && ys[j..][0] == v;
        assert multiset(ys)[v] == multiset(ys[..j])[v] + multiset(ys[j..])[v];
        NoDupCount(xs, v);
      }
    }
  }

  /** `list(s)`: the elements of a set, each once, in an order the
      language leaves open. */
  method SetToSeq<T>(s: set<T>) returns (xs: seq<T>)
    ensures NoDup(xs)
    ensures forall x :: x in xs <==> x in s
    ensures |xs| == |s|
  {
    xs := [];
    var rest := s;
    while rest != {}
      invariant rest <= s
      invariant forall x :: x in xs <==> x in s && x !in rest
      invariant NoDup(xs)
      invariant |xs| + |rest| == |s|
      decreases |rest|
    {
      var x :| x in rest;
      xs := xs + [x];
      rest := rest - {x};
    }
  }

  /** `d.update(e)` on a copy of `d`: the keys of `e` win. */
  function Update<K, V>(d: map<K, V>, e: map<K, V>): (r: map<K, V>)
    ensures r.Keys == d.Keys + e.Keys
    ensures forall k :: k in e ==> r[k] == e[k]
    ensures forall k :: k in d && k !in e ==> r[k] == d[k]
  {
    d + e
  }

  /** `[y for x in xs if (y := f(x)) is not None]` */
  function FilterMap<T, U>(xs: seq<T>, f: T -> Option<U>): (r: seq<U>)
    ensures |r| <= |xs|
  {
    if xs == [] then []
    else
      var y := f(xs[|xs| - 1]);
      FilterMap(xs[..|xs| - 1], f) + (if y.Some? then [y.value] else [])
  }

  lemma FilterMapStep<T, U>(xs: seq<T>, f: T -> Option<U>, i: nat)
    requires i < |xs|
    ensures FilterMap(xs[..i + 1], f) == FilterMap(xs[..i], f) + (if f(xs[i]).Some? then [f(xs[i]).value] else [])
  {
    assert xs[..i + 1][..i] == xs[..i];
  }

  /** Every kept value is the image of an element. */
  lemma {:induction false} FilterMapSound<T, U>(xs: seq<T>, f: T -> Option<U>, y: U) returns (i: nat)
    requires y in FilterMap(xs, f)
    ensures i < |xs| && f(xs[i]) == Some(y)
    decreases |xs|
  {
    var init := xs[..|xs| - 1];
    if y in FilterMap(init, f) {
      i := FilterMapSound(init, f, y);
      assert init[i] == xs[i];
    } else {
      i := |xs| - 1;
    }
  }

  /** Every image that is present is kept. */
  lemma {:induction false} FilterMapComplete<T, U>(xs: seq<T>, f: T -> Option<U>, i: nat)
    requires i < |xs| && f(xs[i]).Some?
    ensures f(xs[i]).value in FilterMap(xs, f)
    decreases |xs|
  {
    var init := xs[..|xs| - 1];
    if i < |init| {
      assert init[i] == xs[i];
      FilterMapComplete(init, f, i);
    }
  }

  lemma FilterMapMembers<T, U>(xs: seq<T>, f: T -> Option<U>)
    ensures forall y :: y in FilterMap(xs, f) <==> exists i :: 0 <= i < |xs| && f(xs[i]) == Some(y)
  {
    forall y | y in FilterMap(xs, f) ensures exists i :: 0 <= i < |xs| && f(xs[i]) == Some(y) {
      var i := FilterMapSound(xs, f, y);
    }
    forall i | 0 <= i < |xs| && f(xs[i]).Some? ensures f(xs[i]).value in FilterMap(xs, f) {
      FilterMapComplete(xs, f, i);
    }
  }

  lemma {:induction false} FilterMapNone<T, U>(xs: seq<T>, f: T -> Option<U>)
    requires forall i :: 0 <= i < |xs| ==> f(xs[i]).None?
    ensures FilterMap(xs, f) == []
    decreases |xs|
  {
    if xs != [] {
      FilterMapNone(xs[..|xs| - 1], f);
    }
  }
}
