/** Python's string ordering (code point by code point, a proper prefix
    first) and the stable sort `xs.sort(key=...)` / `sorted(xs)` over it. */
module Sorting {
  import opened Seqs

  /** `a <= b` on Python strings. */
  predicate LexLe(a: string, b: string)
    decreases |a|
  {
    a == [] || (b != [] && (a[0] < b[0] || (a[0] == b[0] && LexLe(a[1..], b[1..]))))
  }

  lemma {:induction false} LexLeRefl(a: string)
    ensures LexLe(a, a)
    decreases |a|
  {
    if a != [] { LexLeRefl(a[1..]); }
  }

  lemma {:induction false} LexLeTotal(a: string, b: string)
    ensures LexLe(a, b) || LexLe(b, a)
    decreases |a|
  {
    if a != [] && b != [] && a[0] == b[0] { LexLeTotal(a[1..], b[1..]); }
  }

  lemma {:induction false} LexLeTrans(a: string, b: string, c: string)
    requires LexLe(a, b) && LexLe(b, c)
    ensures LexLe(a, c)
    decreases |a|
  {
    if a != [] && b != [] && c != [] && a[0] == b[0] == c[0] { LexLeTrans(a[1..], b[1..], c[1..]); }
  }

  lemma {:induction false} LexLeAntisym(a: string, b: string)
    requires LexLe(a, b) && LexLe(b, a)
    ensures a == b
    decreases |a|
  {
    if a != [] && b != [] {
      LexLeAntisym(a[1..], b[1..]);
      assert a == [a[0]] + a[1..] && b == [b[0]] + b[1..];
    }
  }

  /** The keys of `xs` never decrease. */
  predicate SortedBy<T>(xs: seq<T>, key: T -> string) {
    forall i, j :: 0 <= i < j < |xs| ==> LexLe(key(xs[i]), key(xs[j]))
  }

  /** Insert `x` before the first element whose key is not smaller, so
      that it lands ahead of the elements with an equal key. */
  function InsertBy<T>(x: T, xs: seq<T>, key: T -> string): (r: seq<T>)
    requires SortedBy(xs, key)
    ensures SortedBy(r, key)
    ensures multiset(r) == multiset(xs) + multiset{x}
    ensures |r| == |xs| + 1
  {
    if xs == [] then [x]
    else if LexLe(key(x), key(xs[0])) then
      forall j | 0 < j < |xs| ensures LexLe(key(x), key(xs[j])) {
        LexLeTrans(key(x), key(xs[0]), key(xs[j]));
      }
      [x] + xs
    else
      LexLeTotal(key(xs[0]), key(x));
      var rest := InsertBy(x, xs[1..], key);
      assert xs == [xs[0]] + xs[1..];
      assert forall j :: 0 <= j < |rest| ==> LexLe(key(xs[0]), key(rest[j])) by {
        forall j | 0 <= j < |rest| ensures LexLe(key(xs[0]), key(rest[j])) {
          assert rest[j] in multiset(rest);
          assert rest[j] == x || rest[j] in multiset(xs[1..]);
        }
      }
      [xs[0]] + rest
  }

  /** `sorted(xs, key=key)`: an ordering of the same elements by key. */
  function SortBy<T>(xs: seq<T>, key: T -> string): (r: seq<T>)
    ensures SortedBy(r, key)
    ensures multiset(r) == multiset(xs)
    ensures |r| == |xs|
  {
    if xs == [] then []
    else
      assert xs == [xs[0]] + xs[1..];
      InsertBy(xs[0], SortBy(xs[1..], key), key)
  }

  /** The elements whose key is `k`. */
  function HasKey<T>(key: T -> string, k: string): T -> bool {
    (y: T) => key(y) == k
  }

  /** Inserting puts `x` ahead of every element with the same key and
      leaves the others' relative order alone. */
  lemma {:induction false} InsertByStable<T>(x: T, xs: seq<T>, key: T -> string, k: string)
    requires SortedBy(xs, key)
    ensures Filter(InsertBy(x, xs, key), HasKey(key, k)) ==
              (if key(x) == k then [x] else []) + Filter(xs, HasKey(key, k))
    decreases |xs|
  {
    var p := HasKey(key, k);
    if xs == [] {
      FilterCons(x, [], p);
    } else if LexLe(key(x), key(xs[0])) {
      assert InsertBy(x, xs, key) == [x] + xs;
      FilterCons(x, xs, p);
    } else {
      var rest := xs[1..];
      assert InsertBy(x, xs, key) == [xs[0]] + InsertBy(x, rest, key);
      assert xs == [xs[0]] + rest;
      LexLeRefl(key(x));
      InsertByStable(x, rest, key, k);
      FilterPast(xs[0], x, InsertBy(x, rest, key), rest, p);
    }
  }

  /** Putting `y` in front of both sides keeps `x` ahead of the rest when
      `y` and `x` are not both kept. */
  lemma FilterPast<T>(y: T, x: T, ins: seq<T>, rest: seq<T>, p: T -> bool)
    requires Filter(ins, p) == (if p(x) then [x] else []) + Filter(rest, p)
    requires !(p(y) && p(x))
    ensures Filter([y] + ins, p) == (if p(x) then [x] else []) + Filter([y] + rest, p)
  {
    FilterCons(y, ins, p);
    FilterCons(y, rest, p);
  }

  /** `sorted` is stable: the elements sharing any one key come out in
      their original order. */
  lemma {:induction false} SortByStable<T>(xs: seq<T>, key: T -> string, k: string)
    ensures Filter(SortBy(xs, key), HasKey(key, k)) == Filter(xs, HasKey(key, k))
    decreases |xs|
  {
    if xs != [] {
      SortByStable(xs[1..], key, k);
      InsertByStable(xs[0], SortBy(xs[1..], key), key, k);
      FilterCons(xs[0], xs[1..], HasKey(key, k));
      assert xs == [xs[0]] + xs[1..];
    }
  }
}
