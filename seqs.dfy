/**
 * Sequence helpers shared by the evaluator and the solver: Python's
 * `sorted(..., reverse=True)` on integers, `itertools.product(xs, repeat=n)`,
 * and the "keep the first option of every key" deduplication both placement
 * generators perform with a `seen` set.
 */
module Seqs {
  import opened Wrappers

  // ---------------------------------------------------------------------------
  // Descending sort
  // ---------------------------------------------------------------------------

  predicate SortedDesc(s: seq<int>) {
    forall i, j :: 0 <= i < j < |s| ==> s[i] >= s[j]
  }

  function InsertDesc(x: int, s: seq<int>): (r: seq<int>)
    requires SortedDesc(s)
    ensures |r| == |s| + 1
    ensures multiset(r) == multiset(s) + multiset{x}
    ensures forall y :: y in r ==> y == x || y in s
    ensures SortedDesc(r)
  {
    if s == [] || x >= s[0] then [x] + s
    else
      var rest := InsertDesc(x, s[1..]);
      assert s == [s[0]] + s[1..];
      assert multiset(s) == multiset{s[0]} + multiset(s[1..]);
      assert multiset([s[0]] + rest) == multiset{s[0]} + multiset(rest);
      var r := [s[0]] + rest;
      assert SortedDesc(r) by {
        forall i, j | 0 <= i < j < |r| ensures r[i] >= r[j] {
          if i == 0 {
            assert r[j] == rest[j - 1];
            assert rest[j - 1] in rest;
          } else {
            assert r[i] == rest[i - 1] && r[j] == rest[j - 1];
          }
        }
      }
      r
  }

  /** `sorted(s, reverse=True)` for a list of integers. */
  function SortDesc(s: seq<int>): (r: seq<int>)
    ensures |r| == |s|
    ensures multiset(r) == multiset(s)
    ensures forall y :: y in r <==> y in s
    ensures SortedDesc(r)
  {
    if s == [] then []
    else
      var r := InsertDesc(s[0], SortDesc(s[1..]));
      assert s == [s[0]] + s[1..];
      assert forall y :: y in r <==> y in multiset(r);
      assert forall y :: y in s <==> y in multiset(s);
      r
  }

  /** The head of a descending sequence bounds all its elements. */
  lemma SortedHeadIsMax(a: seq<int>, x: int)
    requires SortedDesc(a) && x in multiset(a)
    ensures a[0] >= x
  {
    var i :| 0 <= i < |a| && a[i] == x;
  }

  lemma SortedTail(a: seq<int>)
    requires SortedDesc(a) && |a| > 0
    ensures SortedDesc(a[1..])
  {
    forall i, j | 0 <= i < j < |a| - 1 ensures a[1..][i] >= a[1..][j] {
      assert a[1..][i] == a[i + 1] && a[1..][j] == a[j + 1];
    }
  }

  lemma TailMultiset(a: seq<int>)
    requires |a| > 0
    ensures multiset(a[1..]) == multiset(a) - multiset{a[0]}
  {
    assert a == [a[0]] + a[1..];
  }

  /** Two descending sequences holding the same multiset are the same sequence. */
  lemma {:induction false} SortedDescUnique(a: seq<int>, b: seq<int>)
    requires SortedDesc(a) && SortedDesc(b)
    requires multiset(a) == multiset(b)
    ensures a == b
    decreases |a|
  {
    assert |a| == |multiset(a)| == |multiset(b)| == |b|;
    if |a| > 0 {
      SameHeadAndTail(a, b);
      SortedTail(a);
      SortedTail(b);
      SortedDescUnique(a[1..], b[1..]);
      assert a == [a[0]] + a[1..] && b == [b[0]] + b[1..];
    }
  }

  /** Two non-empty descending sequences with the same multiset start alike and continue with the same multiset. */
  lemma SameHeadAndTail(a: seq<int>, b: seq<int>)
    requires SortedDesc(a) && SortedDesc(b) && |a| > 0 && |b| > 0
    requires multiset(a) == multiset(b)
    ensures a[0] == b[0]
    ensures multiset(a[1..]) == multiset(b[1..])
  {
    assert a[0] in multiset(a) && b[0] in multiset(b);
    SortedHeadIsMax(a, b[0]);
    SortedHeadIsMax(b, a[0]);
    TailMultiset(a);
    TailMultiset(b);
  }

  /** Sorting an already sorted sequence changes nothing. */
  lemma SortDescOfSorted(s: seq<int>)
    requires SortedDesc(s)
    ensures SortDesc(s) == s
  {
    SortedDescUnique(SortDesc(s), s);
  }

  // ---------------------------------------------------------------------------
  // itertools.product(xs, repeat=n)
  // ---------------------------------------------------------------------------

  function Pow(b: nat, e: nat): nat {
    if e == 0 then 1 else b * Pow(b, e - 1)
  }

  /** [[x] + p for x in xs for p in ps]: the first position varies slowest. */
  function Prefixed<T>(xs: seq<T>, ps: seq<seq<T>>): (r: seq<seq<T>>)
    ensures |r| == |xs| * |ps|
  {
    if xs == [] then []
    else seq(|ps|, i requires 0 <= i < |ps| => [xs[0]] + ps[i]) + Prefixed(xs[1..], ps)
  }

  /** `itertools.product(xs, repeat=n)` in its enumeration order. */
  function Product<T>(xs: seq<T>, n: nat): (r: seq<seq<T>>)
    ensures |r| == Pow(|xs|, n)
  {
    if n == 0 then [[]] else Prefixed(xs, Product(xs, n - 1))
  }

  lemma {:induction false} PrefixedMember<T>(xs: seq<T>, ps: seq<seq<T>>, q: seq<T>)
    requires q in Prefixed(xs, ps)
    ensures |q| > 0 && q[0] in xs && q[1..] in ps
  {
    if xs != [] {
      var head := seq(|ps|, i requires 0 <= i < |ps| => [xs[0]] + ps[i]);
      if q in head {
        var i :| 0 <= i < |ps| && head[i] == q;
        assert q[1..] == ps[i];
      } else {
        PrefixedMember(xs[1..], ps, q);
      }
    }
  }

  lemma {:induction false} PrefixedComplete<T>(xs: seq<T>, ps: seq<seq<T>>, x: T, p: seq<T>)
    requires x in xs && p in ps
    ensures [x] + p in Prefixed(xs, ps)
  {
    var head := seq(|ps|, i requires 0 <= i < |ps| => [xs[0]] + ps[i]);
    if x == xs[0] {
      var i :| 0 <= i < |ps| && ps[i] == p;
      assert head[i] == [x] + p;
    } else {
      PrefixedComplete(xs[1..], ps, x, p);
    }
  }

  /** Every entry of the product is a length-n sequence over xs. */
  lemma {:induction false} ProductMember<T>(xs: seq<T>, n: nat, q: seq<T>)
    requires q in Product(xs, n)
    ensures |q| == n && forall i :: 0 <= i < n ==> q[i] in xs
  {
    if n > 0 {
      PrefixedMember(xs, Product(xs, n - 1), q);
      ProductMember(xs, n - 1, q[1..]);
      assert forall i :: 1 <= i < n ==> q[i] == q[1..][i - 1];
    }
  }

  /** Every length-n sequence over xs is an entry of the product. */
  lemma {:induction false} ProductComplete<T>(xs: seq<T>, n: nat, q: seq<T>)
    requires |q| == n && forall i :: 0 <= i < n ==> q[i] in xs
    ensures q in Product(xs, n)
  {
    if n > 0 {
      ProductComplete(xs, n - 1, q[1..]);
      PrefixedComplete(xs, Product(xs, n - 1), q[0], q[1..]);
      assert q == [q[0]] + q[1..];
    }
  }

  // ---------------------------------------------------------------------------
  // Deduplication that keeps the first element of every key, in order
  // ---------------------------------------------------------------------------

  /** The keys met so far: the generators' `seen` set after `xs`. */
  function KeysOf<T, K(==)>(xs: seq<T>, key: T -> K): (ks: set<K>)
    ensures forall i :: 0 <= i < |xs| ==> key(xs[i]) in ks
    ensures forall k :: k in ks ==> exists i :: 0 <= i < |xs| && key(xs[i]) == k
  {
    if xs == [] then {}
    else
      var p := xs[..|xs| - 1];
      assert forall i :: 0 <= i < |p| ==> p[i] == xs[i];
      KeysOf(p, key) + {key(xs[|xs| - 1])}
  }

  /** Keeps `xs[i]` exactly when no earlier element has the same key. */
  function Dedup<T, K(==)>(xs: seq<T>, key: T -> K): seq<T>
  {
    if xs == [] then []
    else
      var p := xs[..|xs| - 1];
      var x := xs[|xs| - 1];
      Dedup(p, key) + (if key(x) in KeysOf(p, key) then [] else [x])
  }

  /** One more element: it is kept exactly when its key is new, and its key joins the keys met. */
  lemma DedupSnoc<T, K>(xs: seq<T>, key: T -> K, i: nat)
    requires i < |xs|
    ensures Dedup(xs[..i + 1], key) ==
      Dedup(xs[..i], key) + (if key(xs[i]) in KeysOf(xs[..i], key) then [] else [xs[i]])
    ensures KeysOf(xs[..i + 1], key) == KeysOf(xs[..i], key) + {key(xs[i])}
  {
    assert xs[..i + 1][..i] == xs[..i];
  }

  /** Deduplication loses no key. */
  lemma {:induction false} DedupKeys<T, K>(xs: seq<T>, key: T -> K)
    ensures KeysOf(Dedup(xs, key), key) == KeysOf(xs, key)
  {
    if xs != [] {
      var p := xs[..|xs| - 1];
      var x := xs[|xs| - 1];
      DedupKeys(p, key);
      var d := Dedup(p, key);
      if key(x) in KeysOf(p, key) {
        assert Dedup(xs, key) == d;
      } else {
        assert Dedup(xs, key) == d + [x];
        assert (d + [x])[..|d + [x]| - 1] == d;
      }
    }
  }

  /** Every element kept is an element of the input. */
  lemma {:induction false} DedupSubset<T, K>(xs: seq<T>, key: T -> K)
    ensures forall y :: y in Dedup(xs, key) ==> y in xs
  {
    if xs != [] {
      var p := xs[..|xs| - 1];
      DedupSubset(p, key);
      assert forall y :: y in p ==> y in xs;
    }
  }

  /** The kept elements have pairwise distinct keys. */
  lemma {:induction false} DedupDistinct<T, K>(xs: seq<T>, key: T -> K)
    ensures var d := Dedup(xs, key);
      forall i, j :: 0 <= i < j < |d| ==> key(d[i]) != key(d[j])
  {
    if xs != [] {
      var p := xs[..|xs| - 1];
      var x := xs[|xs| - 1];
      DedupDistinct(p, key);
      DedupKeys(p, key);
      var d := Dedup(p, key);
      if key(x) !in KeysOf(p, key) {
        var e := d + [x];
        assert Dedup(xs, key) == e;
        forall i, j | 0 <= i < j < |e| ensures key(e[i]) != key(e[j]) {
          if j == |d| {
            assert key(d[i]) in KeysOf(d, key);
          }
        }
      }
    }
  }

  /** Every key of the input is the key of a kept element. */
  lemma DedupCovers<T, K>(xs: seq<T>, key: T -> K, x: T)
    requires x in xs
    ensures exists y :: y in Dedup(xs, key) && key(y) == key(x)
  {
    var i :| 0 <= i < |xs| && xs[i] == x;
    assert key(x) in KeysOf(xs, key);
    DedupKeys(xs, key);
    var d := Dedup(xs, key);
    var j :| 0 <= j < |d| && key(d[j]) == key(x);
    assert d[j] in d;
  }

  /** Each kept element is the first element of the input with its key. */
  lemma {:induction false} DedupKeepsFirst<T, K>(xs: seq<T>, key: T -> K, k: int)
    requires 0 <= k < |Dedup(xs, key)|
    ensures exists i :: 0 <= i < |xs| && xs[i] == Dedup(xs, key)[k]
                        && forall j :: 0 <= j < i ==> key(xs[j]) != key(xs[i])
  {
    var p := xs[..|xs| - 1];
    var x := xs[|xs| - 1];
    var d := Dedup(p, key);
    if k < |d| {
      DedupKeepsFirst(p, key, k);
      var i :| 0 <= i < |p| && p[i] == d[k] && forall j :: 0 <= j < i ==> key(p[j]) != key(p[i]);
      assert xs[i] == p[i] && Dedup(xs, key)[k] == d[k];
      assert forall j :: 0 <= j < i ==> key(xs[j]) != key(xs[i]);
    } else {
      assert key(x) !in KeysOf(p, key);
      assert Dedup(xs, key)[k] == x;
      var i := |xs| - 1;
      forall j | 0 <= j < i ensures key(xs[j]) != key(xs[i]) {
        assert xs[j] == p[j];
      }
    }
  }

  // ---------------------------------------------------------------------------
  // Mapping a fallible function over a list
  // ---------------------------------------------------------------------------

  /** `[f(x) for x in xs]` where `f` may raise: the first failure is the result. */
  function MapResult<A, B, E>(xs: seq<A>, f: A -> Result<B, E>): Result<seq<B>, E> {
    if xs == [] then Ok([])
    else
      match f(xs[0])
      case Err(e) => Err(e)
      case Ok(y) =>
        match MapResult(xs[1..], f)
        case Err(e) => Err(e)
        case Ok(ys) => Ok([y] + ys)
  }

  /** The mapping succeeds exactly when every element succeeds, and then yields the results in order. */
  lemma {:induction false} MapResultOk<A, B, E>(xs: seq<A>, f: A -> Result<B, E>)
    ensures MapResult(xs, f).Ok? <==> forall k :: 0 <= k < |xs| ==> f(xs[k]).Ok?
    ensures MapResult(xs, f).Ok? ==>
      |MapResult(xs, f).value| == |xs|
      && forall k :: 0 <= k < |xs| ==> MapResult(xs, f).value[k] == f(xs[k]).value
  {
    if xs != [] {
      MapResultOk(xs[1..], f);
      assert forall k :: 1 <= k < |xs| ==> xs[1..][k - 1] == xs[k];
    }
  }

  /** When the mapping fails, the error is that of the first failing element. */
  lemma {:induction false} MapResultFirstError<A, B, E>(xs: seq<A>, f: A -> Result<B, E>, k: nat)
    requires k < |xs| && f(xs[k]).Err?
    requires forall j :: 0 <= j < k ==> f(xs[j]).Ok?
    ensures MapResult(xs, f) == Err(f(xs[k]).error)
  {
    if k > 0 {
      assert f(xs[0]).Ok?;
      assert xs[1..][k - 1] == xs[k];
      MapResultFirstError(xs[1..], f, k - 1);
    }
  }
}
