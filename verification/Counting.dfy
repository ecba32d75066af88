/** Bytes, permutations and the occurrence counts on which both counting sorts
    of the program rest. */
module Counting {

  type byte = x: int | 0 <= x < 256

  /** n copies of x. */
  function Repeat(x: byte, n: nat): (r: seq<byte>)
    ensures |r| == n && forall i :: 0 <= i < n ==> r[i] == x
  {
    seq(n, _ => x)
  }

  lemma RepeatMore(x: byte, m: nat, n: nat)
    ensures Repeat(x, m) + Repeat(x, n) == Repeat(x, m + n)
    ensures Repeat(x, 1) == [x]
  {
  }

  /** The number of elements of b that are smaller than c. */
  function CountLess(b: seq<int>, c: int): (r: nat)
    ensures r <= |b|
  {
    if b == [] then 0
    else CountLess(b[..|b| - 1], c) + (if b[|b| - 1] < c then 1 else 0)
  }

  /** The number of occurrences of c in b. */
  function Occ(b: seq<int>, c: int): (r: nat)
    ensures r <= |b|
  {
    if b == [] then 0
    else Occ(b[..|b| - 1], c) + (if b[|b| - 1] == c then 1 else 0)
  }

  /** f lists every number below n exactly once. */
  ghost predicate IsPerm(f: seq<int>, n: nat) {
    && |f| == n
    && (forall i :: 0 <= i < n ==> 0 <= f[i] < n)
    && NoRepeats(f, n)
  }

  /** The first k elements of f are all different. */
  ghost predicate NoRepeats(f: seq<int>, k: nat)
    requires k <= |f|
  {
    forall i, j :: 0 <= i < j < k ==> Differ(f, i, j)
  }

  ghost predicate Differ(f: seq<int>, i: nat, j: nat)
    requires i < |f| && j < |f|
  {
    f[i] != f[j]
  }

  lemma {:induction false} CountStep(b: seq<int>, c: int)
    ensures CountLess(b, c + 1) == CountLess(b, c) + Occ(b, c)
  {
    if b != [] { CountStep(b[..|b| - 1], c); }
  }

  lemma {:induction false} CountExtremes(b: seq<byte>)
    ensures CountLess(b, 0) == 0 && CountLess(b, 256) == |b|
  {
    if b != [] { CountExtremes(b[..|b| - 1]); }
  }

  lemma {:induction false} CountMonotone(b: seq<int>, c: int, d: int)
    requires c <= d
    ensures CountLess(b, c) <= CountLess(b, d)
  {
    if b != [] { CountMonotone(b[..|b| - 1], c, d); }
  }

  lemma {:induction false} OccPrefix(b: seq<int>, i: nat, j: nat, c: int)
    requires i <= j <= |b|
    ensures Occ(b[..i], c) <= Occ(b[..j], c)
    ensures i < j && b[i] == c ==> Occ(b[..i], c) < Occ(b[..j], c)
    decreases j
  {
    if i < j {
      assert b[..j][..j - 1] == b[..j - 1];
      OccPrefix(b, i, j - 1, c);
    }
  }

  /** The place a stable counting sort gives to element i of b. */
  function Slot(b: seq<int>, i: nat): (r: nat)
    requires i < |b|
    ensures CountLess(b, b[i]) <= r < CountLess(b, b[i] + 1) <= |b|
  {
    OccPrefix(b, i, |b|, b[i]);
    assert b[..|b|] == b;
    CountStep(b, b[i]);
    CountLess(b, b[i]) + Occ(b[..i], b[i])
  }

  /** No two elements get the same place. */
  lemma SlotInjective(b: seq<int>, i: nat, j: nat)
    requires i < j < |b|
    ensures Slot(b, i) != Slot(b, j)
  {
    if b[i] == b[j] {
      OccPrefix(b, i, j, b[i]);
    } else if b[i] < b[j] {
      CountMonotone(b, b[i] + 1, b[j]);
    } else {
      CountMonotone(b, b[j] + 1, b[i]);
    }
  }

  /** All the numbers from a to z - 1. */
  function Range(a: int, z: int): (r: set<int>)
    requires a <= z
    ensures forall x :: x in r <==> a <= x < z
    ensures |r| == z - a
    decreases z - a
  {
    if a == z then {} else Range(a, z - 1) + {z - 1}
  }

  lemma SubsetSize<T>(a: set<T>, b: set<T>)
    requires a <= b
    ensures |a| <= |b|
    ensures |a| == |b| ==> a == b
    decreases b
  {
    if b != {} {
      var x :| x in b;
      if x in a {
        SubsetSize(a - {x}, b - {x});
        assert a == (a - {x}) + {x} && b == (b - {x}) + {x};
      } else {
        SubsetSize(a, b - {x});
      }
    }
  }

  /** The first k elements of a sequence, as a set. */
  function Elements(f: seq<int>, k: nat): (r: set<int>)
    requires k <= |f|
  {
    if k == 0 then {} else Elements(f, k - 1) + {f[k - 1]}
  }

  lemma {:induction false} ElementsFrom(f: seq<int>, k: nat, x: int) returns (i: nat)
    requires k <= |f| && x in Elements(f, k)
    ensures i < k && f[i] == x
  {
    if x == f[k - 1] { i := k - 1; } else { i := ElementsFrom(f, k - 1, x); }
  }

  /** Without repetitions, there are as many elements as places. */
  lemma {:induction false} ElementsSize(f: seq<int>, k: nat)
    requires k <= |f| && NoRepeats(f, k)
    ensures |Elements(f, k)| == k
  {
    if k > 0 {
      ElementsSize(f, k - 1);
      forall i | 0 <= i < k - 1 ensures f[i] != f[k - 1] { assert Differ(f, i, k - 1); }
      if f[k - 1] in Elements(f, k - 1) { var i := ElementsFrom(f, k - 1, f[k - 1]); }
    }
  }

  /** Pigeonhole: n different numbers below n are all of them. */
  lemma PermSurjective(f: seq<int>, n: nat, x: int) returns (i: nat)
    requires IsPerm(f, n) && 0 <= x < n
    ensures i < n && f[i] == x
  {
    var e := Elements(f, n);
    ElementsSize(f, n);
    forall y | y in e ensures y in Range(0, n) { var k := ElementsFrom(f, n, y); }
    SubsetSize(e, Range(0, n));
    i := ElementsFrom(f, n, x);
  }

  lemma PermDistinct(f: seq<int>, n: nat, i: nat, j: nat)
    requires IsPerm(f, n) && i < n && j < n && i != j
    ensures f[i] != f[j]
  {
    if i < j { assert Differ(f, i, j); } else { assert Differ(f, j, i); }
  }

  lemma {:induction false} MultisetOfDistinct(f: seq<int>)
    requires NoRepeats(f, |f|)
    ensures forall x :: multiset(f)[x] <= 1
  {
    if f != [] {
      var g := f[..|f| - 1];
      forall i, j | 0 <= i < j < |g| ensures Differ(g, i, j) { assert Differ(f, i, j); }
      MultisetOfDistinct(g);
      assert f == g + [f[|f| - 1]];
      forall i | 0 <= i < |g| ensures g[i] != f[|f| - 1] { assert Differ(f, i, |f| - 1); }
      assert f[|f| - 1] !in g;
    }
  }

  lemma MultisetOfRepeat(f: seq<int>, i: nat, j: nat)
    requires i < j < |f| && f[i] == f[j]
    ensures multiset(f)[f[i]] >= 2
  {
    assert f == f[..i] + [f[i]] + f[i + 1..j] + [f[j]] + f[j + 1..];
  }

  /** Rearranging a permutation gives a permutation. */
  lemma PermRearranged(f: seq<int>, g: seq<int>, n: nat)
    requires IsPerm(f, n) && multiset(f) == multiset(g)
    ensures IsPerm(g, n)
  {
    assert |g| == |multiset(g)| == |f|;
    forall i | 0 <= i < n ensures 0 <= g[i] < n {
      assert g[i] in multiset(f);
      assert g[i] in f;
    }
    MultisetOfDistinct(f);
    forall i, j | 0 <= i < j < n ensures Differ(g, i, j) {
      if g[i] == g[j] { MultisetOfRepeat(g, i, j); }
    }
  }

  /** Exchanging two elements keeps the multiset. */
  lemma SwapKeepsMultiset<T>(s: seq<T>, i: nat, j: nat)
    requires i < |s| && j < |s|
    ensures multiset(s[i := s[j]][j := s[i]]) == multiset(s)
  {
  }

  /** The inverse of a permutation is a permutation. */
  lemma InverseIsPerm(p: seq<int>, f: seq<int>, n: nat)
    requires IsPerm(p, n) && |f| == n
    requires forall i :: 0 <= i < n ==> f[p[i]] == i
    ensures IsPerm(f, n)
  {
    forall k | 0 <= k < n ensures 0 <= f[k] < n { var i := PermSurjective(p, n, k); }
    forall k, m | 0 <= k < m < n ensures Differ(f, k, m) {
      var i := PermSurjective(p, n, k);
      var j := PermSurjective(p, n, m);
    }
  }
}
