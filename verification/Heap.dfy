/** The binary heap of BZ2_hbMakeCodeLengths: nodes by weight, from place 1, with a sentinel
    at place 0. */
module Heap {

  /** The n entries are nodes with a weight; the sentinel is lighter than all. */
  ghost predicate Entries(g: seq<int>, w: seq<int>, n: nat) {
    && n < |g| && (forall k :: 0 <= k <= n ==> 0 <= g[k] < |w|)
    && g[0] == 0 && w[0] == 0 && forall k :: 1 <= k <= n ==> w[g[k]] > 0
  }

  /** Entry k is not lighter than the one above it. */
  ghost predicate ParentLe(g: seq<int>, w: seq<int>, k: nat) {
    k < |g| && 0 <= g[k] < |w| && 0 <= g[k / 2] < |w| && w[g[k / 2]] <= w[g[k]]
  }

  ghost predicate GrandLe(g: seq<int>, w: seq<int>, k: nat) {
    k < |g| && 0 <= g[k] < |w| && 0 <= g[k / 2 / 2] < |w| && w[g[k / 2 / 2]] <= w[g[k]]
  }

  ghost predicate IsHeap(g: seq<int>, w: seq<int>, n: nat) {
    Entries(g, w, n) && forall k: nat :: 1 <= k <= n ==> ParentLe(g, w, k)
  }

  /** A heap but for entry z, which may be too light for its place. */
  ghost predicate TooLight(g: seq<int>, w: seq<int>, n: nat, z: nat) {
    && Entries(g, w, n) && 1 <= z <= n
    && (forall k: nat :: 1 <= k <= n && k != z ==> ParentLe(g, w, k))
    && (forall k: nat :: 1 <= k <= n && k / 2 == z ==> GrandLe(g, w, k))
  }

  /** A heap but for entry z, which may be too heavy. */
  ghost predicate TooHeavy(g: seq<int>, w: seq<int>, n: nat, z: nat) {
    && Entries(g, w, n) && 1 <= z < |g| && (z <= n || n == 0)
    && (forall k: nat :: 1 <= k <= n && k / 2 != z ==> ParentLe(g, w, k))
    && (forall k: nat :: 1 <= k <= n && k / 2 == z ==> GrandLe(g, w, k))
  }

  function Swapped(g: seq<int>, i: nat, j: nat): (r: seq<int>)
    requires i < |g| && j < |g|
    ensures |r| == |g| && forall k :: 0 <= k < |g| ==> r[k] == if k == i then g[j] else if k == j then g[i] else g[k]
  {
    g[i := g[j]][j := g[i]]
  }

  /** What the heap holds. */
  ghost function Held(g: seq<int>, n: nat): multiset<int>
    requires n < |g|
  {
    multiset(g[1..n + 1])
  }

  lemma SwapHeld(g: seq<int>, n: nat, i: nat, j: nat)
    requires 1 <= i <= n < |g| && 1 <= j <= n
    ensures Held(Swapped(g, i, j), n) == Held(g, n)
  {
    var s, t := g[1..n + 1], Swapped(g, i, j)[1..n + 1];
    assert t == s[i - 1 := s[j - 1]][j - 1 := s[i - 1]];
  }

  lemma SwapEntries(g: seq<int>, w: seq<int>, n: nat, i: nat, j: nat)
    requires Entries(g, w, n) && 1 <= i <= n && 1 <= j <= n
    ensures Entries(Swapped(g, i, j), w, n)
  {
  }

  // ----- up

  lemma LightStep(g: seq<int>, w: seq<int>, n: nat, z: nat)
    requires TooLight(g, w, n, z) && w[g[z]] < w[g[z / 2]]
    ensures 1 <= z / 2 && TooLight(Swapped(g, z, z / 2), w, n, z / 2)
  {
    var p := z / 2;
    assert p >= 1;
    var g' := Swapped(g, z, p);
    SwapEntries(g, w, n, z, p);
    forall k: nat | 1 <= k <= n && k != p ensures ParentLe(g', w, k) {
      if k == z {
      } else if k / 2 == z {
        assert GrandLe(g, w, k);
      } else {
        assert ParentLe(g, w, k);
      }
    }
    forall k: nat | 1 <= k <= n && k / 2 == p ensures GrandLe(g', w, k) {
      assert ParentLe(g, w, p);
      if k != z { assert ParentLe(g, w, k); }
    }
  }

  lemma LightEnds(g: seq<int>, w: seq<int>, n: nat, z: nat)
    requires TooLight(g, w, n, z) && w[g[z]] >= w[g[z / 2]]
    ensures IsHeap(g, w, n)
  {
    forall k: nat | 1 <= k <= n ensures ParentLe(g, w, k) {
      if k == z { assert ParentLe(g, w, z); }
    }
  }

  lemma LightFacts(g: seq<int>, w: seq<int>, n: nat, z: nat)
    requires TooLight(g, w, n, z)
    ensures 1 <= z <= n < |g| && 0 <= g[z] < |w| && 0 <= g[z / 2] < |w|
  {
  }

  /** UPHEAP */
  method UpHeap(heap: array<int>, w: seq<int>, n: nat, z: nat)
    requires TooLight(heap[..], w, n, z)
    modifies heap
    ensures IsHeap(heap[..], w, n) && Held(heap[..], n) == old(Held(heap[..], n))
  {
    hide *;
    ghost var g, start := heap[..], heap[..];
    LightFacts(g, w, n, z);
    var zz: nat := z;
    var tmp := heap[z];
    while w[tmp] < w[heap[zz / 2]]
      invariant TooLight(g, w, n, zz) && n < |g| == heap.Length && 1 <= zz <= n && g[zz] == tmp
      invariant 0 <= tmp < |w| && heap[zz / 2] == g[zz / 2] && 0 <= g[zz / 2] < |w|
      invariant heap[..][zz := tmp] == g && Held(g, n) == Held(start, n)
      decreases zz
    {
      LightStep(g, w, n, zz);
      SwapHeld(g, n, zz, zz / 2);
      heap[zz] := heap[zz / 2];
      g := Swapped(g, zz, zz / 2);
      zz := zz / 2;
      LightFacts(g, w, n, zz);
    }
    LightEnds(g, w, n, zz);
    heap[zz] := tmp;
    assert heap[..] == g;
  }

  // ----- down

  /** yy is the lighter of the entries below zz. */
  ghost predicate Lighter(g: seq<int>, w: seq<int>, n: nat, zz: nat, yy: nat) {
    && Entries(g, w, n) && yy <= n && (yy == 2 * zz || yy == 2 * zz + 1)
    && forall k: nat :: 1 <= k <= n && k / 2 == zz ==> NotLighter(g, w, yy, k)
  }

  ghost predicate NotLighter(g: seq<int>, w: seq<int>, y: nat, k: nat) {
    y < |g| && k < |g| && 0 <= g[y] < |w| && 0 <= g[k] < |w| && w[g[y]] <= w[g[k]]
  }

  lemma Choose(g: seq<int>, w: seq<int>, n: nat, zz: nat)
    requires Entries(g, w, n) && 1 <= zz && 2 * zz <= n
    ensures var y := 2 * zz;
            && 0 <= g[y] < |w| && (y < n ==> 0 <= g[y + 1] < |w|)
            && Lighter(g, w, n, zz, if y < n && w[g[y + 1]] < w[g[y]] then y + 1 else y)
  {
    var y := 2 * zz;
    var c := if y < n && w[g[y + 1]] < w[g[y]] then y + 1 else y;
    forall k: nat | 1 <= k <= n && k / 2 == zz ensures NotLighter(g, w, c, k) { assert k == y || k == y + 1; }
  }

  lemma HeavyStep(g: seq<int>, w: seq<int>, n: nat, z: nat, y: nat)
    requires TooHeavy(g, w, n, z) && z <= n && Lighter(g, w, n, z, y) && w[g[z]] >= w[g[y]]
    ensures TooHeavy(Swapped(g, z, y), w, n, y)
  {
    var g' := Swapped(g, z, y);
    assert y / 2 == z && y != z;
    SwapEntries(g, w, n, z, y);
    forall k: nat | 1 <= k <= n && k / 2 != y ensures ParentLe(g', w, k) {
      if k == y {
      } else if k == z {
        assert GrandLe(g, w, y);
      } else if k / 2 == z {
        assert NotLighter(g, w, y, k);
      } else {
        assert ParentLe(g, w, k);
      }
    }
    forall k: nat | 1 <= k <= n && k / 2 == y ensures GrandLe(g', w, k) {
      assert ParentLe(g, w, k);
    }
  }

  lemma HeavyEnds(g: seq<int>, w: seq<int>, n: nat, z: nat)
    requires TooHeavy(g, w, n, z)
    requires 2 * z > n || exists y: nat :: Lighter(g, w, n, z, y) && w[g[z]] < w[g[y]]
    ensures IsHeap(g, w, n)
  {
    forall k: nat | 1 <= k <= n ensures ParentLe(g, w, k) {
      if k / 2 == z {
        var y: nat :| Lighter(g, w, n, z, y) && w[g[z]] < w[g[y]];
        assert NotLighter(g, w, y, k);
      } else {
        assert ParentLe(g, w, k);
      }
    }
  }

  lemma HeavyFacts(g: seq<int>, w: seq<int>, n: nat, z: nat)
    requires TooHeavy(g, w, n, z)
    ensures Entries(g, w, n) && n < |g| && 1 <= z < |g| && (z <= n || n == 0) && (z <= n ==> 0 <= g[z] < |w|)
  {
  }

  lemma LighterFacts(g: seq<int>, w: seq<int>, n: nat, z: nat, y: nat)
    requires Lighter(g, w, n, z, y)
    ensures y <= n < |g| && 0 <= g[y] < |w| && z <= y
  {
  }

  /** DOWNHEAP */
  method DownHeap(heap: array<int>, w: seq<int>, n: nat, z: nat)
    requires TooHeavy(heap[..], w, n, z)
    modifies heap
    ensures IsHeap(heap[..], w, n) && Held(heap[..], n) == old(Held(heap[..], n))
  {
    hide *;
    ghost var g, start := heap[..], heap[..];
    HeavyFacts(g, w, n, z);
    var zz: nat := z;
    var tmp := heap[z];
    while true
      invariant TooHeavy(g, w, n, zz) && Entries(g, w, n) && n < |g| == heap.Length && 1 <= zz < |g|
      invariant g[zz] == tmp && (zz <= n || n == 0) && (zz <= n ==> 0 <= tmp < |w|)
      invariant heap[..][zz := tmp] == g && Held(g, n) == Held(start, n)
      decreases |g| - zz
    {
      var yy := 2 * zz;
      if yy > n { break; }
      Choose(g, w, n, zz);
      assert heap[yy] == g[yy] && (yy < n ==> heap[yy + 1] == g[yy + 1]);
      if yy < n && w[heap[yy + 1]] < w[heap[yy]] { yy := yy + 1; }
      LighterFacts(g, w, n, zz, yy);
      assert heap[yy] == g[yy];
      if w[tmp] < w[heap[yy]] { break; }
      HeavyStep(g, w, n, zz, yy);
      SwapHeld(g, n, zz, yy);
      heap[zz] := heap[yy];
      g := Swapped(g, zz, yy);
      zz := yy;
      HeavyFacts(g, w, n, zz);
    }
    HeavyEnds(g, w, n, zz);
    heap[zz] := tmp;
    assert heap[..] == g;
  }

  // ----- the lightest node

  lemma {:induction false} RootLightest(g: seq<int>, w: seq<int>, n: nat, k: nat)
    requires IsHeap(g, w, n) && 1 <= k <= n
    ensures w[g[1]] <= w[g[k]]
    decreases k
  {
    if k > 1 {
      assert ParentLe(g, w, k);
      RootLightest(g, w, n, k / 2);
    }
  }

  /** The first entry goes, the last takes its place. */
  lemma RootOut(g: seq<int>, w: seq<int>, n: nat)
    requires IsHeap(g, w, n) && n >= 1
    ensures var g' := g[1 := g[n]];
            TooHeavy(g', w, n - 1, 1) && Held(g', n - 1) == Held(g, n) - multiset{g[1]} && g[1] in Held(g, n)
  {
    RootHeld(g, n);
    var g' := g[1 := g[n]];
    hide Held;
    forall k: nat | 1 <= k <= n - 1 && k / 2 != 1 ensures ParentLe(g', w, k) {
      assert ParentLe(g, w, k);
      if k == 1 { assert ParentLe(g, w, n); }
    }
    forall k: nat | 1 <= k <= n - 1 && k / 2 == 1 ensures GrandLe(g', w, k) { }
  }

  lemma RootHeld(g: seq<int>, n: nat)
    requires 1 <= n < |g|
    ensures Held(g[1 := g[n]], n - 1) == Held(g, n) - multiset{g[1]} && g[1] in Held(g, n)
  {
    var g' := g[1 := g[n]];
    var s := g[1..n + 1];
    assert s[0] == g[1] && s[n - 1] == g[n];
    if n == 1 {
      assert s == [g[1]] && g'[1..1] == [];
    } else {
      assert s == [g[1]] + g[2..n] + [g[n]];
      assert g'[1..n] == [g[n]] + g[2..n];
    }
  }

  lemma HeldEntry(g: seq<int>, w: seq<int>, n: nat, x: int) returns (k: nat)
    requires Entries(g, w, n) && x in Held(g, n)
    ensures 1 <= k <= n && g[k] == x
  {
    assert x in g[1..n + 1];
    var j :| 0 <= j < n && g[1..n + 1][j] == x;
    k := j + 1;
  }

  lemma HeldHeavier(g: seq<int>, w: seq<int>, n: nat)
    requires IsHeap(g, w, n) && n >= 1
    ensures n < |g| && 0 <= g[1] < |w|
    ensures forall y :: y in Held(g, n) ==> 0 <= y < |w| && w[g[1]] <= w[y]
  {
    forall y | y in Held(g, n) ensures 0 <= y < |w| && w[g[1]] <= w[y] {
      var k := HeldEntry(g, w, n, y);
      RootLightest(g, w, n, k);
    }
  }

  /** Takes out a lightest node. */
  method PopLightest(heap: array<int>, w: seq<int>, n: nat) returns (x: int)
    requires IsHeap(heap[..], w, n) && n >= 1
    modifies heap
    ensures 0 <= x < |w| && x in old(Held(heap[..], n)) && n - 1 < heap.Length
    ensures IsHeap(heap[..], w, n - 1) && Held(heap[..], n - 1) == old(Held(heap[..], n)) - multiset{x}
    ensures forall y :: y in old(Held(heap[..], n)) ==> 0 <= y < |w| && w[x] <= w[y]
  {
    hide *;
    ghost var g := heap[..];
    RootOut(g, w, n);
    HeldHeavier(g, w, n);
    x := heap[1];
    heap[1] := heap[n];
    assert heap[..] == g[1 := g[n]];
    DownHeap(heap, w, n - 1, 1);
  }

  /** A node at the end, which may be too light for it. */
  lemma EntryAdded(g: seq<int>, w: seq<int>, n: nat, x: int)
    requires IsHeap(g, w, n) && n + 1 < |g| && 0 <= x < |w| && w[x] > 0
    ensures TooLight(g[n + 1 := x], w, n + 1, n + 1)
    ensures Held(g[n + 1 := x], n + 1) == Held(g, n) + multiset{x}
  {
    var g' := g[n + 1 := x];
    assert g'[1..n + 2] == g[1..n + 1] + [x];
    forall k: nat | 1 <= k <= n + 1 && k != n + 1 ensures ParentLe(g', w, k) { assert ParentLe(g, w, k); }
  }

  method Push(heap: array<int>, w: seq<int>, n: nat, x: int)
    requires IsHeap(heap[..], w, n) && n + 1 < heap.Length && 0 <= x < |w| && w[x] > 0
    modifies heap
    ensures IsHeap(heap[..], w, n + 1) && Held(heap[..], n + 1) == old(Held(heap[..], n)) + multiset{x}
  {
    hide *;
    ghost var g := heap[..];
    EntryAdded(g, w, n, x);
    heap[n + 1] := x;
    assert heap[..] == g[n + 1 := x];
    UpHeap(heap, w, n + 1, n + 1);
  }

  /** Only the weights of the nodes held matter. */
  lemma OtherWeights(g: seq<int>, w: seq<int>, w': seq<int>, n: nat)
    requires IsHeap(g, w, n) && |w'| == |w| && w'[0] == 0
    requires forall x :: x in Held(g, n) && 0 <= x < |w| ==> w'[x] == w[x]
    ensures IsHeap(g, w', n)
  {
    forall k | 1 <= k <= n ensures w'[g[k]] == w[g[k]] {
      assert g[1..n + 1][k - 1] == g[k];
      assert g[k] in Held(g, n);
    }
    forall k: nat | 1 <= k <= n ensures ParentLe(g, w', k) { assert ParentLe(g, w, k); }
  }
}
