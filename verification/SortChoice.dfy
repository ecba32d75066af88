/** What a block's bits owe to the sort that was run: nothing but the origin pointer, and
    that only if the block is a repetition. */
module SortChoice {
  import opened Counting
  import opened Rotations
  import opened InverseBwt
  import opened BitStream
  import opened Block
  import opened Stream

  lemma {:induction false} ElementsHave(f: seq<int>, k: nat, j: nat)
    requires j < k <= |f|
    ensures f[j] in Elements(f, k)
  {
    if j < k - 1 { ElementsHave(f, k - 1, j); }
  }

  /** The first k + 1 of one order cannot all be below entry k of the other. */
  lemma NotBelow(b: seq<byte>, f: seq<int>, g: seq<int>, k: nat)
    requires IsRotationSort(b, f) && IsRotationSort(b, g) && k < |b|
    ensures Cmp(b, f[k], g[k], |b|) >= 0
  {
    if Cmp(b, f[k], g[k], |b|) < 0 {
      forall x | x in Elements(f, k + 1) ensures x in Elements(g, k) {
        var i := ElementsFrom(f, k + 1, x);
        var j := PermSurjective(g, |b|, x);
        if j < k { ElementsHave(g, k, j); } else { BelowAll(b, f, g, i, j, k); }
      }
      SubsetSize(Elements(f, k + 1), Elements(g, k));
      ElementsSize(f, k + 1);
      ElementsSize(g, k);
    }
  }

  lemma BelowAll(b: seq<byte>, f: seq<int>, g: seq<int>, i: nat, j: nat, k: nat)
    requires IsRotationSort(b, f) && IsRotationSort(b, g) && i <= k <= j < |b| && f[i] == g[j]
    ensures Cmp(b, f[k], g[k], |b|) >= 0
  {
    SortedLe(b, f, i, k);
    SortedLe(b, g, k, j);
    CmpTransitive(b, g[k], f[i], f[k], |b|);
    CmpMirror(b, f[k], g[k], |b|);
  }

  lemma SameRotations(b: seq<byte>, f: seq<int>, g: seq<int>, k: nat)
    requires IsRotationSort(b, f) && IsRotationSort(b, g) && k < |b|
    ensures Cmp(b, f[k], g[k], |b|) == 0
  {
    NotBelow(b, f, g, k);
    NotBelow(b, g, f, k);
    CmpMirror(b, f[k], g[k], |b|);
  }

  lemma SameLastByte(b: seq<byte>, i: nat, j: nat)
    requires i < |b| && j < |b| && Cmp(b, i, j, |b|) == 0
    ensures b[Prev(|b|, i)] == b[Prev(|b|, j)]
  {
    var n := |b|;
    CmpSplit(b, i, j, n - 1, 1);
    AdvValue(n, i, n - 1);
    AdvValue(n, j, n - 1);
  }

  /** Every sort of the rotations gives the same last column. */
  lemma LastColumnSame(b: seq<byte>, f: seq<int>, g: seq<int>)
    requires IsRotationSort(b, f) && IsRotationSort(b, g)
    ensures LastColumn(b, f) == LastColumn(b, g)
  {
    forall k | 0 <= k < |b| ensures LastColumn(b, f)[k] == LastColumn(b, g)[k] {
      SameRotations(b, f, g, k);
      SameLastByte(b, f[k], g[k]);
    }
  }

  /** The block is a shorter one repeated: some other rotation equals it. */
  ghost predicate Repeats(b: seq<byte>) {
    exists i :: 0 < i < |b| && Cmp(b, i, 0, |b|) == 0
  }

  lemma SwapSorted(b: seq<byte>, f: seq<int>, p: nat, q: nat)
    requires IsRotationSort(b, f) && p < |b| && q < |b| && p != q && Cmp(b, f[p], f[q], |b|) == 0
    ensures IsRotationSort(b, f[p := f[q]][q := f[p]])
  {
    var g := f[p := f[q]][q := f[p]];
    assert IsPerm(f, |b|) && forall i :: 0 <= i < |b| ==> g[i] == f[Other(i, p, q)];
    hide IsRotationSort;
    forall i, j | 0 <= i < j < |b| ensures Differ(g, i, j) && Cmp(b, g[i], g[j], |b|) <= 0 {
      PermDistinct(f, |b|, Other(i, p, q), Other(j, p, q));
      OtherOrder(b, f, p, q, i, j);
    }
    SortedIs(b, g);
  }

  lemma SortedIs(b: seq<byte>, g: seq<int>)
    requires |g| == |b| && forall i :: 0 <= i < |b| ==> 0 <= g[i] < |b|
    requires forall i, j :: 0 <= i < j < |b| ==> Differ(g, i, j) && Cmp(b, g[i], g[j], |b|) <= 0
    ensures IsRotationSort(b, g)
  {
    hide Cmp, Differ;
  }

  lemma OtherOrder(b: seq<byte>, f: seq<int>, p: nat, q: nat, i: nat, j: nat)
    requires IsRotationSort(b, f) && p < |b| && q < |b| && Cmp(b, f[p], f[q], |b|) == 0 && i < j < |b|
    ensures Cmp(b, f[Other(i, p, q)], f[Other(j, p, q)], |b|) <= 0
  {
    var x, y := Other(i, p, q), Other(j, p, q);
    EqualOther(b, f, p, q, i);
    EqualOther(b, f, p, q, j);
    SortedLe(b, f, i, j);
    hide Cmp;
    CmpTransitive(b, f[x], f[i], f[j], |b|);
    CmpTransitive(b, f[x], f[j], f[y], |b|);
  }

  function Other(i: nat, p: nat, q: nat): nat {
    if i == p then q else if i == q then p else i
  }

  lemma EqualOther(b: seq<byte>, f: seq<int>, p: nat, q: nat, i: nat)
    requires IsPerm(f, |b|) && p < |b| && q < |b| && i < |b| && Cmp(b, f[p], f[q], |b|) == 0
    ensures Cmp(b, f[Other(i, p, q)], f[i], |b|) == 0 && Cmp(b, f[i], f[Other(i, p, q)], |b|) == 0
  {
    CmpSelf(b, f[i], |b|);
    CmpMirror(b, f[p], f[q], |b|);
  }

  ghost predicate IsOrigin(b: seq<byte>, f: seq<int>, p: nat) {
    IsRotationSort(b, f) && p < |b| && f[p] == 0
  }

  /** The origin pointer is the same for every sort if and only if the block does not repeat. */
  lemma OriginUnique(b: seq<byte>, f: seq<int>, p: nat)
    requires IsOrigin(b, f, p)
    ensures (forall g, q: nat :: IsOrigin(b, g, q) ==> q == p) <==> !Repeats(b)
  {
    if Repeats(b) {
      var i :| 0 < i < |b| && Cmp(b, i, 0, |b|) == 0;
      var q := PermSurjective(f, |b|, i);
      SwapSorted(b, f, q, p);
      var g := f[q := f[p]][p := f[q]];
      assert IsOrigin(b, g, q);
    } else {
      forall g, q: nat | IsOrigin(b, g, q) ensures q == p {
        SameRotations(b, f, g, q);
        assert f[q] == 0;
        if q != p { PermDistinct(f, |b|, p, q); }
      }
    }
  }

  /** Of two sorts of a block the coded symbols are the same, and all bits are if and only if
      the origin pointers are. */
  lemma SortDoesNotMatter(x: Sent, y: Sent, max: nat, crc: nat)
    requires SentOk(x, max) && SentOk(y, max)
    requires x.block == y.block && x.inUse == y.inUse && x.cod == y.cod
    ensures SymbolsOf(x) == SymbolsOf(y) && BodyBits(x, max) == BodyBits(y, max)
    ensures BlockBits(x, max, crc) == BlockBits(y, max, crc) <==> x.origPtr == y.origPtr
  {
    LastColumnSame(x.block, x.f, y.f);
    var a, b := BytesBits(BlockMark()) + (Bits(crc, 32) + [false]), BodyBits(x, max);
    PointerInside(x, max, crc, a, b);
    PointerInside(y, max, crc, a, b);
    hide *;
    BetweenSame(a, Bits(x.origPtr, 24), Bits(y.origPtr, 24), b);
    PointerFits(x, max);
    PointerFits(y, max);
    ValueOfBits(x.origPtr, 24);
    ValueOfBits(y.origPtr, 24);
  }

  lemma PointerInside(x: Sent, max: nat, crc: nat, a: seq<bool>, b: seq<bool>)
    requires SentOk(x, max) && a == BytesBits(BlockMark()) + (Bits(crc, 32) + [false]) && b == BodyBits(x, max)
    ensures BlockBits(x, max, crc) == a + (Bits(x.origPtr, 24) + b)
  {
    hide SentOk, BytesBits, BlockMark, Bits, BodyBits;
  }

  lemma PointerFits(x: Sent, max: nat)
    requires SentOk(x, max)
    ensures x.origPtr < Pow2(24)
  {
    assert Pow2(12) == 4096 by { assert Pow2(6) == 64; }
    assert Pow2(18) == 64 * Pow2(12);
    assert Pow2(24) == 64 * Pow2(18);
    hide SymbolsOf;
  }

  lemma BetweenSame(a: seq<bool>, s: seq<bool>, t: seq<bool>, b: seq<bool>)
    requires |s| == |t|
    ensures a + (s + b) == a + (t + b) <==> s == t
  {
    if a + (s + b) == a + (t + b) {
      assert s == (a + (s + b))[|a|..|a| + |s|];
      assert t == (a + (t + b))[|a|..|a| + |t|];
    }
  }
}
