/** The cyclic rotations of a block and their order. */
module Rotations {
  import opened Counting

  /** The position after i in a block of n bytes seen as a circle. */
  function Next(n: nat, i: nat): (r: nat)
    requires i < n
    ensures r < n
  {
    if i + 1 == n then 0 else i + 1
  }

  /** The position before i on the circle. */
  function Prev(n: nat, i: nat): (r: nat)
    requires i < n
    ensures r < n && Next(n, r) == i
  {
    if i == 0 then n - 1 else i - 1
  }

  /** h positions after i on the circle. */
  function Adv(n: nat, i: nat, h: nat): (r: nat)
    requires i < n
    ensures r < n
    decreases h
  {
    if h == 0 then i else Adv(n, Next(n, i), h - 1)
  }

  /** Compares the first h cyclic bytes of the rotations starting at i and j:
      negative, zero or positive as the first is below, equal to or above. */
  function Cmp(b: seq<byte>, i: nat, j: nat, h: nat): (r: int)
    requires i < |b| && j < |b|
    ensures -1 <= r <= 1
    decreases h
  {
    if h == 0 then 0
    else if b[i] != b[j] then (if b[i] < b[j] then -1 else 1)
    else Cmp(b, Next(|b|, i), Next(|b|, j), h - 1)
  }

  /** The whole rotation at i is at most the one at j. */
  ghost predicate RotLe(b: seq<byte>, i: nat, j: nat)
    requires i < |b| && j < |b|
  {
    Cmp(b, i, j, |b|) <= 0
  }

  /** f lists rotations in weakly ascending order of their first h bytes. */
  ghost predicate SortedTo(b: seq<byte>, f: seq<int>, h: nat) {
    && (forall i :: 0 <= i < |f| ==> 0 <= f[i] < |b|)
    && (forall i, j {:trigger Cmp(b, f[i], f[j], h)} ::
          0 <= i < j < |f| ==> Cmp(b, f[i], f[j], h) <= 0)
  }

  /** f is what block sorting promises: all rotations of b, weakly sorted. */
  ghost predicate IsRotationSort(b: seq<byte>, f: seq<int>) {
    IsPerm(f, |b|) && SortedTo(b, f, |b|)
  }

  lemma {:induction false} AdvValue(n: nat, i: nat, h: nat)
    requires i < n && h <= n
    ensures Adv(n, i, h) == if i + h < n then i + h else i + h - n
    decreases h
  {
    if h > 0 {
      if i + 1 == n && h == n {
        AdvFull(n, 0, n - 1);
      } else {
        AdvValue(n, Next(n, i), h - 1);
      }
    }
  }

  lemma {:induction false} AdvFull(n: nat, i: nat, h: nat)
    requires i + h < n
    ensures Adv(n, i, h) == i + h
    decreases h
  {
    if h > 0 { AdvFull(n, i + 1, h - 1); }
  }

  lemma {:induction false} AdvOneMore(n: nat, i: nat, h: nat)
    requires i < n
    ensures Adv(n, i, h + 1) == Next(n, Adv(n, i, h))
    decreases h
  {
    if h > 0 { AdvOneMore(n, Next(n, i), h - 1); }
  }

  lemma {:induction false} CmpSelf(b: seq<byte>, i: nat, h: nat)
    requires i < |b|
    ensures Cmp(b, i, i, h) == 0
    decreases h
  {
    if h > 0 { CmpSelf(b, Next(|b|, i), h - 1); }
  }

  lemma {:induction false} CmpMirror(b: seq<byte>, i: nat, j: nat, h: nat)
    requires i < |b| && j < |b|
    ensures Cmp(b, i, j, h) == -Cmp(b, j, i, h)
    decreases h
  {
    if h > 0 { CmpMirror(b, Next(|b|, i), Next(|b|, j), h - 1); }
  }

  lemma {:induction false} CmpTransitive(b: seq<byte>, i: nat, j: nat, k: nat, h: nat)
    requires i < |b| && j < |b| && k < |b|
    requires Cmp(b, i, j, h) <= 0 && Cmp(b, j, k, h) <= 0
    ensures Cmp(b, i, k, h) <= 0
    ensures Cmp(b, i, k, h) == 0 ==> Cmp(b, i, j, h) == 0 && Cmp(b, j, k, h) == 0
    ensures Cmp(b, i, j, h) == 0 && Cmp(b, j, k, h) == 0 ==> Cmp(b, i, k, h) == 0
    decreases h
  {
    if h > 0 && b[i] == b[j] == b[k] {
      CmpTransitive(b, Next(|b|, i), Next(|b|, j), Next(|b|, k), h - 1);
    }
  }

  /** Comparing h + m bytes is comparing h, then the next m. */
  lemma {:induction false} CmpSplit(b: seq<byte>, i: nat, j: nat, h: nat, m: nat)
    requires i < |b| && j < |b|
    ensures Cmp(b, i, j, h + m) ==
            if Cmp(b, i, j, h) != 0 then Cmp(b, i, j, h)
            else Cmp(b, Adv(|b|, i, h), Adv(|b|, j, h), m)
    decreases h
  {
    if h > 0 && b[i] == b[j] {
      CmpSplit(b, Next(|b|, i), Next(|b|, j), h - 1, m);
    }
  }

  /** Rotations equal over the whole block are equal to every depth. */
  lemma {:induction false} CmpPeriodic(b: seq<byte>, i: nat, j: nat, h: nat)
    requires i < |b| && j < |b| && Cmp(b, i, j, |b|) == 0
    ensures Cmp(b, i, j, h) == 0
    decreases h
  {
    var n := |b|;
    if h <= n {
      CmpSplit(b, i, j, h, n - h);
    } else {
      AdvValue(n, i, n);
      AdvValue(n, j, n);
      CmpSplit(b, i, j, n, h - n);
      CmpPeriodic(b, i, j, h - n);
    }
  }

  /** Equal rotations stay equal when both move one step. */
  lemma CmpEqualNext(b: seq<byte>, i: nat, j: nat)
    requires i < |b| && j < |b| && Cmp(b, i, j, |b|) == 0
    ensures b[i] == b[j]
    ensures Cmp(b, Next(|b|, i), Next(|b|, j), |b|) == 0
  {
    CmpPeriodic(b, i, j, |b| + 1);
  }

  /** The order of two whole rotations with the same first byte is the order of
      the rotations one step on. */
  lemma RotLeNext(b: seq<byte>, i: nat, j: nat)
    requires i < |b| && j < |b| && b[i] == b[j]
    ensures RotLe(b, i, j) <==> RotLe(b, Next(|b|, i), Next(|b|, j))
  {
    var n := |b|;
    var i', j' := Next(n, i), Next(n, j);
    AdvValue(n, i, n);
    AdvValue(n, j, n);
    CmpSplit(b, i, j, n, 1);
    CmpSplit(b, i', j', n - 1, 1);
    AdvValue(n, i', n - 1);
    AdvValue(n, j', n - 1);
  }

  /** Sorting deeper than the block is long is sorting the whole rotations. */
  lemma SortedDeepEnough(b: seq<byte>, f: seq<int>, h: nat)
    requires SortedTo(b, f, h) && h >= |b|
    ensures SortedTo(b, f, |b|)
  {
    forall i, j | 0 <= i < j < |f| ensures Cmp(b, f[i], f[j], |b|) <= 0 {
      CmpSplit(b, f[i], f[j], |b|, h - |b|);
    }
  }

  /** A list strictly sorted at one depth is sorted at every greater depth. */
  lemma StrictlySortedStays(b: seq<byte>, f: seq<int>, h: nat, m: nat)
    requires SortedTo(b, f, h)
    requires forall i :: 0 < i < |f| ==> Cmp(b, f[i - 1], f[i], h) != 0
    ensures SortedTo(b, f, h + m)
  {
    forall i, j | 0 <= i < j < |f| ensures Cmp(b, f[i], f[j], h + m) <= 0 {
      CmpTransitive(b, f[i], f[j - 1], f[j], h) by {
        if i == j - 1 { CmpSelf(b, f[i], h); }
      }
      assert Cmp(b, f[i], f[j], h) < 0;
      CmpSplit(b, f[i], f[j], h, m);
    }
  }
}
