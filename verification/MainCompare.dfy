/** mainGtU: comparing two rotations with the help of what is known of their order. */
module MainCompare {
  import opened Counting
  import opened Rotations
  import opened RotationRank

  /** BZ_N_RADIX + BZ_N_QSORT + BZ_N_SHELL + 2 */
  const OVERSHOOT := 34

  /** The place of index i of the extended block. */
  function At(n: nat, i: nat): (r: nat)
    requires i < 2 * n
    ensures r < n
  {
    if i >= n then i - n else i
  }

  /** The block of n bytes with its first bytes repeated behind it. */
  ghost predicate Extended(block: seq<byte>, n: nat) {
    n > OVERSHOOT && |block| == n + OVERSHOOT && forall i :: 0 <= i < OVERSHOOT ==> block[n + i] == block[i]
  }

  lemma ExtendedAt(block: seq<byte>, n: nat, i: nat)
    requires Extended(block, n) && i < n + OVERSHOOT
    ensures block[i] == block[..n][At(n, i)]
  {
    if i >= n { assert block[n + (i - n)] == block[i - n]; }
  }

  /** Of two places with the same byte, the one with the smaller quadrant value begins the
      smaller rotation, or an equal one. */
  ghost predicate QuadrantTells(b: seq<byte>, quadrant: seq<int>, i: nat, j: nat)
    requires i < |quadrant| && j < |quadrant| && |quadrant| == |b| + OVERSHOOT && |b| > OVERSHOOT
  {
    b[At(|b|, i)] == b[At(|b|, j)] && quadrant[i] < quadrant[j] ==> RotLe(b, At(|b|, i), At(|b|, j))
  }

  /** Quadrant values are of 16 bits. */
  ghost predicate QuadrantOk(b: seq<byte>, quadrant: seq<int>) {
    |b| > OVERSHOOT && |quadrant| == |b| + OVERSHOOT
    && (forall i :: 0 <= i < |quadrant| ==> 0 <= quadrant[i] < 0x1_0000)
    && forall i, j :: 0 <= i < |quadrant| && 0 <= j < |quadrant| ==> QuadrantTells(b, quadrant, i, j)
  }

  /** What a comparison needs of its tables. */
  ghost predicate Tables(block: seq<byte>, quadrant: seq<int>, n: nat) {
    Extended(block, n) && QuadrantOk(block[..n], quadrant)
  }

  lemma TablesFacts(block: seq<byte>, quadrant: seq<int>, n: nat)
    requires Tables(block, quadrant, n)
    ensures n > 34 && |block| == |quadrant| == n + 34 && |block[..n]| == n
  {
  }

  /** t bytes from s1 and s2 are equal, and i1 and i2 stand behind them. */
  ghost predicate Aligned(b: seq<byte>, s1: nat, s2: nat, t: nat, i1: nat, i2: nat) {
    && s1 < |b| && s2 < |b| && i1 < 2 * |b| && i2 < 2 * |b|
    && Cmp(b, s1, s2, t) == 0 && At(|b|, i1) == Adv(|b|, s1, t) && At(|b|, i2) == Adv(|b|, s2, t)
  }

  lemma AlignedStarts(b: seq<byte>, i1: nat, i2: nat)
    requires i1 < 2 * |b| && i2 < 2 * |b|
    ensures Aligned(b, At(|b|, i1), At(|b|, i2), 0, i1, i2)
  {
  }

  /** What an answer means. */
  ghost predicate Answers(b: seq<byte>, s1: nat, s2: nat, gt: bool) {
    s1 < |b| && s2 < |b| && (gt ==> RotLe(b, s2, s1)) && (!gt ==> RotLe(b, s1, s2))
  }

  /** The pair of bytes at hand: equal ones lengthen the common part, others decide. */
  lemma AlignedByte(block: seq<byte>, n: nat, s1: nat, s2: nat, t: nat, i1: nat, i2: nat)
    requires Extended(block, n) && Aligned(block[..n], s1, s2, t, i1, i2) && i1 < n + 34 && i2 < n + 34
    ensures s1 < n && s2 < n
    ensures block[i1] == block[i2] ==> Aligned(block[..n], s1, s2, t + 1, i1 + 1, i2 + 1)
    ensures block[i1] != block[i2] ==> Answers(block[..n], s1, s2, block[i1] > block[i2])
  {
    var b := block[..n];
    ExtendedAt(block, n, i1);
    ExtendedAt(block, n, i2);
    CmpSplit(b, s1, s2, t, 1);
    AdvOneMore(n, s1, t);
    AdvOneMore(n, s2, t);
    if block[i1] != block[i2] {
      CmpMirror(b, s1, s2, t);
      RotLePrefix(b, s1, s2, t);
      RotLePrefix(b, s2, s1, t);
    }
  }

  /** Different quadrant values of equal bytes decide too. */
  lemma AlignedQuadrant(block: seq<byte>, quadrant: seq<int>, b: seq<byte>, s1: nat, s2: nat, t: nat, i1: nat, i2: nat)
    requires Tables(block, quadrant, |b|) && b == block[..|b|] && i1 < |b| + 34 && i2 < |b| + 34
    requires Aligned(b, s1, s2, t, i1, i2) && block[i1] == block[i2]
    ensures |quadrant| == |b| + 34
    ensures quadrant[i1] != quadrant[i2] ==> Answers(b, s1, s2, quadrant[i1] > quadrant[i2])
  {
    ExtendedAt(block, |b|, i1);
    ExtendedAt(block, |b|, i2);
    assert QuadrantTells(b, quadrant, i1, i2) && QuadrantTells(b, quadrant, i2, i1);
    CmpMirror(b, s1, s2, t);
    RotLePrefix(b, s1, s2, t);
    RotLePrefix(b, s2, s1, t);
  }

  /** The indexes may be moved back to the front. */
  lemma AlignedWraps(b: seq<byte>, s1: nat, s2: nat, t: nat, i1: nat, i2: nat)
    requires Aligned(b, s1, s2, t, i1, i2)
    ensures Aligned(b, s1, s2, t, if i1 >= |b| then i1 - |b| else i1, if i2 >= |b| then i2 - |b| else i2)
  {
  }

  /** A common part of the length of the block makes the rotations equal. */
  lemma AlignedThrough(b: seq<byte>, s1: nat, s2: nat, t: nat, i1: nat, i2: nat)
    requires Aligned(b, s1, s2, t, i1, i2) && t >= |b|
    ensures Answers(b, s1, s2, false)
  {
    CmpSplit(b, s1, s2, |b|, t - |b|);
    CmpMirror(b, s1, s2, |b|);
  }

  // ----- work

  /** What k steps of some work come to. */
  function Times(k: nat, unit: nat): nat { k * unit }

  lemma TimesMore(k: nat, unit: nat)
    ensures Times(k + 1, unit) == Times(k, unit) + unit && Times(0, unit) == 0 && Times(1, unit) == unit
  {
  }

  lemma TimesUp(j: nat, k: nat, u: nat, v: nat)
    requires j <= k && u <= v
    ensures Times(j, u) <= Times(k, v)
  {
    assert j * u <= k * u <= k * v;
  }

  datatype Verdict = Undecided | Decided(gt: bool)

  /** One pair of bytes. */
  method OnePair(i1: nat, i2: nat, block: seq<byte>, ghost b: seq<byte>, ghost s1: nat, ghost s2: nat, ghost t: nat)
    returns (v: Verdict)
    requires Extended(block, |b|) && b == block[..|b|] && i1 < |b| + 34 && i2 < |b| + 34
             && Aligned(b, s1, s2, t, i1, i2)
    ensures v.Decided? ==> Answers(b, s1, s2, v.gt)
    ensures v.Undecided? ==> block[i1] == block[i2] && Aligned(b, s1, s2, t + 1, i1 + 1, i2 + 1)
  {
    assert |block| == |b| + 34;
    AlignedByte(block, |b|, s1, s2, t, i1, i2);
    hide *;
    var c1, c2 := block[i1], block[i2];
    v := if c1 != c2 then Decided(c1 > c2) else Undecided;
  }

  /** Twelve pairs of bytes. */
  method FirstBytes(i1: nat, i2: nat, block: seq<byte>, ghost b: seq<byte>, ghost s1: nat, ghost s2: nat)
    returns (v: Verdict)
    requires Extended(block, |b|) && b == block[..|b|] && i1 < |b| + 15 && i2 < |b| + 15
             && Aligned(b, s1, s2, 0, i1, i2)
    ensures v.Decided? ==> Answers(b, s1, s2, v.gt)
    ensures v.Undecided? ==> Aligned(b, s1, s2, 12, i1 + 12, i2 + 12)
  {
    hide *;
    var j1, j2, t: nat := i1, i2, 0;
    while t < 12
      invariant t <= 12 && j1 == i1 + t && j2 == i2 + t && Aligned(b, s1, s2, t, j1, j2)
    {
      v := OnePair(j1, j2, block, b, s1, s2, t);
      if v.Decided? { return; }
      j1, j2, t := j1 + 1, j2 + 1, t + 1;
    }
    v := Undecided;
  }

  /** Eight pairs of bytes and quadrant values. */
  method EightMore(i1: nat, i2: nat, block: seq<byte>, quadrant: seq<int>, ghost b: seq<byte>, ghost s1: nat,
                   ghost s2: nat, ghost t: nat) returns (v: Verdict)
    requires Tables(block, quadrant, |b|) && b == block[..|b|] && i1 < |b| + 27 && i2 < |b| + 27
    requires Aligned(b, s1, s2, t, i1, i2)
    ensures v.Decided? ==> Answers(b, s1, s2, v.gt)
    ensures v.Undecided? ==> Aligned(b, s1, s2, t + 8, i1 + 8, i2 + 8)
  {
    TablesFacts(block, quadrant, |b|);
    assert Extended(block, |b|);
    hide *;
    var j1, j2, u: nat := i1, i2, 0;
    while u < 8
      invariant u <= 8 && j1 == i1 + u && j2 == i2 + u && Aligned(b, s1, s2, t + u, j1, j2)
    {
      v := OnePair(j1, j2, block, b, s1, s2, t + u);
      if v.Decided? { return; }
      AlignedQuadrant(block, quadrant, b, s1, s2, t + u, j1, j2);
      var q1, q2 := quadrant[j1], quadrant[j2];
      if q1 != q2 { return Decided(q1 > q2); }
      j1, j2, u := j1 + 1, j2 + 1, u + 1;
    }
    v := Undecided;
  }

  /** The rounds of eight, with both indexes moved back to the front when they pass it. */
  method Rounds(i1: nat, i2: nat, block: seq<byte>, quadrant: seq<int>, nblock: nat, budget0: int, ghost b: seq<byte>,
                ghost s1: nat, ghost s2: nat)
    returns (gt: bool, budget: int)
    requires Tables(block, quadrant, |b|) && b == block[..|b|] && |b| == nblock && i1 < nblock + 27 && i2 < nblock + 27
    requires nblock > 34 && Aligned(b, s1, s2, 12, i1, i2)
    ensures Answers(b, s1, s2, gt) && budget0 - nblock <= budget <= budget0
  {
    hide *;
    budget := budget0;
    var j1: nat, j2: nat, k: int, t: nat := i1, i2, nblock + 8, 12;
    while true
      invariant j1 < nblock + 27 && j2 < nblock + 27 && 0 <= k && t + k == nblock + 20
      invariant Aligned(b, s1, s2, t, j1, j2) && 8 * (budget0 - budget) == nblock + 8 - k
      decreases k
    {
      var v := EightMore(j1, j2, block, quadrant, b, s1, s2, t);
      if v.Decided? { return v.gt, budget; }
      j1, j2, t := j1 + 8, j2 + 8, t + 8;
      AlignedWraps(b, s1, s2, t, j1, j2);
      if j1 >= nblock { j1 := j1 - nblock; }
      if j2 >= nblock { j2 := j2 - nblock; }
      k := k - 8;
      budget := budget - 1;
      if k < 0 { break; }
    }
    AlignedThrough(b, s1, s2, t, j1, j2);
    gt := false;
  }

  /** mainGtU. True means that the rotation at i1 is at least that at i2, false that it is
      at most; rotations known to be equal come out either way. No index leaves the
      extended block, for starting places up to 14 behind the block. At most nblock of the
      budget is used. */
  method MainGtU(i1: nat, i2: nat, block: seq<byte>, quadrant: seq<int>, nblock: nat, budget0: int)
    returns (gt: bool, budget: int)
    requires Tables(block, quadrant, nblock) && i1 < nblock + 15 && i2 < nblock + 15
    ensures Answers(block[..nblock], At(nblock, i1), At(nblock, i2), gt) && budget0 - nblock <= budget <= budget0
  {
    TablesFacts(block, quadrant, nblock);
    assert Extended(block, nblock);
    ghost var b: seq<byte>, s1: nat, s2: nat := block[..nblock], At(nblock, i1), At(nblock, i2);
    assert |b| == nblock && i1 < 2 * nblock && i2 < 2 * nblock;
    AlignedStarts(b, i1, i2);
    assert Aligned(b, s1, s2, 0, i1, i2);
    hide *;
    var v := FirstBytes(i1, i2, block, b, s1, s2);
    if v.Decided? { return v.gt, budget0; }
    gt, budget := Rounds(i1 + 12, i2 + 12, block, quadrant, nblock, budget0, b, s1, s2);
  }
}
