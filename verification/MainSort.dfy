/** mainSort: a radix sort by two bytes, then the small buckets, by quicksort or by scanning
    a big bucket that is done. */
module MainSort {
  import opened Counting
  import opened Rotations
  import opened RotationRank
  import opened QuickSort
  import opened MainCompare
  import opened MainSimple
  import opened MainQSort
  import opened Predecessors
  import opened MainScan

  // ----- scanning a big bucket

  /** What the scans start from. */
  ghost predicate Scannable(c: Ctx, f: seq<int>) {
    && Proper(c) && Homed(c.b, f)
    && List(c, Slice(f, Left(c), Lo(c, c.ss)) + Slice(f, Hi(c, c.ss), Right(c)))
  }

  lemma LowHighFollow(c: Ctx, f: seq<int>)
    requires Homed(c.b, f)
    ensures Follow(c, Slice(f, Left(c), Lo(c, c.ss)), -1) && Follow(c, Slice(f, Hi(c, c.ss), Right(c)), 1)
  {
    hide Homed, Left, Lo, Hi, Right, AtHome;
    Bounds(c, c.ss);
    PermOf(c.b, f);
    forall p | Left(c) <= p < Lo(c, c.ss) ensures FollowAt(c, f[p], -1) { FollowLow(c, f, p); }
    forall p | Hi(c, c.ss) <= p < Right(c) ensures FollowAt(c, f[p], 1) { FollowHigh(c, f, p); }
    SliceFollows(c, f, Left(c), Lo(c, c.ss), -1);
    SliceFollows(c, f, Hi(c, c.ss), Right(c), 1);
  }

  lemma SliceFollows(c: Ctx, f: seq<int>, a: int, z: int, side: int)
    requires 0 <= a <= z <= |f| && forall p :: a <= p < z ==> FollowAt(c, f[p], side)
    ensures Follow(c, Slice(f, a, z), side)
  {
    var g := Slice(f, a, z);
    forall i | 0 <= i < |g| ensures FollowAt(c, g[i], side) { assert g[i] == f[a + i]; }
    hide Slice;
  }

  lemma FollowLow(c: Ctx, f: seq<int>, p: int)
    requires Homed(c.b, f) && Left(c) <= p < Lo(c, c.ss) && p < |f|
    ensures FollowAt(c, f[p], -1)
  {
    var s: int := c.ss;
    HomedAt(c.b, f, p);
    HomeRange(c.b, f, p, 256 * s, 256 * s + s);
  }

  lemma FollowHigh(c: Ctx, f: seq<int>, p: int)
    requires Homed(c.b, f) && Hi(c, c.ss) <= p < Right(c) && p < |f|
    ensures FollowAt(c, f[p], 1)
  {
    var s: int := c.ss;
    HomedAt(c.b, f, p);
    HomeRange(c.b, f, p, 256 * s + s + 1, 256 * s + 256);
  }

  lemma ListHalves(c: Ctx, p: seq<int>, q: seq<int>)
    requires List(c, p + q)
    ensures List(c, p)
  {
    hide List;
    ListPart(c, p + q, 0, |p|);
    assert (p + q)[0..|p|] == p;
  }

  /** k = ptr[j] - 1, going round. */
  function Before(j: int, n: int): (k: int)
    requires 0 <= j < n
    ensures k == Prev(n, j)
  {
    var k := j - 1;
    if k < 0 then k + n else k
  }

  /** The scan upwards from the lower end of the big bucket. */
  method ScanForward(ptr: array<int>, copyStart: array<int>, block: array<byte>, bigDone: array<bool>, nblock: nat,
                     ss: byte, start: nat, ghost c: Ctx, ghost f0: seq<int>)
    requires ptr != copyStart && ptr.Length == nblock == |c.b| <= block.Length && block[..nblock] == c.b
    requires copyStart.Length == bigDone.Length == 256 && bigDone[..] == c.done && ss == c.ss && start == Left(c)
    requires Forward(c, f0, ptr[..], copyStart[..], start)
    requires Follow(c, Slice(f0, Left(c), Lo(c, c.ss)), -1)
    modifies ptr, copyStart
    ensures Forward(c, f0, ptr[..], copyStart[..], copyStart[c.ss])
    ensures Slice(ptr[..], Hi(c, c.ss), Right(c)) == Slice(f0, Hi(c, c.ss), Right(c))
  {
    hide *;
    var j := start;
    ForwardFacts(c, f0, ptr[..], copyStart[..], j);
    while j < copyStart[ss]
      invariant start <= j <= copyStart[ss] && Forward(c, f0, ptr[..], copyStart[..], j)
      decreases nblock - j
    {
      j := ForwardOne(ptr, copyStart, block, bigDone, nblock, j, c, f0);
      ForwardFacts(c, f0, ptr[..], copyStart[..], j);
    }
    HighKept(c, f0, ptr[..], copyStart[..], j);
  }

  /** One entry of the scan upwards. */
  method ForwardOne(ptr: array<int>, copyStart: array<int>, block: array<byte>, bigDone: array<bool>, nblock: nat,
                    j: nat, ghost c: Ctx, ghost f0: seq<int>)
    returns (next: nat)
    requires ptr != copyStart && ptr.Length == nblock == |c.b| <= block.Length && block[..nblock] == c.b
    requires copyStart.Length == bigDone.Length == 256 && bigDone[..] == c.done
    requires Forward(c, f0, ptr[..], copyStart[..], j) && j < copyStart[c.ss]
    requires Follow(c, Slice(f0, Left(c), Lo(c, c.ss)), -1)
    modifies ptr, copyStart
    ensures next == j + 1 <= nblock && Forward(c, f0, ptr[..], copyStart[..], next)
  {
    hide *;
    ghost var f, cs := ptr[..], copyStart[..];
    ForwardFacts(c, f0, f, cs, j);
    ForwardEntry(c, f0, f, cs, j);
    var k := Before(ptr[j], nblock);
    assert k == Prev(|c.b|, f[j]);
    var c1 := block[k];
    assert c1 == block[..nblock][k];
    next := j + 1;
    if !bigDone[c1] {
      Room(c, f0, f, cs, j, c1);
      ForwardStep(c, f0, f, cs, j, c1, k);
      ptr[copyStart[c1]] := k;
      copyStart[c1] := copyStart[c1] + 1;
      assert ptr[..] == f[cs[c1] := k] && copyStart[..] == cs[c1 := cs[c1] + 1];
    } else {
      ForwardSkips(c, f0, f, cs, j);
    }
  }

  /** The upper part is not touched by the first scan. */
  lemma HighKept(c: Ctx, f0: seq<int>, f: seq<int>, cs: seq<int>, j: int)
    requires Forward(c, f0, f, cs, j)
    ensures Slice(f, Hi(c, c.ss), Right(c)) == Slice(f0, Hi(c, c.ss), Right(c))
  {
    hide Forward, Homed, Preds, List;
    ForwardFacts(c, f0, f, cs, j);
    Bounds(c, c.ss);
    var s: int := c.ss;
    forall p | Hi(c, s) <= p < Right(c) ensures f[p] == f0[p] {
      StillAt(c, f0, f, cs, j, p);
      HomedAt(c.b, f0, p);
      HomeRange(c.b, f0, p, 256 * s + s + 1, 256 * s + 256);
    }
  }

  /** The list of all that has been met between the scans. */
  lemma MetBetween(c: Ctx, f0: seq<int>, f: seq<int>, cs: seq<int>)
    requires |cs| == 256 && Forward(c, f0, f, cs, cs[c.ss]) && Scannable(c, f0)
    requires Slice(f, Hi(c, c.ss), Right(c)) == Slice(f0, Hi(c, c.ss), Right(c))
    ensures List(c, Front(c, f, cs) + Slice(f, Hi(c, c.ss), Right(c)))
  {
    hide List, Forward, Follow, Homed, Lo, Hi, Left, Right, Slice, Preds;
    ForwardFacts(c, f0, f, cs, cs[c.ss]);
    Bounds(c, c.ss);
    LowHighFollow(c, f0);
    LowKept(c, f0, f, cs, cs[c.ss]);
    FilledIs(c, f0, f, cs, cs[c.ss], c.ss);
    SliceJoin(f, Left(c), Lo(c, c.ss), cs[c.ss]);
    FrontHigh(c, Slice(f0, Left(c), Lo(c, c.ss)), Front(c, f, cs), Slice(f, Hi(c, c.ss), Right(c)));
  }

  /** The forward list with the upper part behind it. */
  lemma FrontHigh(c: Ctx, low: seq<int>, p: seq<int>, high: seq<int>)
    requires List(c, low + high) && List(c, p) && Positions(p, |c.b|)
    requires Follow(c, high, 1) && p == low + Preds(c.b, p, c.ss)
    ensures List(c, p + high)
  {
    hide List, After, Follow, Preds;
    var g := p + high;
    ListFacts(c, p);
    ListFacts(c, low + high);
    forall i | 0 <= i < |g| ensures 0 <= g[i] < |c.b| && c.b[g[i]] == c.ss {
      if i >= |p| { assert g[i] == (low + high)[|low| + i - |p|]; }
    }
    forall i, j | 0 <= i < j < |g| ensures AfterAt(c, g, i, j) {
      if j < |p| {
        ListAfter(c, p, i, j);
      } else if i < |low| || i >= |p| {
        var i' := if i < |p| then i else |low| + i - |p|;
        assert g[i] == (low + high)[i'] && g[j] == (low + high)[|low| + j - |p|];
        ListAfter(c, low + high, i', |low| + j - |p|);
      } else {
        PredBeforeHigh(c, low, p, high, i, j - |p|);
      }
    }
    MakeList(c, g);
  }

  lemma PredBeforeHigh(c: Ctx, low: seq<int>, p: seq<int>, high: seq<int>, i: nat, j: nat)
    requires List(c, low + high) && List(c, p) && Positions(p, |c.b|) && Follow(c, high, 1)
             && p == low + Preds(c.b, p, c.ss)
    requires |low| <= i < |p| && j < |high|
    ensures After(c, p[i], high[j])
  {
    hide Preds;
    var q := PredsFrom(c.b, p, c.ss, i - |low|);
    assert FollowAt(c, high[j], 1);
    assert (low + high)[|low| + j] == high[j];
    AfterByFollow(c, high[j], p[i]);
  }

  /** The scan downwards from the upper end. */
  method ScanBackward(ptr: array<int>, copyEnd: array<int>, block: array<byte>, bigDone: array<bool>, nblock: nat,
                      ss: byte, end: int, ghost c: Ctx, ghost f0: seq<int>, ghost cs: seq<int>)
    requires ptr != copyEnd && ptr.Length == nblock == |c.b| <= block.Length && block[..nblock] == c.b
    requires copyEnd.Length == bigDone.Length == 256 && bigDone[..] == c.done && ss == c.ss && end == Right(c) - 1
    requires Backward(c, f0, ptr[..], cs, copyEnd[..], end)
    requires Follow(c, Slice(f0, Left(c), Lo(c, c.ss)), -1) && Follow(c, Slice(f0, Hi(c, c.ss), Right(c)), 1)
    modifies ptr, copyEnd
    ensures Through(c, f0, ptr[..], cs, copyEnd[..])
  {
    hide *;
    var j := end;
    BackwardFacts(c, f0, ptr[..], cs, copyEnd[..], j);
    while j > copyEnd[ss]
      invariant copyEnd[ss] <= j && -1 <= j && Backward(c, f0, ptr[..], cs, copyEnd[..], j)
      decreases j + 1
    {
      j := BackwardOne(ptr, copyEnd, block, bigDone, nblock, j, c, f0, cs);
      BackwardFacts(c, f0, ptr[..], cs, copyEnd[..], j);
    }
    MakeThrough(c, f0, ptr[..], cs, copyEnd[..]);
  }

  lemma MakeThrough(c: Ctx, f0: seq<int>, f: seq<int>, cs: seq<int>, ce: seq<int>)
    requires |ce| == 256 && Backward(c, f0, f, cs, ce, ce[c.ss])
    requires Follow(c, Slice(f0, Left(c), Lo(c, c.ss)), -1) && Follow(c, Slice(f0, Hi(c, c.ss), Right(c)), 1)
    ensures Through(c, f0, f, cs, ce)
  {
    hide Backward, Follow;
  }

  /** One entry of the scan downwards. */
  method BackwardOne(ptr: array<int>, copyEnd: array<int>, block: array<byte>, bigDone: array<bool>, nblock: nat,
                     j: int, ghost c: Ctx, ghost f0: seq<int>, ghost cs: seq<int>)
    returns (next: int)
    requires ptr != copyEnd && ptr.Length == nblock == |c.b| <= block.Length && block[..nblock] == c.b
    requires copyEnd.Length == bigDone.Length == 256 && bigDone[..] == c.done
    requires Backward(c, f0, ptr[..], cs, copyEnd[..], j) && j > copyEnd[c.ss]
    requires Follow(c, Slice(f0, Left(c), Lo(c, c.ss)), -1) && Follow(c, Slice(f0, Hi(c, c.ss), Right(c)), 1)
    modifies ptr, copyEnd
    ensures next == j - 1 >= -1 && Backward(c, f0, ptr[..], cs, copyEnd[..], next)
  {
    hide *;
    ghost var f, ce := ptr[..], copyEnd[..];
    BackwardFacts(c, f0, f, cs, ce, j);
    BackwardEntry(c, f0, f, cs, ce, j);
    var k := Before(ptr[j], nblock);
    assert k == Prev(|c.b|, f[j]);
    var c1 := block[k];
    assert c1 == block[..nblock][k];
    next := j - 1;
    if !bigDone[c1] {
      RoomBetween(c, f0, f, cs, ce, j, c1);
      BackwardStep(c, f0, f, cs, ce, j, c1, k);
      ptr[copyEnd[c1]] := k;
      copyEnd[c1] := copyEnd[c1] - 1;
      assert ptr[..] == f[ce[c1] := k] && copyEnd[..] == ce[c1 := ce[c1] - 1];
    } else {
      BackwardSkips(c, f0, f, cs, ce, j);
    }
  }

  // ----- small buckets that are sorted

  /** The small bucket of word s is in the order of the rotations. */
  ghost predicate WordSorted(b: seq<byte>, f: seq<int>, s: int) {
    SortedBy(f, Ranks(b), From(b, s), From(b, s + 1) - 1)
  }

  /** All positions, in their small buckets, the flagged ones of which are sorted. */
  ghost predicate Flagged(b: seq<byte>, f: seq<int>, flags: seq<bool>) {
    |flags| == 65536 && Homed(b, f) && forall s :: 0 <= s < 65536 && flags[s] ==> WordSorted(b, f, s)
  }

  lemma FlaggedFacts(b: seq<byte>, f: seq<int>, flags: seq<bool>)
    requires Flagged(b, f, flags)
    ensures |flags| == 65536 && Homed(b, f) && |f| == |b| && Indexes(f, |b|)
  {
  }

  lemma FlaggedAt(b: seq<byte>, f: seq<int>, flags: seq<bool>, s: int)
    requires Flagged(b, f, flags) && 0 <= s < 65536 && flags[s]
    ensures WordSorted(b, f, s)
  {
  }

  /** Two entries in flagged buckets are in order. */
  lemma InOrder(b: seq<byte>, f: seq<int>, flags: seq<bool>, p: int, q: int)
    requires Flagged(b, f, flags) && 0 <= p < q < |f| && 0 <= f[p] < |b| && flags[Word(b, f[p])]
    ensures KeyLe(f, Ranks(b), p, q)
  {
    hide *;
    FlaggedFacts(b, f, flags);
    HomedAt(b, f, p);
    HomedAt(b, f, q);
    AtHomeEntry(b, f, q);
    var u, v := Word(b, f[p]), Word(b, f[q]);
    HomeWord(b, f, p, u);
    HomeWord(b, f, q, v);
    RanksSize(b);
    if v < u {
      FromMonotone(b, v + 1, u);
    } else if u < v {
      WordOrder(b, f[p], f[q]);
    } else {
      FlaggedAt(b, f, flags, u);
      SortedPair(b, f, u, p, q);
    }
    MakeKeyLe(f, Ranks(b), p, q);
  }

  lemma RanksSize(b: seq<byte>)
    ensures |Ranks(b)| == |b|
  {
  }

  lemma SortedPair(b: seq<byte>, f: seq<int>, s: int, p: int, q: int)
    requires WordSorted(b, f, s) && From(b, s) <= p < q < From(b, s + 1)
    ensures 0 <= p < |f| && 0 <= q < |f| && 0 <= f[p] < |Ranks(b)| && 0 <= f[q] < |Ranks(b)|
            && Ranks(b)[f[p]] <= Ranks(b)[f[q]]
  {
    assert KeyLe(f, Ranks(b), p, q);
  }

  lemma MakeKeyLe(f: seq<int>, ec: seq<int>, p: int, q: int)
    requires 0 <= p < |f| && 0 <= q < |f| && 0 <= f[p] < |ec| && 0 <= f[q] < |ec| && ec[f[p]] <= ec[f[q]]
    ensures KeyLe(f, ec, p, q)
  {
  }

  /** When all are flagged, the block is sorted. */
  lemma AllFlagged(b: seq<byte>, f: seq<int>, flags: seq<bool>)
    requires Flagged(b, f, flags) && forall s :: 0 <= s < 65536 ==> flags[s]
    ensures IsRotationSort(b, f)
  {
    hide Flagged, Homed, Ranks, WordSorted, Cmp;
    FlaggedFacts(b, f, flags);
    PermOf(b, f);
    forall p, q | 0 <= p < q < |f| ensures Cmp(b, f[p], f[q], |b|) <= 0 {
      HomedAt(b, f, p);
      AtHomeEntry(b, f, p);
      InOrder(b, f, flags, p, q);
      RankOrder(b, f[p], f[q]);
    }
  }

  // ----- sorting one small bucket

  /** The entries of a small bucket have two bytes in common. */
  lemma BucketCommon(b: seq<byte>, f: seq<int>, s: int, lo: int, hi: int)
    requires Homed(b, f) && 0 <= s < 65536 && lo == From(b, s) && hi == From(b, s + 1) - 1 && lo <= hi
    ensures Common(b, f, Job(Part(lo, hi), 2)) && hi < |f|
  {
    hide Homed, From, Cmp;
    PermOf(b, f);
    FromEnd(b, s + 1);
    HomedAt(b, f, lo);
    AtHomeEntry(b, f, lo);
    var r: nat := f[lo];
    forall k | lo <= k <= hi && 0 <= k < |f| ensures Begins(b, r, 2, f[k]) { SameBegin(b, f, s, lo, k); }
    assert AllBegin(b, f, lo, hi, r, 2);
  }

  lemma FromEnd(b: seq<byte>, s: int)
    ensures 0 <= From(b, s) <= |b|
  {
  }

  lemma SameBegin(b: seq<byte>, f: seq<int>, s: int, p: int, q: int)
    requires Homed(b, f) && From(b, s) <= p < From(b, s + 1) && From(b, s) <= q < From(b, s + 1) && p < |f| && q < |f|
    ensures 0 <= f[p] < |b| && Begins(b, f[p], 2, f[q])
  {
    HomedAt(b, f, p);
    HomedAt(b, f, q);
    HomeWord(b, f, p, s);
    HomeWord(b, f, q, s);
    SameWordBytes(b, f[p], f[q]);
    CmpTwo(b, f[p], f[q]);
  }

  lemma CmpTwo(b: seq<byte>, x: nat, y: nat)
    requires x < |b| && y < |b| && b[x] == b[y] && b[Next(|b|, x)] == b[Next(|b|, y)]
    ensures Cmp(b, x, y, 2) == 0
  {
    CmpSplit(b, x, y, 1, 1);
  }

  /** Rearranging within a small bucket leaves every entry in its bucket. */
  lemma HomedRearranged(b: seq<byte>, f: seq<int>, g: seq<int>, s: int)
    requires Homed(b, f) && Rearranged(f, g, From(b, s), From(b, s + 1) - 1) && From(b, s) < From(b, s + 1)
    ensures Homed(b, g)
  {
    hide From, AtHome, Word;
    PermOf(b, f);
    var lo, hi := From(b, s), From(b, s + 1) - 1;
    BagIs(f, g);
    PermRearranged(f, g, |b|);
    forall p | 0 <= p < |g| ensures AtHome(b, g, p) {
      HomedAt(b, f, p);
      if lo <= p <= hi {
        FromEnd(b, s + 1);
        var k := RearrangedFrom(f, g, lo, hi, p);
        HomedAt(b, f, k);
        HomeWord(b, f, k, s);
        MoveHome(b, f, g, s, k, p);
      } else {
        SameHome(b, f, g, p);
      }
    }
  }

  lemma BagIs(f: seq<int>, g: seq<int>)
    ensures Bag(f) == Bag(g) <==> multiset(f) == multiset(g)
  {
  }

  lemma MoveHome(b: seq<byte>, f: seq<int>, g: seq<int>, s: int, k: int, p: int)
    requires AtHome(b, f, k) && 0 <= p < |g| && g[p] == f[k] && Word(b, f[k]) == s && From(b, s) <= p < From(b, s + 1)
    ensures AtHome(b, g, p)
  {
  }

  lemma SameHome(b: seq<byte>, f: seq<int>, g: seq<int>, p: int)
    requires AtHome(b, f, p) && p < |g| && g[p] == f[p]
    ensures AtHome(b, g, p)
  {
  }

  /** A small bucket has been sorted, or needs no sorting; the flag is set. */
  lemma FlagOne(b: seq<byte>, f: seq<int>, g: seq<int>, flags: seq<bool>, s: int)
    requires Flagged(b, f, flags) && 0 <= s < 65536 && Rearranged(f, g, From(b, s), From(b, s + 1) - 1)
    requires WordSorted(b, g, s)
    ensures Flagged(b, g, flags[s := true])
  {
    hide From, Ranks, Bag;
    FlaggedFacts(b, f, flags);
    FromMonotone(b, s, s + 1);
    if From(b, s) < From(b, s + 1) {
      HomedRearranged(b, f, g, s);
    } else {
      EmptyRearranged(f, g, From(b, s), From(b, s + 1) - 1);
    }
    forall u | 0 <= u < 65536 && flags[s := true][u] ensures WordSorted(b, g, u) {
      if u != s {
        FlaggedAt(b, f, flags, u);
        OtherSorted(b, f, g, s, u);
      }
    }
    hide Homed, WordSorted, Rearranged;
  }

  lemma EmptyRearranged(f: seq<int>, g: seq<int>, lo: int, hi: int)
    requires Rearranged(f, g, lo, hi) && hi < lo
    ensures f == g
  {
  }

  lemma OtherSorted(b: seq<byte>, f: seq<int>, g: seq<int>, s: int, u: int)
    requires Rearranged(f, g, From(b, s), From(b, s + 1) - 1) && u != s && WordSorted(b, f, u)
    ensures WordSorted(b, g, u)
  {
    hide From, Ranks, Bag;
    if u < s { FromMonotone(b, u + 1, s); } else { FromMonotone(b, s + 1, u); }
    var ec := Ranks(b);
    forall p, q | From(b, u) <= p < q <= From(b, u + 1) - 1 ensures KeyLe(g, ec, p, q) { assert KeyLe(f, ec, p, q); }
  }

  // ----- the bucket table

  const SETMASK := 0x20_0000

  /** Bit 21 of an entry of ftab tells that its small bucket is sorted. */
  function IsSet(v: int): bool { v / SETMASK % 2 == 1 }

  function Cleared(v: int): int { if IsSet(v) then v - SETMASK else v }

  function Set(v: int): int { if IsSet(v) then v else v + SETMASK }

  /** ftab holds the starts of the small buckets, with their flags. */
  ghost predicate Table(b: seq<byte>, ft: seq<int>, flags: seq<bool>) {
    && |ft| == 65537 && |flags| == 65536 && |b| <= 900000
    && (forall s :: 0 <= s < 65536 ==> TableAt(b, ft, flags, s))
    && ft[65536] == From(b, 65536)
  }

  ghost predicate TableAt(b: seq<byte>, ft: seq<int>, flags: seq<bool>, s: int)
    requires |ft| == 65537 && |flags| == 65536
  {
    0 <= s < 65536 && ft[s] == From(b, s) + if flags[s] then SETMASK else 0
  }

  /** What an entry tells. */
  lemma TableEntry(b: seq<byte>, ft: seq<int>, flags: seq<bool>, s: int)
    requires Table(b, ft, flags) && 0 <= s <= 65536
    ensures |ft| == 65537 && |flags| == 65536 && Cleared(ft[s]) == From(b, s) <= |b|
    ensures s < 65536 ==> IsSet(ft[s]) == flags[s] && ft[s] == From(b, s) + if flags[s] then SETMASK else 0
  {
    if s < 65536 { assert TableAt(b, ft, flags, s); }
    hide From;
  }

  lemma TableSet(b: seq<byte>, ft: seq<int>, flags: seq<bool>, s: int)
    requires Table(b, ft, flags) && 0 <= s < 65536
    ensures |ft| == 65537 && |flags| == 65536 && Table(b, ft[s := Set(ft[s])], flags[s := true])
  {
    TableEntry(b, ft, flags, s);
    var ft', flags' := ft[s := Set(ft[s])], flags[s := true];
    hide From;
    forall u | 0 <= u < 65536 ensures TableAt(b, ft', flags', u) { assert TableAt(b, ft, flags, u); }
  }

  // ----- step 1

  /** Everything the sorting works on. */
  ghost predicate Sorting(block: seq<byte>, quadrant: seq<int>, n: nat, b: seq<byte>, f: seq<int>, ft: seq<int>,
                          flags: seq<bool>) {
    Setup(block, quadrant, n, b, Ranks(b)) && Flagged(b, f, flags) && Table(b, ft, flags)
  }

  lemma SortingFacts(block: seq<byte>, quadrant: seq<int>, n: nat, b: seq<byte>, f: seq<int>, ft: seq<int>,
                     flags: seq<bool>)
    requires Sorting(block, quadrant, n, b, f, ft, flags)
    ensures Setup(block, quadrant, n, b, Ranks(b)) && Flagged(b, f, flags) && Table(b, ft, flags)
    ensures |ft| == 65537 && |flags| == 65536 && |f| == |b| == n <= 900000 && Homed(b, f) && Indexes(f, |b|)
    ensures n > 34 && |block| == |quadrant| == n + 34 && b == block[..n]
  {
    hide From, Homed, WordSorted;
    SetupFacts(block, quadrant, n, b, Ranks(b));
    FlaggedFacts(b, f, flags);
  }

  lemma MakeSorting(block: seq<byte>, quadrant: seq<int>, n: nat, b: seq<byte>, f: seq<int>, ft: seq<int>,
                    flags: seq<bool>)
    requires Setup(block, quadrant, n, b, Ranks(b)) && Flagged(b, f, flags) && Table(b, ft, flags)
    ensures Sorting(block, quadrant, n, b, f, ft, flags)
  {
  }

  lemma SmallIsSorted(b: seq<byte>, f: seq<int>, s: int)
    ensures From(b, s + 1) - 1 <= From(b, s) ==> WordSorted(b, f, s)
  {
    hide From;
  }

  /** A small bucket that is not flagged is sorted by quicksort, if it has two entries. */
  method SortBucket(ptr: array<int>, block: seq<byte>, quadrant: seq<int>, ftab: array<int>, nblock: nat, sb: nat,
                    budget0: int, ghost b: seq<byte>, ghost flags: seq<bool>)
    returns (budget: int)
    requires ptr != ftab && sb < 65536 && Sorting(block, quadrant, nblock, b, ptr[..], ftab[..], flags)
    modifies ptr, ftab
    ensures budget <= budget0 && budget0 - budget <= QuickWork(nblock, nblock)
    ensures budget0 >= 0 && budget >= 0 ==> Sorting(block, quadrant, nblock, b, ptr[..], ftab[..], flags[sb := true])
    ensures ptr.Length == nblock
  {
    hide *;
    budget := budget0;
    ghost var f, ft := ptr[..], ftab[..];
    SortingFacts(block, quadrant, nblock, b, f, ft, flags);
    TableEntry(b, ft, flags, sb);
    TableEntry(b, ft, flags, sb + 1);
    SameRearranged(f, From(b, sb), From(b, sb + 1) - 1);
    if !IsSet(ftab[sb]) {
      var lo := Cleared(ftab[sb]);
      var hi := Cleared(ftab[sb + 1]) - 1;
      SmallIsSorted(b, f, sb);
      if hi > lo {
        BucketCommon(b, f, sb, lo, hi);
        budget := MainQSort3(ptr, block, quadrant, nblock, lo, hi, 2, budget, b, Ranks(b));
        if budget < 0 { return; }
        MakeWordSorted(b, ptr[..], sb);
      }
      FlagOne(b, f, ptr[..], flags, sb);
    } else {
      FlagAgain(b, f, flags, sb);
    }
    TableSet(b, ft, flags, sb);
    ftab[sb] := Set(ftab[sb]);
    assert ftab[..] == ft[sb := Set(ft[sb])];
    MakeSorting(block, quadrant, nblock, b, ptr[..], ftab[..], flags[sb := true]);
  }

  lemma SameRearranged(f: seq<int>, lo: int, hi: int)
    ensures Rearranged(f, f, lo, hi)
  {
  }

  lemma MakeWordSorted(b: seq<byte>, f: seq<int>, s: int)
    requires SortedBy(f, Ranks(b), From(b, s), From(b, s + 1) - 1)
    ensures WordSorted(b, f, s)
  {
  }

  lemma FlagAgain(b: seq<byte>, f: seq<int>, flags: seq<bool>, s: int)
    requires Flagged(b, f, flags) && 0 <= s < 65536 && flags[s]
    ensures Flagged(b, f, flags[s := true]) && flags[s := true] == flags
  {
    assert flags[s := true] == flags;
  }

  /** The flags after the small buckets [ss, 0] to [ss, j - 1], but for [ss, ss]. */
  ghost function RowSet(flags: seq<bool>, ss: byte, j: nat): (r: seq<bool>)
    requires |flags| == 65536 && j <= 256
    ensures |r| == 65536
    ensures forall s :: 0 <= s < 65536 ==> (r[s] <==> flags[s] || (s / 256 == ss && s % 256 < j && s % 256 != ss))
  {
    seq(65536, s requires 0 <= s < 65536 => flags[s] || (s / 256 == ss && s % 256 < j && s % 256 != ss))
  }

  /** Step 1: the small buckets of the big bucket ss, except [ss, ss]. */
  method SortRow(ptr: array<int>, block: seq<byte>, quadrant: seq<int>, ftab: array<int>, nblock: nat, ss: byte,
                 budget0: int, ghost b: seq<byte>, ghost flags: seq<bool>)
    returns (budget: int)
    requires ptr != ftab && |flags| == 65536 && Sorting(block, quadrant, nblock, b, ptr[..], ftab[..], flags)
             && budget0 >= 0
    modifies ptr, ftab
    ensures budget <= budget0 && budget0 - budget <= Times(256, QuickWork(nblock, nblock))
    ensures budget >= 0 ==> Sorting(block, quadrant, nblock, b, ptr[..], ftab[..], RowSet(flags, ss, 256))
  {
    hide *;
    budget := budget0;
    var base: int := ss;
    ghost var unit := QuickWork(nblock, nblock);
    TimesMore(0, unit);
    RowNone(flags, ss);
    for j := 0 to 256
      invariant 0 <= budget <= budget0 && budget0 - budget <= Times(j, unit)
      invariant Sorting(block, quadrant, nblock, b, ptr[..], ftab[..], RowSet(flags, ss, j))
    {
      RowMore(flags, ss, j);
      TimesMore(j, unit);
      TimesUp(j + 1, 256, unit, unit);
      if j != ss {
        budget := SortBucket(ptr, block, quadrant, ftab, nblock, 256 * base + j, budget, b, RowSet(flags, ss, j));
        if budget < 0 { return; }
      }
    }
  }

  lemma RowNone(flags: seq<bool>, ss: byte)
    requires |flags| == 65536
    ensures RowSet(flags, ss, 0) == flags
  {
  }

  lemma RowMore(flags: seq<bool>, ss: byte, j: nat)
    requires |flags| == 65536 && j < 256
    ensures var base: int := ss;
            RowSet(flags, ss, j + 1) == if j == base then RowSet(flags, ss, j)
              else RowSet(flags, ss, j)[256 * base + j := true]
  {
    var base: int := ss;
    var r, q := RowSet(flags, ss, j), RowSet(flags, ss, j + 1);
    assert (256 * base + j) / 256 == base && (256 * base + j) % 256 == j;
    forall s | 0 <= s < 65536 ensures q[s] == (if j == base then r else r[256 * base + j := true])[s] {
      assert s == 256 * (s / 256) + s % 256;
    }
  }

  // ----- step 2

  /** All small buckets of the big bucket but [ss, ss] are flagged. */
  ghost predicate RowDone(c: Ctx, flags: seq<bool>) {
    |flags| == 65536 && forall u :: 0 <= u < 256 && u != c.ss ==> RowFlag(c, flags, u)
  }

  ghost predicate RowFlag(c: Ctx, flags: seq<bool>, u: int)
    requires |flags| == 65536
  {
    var s: int := c.ss;
    0 <= u < 256 && flags[256 * s + u]
  }

  lemma RowIsDone(c: Ctx, flags: seq<bool>)
    requires |flags| == 65536
    ensures RowDone(c, RowSet(flags, c.ss, 256))
  {
    var s: int := c.ss;
    forall u | 0 <= u < 256 && u != s ensures RowFlag(c, RowSet(flags, c.ss, 256), u) {
      assert (256 * s + u) / 256 == s && (256 * s + u) % 256 == u;
    }
  }

  lemma RowFlagged(c: Ctx, flags: seq<bool>, x: int)
    requires RowDone(c, flags) && 0 <= x < |c.b| && c.b[x] == c.ss && c.b[Next(|c.b|, x)] != c.ss
    ensures |flags| == 65536 && flags[Word(c.b, x)]
  {
    assert RowFlag(c, flags, c.b[Next(|c.b|, x)]);
  }

  /** The ends of the big bucket are sorted: the scans can start. */
  lemma RowScannable(c: Ctx, f: seq<int>, flags: seq<bool>)
    requires Proper(c) && Flagged(c.b, f, flags) && RowDone(c, flags)
    ensures Scannable(c, f)
  {
    hide *;
    FlaggedFacts(c.b, f, flags);
    Bounds(c, c.ss);
    var low, high := Slice(f, Left(c), Lo(c, c.ss)), Slice(f, Hi(c, c.ss), Right(c));
    var g := low + high;
    SliceSize(f, Left(c), Lo(c, c.ss));
    SliceSize(f, Hi(c, c.ss), Right(c));
    forall i | 0 <= i < |g| ensures 0 <= g[i] < |c.b| && c.b[g[i]] == c.ss { EndEntry(c, f, flags, i); }
    forall i, j | 0 <= i < j < |g| ensures AfterAt(c, g, i, j) {
      EndEntry(c, f, flags, i);
      EndEntry(c, f, flags, j);
      EndsAfter(c, f, flags, EndPlace(c, i), EndPlace(c, j));
      MakeAfterAt(c, g, i, j);
    }
    MakeList(c, g);
    MakeScannable(c, f);
  }

  /** The place of entry i of both ends together. */
  ghost function EndPlace(c: Ctx, i: int): int {
    if i < Lo(c, c.ss) - Left(c) then Left(c) + i else Hi(c, c.ss) + i - (Lo(c, c.ss) - Left(c))
  }

  lemma EndEntry(c: Ctx, f: seq<int>, flags: seq<bool>, i: int)
    requires Flagged(c.b, f, flags) && RowDone(c, flags) && |f| == |c.b|
    requires 0 <= i < (Lo(c, c.ss) - Left(c)) + (Right(c) - Hi(c, c.ss))
    ensures var g := Slice(f, Left(c), Lo(c, c.ss)) + Slice(f, Hi(c, c.ss), Right(c)); var p := EndPlace(c, i);
            && i < |g| && 0 <= p < |f| && g[i] == f[p] && 0 <= f[p] < |c.b| && c.b[f[p]] == c.ss
              && flags[Word(c.b, f[p])]
    ensures forall j :: i < j < (Lo(c, c.ss) - Left(c)) + (Right(c) - Hi(c, c.ss)) ==> EndPlace(c, i) < EndPlace(c, j)
  {
    hide Flagged, Left, Right, Lo, Hi, RowDone, Slice;
    Bounds(c, c.ss);
    FlaggedFacts(c.b, f, flags);
    var p := EndPlace(c, i);
    if i < Lo(c, c.ss) - Left(c) {
      FollowLow(c, f, p);
      BigByte(c, f, p);
      SliceEntry(f, Left(c), Lo(c, c.ss), p);
    } else {
      FollowHigh(c, f, p);
      BigByte(c, f, p);
      SliceEntry(f, Hi(c, c.ss), Right(c), p);
    }
    SliceSize(f, Left(c), Lo(c, c.ss));
    SliceSize(f, Hi(c, c.ss), Right(c));
    RowFlagged(c, flags, f[p]);
  }

  /** An entry of the big bucket begins with its byte. */
  lemma BigByte(c: Ctx, f: seq<int>, p: int)
    requires Homed(c.b, f) && Left(c) <= p < Right(c) && p < |f|
    ensures 0 <= f[p] < |c.b| && c.b[f[p]] == c.ss
  {
    var s: int := c.ss;
    HomedAt(c.b, f, p);
    HomeRange(c.b, f, p, 256 * s, 256 * s + 256);
  }

  lemma EndsAfter(c: Ctx, f: seq<int>, flags: seq<bool>, p: int, q: int)
    requires Flagged(c.b, f, flags) && 0 <= p < q < |f| && 0 <= f[p] < |c.b| && flags[Word(c.b, f[p])]
    ensures After(c, f[p], f[q])
  {
    InOrder(c.b, f, flags, p, q);
    FlaggedFacts(c.b, f, flags);
    PermOf(c.b, f);
    PermDistinct(f, |c.b|, p, q);
    hide Flagged, Homed, Ranks;
  }

  lemma MakeAfterAt(c: Ctx, g: seq<int>, i: int, j: int)
    requires 0 <= i < |g| && 0 <= j < |g| && After(c, g[i], g[j])
    ensures AfterAt(c, g, i, j)
  {
  }

  lemma MakeScannable(c: Ctx, f: seq<int>)
    requires Proper(c) && Homed(c.b, f) && List(c, Slice(f, Left(c), Lo(c, c.ss)) + Slice(f, Hi(c, c.ss), Right(c)))
    ensures Scannable(c, f)
  {
    hide List;
  }

  /** The flags with all small buckets [j, ss]. */
  ghost function ColumnSet(flags: seq<bool>, ss: byte, j: nat): (r: seq<bool>)
    requires |flags| == 65536 && j <= 256
    ensures |r| == 65536
    ensures forall s :: 0 <= s < 65536 ==> (r[s] <==> flags[s] || (s % 256 == ss && s / 256 < j))
  {
    seq(65536, s requires 0 <= s < 65536 => flags[s] || (s % 256 == ss && s / 256 < j))
  }

  /** The big buckets that are done have all their flags. */
  ghost predicate DoneFlags(done: seq<bool>, flags: seq<bool>) {
    |done| == 256 && |flags| == 65536 && forall s :: 0 <= s < 65536 && done[s / 256] ==> flags[s]
  }

  /** After the scans all small buckets of ss are sorted. */
  lemma InducedFlags(c: Ctx, f0: seq<int>, f: seq<int>, flags: seq<bool>)
    requires Flagged(c.b, f0, flags) && Induced(c, f0, f) && DoneFlags(c.done, flags)
    ensures Flagged(c.b, f, ColumnSet(flags, c.ss, 256))
  {
    hide WordSorted, Homed, WordKept, BucketSorted;
    forall s | 0 <= s < 65536 && ColumnSet(flags, c.ss, 256)[s] ensures WordSorted(c.b, f, s) {
      var t := s / 256;
      if s % 256 == c.ss && !c.done[t] {
        assert BucketSorted(c, f, t);
        BucketIsWord(c, f, t, s);
      } else {
        KeptSorted(c, f0, f, s);
      }
    }
  }

  lemma BucketIsWord(c: Ctx, f: seq<int>, t: int, s: int)
    requires BucketSorted(c, f, t) && s == 256 * t + c.ss
    ensures WordSorted(c.b, f, s)
  {
  }

  /** A small bucket that the scans leave alone. */
  lemma KeptSorted(c: Ctx, f0: seq<int>, f: seq<int>, s: int)
    requires Induced(c, f0, f) && Homed(c.b, f0) && 0 <= s < 65536 && WordSorted(c.b, f0, s)
    requires s % 256 != c.ss || c.done[s / 256]
    ensures WordSorted(c.b, f, s)
  {
    hide Homed, From, Ranks, BucketSorted;
    var ec := Ranks(c.b);
    FromEnd(c.b, s + 1);
    PermOf(c.b, f0);
    forall p | From(c.b, s) <= p < From(c.b, s + 1) ensures f[p] == f0[p] {
      HomedAt(c.b, f0, p);
      HomeWord(c.b, f0, p, s);
      assert WordKept(c, f0, f, p);
    }
    forall p, q | From(c.b, s) <= p < q <= From(c.b, s + 1) - 1 ensures KeyLe(f, ec, p, q) {
      assert KeyLe(f0, ec, p, q);
    }
  }

  /** The ends of the small buckets [j, ss], before the scans. */
  method CopyBounds(ftab: array<int>, ss: byte, ghost c: Ctx, ghost flags: seq<bool>)
    returns (copyStart: array<int>, copyEnd: array<int>)
    requires Table(c.b, ftab[..], flags) && ss == c.ss
    ensures fresh(copyStart) && fresh(copyEnd) && copyStart != copyEnd && copyStart.Length == copyEnd.Length == 256
    ensures forall t :: 0 <= t < 256 ==> copyStart[..][t] == Lo(c, t)
    ensures forall t :: 0 <= t < 256 ==> copyEnd[..][t] == Hi(c, t) - 1
  {
    copyStart, copyEnd := new int[256], new int[256];
    assert ftab.Length == 65537 by { TableEntry(c.b, ftab[..], flags, 0); }
    hide Table, Lo, Hi, From, Cleared;
    for j := 0 to 256
      invariant forall t :: 0 <= t < j ==> copyStart[t] == Lo(c, t)
      invariant forall t :: 0 <= t < j ==> copyEnd[t] == Hi(c, t) - 1
    {
      TableEntry(c.b, ftab[..], flags, 256 * j + ss);
      TableEntry(c.b, ftab[..], flags, 256 * j + ss + 1);
      LoIs(c, j);
      copyStart[j] := Cleared(ftab[256 * j + ss]);
      copyEnd[j] := Cleared(ftab[256 * j + ss + 1]) - 1;
    }
  }

  lemma LoIs(c: Ctx, t: int)
    ensures Lo(c, t) == From(c.b, 256 * t + c.ss) && Hi(c, t) == From(c.b, 256 * t + c.ss + 1)
  {
  }

  lemma BigBounds(c: Ctx)
    ensures var s: int := c.ss; Left(c) == From(c.b, 256 * s) && Right(c) == From(c.b, 256 * s + 256)
  {
  }

  /** Step 2: the scans of the big bucket from both ends. Assertion 1007 holds. */
  method ScanBucket(ptr: array<int>, block: array<byte>, quadrant: seq<int>, ftab: array<int>, bigDone: array<bool>,
                    nblock: nat, ss: byte, ghost c: Ctx, ghost flags: seq<bool>)
    requires ptr != ftab && bigDone.Length == 256 && bigDone[..] == c.done && ss == c.ss && Proper(c)
    requires Sorting(block[..], quadrant, nblock, c.b, ptr[..], ftab[..], flags)
    requires RowDone(c, flags) && DoneFlags(c.done, flags)
    modifies ptr, ftab
    ensures Sorting(block[..], quadrant, nblock, c.b, ptr[..], ftab[..], ColumnSet(flags, ss, 256))
  {
    hide *;
    ghost var f0, ft := ptr[..], ftab[..];
    SortingFacts(block[..], quadrant, nblock, c.b, f0, ft, flags);
    var base: int := ss;
    var copyStart, copyEnd := CopyBounds(ftab, ss, c, flags);
    TableEntry(c.b, ft, flags, 256 * base);
    TableEntry(c.b, ft, flags, 256 * base + 256);
    BigBounds(c);
    ScanBoth(ptr, block, bigDone, copyStart, copyEnd, nblock, ss, Cleared(ftab[256 * base]),
      Cleared(ftab[256 * (base + 1)]) - 1,
             c, f0, flags);
    InducedFlags(c, f0, ptr[..], flags);
    FlagColumn(ftab, ss, c.b, flags);
    MakeSorting(block[..], quadrant, nblock, c.b, ptr[..], ftab[..], ColumnSet(flags, ss, 256));
  }

  method ScanBoth(ptr: array<int>, block: array<byte>, bigDone: array<bool>, copyStart: array<int>,
                  copyEnd: array<int>, nblock: nat, ss: byte, start: nat, end: int, ghost c: Ctx, ghost f0: seq<int>,
                  ghost flags: seq<bool>)
    requires ptr != copyStart && ptr != copyEnd && copyStart != copyEnd && ptr[..] == f0
    requires ptr.Length == nblock == |c.b| <= block.Length && block[..nblock] == c.b
    requires copyStart.Length == copyEnd.Length == bigDone.Length == 256 && bigDone[..] == c.done && ss == c.ss
    requires forall t :: 0 <= t < 256 ==> copyStart[..][t] == Lo(c, t)
    requires forall t :: 0 <= t < 256 ==> copyEnd[..][t] == Hi(c, t) - 1
    requires start == Left(c) && end == Right(c) - 1 && Proper(c) && Flagged(c.b, f0, flags) && RowDone(c, flags)
    modifies ptr, copyStart, copyEnd
    ensures Induced(c, f0, ptr[..])
  {
    hide *;
    FlaggedFacts(c.b, f0, flags);
    RowScannable(c, f0, flags);
    ScannableFacts(c, f0);
    LowHighFollow(c, f0);
    ForwardStarts(c, f0, copyStart[..]);
    ScanForward(ptr, copyStart, block, bigDone, nblock, ss, start, c, f0);
    ghost var f, cs := ptr[..], copyStart[..];
    MetBetween(c, f0, f, cs);
    BackwardStarts(c, f0, f, cs, copyEnd[..]);
    ScanBackward(ptr, copyEnd, block, bigDone, nblock, ss, end, c, f0, cs);
    ScansDone(c, f0, ptr[..], cs, copyEnd[..]);
    assert copyStart[ss] - 1 == copyEnd[ss] || (copyStart[ss] == 0 && copyEnd[ss] == nblock - 1);
  }

  lemma ScannableFacts(c: Ctx, f: seq<int>)
    requires Scannable(c, f)
    ensures Proper(c) && Homed(c.b, f) && List(c, Slice(f, Left(c), Lo(c, c.ss)))
  {
    hide List, Homed, Slice;
    ListHalves(c, Slice(f, Left(c), Lo(c, c.ss)), Slice(f, Hi(c, c.ss), Right(c)));
  }

  /** The flags of the small buckets [j, ss] are set. */
  method FlagColumn(ftab: array<int>, ss: byte, ghost b: seq<byte>, ghost flags: seq<bool>)
    requires |flags| == 65536 && Table(b, ftab[..], flags)
    modifies ftab
    ensures Table(b, ftab[..], ColumnSet(flags, ss, 256))
  {
    hide *;
    ColumnNone(flags, ss);
    for j := 0 to 256
      invariant Table(b, ftab[..], ColumnSet(flags, ss, j))
    {
      ghost var ft := ftab[..];
      TableEntry(b, ft, ColumnSet(flags, ss, j), 256 * j + ss);
      TableSet(b, ft, ColumnSet(flags, ss, j), 256 * j + ss);
      ColumnMore(flags, ss, j);
      ftab[256 * j + ss] := Set(ftab[256 * j + ss]);
      assert ftab[..] == ft[256 * j + ss := Set(ft[256 * j + ss])];
    }
  }

  lemma ColumnNone(flags: seq<bool>, ss: byte)
    requires |flags| == 65536
    ensures ColumnSet(flags, ss, 0) == flags
  {
  }

  lemma ColumnMore(flags: seq<bool>, ss: byte, j: nat)
    requires |flags| == 65536 && j < 256
    ensures ColumnSet(flags, ss, j + 1) == ColumnSet(flags, ss, j)[256 * j + ss := true]
  {
    var r, q := ColumnSet(flags, ss, j), ColumnSet(flags, ss, j + 1);
    assert (256 * j + ss) / 256 == j && (256 * j + ss) % 256 == ss;
    forall s | 0 <= s < 65536 ensures q[s] == r[256 * j + ss := true][s] { assert s == 256 * (s / 256) + s % 256; }
  }

  // ----- step 3

  /** The quadrant value for place j of a big bucket. */
  function QVal(j: nat, shifts: nat): nat { Halved(j, shifts) }

  lemma {:induction false} QValMonotone(i: nat, j: nat, shifts: nat)
    requires i <= j
    ensures QVal(i, shifts) <= QVal(j, shifts)
  {
    HalvedMonotone(i, j, shifts);
  }

  /** Entry p has its value, in the overshoot area too. */
  ghost predicate Marked(f: seq<int>, quad: seq<int>, n: nat, left: int, shifts: nat, p: int) {
    && 0 <= left <= p < |f| && 0 <= f[p] < n && |quad| == n + OVERSHOOT && quad[f[p]] == QVal(p - left, shifts)
    && (f[p] < OVERSHOOT ==> quad[n + f[p]] == QVal(p - left, shifts))
  }

  /** Index i of the quadrants belongs to another byte and is as it was. */
  ghost predicate Unmarked(b: seq<byte>, quad0: seq<int>, quad: seq<int>, ss: byte, i: int) {
    && |quad0| == |quad| == |b| + OVERSHOOT && |b| > OVERSHOOT && 0 <= i < |quad|
    && (b[At(|b|, i)] != ss ==> quad[i] == quad0[i])
  }

  ghost predicate Marking(c: Ctx, f: seq<int>, quad0: seq<int>, quad: seq<int>, shifts: nat, j: int) {
    && |quad0| == |quad| == |c.b| + OVERSHOOT && |c.b| > OVERSHOOT && 0 <= j <= Right(c) - Left(c)
    && (forall p :: Left(c) + j <= p < Right(c) ==> Marked(f, quad, |c.b|, Left(c), shifts, p))
    && (forall i :: 0 <= i < |quad| ==> Unmarked(c.b, quad0, quad, c.ss, i))
  }

  /** The quadrants with one entry of the big bucket marked. */
  function Mark(quad: seq<int>, n: nat, a: nat, q: int): seq<int>
    requires a < n && |quad| == n + OVERSHOOT
  {
    if a < OVERSHOOT then quad[a := q][n + a := q] else quad[a := q]
  }

  lemma MarkingStep(c: Ctx, f: seq<int>, quad0: seq<int>, quad: seq<int>, shifts: nat, j: int)
    requires Marking(c, f, quad0, quad, shifts, j) && j > 0 && Homed(c.b, f)
    ensures 0 <= Left(c) + j - 1 < |f| && 0 <= f[Left(c) + j - 1] < |c.b|
    ensures Marking(c, f, quad0, Mark(quad, |c.b|, f[Left(c) + j - 1], QVal(j - 1, shifts)), shifts, j - 1)
  {
    hide Homed, Left, Right, QVal;
    PermOf(c.b, f);
    Bounds(c, c.ss);
    var p0 := Left(c) + j - 1;
    BigByte(c, f, p0);
    var n, a, q := |c.b|, f[p0], QVal(j - 1, shifts);
    var quad' := Mark(quad, n, a, q);
    forall p | p0 <= p < Right(c) ensures Marked(f, quad', n, Left(c), shifts, p) {
      if p > p0 {
        assert Marked(f, quad, n, Left(c), shifts, p);
        PermDistinct(f, n, p0, p);
      }
    }
    forall i | 0 <= i < |quad'| ensures Unmarked(c.b, quad0, quad', c.ss, i) {
      assert Unmarked(c.b, quad0, quad, c.ss, i);
      assert i == a || i == n + a ==> At(n, i) == a;
    }
  }

  lemma MarkingStarts(c: Ctx, f: seq<int>, quad: seq<int>, shifts: nat)
    requires |quad| == |c.b| + OVERSHOOT && |c.b| > OVERSHOOT
    ensures Marking(c, f, quad, quad, shifts, Right(c) - Left(c))
  {
    hide Left, Right;
    Bounds(c, c.ss);
  }

  /** Where an index with byte ss has its value from. */
  lemma MarkedIndex(c: Ctx, f: seq<int>, quad0: seq<int>, quad: seq<int>, shifts: nat, i: int) returns (p: nat)
    requires Marking(c, f, quad0, quad, shifts, 0) && Homed(c.b, f) && 0 <= i < |quad| && c.b[At(|c.b|, i)] == c.ss
    ensures Left(c) <= p < Right(c) && p < |f| && f[p] == At(|c.b|, i) && quad[i] == QVal(p - Left(c), shifts)
  {
    hide Homed, QVal, From;
    PermOf(c.b, f);
    p := PermSurjective(f, |c.b|, At(|c.b|, i));
    HomedAt(c.b, f, p);
    var s: int := c.ss;
    HomeRange(c.b, f, p, 256 * s, 256 * s + 256);
    assert Marked(f, quad, |c.b|, Left(c), shifts, p);
  }

  /** The new quadrants tell the truth, now that the big bucket is sorted. */
  lemma QuadrantUpdated(c: Ctx, f: seq<int>, flags: seq<bool>, quad0: seq<int>, quad: seq<int>, shifts: nat)
    requires QuadrantOk(c.b, quad0) && Marking(c, f, quad0, quad, shifts, 0) && Flagged(c.b, f, flags)
    requires forall x :: 0 <= x < |c.b| && c.b[x] == c.ss ==> flags[Word(c.b, x)]
    requires Left(c) <= Right(c) && QVal(Right(c) - Left(c), shifts) < 0x1_0000
    ensures QuadrantOk(c.b, quad)
  {
    hide Flagged, Homed, QVal, Left, Right, Ranks, Marked;
    FlaggedFacts(c.b, f, flags);
    forall i | 0 <= i < |quad| ensures 0 <= quad[i] < 0x1_0000 {
      assert Unmarked(c.b, quad0, quad, c.ss, i);
      if c.b[At(|c.b|, i)] == c.ss {
        var p := MarkedIndex(c, f, quad0, quad, shifts, i);
        QValMonotone(p - Left(c), Right(c) - Left(c), shifts);
      }
    }
    forall i, j | 0 <= i < |quad| && 0 <= j < |quad| ensures QuadrantTells(c.b, quad, i, j) {
      assert QuadrantTells(c.b, quad0, i, j) && Unmarked(c.b, quad0, quad, c.ss, i)
        && Unmarked(c.b, quad0, quad, c.ss, j);
      if c.b[At(|c.b|, i)] == c.b[At(|c.b|, j)] == c.ss && quad[i] < quad[j] {
        var p := MarkedIndex(c, f, quad0, quad, shifts, i);
        var q := MarkedIndex(c, f, quad0, quad, shifts, j);
        if q <= p { QValMonotone(q - Left(c), p - Left(c), shifts); }
        InOrder(c.b, f, flags, p, q);
        RankOrder(c.b, f[p], f[q]);
      }
    }
  }

  /** Step 3: the entries of the finished big bucket get their order, shifted until it has 16
      bits, as quadrant values. Assertion 1002 holds. */
  method UpdateQuadrants(ptr: array<int>, quadrant: array<int>, nblock: nat, bbStart: nat, bbSize: nat, ghost c: Ctx,
                         ghost flags: seq<bool>)
    returns (ghost shifts: nat)
    requires ptr != quadrant && ptr.Length == nblock == |c.b| <= 900000 && quadrant.Length == nblock + OVERSHOOT
    requires bbStart == Left(c) && bbStart + bbSize == Right(c) && Flagged(c.b, ptr[..], flags)
             && QuadrantOk(c.b, quadrant[..])
    requires forall x :: 0 <= x < |c.b| && c.b[x] == c.ss ==> flags[Word(c.b, x)]
    modifies quadrant
    ensures QuadrantOk(c.b, quadrant[..])
    ensures Marking(c, ptr[..], old(quadrant[..]), quadrant[..], shifts, 0)
    ensures QVal(bbSize, shifts) <= 65534 && (shifts > 0 ==> QVal(bbSize, shifts - 1) > 65534)
    ensures forall j: nat :: j < bbSize ==> QVal(j, shifts) <= 65535
  {
    hide *;
    ghost var quad0, f := quadrant[..], ptr[..];
    QuadrantSize(c.b, quad0);
    FlaggedFacts(c.b, f, flags);
    Bounds(c, c.ss);
    var s := 0;
    ShiftsEnd(bbSize);
    while QVal(bbSize, s) > 65534
      invariant s <= 4 && (s > 0 ==> QVal(bbSize, s - 1) > 65534)
      decreases 4 - s
    {
      s := s + 1;
    }
    shifts := s;
    MarkingStarts(c, f, quad0, shifts);
    var j := bbSize;
    while j > 0
      invariant 0 <= j <= bbSize && Marking(c, f, quad0, quadrant[..], shifts, j)
    {
      MarkingStep(c, f, quad0, quadrant[..], shifts, j);
      QValMonotone(j - 1, bbSize, shifts);
      MarkOne(quadrant, nblock, ptr[bbStart + j - 1], QVal(j - 1, s) % 0x1_0000);
      j := j - 1;
    }
    QuadrantUpdated(c, f, flags, quad0, quadrant[..], shifts);
    forall i: nat | i < bbSize ensures QVal(i, shifts) <= 65535 { QValMonotone(i, bbSize, shifts); }
  }

  lemma QuadrantSize(b: seq<byte>, quad: seq<int>)
    requires QuadrantOk(b, quad)
    ensures |b| > OVERSHOOT && |quad| == |b| + OVERSHOOT
  {
  }

  lemma ShiftsEnd(n: nat)
    requires n <= 900000
    ensures QVal(n, 4) <= 65534
  {
    HalvedMonotone(n, 900000, 4);
    assert Halved(900000, 4) == 56250;
  }

  method MarkOne(quadrant: array<int>, nblock: nat, a2update: nat, qVal: int)
    requires a2update < nblock && quadrant.Length == nblock + OVERSHOOT && nblock > OVERSHOOT
    modifies quadrant
    ensures quadrant[..] == Mark(old(quadrant[..]), nblock, a2update, qVal)
  {
    quadrant[a2update] := qVal;
    if a2update < OVERSHOOT { quadrant[a2update + nblock] := qVal; }
  }

  // ----- the initial radix sort

  /** The words behind place i are counted. */
  ghost predicate Counted(b: seq<byte>, ft: seq<int>, i: nat) {
    i <= |b| && |ft| == 65537 && ft[65536] == 0 && forall s :: 0 <= s < 65536 ==> CountedAt(b, ft, i, s)
  }

  ghost predicate CountedAt(b: seq<byte>, ft: seq<int>, i: nat, s: int)
    requires i <= |b| && |ft| == 65537
  {
    0 <= s < 65536 && ft[s] + Occ(Words(b)[..i], s) == Occ(Words(b), s)
  }

  lemma CountedStep(b: seq<byte>, ft: seq<int>, i: nat)
    requires Counted(b, ft, i) && i > 0
    ensures var s := Word(b, i - 1); 0 <= s < 65536 && Counted(b, ft[s := ft[s] + 1], i - 1)
  {
    var w, s := Words(b), Word(b, i - 1);
    var ft' := ft[s := ft[s] + 1];
    assert w[..i][..i - 1] == w[..i - 1] && w[..i][i - 1] == s;
    var before := i - 1;
    forall u | 0 <= u < 65536 ensures CountedAt(b, ft', before, u) { assert CountedAt(b, ft, i, u); }
  }

  lemma CountedStarts(b: seq<byte>, ft: seq<int>)
    requires |ft| == 65537 && forall s :: 0 <= s <= 65536 ==> ft[s] == 0
    ensures Counted(b, ft, |b|)
  {
    assert Words(b)[..|b|] == Words(b);
  }

  lemma CountedEnds(b: seq<byte>, ft: seq<int>)
    requires Counted(b, ft, 0)
    ensures |ft| == 65537 && ft[65536] == 0 && forall s :: 0 <= s < 65536 ==> ft[s] == Occ(Words(b), s)
  {
    assert Words(b)[..0] == [];
    forall s | 0 <= s < 65536 ensures ft[s] == Occ(Words(b), s) { assert CountedAt(b, ft, 0, s); }
  }

  /** The two bytes at i from the byte after it and its own: the 16-bit shift register. */
  lemma WordStep(b: seq<byte>, i: nat, j: int)
    requires i < |b| && j / 256 == b[Next(|b|, i)]
    ensures var c: int := b[i]; j / 256 + 256 * c == Word(b, i) && Word(b, i) / 256 == b[i]
  {
  }

  /** Counts the words from the last place to the first, four at a time in the source, and
      clears the quadrants. */
  method CountWords(block: seq<byte>, quadrant: array<int>, ftab: array<int>, nblock: nat, ghost b: seq<byte>)
    requires quadrant != ftab && ftab.Length == 65537 && 0 < nblock == |b| <= |block| && nblock <= quadrant.Length
             && block[..nblock] == b
    modifies quadrant, ftab
    ensures Counted(b, ftab[..], 0) && forall i :: 0 <= i < nblock ==> quadrant[i] == 0
  {
    hide *;
    var i := 65537;
    while i > 0
      invariant 0 <= i <= 65537 && forall s :: i <= s < 65537 ==> ftab[s] == 0
    {
      i := i - 1;
      ftab[i] := 0;
    }
    assert forall s :: 0 <= s <= 65536 ==> ftab[..][s] == 0;
    CountedStarts(b, ftab[..]);
    assert block[0] == b[0];
    var first: int := block[0];
    var j := 256 * first;
    i := nblock;
    ghost var next := 0;
    NextOfPrev(nblock, 0);
    while i > 0
      invariant 0 <= i <= nblock && Counted(b, ftab[..], i) && 0 <= next < nblock && j / 256 == b[next]
      invariant i > 0 ==> next == Next(nblock, i - 1)
      invariant forall k :: i <= k < nblock ==> quadrant[k] == 0
    {
      i := i - 1;
      assert block[i] == b[i];
      var c1: int := block[i];
      WordStep(b, i, j);
      CountedStep(b, ftab[..], i + 1);
      ghost var ft := ftab[..];
      quadrant[i] := 0;
      j := j / 256 + 256 * c1;
      ftab[j] := ftab[j] + 1;
      assert ftab[..] == ft[j := ft[j] + 1];
      next := i;
      NextOfPrev(nblock, i);
    }
  }

  lemma NextOfPrev(n: nat, i: nat)
    requires i < n
    ensures Next(n, n - 1) == 0
    ensures i > 0 ==> Next(n, i - 1) == i
  {
  }

  /** Running sums make the counts the ends of the small buckets. */
  ghost predicate Summed(b: seq<byte>, ft: seq<int>, k: nat) {
    && 1 <= k <= 65537 == |ft|
    && (forall s :: 0 <= s < k ==> ft[s] == From(b, s + 1))
    && (forall s :: k <= s < 65536 ==> ft[s] == Occ(Words(b), s)) && (k <= 65536 ==> ft[65536] == 0)
  }

  lemma SummedStarts(b: seq<byte>, ft: seq<int>)
    requires Counted(b, ft, 0)
    ensures Summed(b, ft, 1)
  {
    CountedEnds(b, ft);
    NoneBelow(Words(b));
    CountStep(Words(b), 0);
    hide CountLess, Occ;
  }

  lemma {:induction false} NoneBelow(w: seq<int>)
    requires forall i :: 0 <= i < |w| ==> 0 <= w[i] < 65536
    ensures CountLess(w, 0) == 0 && CountLess(w, 65536) == |w| && CountLess(w, 65537) == |w| && Occ(w, 65536) == 0
  {
    if w != [] { NoneBelow(w[..|w| - 1]); }
  }

  lemma SummedStep(b: seq<byte>, ft: seq<int>, k: nat)
    requires Summed(b, ft, k) && k < 65537
    ensures Summed(b, ft[k := ft[k] + ft[k - 1]], k + 1)
  {
    CountStep(Words(b), k);
    NoneBelow(Words(b));
    hide CountLess, Occ;
    assert ft[k - 1] == From(b, k);
    assert ft[k] == Occ(Words(b), k);
  }

  method SumWords(ftab: array<int>, ghost b: seq<byte>)
    requires Counted(b, ftab[..], 0)
    modifies ftab
    ensures Summed(b, ftab[..], 65537)
  {
    CountedEnds(b, ftab[..]);
    hide *;
    SummedStarts(b, ftab[..]);
    var i := 1;
    while i <= 65536
      invariant 1 <= i <= 65537 && Summed(b, ftab[..], i)
    {
      ghost var ft := ftab[..];
      SummedStep(b, ft, i);
      ftab[i] := ftab[i] + ftab[i - 1];
      assert ftab[..] == ft[i := ft[i] + ft[i - 1]];
      i := i + 1;
    }
  }

  /** The places from i on are sorted in; the others still have room below the ends. */
  ghost predicate Placing(b: seq<byte>, ft: seq<int>, f: seq<int>, i: nat) {
    && i <= |b| == |f| && |ft| == 65537
    && (forall s :: 0 <= s < 65536 ==> EndAt(b, ft, i, s)) && ft[65536] == From(b, 65536)
    && (forall k :: i <= k < |b| ==> PlacedAt(b, f, k))
  }

  ghost predicate EndAt(b: seq<byte>, ft: seq<int>, i: nat, s: int)
    requires i <= |b| && |ft| == 65537
  {
    0 <= s < 65536 && ft[s] == From(b, s) + Occ(Words(b)[..i], s)
  }

  ghost predicate PlacedAt(b: seq<byte>, f: seq<int>, k: nat)
    requires |f| == |b|
  {
    k < |b| && Slot(Words(b), k) < |f| && f[Slot(Words(b), k)] == k
  }

  lemma PlacingStarts(b: seq<byte>, ft: seq<int>, f: seq<int>)
    requires Summed(b, ft, 65537) && |f| == |b|
    ensures Placing(b, ft, f, |b|)
  {
    var w := Words(b);
    assert w[..|b|] == w;
    NoneBelow(w);
    forall s | 0 <= s < 65536 ensures EndAt(b, ft, |b|, s) { CountStep(w, s); }
    hide CountLess, Occ;
  }

  lemma PlacingStep(b: seq<byte>, ft: seq<int>, f: seq<int>, i: nat)
    requires Placing(b, ft, f, i) && i > 0
    ensures var s := Word(b, i - 1); var p := ft[s] - 1;
            0 <= s < 65536 < |ft| && 0 <= p < |f| && Placing(b, ft[s := p], f[p := i - 1], i - 1)
  {
    var w, s := Words(b), Word(b, i - 1);
    var p := ft[s] - 1;
    assert EndAt(b, ft, i, s);
    assert w[..i][..i - 1] == w[..i - 1] && w[..i][i - 1] == s;
    assert p == Slot(w, i - 1);
    var ft', f' := ft[s := p], f[p := i - 1];
    var before := i - 1;
    forall u | 0 <= u < 65536 ensures EndAt(b, ft', before, u) { assert EndAt(b, ft, i, u); }
    forall k | i - 1 <= k < |b| ensures PlacedAt(b, f', k) {
      if k >= i {
        assert PlacedAt(b, f, k);
        SlotInjective(w, i - 1, k);
      }
    }
  }

  /** Sorts the places by their words, from the last to the first. */
  method PlaceWords(ptr: array<int>, block: seq<byte>, ftab: array<int>, nblock: nat, ghost b: seq<byte>)
    requires ptr != ftab && 0 < nblock == |b| == ptr.Length <= |block| && block[..nblock] == b
             && Summed(b, ftab[..], 65537)
    modifies ptr, ftab
    ensures Placing(b, ftab[..], ptr[..], 0)
  {
    hide *;
    PlacingStarts(b, ftab[..], ptr[..]);
    assert block[0] == b[0];
    var first: int := block[0];
    var s := 256 * first;
    var i := nblock;
    ghost var next := 0;
    NextOfPrev(nblock, 0);
    while i > 0
      invariant 0 <= i <= nblock && Placing(b, ftab[..], ptr[..], i) && 0 <= next < nblock && s / 256 == b[next]
      invariant i > 0 ==> next == Next(nblock, i - 1)
    {
      i := i - 1;
      assert block[i] == b[i];
      var c1: int := block[i];
      WordStep(b, i, s);
      PlacingStep(b, ftab[..], ptr[..], i + 1);
      ghost var ft, f := ftab[..], ptr[..];
      s := s / 256 + 256 * c1;
      var j := ftab[s] - 1;
      ftab[s] := j;
      ptr[j] := i;
      assert ftab[..] == ft[s := j] && ptr[..] == f[j := i];
      next := i;
      NextOfPrev(nblock, i);
    }
  }

  /** No flag is set. */
  ghost function NoFlags(): (r: seq<bool>)
    ensures |r| == 65536 && forall s :: 0 <= s < 65536 ==> !r[s]
  {
    seq(65536, _ => false)
  }

  /** The radix sort brings every place home, and ftab holds the starts. */
  lemma PlacingEnds(b: seq<byte>, ft: seq<int>, f: seq<int>)
    requires Placing(b, ft, f, 0) && |b| <= 900000
    ensures Flagged(b, f, NoFlags()) && Table(b, ft, NoFlags())
  {
    var w := Words(b);
    assert w[..0] == [];
    forall s | 0 <= s < 65536 ensures TableAt(b, ft, NoFlags(), s) { assert EndAt(b, ft, 0, s); }
    hide From, Placing;
    PlacedHomed(b, ft, f);
  }

  lemma PlacedHomed(b: seq<byte>, ft: seq<int>, f: seq<int>)
    requires Placing(b, ft, f, 0)
    ensures Homed(b, f)
  {
    var w, slots := Words(b), WordSlots(b);
    hide CountLess, Occ;
    WordSlotsPerm(b);
    forall i | 0 <= i < |b| ensures f[slots[i]] == i { assert PlacedAt(b, f, i); }
    InverseIsPerm(slots, f, |b|);
    forall p | 0 <= p < |f| ensures AtHome(b, f, p) {
      var k := PermSurjective(slots, |b|, p);
      assert PlacedAt(b, f, k);
    }
  }

  function WordSlots(b: seq<byte>): (r: seq<int>)
    ensures |r| == |b| && forall i :: 0 <= i < |b| ==> r[i] == Slot(Words(b), i)
  {
    seq(|b|, i requires 0 <= i < |b| => Slot(Words(b), i))
  }

  lemma WordSlotsPerm(b: seq<byte>)
    ensures IsPerm(WordSlots(b), |b|)
  {
    hide CountLess, Occ;
    var p := WordSlots(b);
    forall i, j | 0 <= i < j < |b| ensures Differ(p, i, j) { SlotInjective(Words(b), i, j); }
  }

  // ----- the running order

  /** The size of the big bucket of c. */
  function BigFreq(ftab: seq<int>, c: int): int
    requires |ftab| == 65537 && 0 <= c < 256
  {
    ftab[256 * (c + 1)] - ftab[256 * c]
  }

  function BigFreqs(ftab: seq<int>): (r: seq<int>)
    requires |ftab| == 65537
    ensures |r| == 256 && forall c :: 0 <= c < 256 ==> r[c] == BigFreq(ftab, c)
  {
    seq(256, c requires 0 <= c < 256 => BigFreq(ftab, c))
  }

  /** With stride one, the entries greater than entry i have moved up by one as far as p. */
  ghost predicate PassedUp(f: seq<int>, g: seq<int>, ec: seq<int>, i: int, p: int) {
    && 0 <= p <= i < |f| && |g| == |f| && Indexes(f, |ec|)
    && (forall k :: p < k <= i ==> g[k] == f[k - 1])
    && (forall k :: p <= k < i ==> ec[f[k]] > ec[f[i]])
    && (forall k :: 0 <= k < p ==> g[k] == f[k])
  }

  lemma PassedStarts(f: seq<int>, ec: seq<int>, i: int)
    requires 0 <= i < |f| && Indexes(f, |ec|)
    ensures PassedUp(f, f, ec, i, i)
  {
  }

  lemma PassedOne(f: seq<int>, g: seq<int>, ec: seq<int>, i: int, j: int)
    requires PassedUp(f, g, ec, i, j) && j > 0 && Indexes(g, |ec|) && ec[g[j - 1]] > ec[f[i]]
    ensures PassedUp(f, g[j := g[j - 1]], ec, i, j - 1)
  {
  }

  lemma PassedSorted(f: seq<int>, g: seq<int>, ec: seq<int>, i: int, p: int)
    requires PassedUp(f, g, ec, i, p) && Indexes(g, |ec|) && SortedBy(f, ec, 0, i - 1)
    requires p > 0 ==> ec[g[p - 1]] <= ec[f[i]]
    ensures Indexes(g[p := f[i]], |ec|) && SortedBy(g[p := f[i]], ec, 0, i)
  {
    var g' := g[p := f[i]];
    assert Indexes(g', |ec|);
    forall a, b | 0 <= a < b <= i ensures KeyLe(g', ec, a, b) {
      if b < p {
        assert KeyLe(f, ec, a, b);
      } else if a > p {
        assert KeyLe(f, ec, a - 1, b - 1);
      } else if a < p {
        if a < p - 1 { assert KeyLe(f, ec, a, p - 1); }
        if b > p { assert KeyLe(f, ec, a, b - 1); }
      }
    }
  }

  /** One insertion of the shell sort of the big buckets by size. */
  method InsertBig(order: array<int>, ftab: seq<int>, h: nat, i: nat)
    requires order.Length == 256 && |ftab| == 65537 && 1 <= h <= i < 256 && Indexes(order[..], 256)
    modifies order
    ensures Rearranged(old(order[..]), order[..], 0, 255) && Indexes(order[..], 256)
    ensures h == 1 && SortedBy(old(order[..]), BigFreqs(ftab), 0, i - 1) ==> SortedBy(order[..], BigFreqs(ftab), 0, i)
  {
    hide *;
    ghost var f, ec := order[..], BigFreqs(ftab);
    PassedStarts(f, ec, i);
    HoleAtFirst(f, i);
    HoleIndex(f, f, i, f[i], 0, 255, 256, i);
    var vv := order[i];
    var j := i;
    var moving := true;
    while moving
      invariant 0 <= j <= i && (moving ==> h <= j) && HoleOpen(f, order[..], j, vv, 0, 255, 256)
      invariant h == 1 ==> PassedUp(f, order[..], ec, i, j)
      invariant h == 1 && !moving && j > 0 ==> 0 <= order[j - 1] < 256 && ec[order[j - 1]] <= ec[vv]
      decreases j, moving
    {
      ghost var g := order[..];
      HoleIndex(f, g, j, vv, 0, 255, 256, j - h);
      assert g[j - h] == order[j - h];
      if BigFreq(ftab, order[j - h]) > BigFreq(ftab, vv) {
        HoleStep(f, g, j, j - h, vv, 0, 255, 256);
        if h == 1 { PassedOne(f, g, ec, i, j); }
        order[j] := order[j - h];
        assert order[..] == g[j := g[j - h]];
        j := j - h;
        if j <= h - 1 { moving := false; }
      } else {
        moving := false;
      }
    }
    ghost var g := order[..];
    HoleFilled(f, g, j, vv, 0, 255, 256);
    HoleIndex(f, g, j, vv, 0, 255, 256, j);
    if h == 1 && SortedBy(f, ec, 0, i - 1) { PassedSorted(f, g, ec, i, j); }
    order[j] := vv;
    assert order[..] == g[j := vv];
  }

  lemma HoleAtFirst(f: seq<int>, i: int)
    requires |f| == 256 && 0 <= i < 256 && Indexes(f, 256)
    ensures HoleOpen(f, f, i, f[i], 0, 255, 256)
  {
    assert f[i := f[i]] == f;
  }

  /** The numbers of the big buckets, each once, the smaller buckets first. */
  method RunningOrder(ftab: seq<int>) returns (order: array<int>)
    requires |ftab| == 65537
    ensures fresh(order) && order.Length == 256 && IsPerm(order[..], 256)
    ensures forall p, q :: 0 <= p < q < 256 ==> BigFreq(ftab, order[p]) <= BigFreq(ftab, order[q])
  {
    order := new int[256](k => k);
    ghost var f := order[..];
    assert forall k :: 0 <= k < 256 ==> f[k] == k;
    InOrderIsPerm(f);
    SameRearranged(f, 0, 255);
    assert Indexes(f, 256);
    var h := 1;
    h := 3 * h + 1;
    while h <= 256
      invariant h == 4 || h == 13 || h == 40 || h == 121 || h == 364
      decreases 364 - h
    {
      h := 3 * h + 1;
    }
    hide Bag, IsPerm;
    while true
      invariant h == 364 || h == 121 || h == 40 || h == 13 || h == 4
      invariant Rearranged(f, order[..], 0, 255) && Indexes(order[..], 256)
      decreases h
    {
      h := h / 3;
      for i := h to 256
        invariant Rearranged(f, order[..], 0, 255) && Indexes(order[..], 256)
        invariant h == 1 ==> SortedBy(order[..], BigFreqs(ftab), 0, i - 1)
      {
        ghost var g := order[..];
        InsertBig(order, ftab, h, i);
        RearrangedTrans(f, g, order[..], 0, 255, 0, 255);
      }
      if h == 1 { break; }
    }
    Ascending(order[..], ftab);
    BagIs(f, order[..]);
    PermRearranged(f, order[..], 256);
  }

  lemma Ascending(f: seq<int>, ftab: seq<int>)
    requires |f| == 256 && |ftab| == 65537 && Indexes(f, 256) && SortedBy(f, BigFreqs(ftab), 0, 255)
    ensures forall p, q :: 0 <= p < q < 256 ==> BigFreq(ftab, f[p]) <= BigFreq(ftab, f[q])
  {
    forall p, q | 0 <= p < q < 256 ensures BigFreq(ftab, f[p]) <= BigFreq(ftab, f[q]) {
      assert KeyLe(f, BigFreqs(ftab), p, q);
    }
  }

  lemma InOrderIsPerm(f: seq<int>)
    requires |f| == 256 && forall k :: 0 <= k < 256 ==> f[k] == k
    ensures IsPerm(f, 256)
  {
    forall i, j | 0 <= i < j < 256 ensures Differ(f, i, j) { }
  }

  // ----- the main loop

  /** The big buckets of the first i numbers are done, the others are not. */
  ghost predicate Ran(order: seq<int>, done: seq<bool>, i: nat) {
    && IsPerm(order, 256) && |done| == 256 && i <= 256
    && forall k :: 0 <= k < 256 ==> RanAt(order, done, i, k)
  }

  ghost predicate RanAt(order: seq<int>, done: seq<bool>, i: nat, k: int)
    requires |order| == 256 && |done| == 256
  {
    0 <= k < 256 && 0 <= order[k] < 256 && (done[order[k]] <==> k < i)
  }

  lemma RanNext(order: seq<int>, done: seq<bool>, i: nat)
    requires Ran(order, done, i) && i < 256
    ensures 0 <= order[i] < 256 && !done[order[i]] && Ran(order, done[order[i] := true], i + 1)
  {
    assert RanAt(order, done, i, i);
    var done', next := done[order[i] := true], i + 1;
    forall k | 0 <= k < 256 ensures RanAt(order, done', next, k) {
      assert RanAt(order, done, i, k);
      if k != i { PermDistinct(order, 256, k, i); }
    }
  }

  lemma RanAll(order: seq<int>, done: seq<bool>)
    requires Ran(order, done, 256)
    ensures |done| == 256 && forall t :: 0 <= t < 256 ==> done[t]
  {
    forall t | 0 <= t < 256 ensures done[t] {
      var k := PermSurjective(order, 256, t);
      assert RanAt(order, done, 256, k);
    }
  }

  /** The flags after a big bucket has been finished. */
  ghost function BigSet(flags: seq<bool>, ss: byte): (r: seq<bool>)
    requires |flags| == 65536
    ensures |r| == 65536
  {
    ColumnSet(RowSet(flags, ss, 256), ss, 256)
  }

  lemma BigSetDone(done: seq<bool>, flags: seq<bool>, ss: byte)
    requires DoneFlags(done, flags)
    ensures DoneFlags(done, RowSet(flags, ss, 256)) && DoneFlags(done[ss := true], BigSet(flags, ss))
  {
  }

  lemma BigSetWords(b: seq<byte>, flags: seq<bool>, ss: byte)
    requires |flags| == 65536
    ensures forall x :: 0 <= x < |b| && b[x] == ss ==> BigSet(flags, ss)[Word(b, x)]
  {
    forall x | 0 <= x < |b| && b[x] == ss ensures BigSet(flags, ss)[Word(b, x)] {
      assert Word(b, x) / 256 == ss;
    }
  }

  lemma SetupTables(block: seq<byte>, quadrant: seq<int>, n: nat, b: seq<byte>)
    ensures Setup(block, quadrant, n, b, Ranks(b)) <==> Extended(block, n) && QuadrantOk(block[..n], quadrant)
                                                        && b == block[..n]
  {
  }

  /** One big bucket: steps 1, 2 and 3. */
  method FinishBig(ptr: array<int>, block: array<byte>, quadrant: array<int>, ftab: array<int>, bigDone: array<bool>,
                   nblock: nat, ss: byte, last: bool, budget0: int, ghost b: seq<byte>, ghost flags: seq<bool>)
    returns (budget: int)
    requires ptr != quadrant && ptr != ftab && quadrant != ftab && bigDone.Length == 256 && !bigDone[ss]
             && |flags| == 65536
    requires Sorting(block[..], quadrant[..], nblock, b, ptr[..], ftab[..], flags) && DoneFlags(bigDone[..], flags)
             && budget0 >= 0
    modifies ptr, quadrant, ftab, bigDone
    ensures budget <= budget0 && budget0 - budget <= Times(256, QuickWork(nblock, nblock))
    ensures budget >= 0 ==> bigDone[..] == old(bigDone[..])[ss := true]
    ensures budget >= 0 ==> Sorting(block[..], quadrant[..], nblock, b, ptr[..], ftab[..], BigSet(flags, ss))
    ensures budget >= 0 ==> DoneFlags(bigDone[..], BigSet(flags, ss))
  {
    hide *;
    SortingFacts(block[..], quadrant[..], nblock, b, ptr[..], ftab[..], flags);
    ghost var flags1, flags2 := RowSet(flags, ss, 256), BigSet(flags, ss);
    ghost var c := Ctx(b, ss, bigDone[..]);
    BigSetDone(bigDone[..], flags, ss);
    BigSetIs(flags, ss);
    budget := SortRow(ptr, block[..], quadrant[..], ftab, nblock, ss, budget0, b, flags);
    if budget < 0 { return; }
    RowIsDone(c, flags);
    MakeProper(c);
    ScanBucket(ptr, block, quadrant[..], ftab, bigDone, nblock, ss, c, flags1);
    bigDone[ss] := true;
    assert bigDone[..] == old(bigDone[..])[ss := true];
    if !last { MarkBig(ptr, block, quadrant, ftab, nblock, ss, c, flags, flags2); }
  }

  lemma BigSetIs(flags: seq<bool>, ss: byte)
    requires |flags| == 65536
    ensures BigSet(flags, ss) == ColumnSet(RowSet(flags, ss, 256), ss, 256)
  {
  }

  lemma MakeProper(c: Ctx)
    requires c.b != [] && |c.done| == 256 && !c.done[c.ss]
    ensures Proper(c)
  {
  }

  method MarkBig(ptr: array<int>, block: array<byte>, quadrant: array<int>, ftab: array<int>, nblock: nat, ss: byte,
                 ghost c: Ctx, ghost flags0: seq<bool>, ghost flags: seq<bool>)
    requires ptr != quadrant && quadrant != ftab && ss == c.ss && |flags0| == 65536 && flags == BigSet(flags0, ss)
    requires Sorting(block[..], quadrant[..], nblock, c.b, ptr[..], ftab[..], flags)
    modifies quadrant
    ensures Sorting(block[..], quadrant[..], nblock, c.b, ptr[..], ftab[..], flags)
  {
    hide *;
    OvershootIs();
    SortingFacts(block[..], quadrant[..], nblock, c.b, ptr[..], ftab[..], flags);
    SetupTables(block[..], quadrant[..], nblock, c.b);
    var base: int := ss;
    TableEntry(c.b, ftab[..], flags, 256 * base);
    TableEntry(c.b, ftab[..], flags, 256 * base + 256);
    BigBounds(c);
    Bounds(c, c.ss);
    BigSetWords(c.b, flags0, ss);
    var bbStart := Cleared(ftab[256 * base]);
    var bbSize := Cleared(ftab[256 * (base + 1)]) - bbStart;
    ghost var _ := UpdateQuadrants(ptr, quadrant, nblock, bbStart, bbSize, c, flags);
    SetupTables(block[..], quadrant[..], nblock, c.b);
    MakeSorting(block[..], quadrant[..], nblock, c.b, ptr[..], ftab[..], flags);
  }

  /** The first bytes are repeated behind the block, with their quadrants clear. */
  method FillOvershoot(block: array<byte>, quadrant: array<int>, nblock: nat)
    requires nblock > OVERSHOOT && block.Length == quadrant.Length == nblock + OVERSHOOT
    requires forall i :: 0 <= i < nblock ==> quadrant[i] == 0
    modifies block, quadrant
    ensures Extended(block[..], nblock) && block[..nblock] == old(block[..nblock])
            && QuadrantOk(block[..nblock], quadrant[..])
  {
    for i := 0 to OVERSHOOT
      invariant forall k :: 0 <= k < i ==> block[nblock + k] == block[k]
      invariant forall k :: 0 <= k < nblock ==> block[k] == old(block[k])
      invariant forall k :: 0 <= k < nblock + i ==> quadrant[k] == 0
    {
      block[nblock + i] := block[i];
      quadrant[nblock + i] := 0;
    }
    ClearQuadrants(block[..nblock], quadrant[..]);
  }

  lemma OvershootIs()
    ensures OVERSHOOT == 34
  {
  }

  lemma ClearQuadrants(b: seq<byte>, quad: seq<int>)
    requires |b| > OVERSHOOT && |quad| == |b| + OVERSHOOT && forall i :: 0 <= i < |quad| ==> quad[i] == 0
    ensures QuadrantOk(b, quad)
  {
  }

  /** What the sort can use of the budget at most. */
  function SortWork(n: nat): nat { Times(256, Times(256, QuickWork(n, n))) }

  lemma SortWorkIs(n: nat)
    ensures SortWork(n) == Times(256, Times(256, QuickWork(n, n)))
  {
    hide Times, QuickWork;
  }

  /** mainSort. The block is as it was; unless the budget is used up, ptr lists its rotations
      in order; and a budget of SortWork is never used up. */
  method MainSort(ptr: array<int>, block: array<byte>, quadrant: array<int>, ftab: array<int>, nblock: nat,
                  budget0: int)
    returns (budget: int)
    requires ptr != quadrant && ptr != ftab && quadrant != ftab
    requires OVERSHOOT < nblock <= 900000 && ptr.Length == nblock && ftab.Length == 65537
    requires block.Length == quadrant.Length == nblock + OVERSHOOT && budget0 >= 0
    modifies ptr, block, quadrant, ftab
    ensures block[..nblock] == old(block[..nblock])
    ensures budget >= 0 ==> IsRotationSort(block[..nblock], ptr[..])
    ensures budget <= budget0 && budget0 - budget <= SortWork(nblock)
  {
    hide *;
    SortWorkIs(nblock);
    ghost var unit := Times(256, QuickWork(nblock, nblock));
    TimesMore(0, unit);
    OvershootIs();
    ghost var b := block[..nblock];
    CountWords(block[..], quadrant, ftab, nblock, b);
    FillOvershoot(block, quadrant, nblock);
    assert block[..nblock] == block[..][..nblock];
    SumWords(ftab, b);
    PlaceWords(ptr, block[..], ftab, nblock, b);
    PlacingEnds(b, ftab[..], ptr[..]);
    SetupTables(block[..], quadrant[..], nblock, b);
    ghost var flags := NoFlags();
    MakeSorting(block[..], quadrant[..], nblock, b, ptr[..], ftab[..], flags);
    TableEntry(b, ftab[..], flags, 0);
    var runningOrder := RunningOrder(ftab[..]);
    var bigDone := new bool[256](_ => false);
    RanStarts(runningOrder[..], bigDone[..], flags);
    budget := budget0;
    for i := 0 to 256
      invariant fresh(bigDone) && fresh(runningOrder) && 0 <= budget <= budget0 && block[..nblock] == b
      invariant budget0 - budget <= Times(i, unit)
      invariant runningOrder.Length == bigDone.Length == 256 && |flags| == 65536
      invariant Ran(runningOrder[..], bigDone[..], i) && DoneFlags(bigDone[..], flags)
      invariant Sorting(block[..], quadrant[..], nblock, b, ptr[..], ftab[..], flags)
    {
      RanNext(runningOrder[..], bigDone[..], i);
      TimesMore(i, unit);
      TimesUp(i + 1, 256, unit, unit);
      var ss := runningOrder[i];
      budget := FinishBig(ptr, block, quadrant, ftab, bigDone, nblock, ss, i == 255, budget, b, flags);
      if budget < 0 { return; }
      flags := BigSet(flags, ss);
    }
    SortingFacts(block[..], quadrant[..], nblock, b, ptr[..], ftab[..], flags);
    RanAll(runningOrder[..], bigDone[..]);
    AllDone(bigDone[..], flags);
    AllFlagged(b, ptr[..], flags);
  }

  lemma RanStarts(order: seq<int>, done: seq<bool>, flags: seq<bool>)
    requires IsPerm(order, 256) && |done| == 256 && |flags| == 65536 && forall t :: 0 <= t < 256 ==> !done[t]
    ensures Ran(order, done, 0) && DoneFlags(done, flags)
  {
  }

  lemma AllDone(done: seq<bool>, flags: seq<bool>)
    requires DoneFlags(done, flags) && forall t :: 0 <= t < 256 ==> done[t]
    ensures |flags| == 65536 && forall s :: 0 <= s < 65536 ==> flags[s]
  {
  }
}
