/** fallbackSimpleSort and fallbackQSort3: sorting fmap[lo..hi] by eclass, in place. */
module QuickSort {
  import opened Counting

  /** fmap entries i and j are in order of their classes. */
  ghost predicate KeyLe(f: seq<int>, ec: seq<int>, i: int, j: int) {
    0 <= i < |f| && 0 <= j < |f| && 0 <= f[i] < |ec| && 0 <= f[j] < |ec| && ec[f[i]] <= ec[f[j]]
  }

  ghost predicate Indexes(f: seq<int>, n: nat) {
    forall i :: 0 <= i < |f| ==> 0 <= f[i] < n
  }

  /** f[lo..hi] (both ends included) ascends by class. */
  ghost predicate SortedBy(f: seq<int>, ec: seq<int>, lo: int, hi: int) {
    forall i, j {:trigger KeyLe(f, ec, i, j)} :: lo <= i < j <= hi ==> KeyLe(f, ec, i, j)
  }

  /** What f holds, order aside. */
  ghost function Bag(f: seq<int>): multiset<int> {
    multiset(f)
  }

  /** g is f with only the part from lo to hi rearranged. */
  ghost predicate Rearranged(f: seq<int>, g: seq<int>, lo: int, hi: int) {
    && |f| == |g|
    && Bag(f) == Bag(g)
    && (forall i :: 0 <= i < |f| && !(lo <= i <= hi) ==> g[i] == f[i])
  }

  lemma RearrangedIndexes(f: seq<int>, g: seq<int>, lo: int, hi: int, n: nat)
    requires Rearranged(f, g, lo, hi) && Indexes(f, n)
    ensures Indexes(g, n)
  {
    forall i | 0 <= i < |g| ensures 0 <= g[i] < n {
      assert g[i] in multiset(g) && g[i] in Bag(f);
      assert g[i] in f;
    }
  }

  lemma MiddleMultiset(a: seq<int>, m: seq<int>, m': seq<int>, z: seq<int>)
    requires multiset(a + m + z) == multiset(a + m' + z)
    ensures multiset(m) == multiset(m')
  {
    assert multiset(a + m + z) == multiset(a) + multiset(m) + multiset(z);
    assert multiset(a + m' + z) == multiset(a) + multiset(m') + multiset(z);
    var rest := multiset(a) + multiset(z);
    assert multiset(m) == multiset(a + m + z) - rest;
    assert multiset(m') == multiset(a + m' + z) - rest;
  }

  /** An element in the rearranged part comes from that part. */
  lemma RearrangedFrom(f: seq<int>, g: seq<int>, lo: nat, hi: int, i: nat) returns (k: nat)
    requires Rearranged(f, g, lo, hi) && lo <= i <= hi < |f|
    ensures lo <= k <= hi && f[k] == g[i]
  {
    var m, m' := f[lo..hi + 1], g[lo..hi + 1];
    assert f == f[..lo] + m + f[hi + 1..];
    assert g == f[..lo] + m' + f[hi + 1..];
    MiddleMultiset(f[..lo], m, m', f[hi + 1..]);
    assert m'[i - lo] in multiset(m);
    assert m'[i - lo] in m;
    var p :| 0 <= p < |m| && m[p] == m'[i - lo];
    k := lo + p;
  }

  function Swapped(f: seq<int>, i: int, j: int): (r: seq<int>)
    requires 0 <= i < |f| && 0 <= j < |f|
    ensures Bag(r) == Bag(f)
  {
    SwapKeepsMultiset(f, i, j);
    f[i := f[j]][j := f[i]]
  }

  method Swap(fmap: array<int>, i: int, j: int)
    requires 0 <= i < fmap.Length && 0 <= j < fmap.Length
    modifies fmap
    ensures fmap[..] == Swapped(old(fmap[..]), i, j)
    ensures Bag(fmap[..]) == Bag(old(fmap[..]))
  {
    ghost var f := fmap[..];
    fmap[i], fmap[j] := fmap[j], fmap[i];
    assert fmap[..] == Swapped(f, i, j);
  }

  /** The result of an insertion of stride one: entry i of f went to place p and
      the entries it passed, all of smaller class, moved down by one. */
  ghost predicate Inserted(f: seq<int>, g: seq<int>, ec: seq<int>, i: int, p: int, hi: int)
  {
    && 0 <= i <= p <= hi < |f| && |g| == |f| && Indexes(f, |ec|)
    && g[p] == f[i]
    && Passed(f, g, ec, i, p, hi)
    && (p < hi ==> ec[f[i]] <= ec[f[p + 1]])
  }

  lemma InsertionStarts(f: seq<int>, ec: seq<int>, i: int, hi: int)
    requires 0 <= i <= hi < |f| && Indexes(f, |ec|)
    ensures HoleOpen(f, f, i, f[i], i, hi, |ec|) && Passed(f, f, ec, i, i, hi)
  {
    assert f[i := f[i]] == f;
  }

  lemma InsertionPasses(f: seq<int>, g: seq<int>, ec: seq<int>, i: int, j: int, hi: int)
    requires Passed(f, g, ec, i, j - 1, hi) && j <= hi && Indexes(g, |ec|)
    requires ec[g[j]] < ec[f[i]]
    ensures Passed(f, g[j - 1 := g[j]], ec, i, j, hi)
  {
  }

  lemma InsertionStops(f: seq<int>, g: seq<int>, ec: seq<int>, i: int, p: int, hi: int)
    requires Passed(f, g, ec, i, p, hi) && Indexes(g, |ec|)
    requires p < hi ==> ec[f[i]] <= ec[g[p + 1]]
    ensures Inserted(f, g[p := f[i]], ec, i, p, hi)
  {
  }

  lemma InsertedSorted(f: seq<int>, g: seq<int>, ec: seq<int>, i: int, p: int, hi: int)
    requires Indexes(g, |ec|)
    requires Inserted(f, g, ec, i, p, hi) && SortedBy(f, ec, i + 1, hi)
    ensures SortedBy(g, ec, i, hi)
  {
    forall a, b | i <= a < b <= hi ensures KeyLe(g, ec, a, b) {
      if b < p {
        assert KeyLe(f, ec, a + 1, b + 1);
      } else if b > p {
        if p + 1 < b { assert KeyLe(f, ec, p + 1, b); }
        if a < p { assert ec[f[a + 1]] < ec[f[i]]; }
        if a > p { assert KeyLe(f, ec, a, b); }
      } else {
        assert ec[f[a + 1]] < ec[f[i]];
      }
    }
  }

  /** Moving the hole that waits for tmp from one place to another keeps the multiset. */
  lemma HoleMoves(s: seq<int>, hole: nat, j: nat, tmp: int)
    requires hole < |s| && j < |s| && hole != j
    ensures multiset(s[hole := s[j]][j := tmp]) == multiset(s[hole := tmp])
  {
    SwapKeepsMultiset(s[hole := tmp], hole, j);
    assert s[hole := s[j]][j := tmp] == s[hole := tmp][hole := s[j]][j := tmp];
  }

  /** The state of an insertion: the multiset as if tmp already filled the hole. */
  ghost predicate HoleOpen(f: seq<int>, g: seq<int>, hole: int, tmp: int, lo: int, hi: int, n: nat) {
    && |g| == |f| && 0 <= lo <= hole <= hi < |f|
    && Bag(g[hole := tmp]) == Bag(f)
    && Indexes(g, n)
    && (forall k :: 0 <= k < |f| && !(lo <= k <= hi) ==> g[k] == f[k])
  }

  lemma HoleStep(f: seq<int>, g: seq<int>, hole: int, j: int, tmp: int, lo: int, hi: int, n: nat)
    requires HoleOpen(f, g, hole, tmp, lo, hi, n) && lo <= j <= hi && j != hole
    ensures HoleOpen(f, g[hole := g[j]], j, tmp, lo, hi, n)
  {
    HoleMoves(g, hole, j, tmp);
  }

  lemma HoleIndex(f: seq<int>, g: seq<int>, hole: int, tmp: int, lo: int, hi: int, n: nat, k: int)
    requires HoleOpen(f, g, hole, tmp, lo, hi, n) && 0 <= k < |g|
    ensures 0 <= g[k] < n && Indexes(g, n)
  {
  }

  lemma HoleFilled(f: seq<int>, g: seq<int>, hole: int, tmp: int, lo: int, hi: int, n: nat)
    requires HoleOpen(f, g, hole, tmp, lo, hi, n) && Indexes(f, n)
    ensures Rearranged(f, g[hole := tmp], lo, hi) && Indexes(g[hole := tmp], n)
  {
    RearrangedIndexes(f, g[hole := tmp], lo, hi, n);
  }

  /** One insertion of stride four: entry i moves up past smaller entries. */
  method InsertByFour(fmap: array<int>, eclass: seq<int>, i: int, hi: int)
    requires 0 <= i <= hi < fmap.Length
    requires Indexes(fmap[..], |eclass|)
    modifies fmap
    ensures Rearranged(old(fmap[..]), fmap[..], i, hi) && Indexes(fmap[..], |eclass|)
  {
    hide *;
    ghost var f, n := fmap[..], |eclass|;
    var tmp := fmap[i];
    InsertionStarts(f, eclass, i, hi);
    HoleIndex(f, f, i, tmp, i, hi, n, i);
    var ecTmp := eclass[tmp];
    var j := i + 4;
    ghost var g := f;
    while j <= hi && ecTmp > (HoleIndex(f, g, j - 4, tmp, i, hi, n, j); eclass[fmap[j]])
      invariant i + 4 <= j <= hi + 4
      invariant fmap[..] == g && HoleOpen(f, g, j - 4, tmp, i, hi, n)
    {
      HoleStep(f, g, j - 4, j, tmp, i, hi, n);
      fmap[j - 4] := fmap[j];
      g := g[j - 4 := g[j]];
      j := j + 4;
    }
    HoleFilled(f, g, j - 4, tmp, i, hi, n);
    fmap[j - 4] := tmp;
    assert fmap[..] == g[j - 4 := tmp];
  }

  /** One insertion of stride one, which extends the sorted part downwards. */
  method InsertByOne(fmap: array<int>, eclass: seq<int>, i: int, hi: int)
    requires 0 <= i <= hi < fmap.Length
    requires Indexes(fmap[..], |eclass|) && SortedBy(fmap[..], eclass, i + 1, hi)
    modifies fmap
    ensures Rearranged(old(fmap[..]), fmap[..], i, hi) && Indexes(fmap[..], |eclass|)
    ensures SortedBy(fmap[..], eclass, i, hi)
  {
    hide *;
    ghost var f, n := fmap[..], |eclass|;
    var tmp := fmap[i];
    InsertionStarts(f, eclass, i, hi);
    HoleIndex(f, f, i, tmp, i, hi, n, i);
    var ecTmp := eclass[tmp];
    var j := i + 1;
    ghost var g := f;
    while j <= hi && ecTmp > (HoleIndex(f, g, j - 1, tmp, i, hi, n, j); eclass[fmap[j]])
      invariant i + 1 <= j <= hi + 1
      invariant fmap[..] == g && HoleOpen(f, g, j - 1, tmp, i, hi, n)
      invariant Passed(f, g, eclass, i, j - 1, hi)
    {
      HoleStep(f, g, j - 1, j, tmp, i, hi, n);
      InsertionPasses(f, g, eclass, i, j, hi);
      fmap[j - 1] := fmap[j];
      g := g[j - 1 := g[j]];
      j := j + 1;
    }
    HoleFilled(f, g, j - 1, tmp, i, hi, n);
    HoleIndex(f, g, j - 1, tmp, i, hi, n, i);
    InsertionStops(f, g, eclass, i, j - 1, hi);
    fmap[j - 1] := tmp;
    assert fmap[..] == g[j - 1 := tmp];
    InsertedSorted(f, fmap[..], eclass, i, j - 1, hi);
  }

  /** The part of Inserted that holds while the entry is still on its way. */
  ghost predicate Passed(f: seq<int>, g: seq<int>, ec: seq<int>, i: int, p: int, hi: int)
  {
    && 0 <= i <= p <= hi < |f| && |g| == |f| && Indexes(f, |ec|)
    && (forall k :: i <= k < p ==> g[k] == f[k + 1])
    && (forall k :: i < k <= p ==> ec[f[k]] < ec[f[i]])
    && (forall k :: p < k <= hi ==> g[k] == f[k])
  }

  lemma RearrangedTrans(f: seq<int>, g: seq<int>, h: seq<int>, lo: int, hi: int, lo': int, hi': int)
    requires Rearranged(f, g, lo, hi) && Rearranged(g, h, lo', hi')
    requires lo <= lo' && hi' <= hi
    ensures Rearranged(f, h, lo, hi)
  {
  }

  /** Insertion sort with a first pass of stride four. */
  method FallbackSimpleSort(fmap: array<int>, eclass: seq<int>, lo: int, hi: int)
    requires 0 <= lo <= hi + 1 <= fmap.Length
    requires Indexes(fmap[..], |eclass|)
    modifies fmap
    ensures Rearranged(old(fmap[..]), fmap[..], lo, hi) && Indexes(fmap[..], |eclass|)
    ensures SortedBy(fmap[..], eclass, lo, hi)
  {
    if lo == hi { return; }
    ghost var f := fmap[..];
    if hi - lo > 3 {
      var i := hi - 4;
      while i >= lo
        invariant lo - 1 <= i <= hi - 4
        invariant Rearranged(f, fmap[..], lo, hi) && Indexes(fmap[..], |eclass|)
      {
        ghost var g := fmap[..];
        InsertByFour(fmap, eclass, i, hi);
        RearrangedTrans(f, g, fmap[..], lo, hi, i, hi);
        i := i - 1;
      }
    }
    var i := hi - 1;
    while i >= lo
      invariant i <= hi - 1 && (lo <= hi ==> lo - 1 <= i)
      invariant Rearranged(f, fmap[..], lo, hi) && Indexes(fmap[..], |eclass|)
      invariant SortedBy(fmap[..], eclass, i + 1, hi)
    {
      ghost var g := fmap[..];
      InsertByOne(fmap, eclass, i, hi);
      RearrangedTrans(f, g, fmap[..], lo, hi, i, hi);
      i := i - 1;
    }
  }

  /** f with the n entries from p1 and the n entries from p2 exchanged. */
  function Exchanged(f: seq<int>, p1: int, p2: int, n: int): (r: seq<int>)
    requires 0 <= p1 && 0 <= n && p1 + n <= p2 && p2 + n <= |f|
    ensures |r| == |f|
  {
    seq(|f|, k requires 0 <= k < |f| =>
      if p1 <= k < p1 + n then f[k + (p2 - p1)]
      else if p2 <= k < p2 + n then f[k - (p2 - p1)]
      else f[k])
  }

  lemma ExchangedStep(f: seq<int>, p1: int, p2: int, n: int)
    requires 0 <= p1 && 0 <= n && p1 + n < p2 && p2 + n < |f|
    ensures |Exchanged(f, p1, p2, n)| == |f|
    ensures var g := Exchanged(f, p1, p2, n);
            Swapped(g, p1 + n, p2 + n) == Exchanged(f, p1, p2, n + 1)
  {
  }

  lemma ExchangedNone(f: seq<int>, p1: int, p2: int)
    requires 0 <= p1 <= p2 <= |f|
    ensures Exchanged(f, p1, p2, 0) == f
  {
  }

  /** Exchanges the n entries from p1 with the n entries from p2. */
  method VectorSwap(fmap: array<int>, p1: int, p2: int, n: int)
    requires 0 <= p1 && 0 <= n && p1 + n <= p2 && p2 + n <= fmap.Length
    modifies fmap
    ensures Bag(fmap[..]) == Bag(old(fmap[..]))
    ensures fmap[..] == Exchanged(old(fmap[..]), p1, p2, n)
  {
    hide *;
    ghost var f, g, m := fmap[..], fmap[..], 0;
    var yy1, yy2, yyn := p1, p2, n;
    ExchangedNone(f, p1, p2);
    while yyn > 0
      invariant 0 <= yyn <= n && m == n - yyn && yy1 == p1 + m && yy2 == p2 + m
      invariant fmap[..] == g == Exchanged(f, p1, p2, m) && Bag(g) == Bag(f)
    {
      ExchangedStep(f, p1, p2, m);
      Swap(fmap, yy1, yy2);
      yy1, yy2, yyn := yy1 + 1, yy2 + 1, yyn - 1;
      g, m := fmap[..], m + 1;
    }
  }

  /** The class of entry k is on the given side of med: below (-1), equal (0), above (1). */
  ghost predicate OnSide(f: seq<int>, ec: seq<int>, k: int, med: int, side: int) {
    && 0 <= k < |f| && 0 <= f[k] < |ec|
    && (side < 0 ==> ec[f[k]] < med)
    && (side == 0 ==> ec[f[k]] == med)
    && (side > 0 ==> ec[f[k]] > med)
  }

  /** ... and so for all entries from lo up to but not including hi. */
  ghost predicate AllOnSide(f: seq<int>, ec: seq<int>, lo: int, hi: int, med: int, side: int) {
    forall k {:trigger OnSide(f, ec, k, med, side)} :: lo <= k < hi ==> OnSide(f, ec, k, med, side)
  }

  /** The five zones of the partitioning loop: equal, below, not yet seen, above, equal. */
  ghost predicate Zones(f: seq<int>, ec: seq<int>, lo: int, hi: int, ltLo: int, unLo: int, unHi: int, gtHi: int,
                        med: int) {
    && 0 <= lo <= ltLo <= unLo <= unHi + 1 && unHi <= gtHi <= hi < |f|
    && Indexes(f, |ec|)
    && AllOnSide(f, ec, lo, ltLo, med, 0)
    && AllOnSide(f, ec, ltLo, unLo, med, -1)
    && AllOnSide(f, ec, unHi + 1, gtHi + 1, med, 1)
    && AllOnSide(f, ec, gtHi + 1, hi + 1, med, 0)
  }

  /** An entry of class med lies at place w: it follows every exchange. */
  function Moved(w: int, i: int, j: int): int {
    if w == i then j else if w == j then i else w
  }

  lemma SwappedSide(f: seq<int>, ec: seq<int>, i: int, j: int, w: int, med: int)
    requires 0 <= i < |f| && 0 <= j < |f| && OnSide(f, ec, w, med, 0)
    ensures OnSide(Swapped(f, i, j), ec, Moved(w, i, j), med, 0)
  {
  }

  /** Exchanging two entries outside a zone leaves the zone as it is. */
  lemma ZoneKept(f: seq<int>, ec: seq<int>, i: int, j: int, lo: int, hi: int, med: int, side: int)
    requires 0 <= i < |f| && 0 <= j < |f| && AllOnSide(f, ec, lo, hi, med, side)
    requires !(lo <= i < hi) && !(lo <= j < hi)
    ensures AllOnSide(Swapped(f, i, j), ec, lo, hi, med, side)
  {
    forall k | lo <= k < hi ensures OnSide(Swapped(f, i, j), ec, k, med, side) {
      assert OnSide(f, ec, k, med, side);
    }
  }

  /** A zone grows by one place at its upper end. */
  lemma ZoneGrowsUp(f: seq<int>, ec: seq<int>, lo: int, hi: int, med: int, side: int)
    requires lo <= hi && AllOnSide(f, ec, lo, hi, med, side) && OnSide(f, ec, hi, med, side)
    ensures AllOnSide(f, ec, lo, hi + 1, med, side)
  {
    forall k | lo <= k < hi + 1 ensures OnSide(f, ec, k, med, side) {
      if k < hi { assert OnSide(f, ec, k, med, side); }
    }
  }

  /** A zone grows by one place at its lower end. */
  lemma ZoneGrowsDown(f: seq<int>, ec: seq<int>, lo: int, hi: int, med: int, side: int)
    requires AllOnSide(f, ec, lo + 1, hi, med, side) && (lo < hi ==> OnSide(f, ec, lo, med, side))
    ensures AllOnSide(f, ec, lo, hi, med, side)
  {
    forall k | lo <= k < hi ensures OnSide(f, ec, k, med, side) {
      if k > lo { assert OnSide(f, ec, k, med, side); }
    }
  }

  /** Moving the first entry of a zone to the place just after it shifts the zone up. */
  lemma ZoneRolls(f: seq<int>, ec: seq<int>, lo: int, hi: int, med: int, side: int)
    requires 0 <= lo <= hi < |f| && AllOnSide(f, ec, lo, hi, med, side)
    ensures AllOnSide(Swapped(f, hi, lo), ec, lo + 1, hi + 1, med, side)
    ensures AllOnSide(Swapped(f, lo, hi), ec, lo + 1, hi + 1, med, side)
  {
    forall k | lo + 1 <= k < hi + 1
      ensures OnSide(Swapped(f, hi, lo), ec, k, med, side)
      ensures OnSide(Swapped(f, lo, hi), ec, k, med, side)
    {
      if k < hi { assert OnSide(f, ec, k, med, side); } else { assert OnSide(f, ec, lo, med, side); }
    }
  }

  /** ... and moving its last entry to the place just before it shifts it down. */
  lemma ZoneRollsDown(f: seq<int>, ec: seq<int>, lo: int, hi: int, med: int, side: int)
    requires 0 <= lo <= hi < |f| && AllOnSide(f, ec, lo + 1, hi + 1, med, side)
    ensures AllOnSide(Swapped(f, lo, hi), ec, lo, hi, med, side)
  {
    forall k | lo <= k < hi ensures OnSide(Swapped(f, lo, hi), ec, k, med, side) {
      if k > lo { assert OnSide(f, ec, k, med, side); } else { assert OnSide(f, ec, hi, med, side); }
    }
  }

  lemma SwappedIndexes(f: seq<int>, i: int, j: int, n: nat)
    requires 0 <= i < |f| && 0 <= j < |f| && Indexes(f, n)
    ensures Indexes(Swapped(f, i, j), n)
  {
  }

  lemma ZonesEqualLow(f: seq<int>, ec: seq<int>, lo: int, hi: int, ltLo: int, unLo: int, unHi: int, gtHi: int,
                      med: int)
    requires Zones(f, ec, lo, hi, ltLo, unLo, unHi, gtHi, med)
    requires unLo <= unHi && OnSide(f, ec, unLo, med, 0)
    ensures Zones(Swapped(f, unLo, ltLo), ec, lo, hi, ltLo + 1, unLo + 1, unHi, gtHi, med)
  {
    hide AllOnSide;
    SwappedIndexes(f, unLo, ltLo, |ec|);
    ZoneKept(f, ec, unLo, ltLo, lo, ltLo, med, 0);
    ZoneGrowsUp(Swapped(f, unLo, ltLo), ec, lo, ltLo, med, 0);
    ZoneRolls(f, ec, ltLo, unLo, med, -1);
    ZoneKept(f, ec, unLo, ltLo, unHi + 1, gtHi + 1, med, 1);
    ZoneKept(f, ec, unLo, ltLo, gtHi + 1, hi + 1, med, 0);
  }

  lemma ZonesEqualHigh(f: seq<int>, ec: seq<int>, lo: int, hi: int, ltLo: int, unLo: int, unHi: int, gtHi: int,
                       med: int)
    requires Zones(f, ec, lo, hi, ltLo, unLo, unHi, gtHi, med)
    requires unLo <= unHi && OnSide(f, ec, unHi, med, 0)
    ensures Zones(Swapped(f, unHi, gtHi), ec, lo, hi, ltLo, unLo, unHi - 1, gtHi - 1, med)
  {
    hide AllOnSide;
    SwappedIndexes(f, unHi, gtHi, |ec|);
    ZoneKept(f, ec, unHi, gtHi, gtHi + 1, hi + 1, med, 0);
    ZoneGrowsDown(Swapped(f, unHi, gtHi), ec, gtHi, hi + 1, med, 0);
    ZoneRollsDown(f, ec, unHi, gtHi, med, 1);
    ZoneKept(f, ec, unHi, gtHi, lo, ltLo, med, 0);
    ZoneKept(f, ec, unHi, gtHi, ltLo, unLo, med, -1);
  }

  lemma ZonesExchange(f: seq<int>, ec: seq<int>, lo: int, hi: int, ltLo: int, unLo: int, unHi: int, gtHi: int,
                      med: int)
    requires Zones(f, ec, lo, hi, ltLo, unLo, unHi, gtHi, med)
    requires unLo <= unHi && OnSide(f, ec, unLo, med, 1) && OnSide(f, ec, unHi, med, -1)
    ensures unLo < unHi
    ensures Zones(Swapped(f, unLo, unHi), ec, lo, hi, ltLo, unLo + 1, unHi - 1, gtHi, med)
  {
    hide AllOnSide;
    var g := Swapped(f, unLo, unHi);
    SwappedIndexes(f, unLo, unHi, |ec|);
    ZoneKept(f, ec, unLo, unHi, lo, ltLo, med, 0);
    ZoneKept(f, ec, unLo, unHi, ltLo, unLo, med, -1);
    ZoneGrowsUp(g, ec, ltLo, unLo, med, -1);
    ZoneKept(f, ec, unLo, unHi, unHi + 1, gtHi + 1, med, 1);
    ZoneGrowsDown(g, ec, unHi, gtHi + 1, med, 1);
    ZoneKept(f, ec, unLo, unHi, gtHi + 1, hi + 1, med, 0);
  }

  lemma ZonesSeenLow(f: seq<int>, ec: seq<int>, lo: int, hi: int, ltLo: int, unLo: int, unHi: int, gtHi: int,
                     med: int)
    requires Zones(f, ec, lo, hi, ltLo, unLo, unHi, gtHi, med)
    requires unLo <= unHi && OnSide(f, ec, unLo, med, -1)
    ensures Zones(f, ec, lo, hi, ltLo, unLo + 1, unHi, gtHi, med)
  {
    ZoneGrowsUp(f, ec, ltLo, unLo, med, -1);
  }

  lemma ZonesSeenHigh(f: seq<int>, ec: seq<int>, lo: int, hi: int, ltLo: int, unLo: int, unHi: int, gtHi: int,
                      med: int)
    requires Zones(f, ec, lo, hi, ltLo, unLo, unHi, gtHi, med)
    requires unLo <= unHi && OnSide(f, ec, unHi, med, 1)
    ensures Zones(f, ec, lo, hi, ltLo, unLo, unHi - 1, gtHi, med)
  {
    ZoneGrowsDown(f, ec, unHi, gtHi + 1, med, 1);
  }

  lemma RearrangedBySwap(f: seq<int>, g: seq<int>, lo: int, hi: int, i: int, j: int)
    requires Rearranged(f, g, lo, hi) && 0 <= lo <= i <= hi < |g| && lo <= j <= hi
    ensures Rearranged(f, Swapped(g, i, j), lo, hi)
  {
  }

  /** Everything the partitioning loop keeps: the zones, the elements, and one
      entry of class med. */
  ghost predicate Parting(f0: seq<int>, f: seq<int>, ec: seq<int>, lo: int, hi: int, ltLo: int, unLo: int, unHi: int,
                          gtHi: int, med: int, w: int) {
    && Zones(f, ec, lo, hi, ltLo, unLo, unHi, gtHi, med)
    && Rearranged(f0, f, lo, hi)
    && lo <= w <= hi && OnSide(f, ec, w, med, 0)
  }

  lemma PartingLow(f0: seq<int>, f: seq<int>, ec: seq<int>, lo: int, hi: int, ltLo: int, unLo: int, unHi: int,
                   gtHi: int, med: int, w: int)
    requires Parting(f0, f, ec, lo, hi, ltLo, unLo, unHi, gtHi, med, w)
    requires unLo <= unHi && OnSide(f, ec, unLo, med, 0)
    ensures Parting(f0, Swapped(f, unLo, ltLo), ec, lo, hi, ltLo + 1, unLo + 1, unHi, gtHi, med,
                    Moved(w, unLo, ltLo))
  {
    hide Rearranged, OnSide, AllOnSide, Indexes, Swapped;
    ZonesEqualLow(f, ec, lo, hi, ltLo, unLo, unHi, gtHi, med);
    RearrangedBySwap(f0, f, lo, hi, unLo, ltLo);
    SwappedSide(f, ec, unLo, ltLo, w, med);
  }

  lemma PartingHigh(f0: seq<int>, f: seq<int>, ec: seq<int>, lo: int, hi: int, ltLo: int, unLo: int, unHi: int,
                    gtHi: int, med: int, w: int)
    requires Parting(f0, f, ec, lo, hi, ltLo, unLo, unHi, gtHi, med, w)
    requires unLo <= unHi && OnSide(f, ec, unHi, med, 0)
    ensures Parting(f0, Swapped(f, unHi, gtHi), ec, lo, hi, ltLo, unLo, unHi - 1, gtHi - 1, med,
                    Moved(w, unHi, gtHi))
  {
    hide Rearranged, OnSide, AllOnSide, Indexes, Swapped;
    ZonesEqualHigh(f, ec, lo, hi, ltLo, unLo, unHi, gtHi, med);
    RearrangedBySwap(f0, f, lo, hi, unHi, gtHi);
    SwappedSide(f, ec, unHi, gtHi, w, med);
  }

  lemma PartingExchange(f0: seq<int>, f: seq<int>, ec: seq<int>, lo: int, hi: int, ltLo: int, unLo: int, unHi: int,
                        gtHi: int, med: int, w: int)
    requires Parting(f0, f, ec, lo, hi, ltLo, unLo, unHi, gtHi, med, w)
    requires unLo <= unHi && OnSide(f, ec, unLo, med, 1) && OnSide(f, ec, unHi, med, -1)
    ensures unLo < unHi
    ensures Parting(f0, Swapped(f, unLo, unHi), ec, lo, hi, ltLo, unLo + 1, unHi - 1, gtHi, med,
                    Moved(w, unLo, unHi))
  {
    ZonesExchange(f, ec, lo, hi, ltLo, unLo, unHi, gtHi, med);
    hide Rearranged, OnSide, AllOnSide, Indexes, Swapped;
    RearrangedBySwap(f0, f, lo, hi, unLo, unHi);
    SwappedSide(f, ec, unLo, unHi, w, med);
  }

  lemma PartingFacts(f0: seq<int>, f: seq<int>, ec: seq<int>, lo: int, hi: int, ltLo: int, unLo: int, unHi: int,
                     gtHi: int, med: int, w: int)
    requires Parting(f0, f, ec, lo, hi, ltLo, unLo, unHi, gtHi, med, w)
    ensures 0 <= lo <= ltLo <= unLo <= unHi + 1 && unHi <= gtHi <= hi < |f|
    ensures forall k :: 0 <= k < |f| ==> 0 <= f[k] < |ec|
  {
  }

  lemma SideOf(f: seq<int>, ec: seq<int>, k: int, med: int)
    requires 0 <= k < |f| && 0 <= f[k] < |ec|
    ensures ec[f[k]] < med ==> OnSide(f, ec, k, med, -1)
    ensures ec[f[k]] == med ==> OnSide(f, ec, k, med, 0)
    ensures ec[f[k]] > med ==> OnSide(f, ec, k, med, 1)
  {
  }

  lemma PartingSeenLow(f0: seq<int>, f: seq<int>, ec: seq<int>, lo: int, hi: int, ltLo: int, unLo: int, unHi: int,
                       gtHi: int, med: int, w: int)
    requires Parting(f0, f, ec, lo, hi, ltLo, unLo, unHi, gtHi, med, w)
    requires unLo <= unHi && OnSide(f, ec, unLo, med, -1)
    ensures Parting(f0, f, ec, lo, hi, ltLo, unLo + 1, unHi, gtHi, med, w)
  {
    ZonesSeenLow(f, ec, lo, hi, ltLo, unLo, unHi, gtHi, med);
  }

  lemma PartingSeenHigh(f0: seq<int>, f: seq<int>, ec: seq<int>, lo: int, hi: int, ltLo: int, unLo: int, unHi: int,
                        gtHi: int, med: int, w: int)
    requires Parting(f0, f, ec, lo, hi, ltLo, unLo, unHi, gtHi, med, w)
    requires unLo <= unHi && OnSide(f, ec, unHi, med, 1)
    ensures Parting(f0, f, ec, lo, hi, ltLo, unLo, unHi - 1, gtHi, med, w)
  {
    ZonesSeenHigh(f, ec, lo, hi, ltLo, unLo, unHi, gtHi, med);
  }

  /** The first inner loop: pass smaller classes, send equal ones to the low end,
      stop at a larger one. */
  method ScanUp(fmap: array<int>, eclass: seq<int>, lo: int, hi: int, ltLo0: int, unLo0: int, unHi: int, gtHi: int,
                med: int, ghost f0: seq<int>, ghost w0: int)
    returns (ltLo: int, unLo: int, ghost w: int)
    requires Parting(f0, fmap[..], eclass, lo, hi, ltLo0, unLo0, unHi, gtHi, med, w0)
    modifies fmap
    ensures Parting(f0, fmap[..], eclass, lo, hi, ltLo, unLo, unHi, gtHi, med, w)
    ensures unLo <= unHi ==> OnSide(fmap[..], eclass, unLo, med, 1)
    ensures unLo0 <= unLo
  {
    hide *;
    ltLo, unLo, w := ltLo0, unLo0, w0;
    while true
      invariant Parting(f0, fmap[..], eclass, lo, hi, ltLo, unLo, unHi, gtHi, med, w)
      invariant unLo0 <= unLo
      decreases unHi - unLo
    {
      if unLo > unHi { break; }
      ghost var f := fmap[..];
      PartingFacts(f0, f, eclass, lo, hi, ltLo, unLo, unHi, gtHi, med, w);
      SideOf(f, eclass, unLo, med);
      var n := eclass[fmap[unLo]] - med;
      if n == 0 {
        PartingLow(f0, f, eclass, lo, hi, ltLo, unLo, unHi, gtHi, med, w);
        Swap(fmap, unLo, ltLo);
        w := Moved(w, unLo, ltLo);
        ltLo, unLo := ltLo + 1, unLo + 1;
        continue;
      }
      if n > 0 { break; }
      PartingSeenLow(f0, f, eclass, lo, hi, ltLo, unLo, unHi, gtHi, med, w);
      unLo := unLo + 1;
    }
  }

  /** The second inner loop, the mirror image of the first. */
  method ScanDown(fmap: array<int>, eclass: seq<int>, lo: int, hi: int, ltLo: int, unLo: int, unHi0: int, gtHi0: int,
                  med: int, ghost f0: seq<int>, ghost w0: int)
    returns (unHi: int, gtHi: int, ghost w: int)
    requires Parting(f0, fmap[..], eclass, lo, hi, ltLo, unLo, unHi0, gtHi0, med, w0)
    requires unLo <= unHi0 ==> OnSide(fmap[..], eclass, unLo, med, 1)
    modifies fmap
    ensures Parting(f0, fmap[..], eclass, lo, hi, ltLo, unLo, unHi, gtHi, med, w)
    ensures unLo <= unHi ==> OnSide(fmap[..], eclass, unLo, med, 1)
    ensures unLo <= unHi ==> OnSide(fmap[..], eclass, unHi, med, -1)
    ensures unHi <= unHi0
  {
    hide *;
    unHi, gtHi, w := unHi0, gtHi0, w0;
    while true
      invariant Parting(f0, fmap[..], eclass, lo, hi, ltLo, unLo, unHi, gtHi, med, w)
      invariant unLo <= unHi ==> OnSide(fmap[..], eclass, unLo, med, 1)
      invariant unHi <= unHi0
      decreases unHi - unLo
    {
      if unLo > unHi { break; }
      ghost var f := fmap[..];
      PartingFacts(f0, f, eclass, lo, hi, ltLo, unLo, unHi, gtHi, med, w);
      SideOf(f, eclass, unHi, med);
      var n := eclass[fmap[unHi]] - med;
      if n == 0 {
        PartingHigh(f0, f, eclass, lo, hi, ltLo, unLo, unHi, gtHi, med, w);
        StillAbove(f, eclass, unLo, unHi, gtHi, med);
        Swap(fmap, unHi, gtHi);
        w := Moved(w, unHi, gtHi);
        gtHi, unHi := gtHi - 1, unHi - 1;
        continue;
      }
      if n < 0 { break; }
      PartingSeenHigh(f0, f, eclass, lo, hi, ltLo, unLo, unHi, gtHi, med, w);
      unHi := unHi - 1;
    }
  }

  lemma StillAbove(f: seq<int>, ec: seq<int>, unLo: int, unHi: int, gtHi: int, med: int)
    requires unLo <= unHi <= gtHi < |f| && OnSide(f, ec, unLo, med, 1)
    ensures unLo <= unHi - 1 ==> OnSide(Swapped(f, unHi, gtHi), ec, unLo, med, 1)
  {
  }

  /** The entries below, at and above class med, in that order. */
  ghost predicate ThreeWay(f: seq<int>, ec: seq<int>, lo: int, n: int, m: int, hi: int, med: int) {
    && 0 <= lo <= n + 1 < m <= hi + 1 <= |f|
    && Indexes(f, |ec|)
    && AllOnSide(f, ec, lo, n + 1, med, -1)
    && AllOnSide(f, ec, n + 1, m, med, 0)
    && AllOnSide(f, ec, m, hi + 1, med, 1)
  }

  lemma PartingStarts(f: seq<int>, ec: seq<int>, lo: int, hi: int, med: int, w: int)
    requires 0 <= lo <= w <= hi < |f| && Indexes(f, |ec|) && OnSide(f, ec, w, med, 0)
    ensures Parting(f, f, ec, lo, hi, lo, lo, hi, hi, med, w)
  {
  }

  /** The partitioning loop up to the point where no entry is left unseen. */
  method PartingLoop(fmap: array<int>, eclass: seq<int>, lo: int, hi: int, med: int, ghost w0: int)
    returns (ltLo: int, unLo: int, unHi: int, gtHi: int, ghost w: int)
    requires 0 <= lo <= w0 <= hi < fmap.Length && Indexes(fmap[..], |eclass|)
    requires OnSide(fmap[..], eclass, w0, med, 0)
    modifies fmap
    ensures Parting(old(fmap[..]), fmap[..], eclass, lo, hi, ltLo, unLo, unHi, gtHi, med, w)
    ensures unHi == unLo - 1
  {
    ghost var f0 := fmap[..];
    unLo, ltLo, unHi, gtHi, w := lo, lo, hi, hi, w0;
    hide *;
    PartingStarts(f0, eclass, lo, hi, med, w);
    while true
      invariant Parting(f0, fmap[..], eclass, lo, hi, ltLo, unLo, unHi, gtHi, med, w)
      decreases unHi - unLo
    {
      ghost var unLo0, unHi0 := unLo, unHi;
      ltLo, unLo, w := ScanUp(fmap, eclass, lo, hi, ltLo, unLo, unHi, gtHi, med, f0, w);
      unHi, gtHi, w := ScanDown(fmap, eclass, lo, hi, ltLo, unLo, unHi, gtHi, med, f0, w);
      PartingFacts(f0, fmap[..], eclass, lo, hi, ltLo, unLo, unHi, gtHi, med, w);
      if unLo > unHi { break; }
      PartingExchange(f0, fmap[..], eclass, lo, hi, ltLo, unLo, unHi, gtHi, med, w);
      Swap(fmap, unLo, unHi);
      w := Moved(w, unLo, unHi);
      unLo, unHi := unLo + 1, unHi - 1;
    }
  }

  function Min(a: int, b: int): int {
    if a < b then a else b
  }

  /** The equal entries at the low end change places with the last smaller ones. */
  lemma RegroupLow(f: seq<int>, ec: seq<int>, lo: int, ltLo: int, unLo: int, med: int)
    requires 0 <= lo <= ltLo <= unLo <= |f| && Indexes(f, |ec|)
    requires AllOnSide(f, ec, lo, ltLo, med, 0) && AllOnSide(f, ec, ltLo, unLo, med, -1)
    ensures var n := Min(ltLo - lo, unLo - ltLo);
            var g := Exchanged(f, lo, unLo - n, n);
            && Indexes(g, |ec|)
            && AllOnSide(g, ec, lo, lo + (unLo - ltLo), med, -1)
            && AllOnSide(g, ec, lo + (unLo - ltLo), unLo, med, 0)
  {
    var n := Min(ltLo - lo, unLo - ltLo);
    var g := Exchanged(f, lo, unLo - n, n);
    forall k | lo <= k < lo + (unLo - ltLo) ensures OnSide(g, ec, k, med, -1) {
      assert OnSide(f, ec, if k < lo + n then k + (unLo - n - lo) else k, med, -1);
    }
    forall k | lo + (unLo - ltLo) <= k < unLo ensures OnSide(g, ec, k, med, 0) {
      assert OnSide(f, ec, if k >= unLo - n then k - (unLo - n - lo) else k, med, 0);
    }
  }

  /** The same at the high end. */
  lemma RegroupHigh(f: seq<int>, ec: seq<int>, unLo: int, gtHi: int, hi: int, med: int)
    requires 0 <= unLo <= gtHi + 1 <= hi + 1 <= |f| && Indexes(f, |ec|)
    requires AllOnSide(f, ec, unLo, gtHi + 1, med, 1) && AllOnSide(f, ec, gtHi + 1, hi + 1, med, 0)
    ensures var m := Min(hi - gtHi, gtHi + 1 - unLo);
            var g := Exchanged(f, unLo, hi - m + 1, m);
            && Indexes(g, |ec|)
            && AllOnSide(g, ec, unLo, unLo + (hi - gtHi), med, 0)
            && AllOnSide(g, ec, unLo + (hi - gtHi), hi + 1, med, 1)
  {
    var m := Min(hi - gtHi, gtHi + 1 - unLo);
    var g := Exchanged(f, unLo, hi - m + 1, m);
    forall k | unLo <= k < unLo + (hi - gtHi) ensures OnSide(g, ec, k, med, 0) {
      assert OnSide(f, ec, if k < unLo + m then k + (hi - m + 1 - unLo) else k, med, 0);
    }
    forall k | unLo + (hi - gtHi) <= k < hi + 1 ensures OnSide(g, ec, k, med, 1) {
      assert OnSide(f, ec, if k >= hi - m + 1 then k - (hi - m + 1 - unLo) else k, med, 1);
    }
  }

  /** A zone not touched by an exchange of blocks stays as it is. */
  lemma ZoneUntouched(f: seq<int>, ec: seq<int>, p1: int, p2: int, n: int, lo: int, hi: int, med: int, side: int)
    requires 0 <= p1 && 0 <= n && p1 + n <= p2 && p2 + n <= |f|
    requires AllOnSide(f, ec, lo, hi, med, side) && (hi <= p1 || p2 + n <= lo)
    ensures AllOnSide(Exchanged(f, p1, p2, n), ec, lo, hi, med, side)
  {
    forall k | lo <= k < hi ensures OnSide(Exchanged(f, p1, p2, n), ec, k, med, side) {
      assert OnSide(f, ec, k, med, side);
    }
  }

  lemma ZonesJoin(f: seq<int>, ec: seq<int>, lo: int, mid: int, hi: int, med: int, side: int)
    requires AllOnSide(f, ec, lo, mid, med, side) && AllOnSide(f, ec, mid, hi, med, side)
    ensures AllOnSide(f, ec, lo, hi, med, side)
  {
    forall k | lo <= k < hi ensures OnSide(f, ec, k, med, side) {
      if k < mid { assert OnSide(f, ec, k, med, side); }
    }
  }

  /** Because an entry of class med exists, some equal entry was set aside. */
  lemma SomeEqual(f: seq<int>, ec: seq<int>, lo: int, hi: int, ltLo: int, unLo: int, unHi: int, gtHi: int, med: int,
                  w: int)
    requires Zones(f, ec, lo, hi, ltLo, unLo, unHi, gtHi, med) && unHi == unLo - 1
    requires lo <= w <= hi && OnSide(f, ec, w, med, 0)
    ensures lo < ltLo || gtHi < hi
  {
    assert ltLo <= w < unLo ==> OnSide(f, ec, w, med, -1);
    assert unHi < w <= gtHi ==> OnSide(f, ec, w, med, 1);
  }

  lemma RearrangedByExchange(f: seq<int>, g: seq<int>, lo: int, hi: int, p1: int, p2: int, n: int)
    requires Rearranged(f, g, lo, hi) && 0 <= lo <= p1 && 0 <= n && p1 + n <= p2 && p2 + n <= hi + 1 <= |g|
    requires Bag(Exchanged(g, p1, p2, n)) == Bag(g)
    ensures Rearranged(f, Exchanged(g, p1, p2, n), lo, hi)
  {
    hide Bag;
  }

  lemma MakeThreeWay(f: seq<int>, ec: seq<int>, lo: int, n: int, m: int, hi: int, med: int)
    requires 0 <= lo <= n + 1 < m <= hi + 1 <= |f| && Indexes(f, |ec|)
    requires AllOnSide(f, ec, lo, n + 1, med, -1)
    requires AllOnSide(f, ec, n + 1, m, med, 0)
    requires AllOnSide(f, ec, m, hi + 1, med, 1)
    ensures ThreeWay(f, ec, lo, n, m, hi, med)
  {
  }

  lemma ZonesParts(f: seq<int>, ec: seq<int>, lo: int, hi: int, ltLo: int, unLo: int, unHi: int, gtHi: int, med: int)
    requires Zones(f, ec, lo, hi, ltLo, unLo, unHi, gtHi, med)
    ensures 0 <= lo <= ltLo <= unLo <= unHi + 1 && unHi <= gtHi <= hi < |f|
    ensures Indexes(f, |ec|)
    ensures AllOnSide(f, ec, lo, ltLo, med, 0) && AllOnSide(f, ec, ltLo, unLo, med, -1)
    ensures AllOnSide(f, ec, unHi + 1, gtHi + 1, med, 1) && AllOnSide(f, ec, gtHi + 1, hi + 1, med, 0)
  {
  }

  lemma MinBounds(a: int, b: int)
    ensures Min(a, b) <= a && Min(a, b) <= b && (Min(a, b) == a || Min(a, b) == b)
  {
  }

  /** Both block exchanges bring the zones into the order below, equal, above. */
  lemma Regroup(f: seq<int>, ec: seq<int>, lo: int, hi: int, ltLo: int, unLo: int, gtHi: int, med: int, w: int)
    requires Zones(f, ec, lo, hi, ltLo, unLo, unLo - 1, gtHi, med)
    requires lo <= w <= hi && OnSide(f, ec, w, med, 0)
    ensures var n := Min(ltLo - lo, unLo - ltLo);
            var g := Exchanged(f, lo, unLo - n, n);
            var m := Min(hi - gtHi, gtHi + 1 - unLo);
            var h := Exchanged(g, unLo, hi - m + 1, m);
            ThreeWay(h, ec, lo, lo + unLo - ltLo - 1, hi - (gtHi + 1 - unLo) + 1, hi, med)
  {
    hide *;
    ZonesParts(f, ec, lo, hi, ltLo, unLo, unLo - 1, gtHi, med);
    SomeEqual(f, ec, lo, hi, ltLo, unLo, unLo - 1, gtHi, med, w);
    MinBounds(ltLo - lo, unLo - ltLo);
    MinBounds(hi - gtHi, gtHi + 1 - unLo);
    RegroupLow(f, ec, lo, ltLo, unLo, med);
    var n := Min(ltLo - lo, unLo - ltLo);
    var g := Exchanged(f, lo, unLo - n, n);
    ZoneUntouched(f, ec, lo, unLo - n, n, unLo, gtHi + 1, med, 1);
    ZoneUntouched(f, ec, lo, unLo - n, n, gtHi + 1, hi + 1, med, 0);
    RegroupHigh(g, ec, unLo, gtHi, hi, med);
    var m := Min(hi - gtHi, gtHi + 1 - unLo);
    ZoneUntouched(g, ec, unLo, hi - m + 1, m, lo, lo + (unLo - ltLo), med, -1);
    ZoneUntouched(g, ec, unLo, hi - m + 1, m, lo + (unLo - ltLo), unLo, med, 0);
    var h := Exchanged(g, unLo, hi - m + 1, m);
    ZonesJoin(h, ec, lo + (unLo - ltLo), unLo, unLo + (hi - gtHi), med, 0);
    MakeThreeWay(h, ec, lo, lo + unLo - ltLo - 1, hi - (gtHi + 1 - unLo) + 1, hi, med);
  }

  /** All entries are equal when the two equal zones meet. */
  lemma AllEqual(f: seq<int>, ec: seq<int>, lo: int, hi: int, ltLo: int, unLo: int, unHi: int, gtHi: int, med: int)
    requires Zones(f, ec, lo, hi, ltLo, unLo, unHi, gtHi, med) && unHi == unLo - 1 && gtHi < ltLo
    ensures AllOnSide(f, ec, lo, hi + 1, med, 0)
  {
    forall k | lo <= k < hi + 1 ensures OnSide(f, ec, k, med, 0) { }
  }

  /** One round of fallbackQSort3: partition around med; done when all are equal. */
  method Partition(fmap: array<int>, eclass: seq<int>, lo: int, hi: int, med: int, ghost w0: int)
    returns (done: bool, n: int, m: int)
    requires 0 <= lo <= w0 <= hi < fmap.Length && Indexes(fmap[..], |eclass|)
    requires OnSide(fmap[..], eclass, w0, med, 0)
    modifies fmap
    ensures Rearranged(old(fmap[..]), fmap[..], lo, hi) && Indexes(fmap[..], |eclass|)
    ensures done ==> AllOnSide(fmap[..], eclass, lo, hi + 1, med, 0)
    ensures !done ==> ThreeWay(fmap[..], eclass, lo, n, m, hi, med) && (lo <= n || m <= hi)
  {
    hide *;
    var ltLo, unLo, unHi, gtHi;
    ghost var w;
    ghost var f0 := fmap[..];
    ltLo, unLo, unHi, gtHi, w := PartingLoop(fmap, eclass, lo, hi, med, w0);
    ghost var f := fmap[..];
    PartingFacts(f0, f, eclass, lo, hi, ltLo, unLo, unHi, gtHi, med, w);
    PartingParts(f0, f, eclass, lo, hi, ltLo, unLo, unHi, gtHi, med, w);
    done := gtHi < ltLo;
    if done {
      AllEqual(f, eclass, lo, hi, ltLo, unLo, unHi, gtHi, med);
      n, m := lo - 1, hi + 1;
      return;
    }
    Regroup(f, eclass, lo, hi, ltLo, unLo, gtHi, med, w);
    MinBounds(ltLo - lo, unLo - ltLo);
    MinBounds(hi - gtHi, gtHi - unHi);
    n := Min(ltLo - lo, unLo - ltLo);
    VectorSwap(fmap, lo, unLo - n, n);
    RearrangedByExchange(f0, f, lo, hi, lo, unLo - n, n);
    ghost var g := fmap[..];
    m := Min(hi - gtHi, gtHi - unHi);
    VectorSwap(fmap, unLo, hi - m + 1, m);
    RearrangedByExchange(f0, g, lo, hi, unLo, hi - m + 1, m);
    RearrangedIndexes(f0, fmap[..], lo, hi, |eclass|);
    n := lo + unLo - ltLo - 1;
    m := hi - (gtHi - unHi) + 1;
  }

  lemma PartingParts(f0: seq<int>, f: seq<int>, ec: seq<int>, lo: int, hi: int, ltLo: int, unLo: int, unHi: int,
                     gtHi: int, med: int, w: int)
    requires Parting(f0, f, ec, lo, hi, ltLo, unLo, unHi, gtHi, med, w)
    ensures Zones(f, ec, lo, hi, ltLo, unLo, unHi, gtHi, med)
    ensures Rearranged(f0, f, lo, hi) && Indexes(f, |ec|)
    ensures lo <= w <= hi && OnSide(f, ec, w, med, 0)
  {
  }

  /** A part still to be sorted, as pushed on the stack; it may be empty. */
  datatype Part = Part(lo: int, hi: int)

  /** The parts on the stack lie within the range and do not overlap. */
  ghost predicate Disjoint(st: seq<Part>, loSt: int, hiSt: int) {
    && (forall s {:trigger st[s]} :: 0 <= s < |st| ==> loSt <= st[s].lo <= st[s].hi + 1 <= hiSt + 1)
    && (forall s, t {:trigger Apart(st[s], st[t])} :: 0 <= s < t < |st| ==> Apart(st[s], st[t]))
  }

  ghost predicate Apart(p: Part, q: Part) {
    p.hi < q.lo || q.hi < p.lo
  }

  ghost predicate Together(st: seq<Part>, x: int, y: int) {
    exists s :: 0 <= s < |st| && st[s].lo <= x && y <= st[s].hi
  }

  /** Any two entries are in order unless one part on the stack holds both. */
  ghost predicate Settled(f: seq<int>, ec: seq<int>, st: seq<Part>, loSt: int, hiSt: int) {
    forall x, y {:trigger KeyLe(f, ec, x, y)} ::
      loSt <= x < y <= hiSt ==> KeyLe(f, ec, x, y) || Together(st, x, y)
  }

  lemma TogetherLast(rest: seq<Part>, top: Part, x: int, y: int)
    requires Together(rest + [top], x, y)
    ensures Together(rest, x, y) || (top.lo <= x && y <= top.hi)
  {
    var st := rest + [top];
    var s :| 0 <= s < |st| && st[s].lo <= x && y <= st[s].hi;
    if s < |rest| { assert rest[s] == st[s]; }
  }

  /** No part below the top reaches from outside the top part into it. */
  lemma NotAcross(rest: seq<Part>, top: Part, loSt: int, hiSt: int, x: int, y: int)
    requires Disjoint(rest + [top], loSt, hiSt) && Together(rest, x, y) && x < y
    ensures !(top.lo <= x <= top.hi) && !(top.lo <= y <= top.hi)
  {
    var st := rest + [top];
    var s :| 0 <= s < |rest| && rest[s].lo <= x && y <= rest[s].hi;
    assert Apart(st[s], st[|rest|]);
  }

  /** Rearranging the top part only, and splitting it into parts that leave no
      pair inside unsettled, leaves no pair unsettled at all. */
  lemma SettledStep(f: seq<int>, g: seq<int>, ec: seq<int>, rest: seq<Part>, top: Part, st: seq<Part>, loSt: int,
                    hiSt: int, x: int, y: int)
    requires 0 <= loSt <= x < y <= hiSt < |f|
    requires Disjoint(rest + [top], loSt, hiSt)
    requires Settled(f, ec, rest + [top], loSt, hiSt) && Rearranged(f, g, top.lo, top.hi)
    requires Together(rest, x, y) ==> Together(st, x, y)
    requires top.lo <= x && y <= top.hi ==> KeyLe(g, ec, x, y) || Together(st, x, y)
    ensures KeyLe(g, ec, x, y) || Together(st, x, y)
  {
    hide Together, Bag;
    assert (rest + [top])[|rest|] == top;
    var x', y' := x, y;
    if top.lo <= x <= top.hi { x' := RearrangedFrom(f, g, top.lo, top.hi, x); }
    if top.lo <= y <= top.hi { y' := RearrangedFrom(f, g, top.lo, top.hi, y); }
    if !(top.lo <= x && y <= top.hi) {
      assert KeyLe(f, ec, x', y') || Together(rest + [top], x', y');
      if Together(rest + [top], x', y') {
        TogetherLast(rest, top, x', y');
        NotAcross(rest, top, loSt, hiSt, x', y');
      }
    }
  }

  /** The top part has been sorted. */
  lemma SettledSorted(f: seq<int>, g: seq<int>, ec: seq<int>, rest: seq<Part>, top: Part, loSt: int, hiSt: int)
    requires 0 <= loSt && hiSt < |f| && Disjoint(rest + [top], loSt, hiSt)
    requires Settled(f, ec, rest + [top], loSt, hiSt) && Rearranged(f, g, top.lo, top.hi)
    requires SortedBy(g, ec, top.lo, top.hi)
    ensures Settled(g, ec, rest, loSt, hiSt)
  {
    hide Together, Rearranged, Disjoint;
    forall x, y | loSt <= x < y <= hiSt ensures KeyLe(g, ec, x, y) || Together(rest, x, y) {
      hide Settled;
      SettledStep(f, g, ec, rest, top, rest, loSt, hiSt, x, y);
    }
  }

  lemma TogetherPrefix(rest: seq<Part>, p: Part, q: Part, x: int, y: int)
    ensures Together(rest, x, y) ==> Together(rest + [p, q], x, y)
    ensures p.lo <= x && y <= p.hi ==> Together(rest + [p, q], x, y)
    ensures q.lo <= x && y <= q.hi ==> Together(rest + [p, q], x, y)
  {
    var st := rest + [p, q];
    if Together(rest, x, y) {
      var s :| 0 <= s < |rest| && rest[s].lo <= x && y <= rest[s].hi;
      assert st[s] == rest[s];
    }
    assert st[|rest|] == p && st[|rest| + 1] == q;
  }

  lemma ThreeWayOrder(f: seq<int>, ec: seq<int>, lo: int, n: int, m: int, hi: int, med: int, x: int, y: int)
    requires ThreeWay(f, ec, lo, n, m, hi, med) && lo <= x < y <= hi
    ensures KeyLe(f, ec, x, y) || y <= n || x >= m
  {
    assert x <= n ==> OnSide(f, ec, x, med, -1);
    assert n < x < m ==> OnSide(f, ec, x, med, 0);
    assert n < y < m ==> OnSide(f, ec, y, med, 0);
    assert m <= y ==> OnSide(f, ec, y, med, 1);
  }

  /** The top part has been partitioned; p and q are its outer zones in either order. */
  lemma SettledSplit(f: seq<int>, g: seq<int>, ec: seq<int>, rest: seq<Part>, top: Part, n: int, m: int, med: int,
                     p: Part, q: Part, loSt: int, hiSt: int)
    requires 0 <= loSt && hiSt < |f| && Disjoint(rest + [top], loSt, hiSt)
    requires Settled(f, ec, rest + [top], loSt, hiSt) && Rearranged(f, g, top.lo, top.hi)
    requires ThreeWay(g, ec, top.lo, n, m, top.hi, med)
    requires (p == Part(top.lo, n) && q == Part(m, top.hi)) || (q == Part(top.lo, n) && p == Part(m, top.hi))
    ensures Settled(g, ec, rest + [p, q], loSt, hiSt)
  {
    hide Together, Rearranged, Disjoint, ThreeWay;
    forall x, y | loSt <= x < y <= hiSt ensures KeyLe(g, ec, x, y) || Together(rest + [p, q], x, y) {
      hide Settled;
      TogetherPrefix(rest, p, q, x, y);
      if top.lo <= x && y <= top.hi {
        ThreeWayOrder(g, ec, top.lo, n, m, top.hi, med, x, y);
      }
      SettledStep(f, g, ec, rest, top, rest + [p, q], loSt, hiSt, x, y);
    }
  }

  lemma DisjointPop(rest: seq<Part>, top: Part, loSt: int, hiSt: int)
    requires Disjoint(rest + [top], loSt, hiSt)
    ensures Disjoint(rest, loSt, hiSt)
    ensures loSt <= top.lo <= top.hi + 1 <= hiSt + 1
  {
    var st := rest + [top];
    assert st[|rest|] == top;
    forall s | 0 <= s < |rest| ensures loSt <= rest[s].lo <= rest[s].hi + 1 <= hiSt + 1 {
      assert rest[s] == st[s];
    }
    forall s, t | 0 <= s < t < |rest| ensures Apart(rest[s], rest[t]) {
      assert Apart(st[s], st[t]);
    }
  }

  lemma DisjointSplit(rest: seq<Part>, top: Part, n: int, m: int, p: Part, q: Part, loSt: int, hiSt: int)
    requires Disjoint(rest + [top], loSt, hiSt)
    requires top.lo <= n + 1 < m <= top.hi + 1
    requires (p == Part(top.lo, n) && q == Part(m, top.hi)) || (q == Part(top.lo, n) && p == Part(m, top.hi))
    ensures Disjoint(rest + [p, q], loSt, hiSt)
  {
    var st, old_ := rest + [p, q], rest + [top];
    assert old_[|rest|] == top;
    forall s | 0 <= s < |st| ensures loSt <= st[s].lo <= st[s].hi + 1 <= hiSt + 1 {
      if s < |rest| { assert st[s] == old_[s]; }
    }
    forall s, t | 0 <= s < t < |st| ensures Apart(st[s], st[t]) {
      if t < |rest| {
        assert Apart(old_[s], old_[t]);
      } else if s < |rest| {
        assert Apart(old_[s], old_[|rest|]);
      }
    }
  }

  /** n halved s times. */
  function Halved(n: nat, s: nat): nat {
    if s == 0 then n else Halved(n, s - 1) / 2
  }

  /** The part at depth s of the stack has at most n / 2^s entries, because of two
      parts the larger was pushed first. */
  ghost predicate Shrinking(st: seq<Part>, n: nat) {
    forall s {:trigger st[s]} :: 0 <= s < |st| ==> st[s].hi - st[s].lo + 1 <= Halved(n, s)
  }

  lemma ShrinkingSplit(rest: seq<Part>, top: Part, p: Part, q: Part, n: nat)
    requires Shrinking(rest + [top], n)
    requires q.hi - q.lo <= p.hi - p.lo
    requires (p.hi - p.lo + 1) + (q.hi - q.lo + 1) <= top.hi - top.lo && q.lo <= q.hi + 1
    ensures Shrinking(rest + [p, q], n)
  {
    var st, old_ := rest + [p, q], rest + [top];
    assert old_[|rest|] == top;
    forall s | 0 <= s < |st| ensures st[s].hi - st[s].lo + 1 <= Halved(n, s) {
      if s < |rest| { assert st[s] == old_[s]; }
    }
  }

  lemma ShrinkingPop(rest: seq<Part>, top: Part, n: nat)
    requires Shrinking(rest + [top], n)
    ensures Shrinking(rest, n) && top.hi - top.lo + 1 <= Halved(n, |rest|)
  {
    var st := rest + [top];
    assert st[|rest|] == top;
    forall s | 0 <= s < |rest| ensures rest[s].hi - rest[s].lo + 1 <= Halved(n, s) {
      assert rest[s] == st[s];
    }
  }

  lemma {:induction false} HalvedMonotone(n: nat, m: nat, s: nat)
    requires n <= m
    ensures Halved(n, s) <= Halved(m, s)
  {
    if s > 0 { HalvedMonotone(n, m, s - 1); }
  }

  /** A block of at most 900000 bytes halved 17 times leaves no part worth splitting. */
  lemma {:induction false} HalvedBound(n: nat, s: nat)
    requires n <= 900000 && s >= 17
    ensures Halved(n, s) < 10
    decreases s
  {
    if s == 17 {
      HalvedMonotone(n, 900000, 17);
      assert Halved(900000, 4) == 56250;
      assert Halved(900000, 8) == 3515;
      assert Halved(900000, 12) == 219;
      assert Halved(900000, 16) == 13;
    } else {
      HalvedBound(n, s - 1);
    }
  }

  /** Work left on the stack; every round lowers it. */
  function Work(st: seq<Part>): nat {
    if st == [] then 0
    else Work(st[..|st| - 1]) + (var p := st[|st| - 1]; if p.hi < p.lo then 1 else 2 * (p.hi - p.lo + 1) + 1)
  }

  lemma WorkPop(rest: seq<Part>, top: Part)
    ensures Work(rest) < Work(rest + [top])
  {
    assert (rest + [top])[..|rest|] == rest;
  }

  lemma WorkSplit(rest: seq<Part>, top: Part, p: Part, q: Part)
    requires p.lo <= p.hi + 1 && q.lo <= q.hi + 1
    requires (p.hi - p.lo + 1) + (q.hi - q.lo + 1) <= top.hi - top.lo
    ensures Work(rest + [p, q]) < Work(rest + [top])
  {
    assert (rest + [top])[..|rest|] == rest;
    assert (rest + [p, q])[..|rest| + 1] == rest + [p];
    assert (rest + [p])[..|rest|] == rest;
  }

  /** The state between two rounds of the sort of f0. */
  ghost predicate Sorting(f0: seq<int>, f: seq<int>, ec: seq<int>, st: seq<Part>, loSt: int, hiSt: int) {
    && 0 <= loSt <= hiSt < |f| && hiSt - loSt < 900000
    && Rearranged(f0, f, loSt, hiSt) && Indexes(f, |ec|)
    && Settled(f, ec, st, loSt, hiSt)
    && Disjoint(st, loSt, hiSt)
    && Shrinking(st, hiSt - loSt + 1)
  }

  lemma SortingStarts(f: seq<int>, ec: seq<int>, loSt: int, hiSt: int)
    requires 0 <= loSt <= hiSt < |f| && hiSt - loSt < 900000 && Indexes(f, |ec|)
    ensures Sorting(f, f, ec, [Part(loSt, hiSt)], loSt, hiSt)
  {
    var st := [Part(loSt, hiSt)];
    forall x, y | loSt <= x < y <= hiSt ensures Together(st, x, y) {
      assert st[0].lo <= x && y <= st[0].hi;
    }
  }

  lemma SortingEnds(f0: seq<int>, f: seq<int>, ec: seq<int>, loSt: int, hiSt: int)
    requires Sorting(f0, f, ec, [], loSt, hiSt)
    ensures Rearranged(f0, f, loSt, hiSt) && Indexes(f, |ec|) && SortedBy(f, ec, loSt, hiSt)
  {
    forall x, y | loSt <= x < y <= hiSt ensures KeyLe(f, ec, x, y) {
      assert !Together([], x, y);
    }
  }

  lemma SortingParts(f0: seq<int>, f: seq<int>, ec: seq<int>, st: seq<Part>, loSt: int, hiSt: int)
    requires Sorting(f0, f, ec, st, loSt, hiSt)
    ensures 0 <= loSt <= hiSt < |f| && hiSt - loSt < 900000 && Indexes(f, |ec|)
    ensures Disjoint(st, loSt, hiSt) && Shrinking(st, hiSt - loSt + 1)
  {
  }

  lemma SortingPop(f0: seq<int>, f: seq<int>, ec: seq<int>, rest: seq<Part>, top: Part, loSt: int, hiSt: int)
    requires Sorting(f0, f, ec, rest + [top], loSt, hiSt)
    ensures 0 <= loSt <= top.lo <= top.hi + 1 <= hiSt + 1 <= |f| && Indexes(f, |ec|)
    ensures top.hi - top.lo >= 10 ==> |rest| <= 16
    ensures Work(rest) < Work(rest + [top])
  {
    hide *;
    SortingParts(f0, f, ec, rest + [top], loSt, hiSt);
    DisjointPop(rest, top, loSt, hiSt);
    ShrinkingPop(rest, top, hiSt - loSt + 1);
    if |rest| >= 17 { HalvedBound(hiSt - loSt + 1, |rest|); }
    WorkPop(rest, top);
  }

  lemma SortingDone(f0: seq<int>, f: seq<int>, g: seq<int>, ec: seq<int>, rest: seq<Part>, top: Part, loSt: int,
                    hiSt: int)
    requires Sorting(f0, f, ec, rest + [top], loSt, hiSt)
    requires Rearranged(f, g, top.lo, top.hi) && Indexes(g, |ec|) && SortedBy(g, ec, top.lo, top.hi)
    ensures Sorting(f0, g, ec, rest, loSt, hiSt)
  {
    hide Settled, Disjoint, Shrinking, SortedBy, Bag, Indexes;
    SettledSorted(f, g, ec, rest, top, loSt, hiSt);
    DisjointPop(rest, top, loSt, hiSt);
    ShrinkingPop(rest, top, hiSt - loSt + 1);
    RearrangedTrans(f0, f, g, loSt, hiSt, top.lo, top.hi);
  }

  lemma SortingSplit(f0: seq<int>, f: seq<int>, g: seq<int>, ec: seq<int>, rest: seq<Part>, top: Part, n: int, m: int,
                     med: int, p: Part, q: Part, loSt: int, hiSt: int)
    requires Sorting(f0, f, ec, rest + [top], loSt, hiSt)
    requires Rearranged(f, g, top.lo, top.hi) && Indexes(g, |ec|)
    requires ThreeWay(g, ec, top.lo, n, m, top.hi, med)
    requires p == Outer(top.lo, n, m, top.hi, true) && q == Outer(top.lo, n, m, top.hi, false)
    ensures Sorting(f0, g, ec, rest + [p, q], loSt, hiSt)
    ensures Work(rest + [p, q]) < Work(rest + [top])
  {
    hide Settled, Disjoint, Shrinking, Bag, Indexes, AllOnSide;
    DisjointPop(rest, top, loSt, hiSt);
    SettledSplit(f, g, ec, rest, top, n, m, med, p, q, loSt, hiSt);
    DisjointSplit(rest, top, n, m, p, q, loSt, hiSt);
    ShrinkingSplit(rest, top, p, q, hiSt - loSt + 1);
    RearrangedTrans(f0, f, g, loSt, hiSt, top.lo, top.hi);
    WorkSplit(rest, top, p, q);
  }

  lemma AllEqualSorted(f: seq<int>, ec: seq<int>, lo: int, hi: int, med: int)
    requires AllOnSide(f, ec, lo, hi + 1, med, 0)
    ensures SortedBy(f, ec, lo, hi)
  {
    forall i, j | lo <= i < j <= hi ensures KeyLe(f, ec, i, j) {
      assert OnSide(f, ec, i, med, 0) && OnSide(f, ec, j, med, 0);
    }
  }

  /** The larger and the smaller of the two outer zones [lo, n] and [m, hi]. */
  function Outer(lo: int, n: int, m: int, hi: int, larger: bool): Part {
    if (n - lo > hi - m) == larger then Part(lo, n) else Part(m, hi)
  }

  /** The two stack arrays hold the parts st, bottom first. */
  ghost predicate OnStack(los: seq<int>, his: seq<int>, st: seq<Part>) {
    && |st| <= |los| == |his|
    && (forall s :: 0 <= s < |st| ==> st[s] == Part(los[s], his[s]))
  }

  lemma OnStackPop(los: seq<int>, his: seq<int>, st: seq<Part>)
    requires OnStack(los, his, st) && st != []
    ensures st == st[..|st| - 1] + [Part(los[|st| - 1], his[|st| - 1])]
    ensures OnStack(los, his, st[..|st| - 1])
    ensures |st| <= |los| == |his|
  {
  }

  lemma OnStackPush(los: seq<int>, his: seq<int>, st: seq<Part>, p: Part)
    requires OnStack(los, his, st) && |st| < |los|
    ensures OnStack(los[|st| := p.lo], his[|st| := p.hi], st + [p])
  {
  }

  method Push(stackLo: array<int>, stackHi: array<int>, sp: int, lz: int, hz: int, ghost st: seq<Part>)
    returns (sp': int)
    requires stackLo != stackHi && stackLo.Length == stackHi.Length
    requires OnStack(stackLo[..], stackHi[..], st) && sp == |st| < stackLo.Length
    modifies stackLo, stackHi
    ensures OnStack(stackLo[..], stackHi[..], st + [Part(lz, hz)]) && sp' == sp + 1
  {
    hide *;
    OnStackPush(stackLo[..], stackHi[..], st, Part(lz, hz));
    stackLo[sp] := lz;
    stackHi[sp] := hz;
    assert stackLo[..] == old(stackLo[..])[|st| := lz];
    assert stackHi[..] == old(stackHi[..])[|st| := hz];
    sp' := sp + 1;
  }

  method Pop(stackLo: array<int>, stackHi: array<int>, sp: int, ghost st: seq<Part>)
    returns (sp': int, lo: int, hi: int, ghost rest: seq<Part>)
    requires OnStack(stackLo[..], stackHi[..], st) && 0 < sp == |st|
    ensures sp' == sp - 1 == |rest| && st == rest + [Part(lo, hi)]
    ensures OnStack(stackLo[..], stackHi[..], rest) && stackLo.Length == stackHi.Length
  {
    hide *;
    OnStackPop(stackLo[..], stackHi[..], st);
    sp' := sp - 1;
    lo, hi, rest := stackLo[sp'], stackHi[sp'], st[..sp'];
  }

  /** Pushes the two outer zones, the larger first. */
  method PushBoth(stackLo: array<int>, stackHi: array<int>, sp: int, lo: int, n: int, m: int, hi: int,
                  ghost st: seq<Part>)
    returns (sp': int)
    requires stackLo != stackHi && stackLo.Length == stackHi.Length
    requires OnStack(stackLo[..], stackHi[..], st) && sp == |st| < stackLo.Length - 1
    modifies stackLo, stackHi
    ensures sp' == sp + 2
    ensures OnStack(stackLo[..], stackHi[..],
                    st + [Outer(lo, n, m, hi, true), Outer(lo, n, m, hi, false)])
  {
    hide OnStack;
    if n - lo > hi - m {
      sp' := Push(stackLo, stackHi, sp, lo, n, st);
      sp' := Push(stackLo, stackHi, sp', m, hi, st + [Part(lo, n)]);
      assert st + [Part(lo, n)] + [Part(m, hi)] == st + [Part(lo, n), Part(m, hi)];
    } else {
      sp' := Push(stackLo, stackHi, sp, m, hi, st);
      sp' := Push(stackLo, stackHi, sp', lo, n, st + [Part(m, hi)]);
      assert st + [Part(m, hi)] + [Part(lo, n)] == st + [Part(m, hi), Part(lo, n)];
    }
  }

  /** The key around which a part is split: of its first, middle or last entry. */
  method ChooseMed(fmap: array<int>, eclass: seq<int>, lo: int, hi: int, r3: int)
    returns (med: int, ghost w: int)
    requires 0 <= lo <= hi < fmap.Length && Indexes(fmap[..], |eclass|)
    ensures lo <= w <= hi && OnSide(fmap[..], eclass, w, med, 0)
  {
    assert forall k :: 0 <= k < fmap.Length ==> fmap[k] == fmap[..][k];
    if r3 == 0 {
      med, w := eclass[fmap[lo]], lo;
    } else if r3 == 1 {
      med, w := eclass[fmap[(lo + hi) / 2]], (lo + hi) / 2;
    } else {
      med, w := eclass[fmap[hi]], hi;
    }
  }

  /** One part taken from the stack: a small one is sorted outright, a large one is
      partitioned; it is done unless two outer zones remain. */
  method SortRound(fmap: array<int>, eclass: seq<int>, lo: int, hi: int, r0: int)
    returns (r: int, done: bool, n: int, m: int, ghost med: int)
    requires 0 <= lo <= hi + 1 <= fmap.Length && Indexes(fmap[..], |eclass|)
    modifies fmap
    ensures Rearranged(old(fmap[..]), fmap[..], lo, hi) && Indexes(fmap[..], |eclass|)
    ensures done ==> SortedBy(fmap[..], eclass, lo, hi)
    ensures !done ==> hi - lo >= 10 && ThreeWay(fmap[..], eclass, lo, n, m, hi, med)
  {
    hide *;
    n, m, med := lo - 1, hi + 1, 0;
    if hi - lo < 10 {
      FallbackSimpleSort(fmap, eclass, lo, hi);
      r, done := r0, true;
    } else {
      r := (r0 * 7621 + 1) % 32768;
      var med', w := ChooseMed(fmap, eclass, lo, hi, r % 3);
      done, n, m := Partition(fmap, eclass, lo, hi, med', w);
      med := med';
      if done { AllEqualSorted(fmap[..], eclass, lo, hi, med); }
    }
  }

  /** Three-way quicksort of fmap[loSt..hiSt] by class, with an explicit stack. It
      leaves the entries in ascending order of class and never holds more than 18
      parts, so that the check for a stack of 99 parts cannot fail. */
  method FallbackQSort3(fmap: array<int>, eclass: seq<int>, loSt: int, hiSt: int)
    requires 0 <= loSt <= hiSt < fmap.Length && hiSt - loSt < 900000
    requires Indexes(fmap[..], |eclass|)
    modifies fmap
    ensures Rearranged(old(fmap[..]), fmap[..], loSt, hiSt) && Indexes(fmap[..], |eclass|)
    ensures SortedBy(fmap[..], eclass, loSt, hiSt)
  {
    ghost var f0 := fmap[..];
    var stackLo, stackHi := new int[100], new int[100];
    ghost var st: seq<Part> := [];
    assert OnStack(stackLo[..], stackHi[..], st);
    hide *;
    SortingStarts(f0, eclass, loSt, hiSt);
    var r := 0;
    var sp := Push(stackLo, stackHi, 0, loSt, hiSt, st);
    st := [Part(loSt, hiSt)];
    assert [] + st == st;
    while sp > 0
      invariant Sorting(f0, fmap[..], eclass, st, loSt, hiSt)
      invariant OnStack(stackLo[..], stackHi[..], st) && sp == |st| <= 18
      decreases Work(st)
    {
      assert sp < 100 - 1;
      var lo, hi;
      ghost var rest;
      sp, lo, hi, rest := Pop(stackLo, stackHi, sp, st);
      ghost var top, f := Part(lo, hi), fmap[..];
      SortingPop(f0, f, eclass, rest, top, loSt, hiSt);
      var done, n, m;
      ghost var med;
      r, done, n, m, med := SortRound(fmap, eclass, lo, hi, r);
      if done {
        SortingDone(f0, f, fmap[..], eclass, rest, top, loSt, hiSt);
        st := rest;
        continue;
      }
      ghost var p, q := Outer(lo, n, m, hi, true), Outer(lo, n, m, hi, false);
      SortingSplit(f0, f, fmap[..], eclass, rest, top, n, m, med, p, q, loSt, hiSt);
      sp := PushBoth(stackLo, stackHi, sp, lo, n, m, hi, rest);
      st := rest + [p, q];
    }
    assert st == [];
    SortingEnds(f0, fmap[..], eclass, loSt, hiSt);
  }
}
