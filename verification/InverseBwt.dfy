/** Undoing the Burrows-Wheeler transform: why following the links built by a
    counting sort of the last column spells out the block, also for a periodic
    block whose equal rotations were listed in any order. */
module InverseBwt {
  import opened Counting
  import opened Rotations

  /** The bytes of b at the positions listed in g. */
  function Column(b: seq<byte>, g: seq<int>): (s: seq<byte>)
    requires forall i :: 0 <= i < |g| ==> 0 <= g[i] < |b|
    ensures |s| == |g|
    ensures forall i :: 0 <= i < |g| ==> s[i] == b[g[i]]
  {
    seq(|g|, i requires 0 <= i < |g| => b[g[i]])
  }

  /** For every listed rotation, the position of its last byte. */
  function Lasts(n: nat, f: seq<int>): (g: seq<int>)
    requires forall i :: 0 <= i < |f| ==> 0 <= f[i] < n
    ensures |g| == |f|
    ensures forall i :: 0 <= i < |f| ==> g[i] == Prev(n, f[i])
  {
    seq(|f|, i requires 0 <= i < |f| => Prev(n, f[i]))
  }

  /** The last column of the sorted rotations: what the compressor codes. */
  function LastColumn(b: seq<byte>, f: seq<int>): (s: seq<byte>)
    requires forall i :: 0 <= i < |f| ==> 0 <= f[i] < |b|
    ensures |s| == |f|
    ensures forall i :: 0 <= i < |f| ==> s[i] == b[Prev(|b|, f[i])]
  {
    Column(b, Lasts(|b|, f))
  }

  /** t sends every slot of the first column to the element of l sorted there. */
  ghost predicate IsLinks(l: seq<byte>, t: seq<int>) {
    && |t| == |l|
    && (forall i :: 0 <= i < |l| ==> t[Slot(l, i)] == i)
  }

  /** The place reached from p after following k links. */
  function Chase(t: seq<int>, p: int, k: nat): int
    requires 0 <= p < |t|
    requires forall i :: 0 <= i < |t| ==> 0 <= t[i] < |t|
    decreases k
  {
    if k == 0 then p else Chase(t, t[p], k - 1)
  }

  lemma {:induction false} ChaseOneMore(t: seq<int>, p: int, k: nat)
    requires 0 <= p < |t|
    requires forall i :: 0 <= i < |t| ==> 0 <= t[i] < |t|
    ensures 0 <= Chase(t, p, k) < |t|
    ensures Chase(t, p, k + 1) == t[Chase(t, p, k)]
    decreases k
  {
    if k > 0 { ChaseOneMore(t, t[p], k - 1); }
  }

  lemma LastsIsPerm(n: nat, f: seq<int>)
    requires IsPerm(f, n)
    ensures IsPerm(Lasts(n, f), n)
  {
    var g := Lasts(n, f);
    forall i, j | 0 <= i < j < n ensures Differ(g, i, j) {
      assert Differ(f, i, j);
      assert Next(n, g[i]) == f[i] && Next(n, g[j]) == f[j];
    }
  }

  /** The positions among g[..k] whose byte satisfies a test; the two tests used
      are "is c" and "is below c". */
  function Holding(b: seq<byte>, g: seq<int>, c: int, less: bool, k: nat): (r: set<int>)
    requires IsPerm(g, |b|) && k <= |b|
  {
    if k == 0 then {} else
      var r := Holding(b, g, c, less, k - 1);
      if Wanted(b[g[k - 1]], c, less) then r + {g[k - 1]} else r
  }

  predicate Wanted(x: byte, c: int, less: bool) {
    if less then x < c else x == c
  }

  lemma {:induction false} HoldingSize(b: seq<byte>, g: seq<int>, c: int, less: bool, k: nat)
    requires IsPerm(g, |b|) && k <= |b|
    ensures |Holding(b, g, c, less, k)| ==
            if less then CountLess(Column(b, g)[..k], c) else Occ(Column(b, g)[..k], c)
  {
    if k > 0 {
      HoldingSize(b, g, c, less, k - 1);
      assert Column(b, g)[..k][..k - 1] == Column(b, g)[..k - 1];
      if g[k - 1] in Holding(b, g, c, less, k - 1) {
        var i := HoldingMember(b, g, c, less, k - 1, g[k - 1]);
        PermDistinct(g, |b|, i, k - 1);
      }
    }
  }

  lemma {:induction false} HoldingMember(b: seq<byte>, g: seq<int>, c: int, less: bool, k: nat, p: int)
    returns (i: nat)
    requires IsPerm(g, |b|) && k <= |b| && p in Holding(b, g, c, less, k)
    ensures i < k && g[i] == p && Wanted(b[p], c, less)
  {
    if p == g[k - 1] && Wanted(b[p], c, less) { i := k - 1; }
    else { i := HoldingMember(b, g, c, less, k - 1, p); }
  }

  lemma {:induction false} HoldingHas(b: seq<byte>, g: seq<int>, c: int, less: bool, k: nat, i: nat)
    requires IsPerm(g, |b|) && i < k <= |b| && Wanted(b[g[i]], c, less)
    ensures g[i] in Holding(b, g, c, less, k)
  {
    if i < k - 1 { HoldingHas(b, g, c, less, k - 1, i); }
  }

  /** Whatever the order of reading, all positions are read in the end. */
  lemma HoldingAll(b: seq<byte>, g: seq<int>, h: seq<int>, c: int)
    requires IsPerm(g, |b|) && IsPerm(h, |b|)
    ensures Holding(b, g, c, true, |b|) <= Holding(b, h, c, true, |b|)
  {
    var n := |b|;
    forall p | p in Holding(b, g, c, true, n) ensures p in Holding(b, h, c, true, n) {
      var i := HoldingMember(b, g, c, true, n, p);
      var k := PermSurjective(h, n, p);
      HoldingHas(b, h, c, true, n, k);
    }
  }

  /** Reading the block in another order does not change its counts. */
  lemma ColumnCounts(b: seq<byte>, g: seq<int>, c: int)
    requires IsPerm(g, |b|)
    ensures CountLess(Column(b, g), c) == CountLess(b, c)
  {
    var n := |b|;
    var id := seq(n, i => i);
    assert Column(b, id) == b == Column(b, id)[..n];
    assert Column(b, g) == Column(b, g)[..n];
    HoldingAll(b, id, g, c);
    HoldingAll(b, g, id, c);
    assert Holding(b, id, c, true, n) == Holding(b, g, c, true, n);
    HoldingSize(b, id, c, true, n);
    HoldingSize(b, g, c, true, n);
  }

  ghost predicate Ascending(s: seq<byte>) {
    forall i, k :: 0 <= i < k < |s| ==> s[i] <= s[k]
  }

  /** In an ascending column, exactly the first CountLess(s, c) bytes are below c. */
  lemma {:induction false} AscendingCounts(s: seq<byte>, c: int, j: nat)
    requires Ascending(s)
    requires j < |s|
    ensures s[j] < c <==> j < CountLess(s, c)
  {
    var m := |s| - 1;
    if s[m] < c {
      AllLess(s, c);
    } else if j < m {
      AscendingCounts(s[..m], c, j);
    }
  }

  lemma {:induction false} AllLess(s: seq<byte>, c: int)
    requires forall i :: 0 <= i < |s| ==> s[i] < c
    ensures CountLess(s, c) == |s|
  {
    if s != [] { AllLess(s[..|s| - 1], c); }
  }

  lemma {:induction false} NoneLess(s: seq<byte>, c: int, j: nat)
    requires j <= |s| && forall i :: j <= i < |s| ==> s[i] >= c
    ensures CountLess(s, c) == CountLess(s[..j], c)
  {
    if j < |s| {
      assert s[..|s| - 1][..j] == s[..j];
      NoneLess(s[..|s| - 1], c, j);
    } else {
      assert s[..j] == s;
    }
  }

  /** In an ascending column, element j is occurrence j - CountLess of its byte. */
  lemma AscendingRank(s: seq<byte>, j: nat)
    requires Ascending(s)
    requires j < |s|
    ensures var c: int := s[j]; CountLess(s, c) + Occ(s[..j], c) == j
  {
    var c: int := s[j];
    NoneLess(s, c, j);
    AllLess(s[..j], c + 1);
    CountStep(s[..j], c);
  }

  lemma FirstColumnAscending(b: seq<byte>, f: seq<int>)
    requires b != [] && IsRotationSort(b, f)
    ensures Ascending(Column(b, f))
  {
    forall i, k | 0 <= i < k < |b| ensures b[f[i]] <= b[f[k]] {
      assert Cmp(b, f[i], f[k], |b|) <= 0;
    }
  }

  lemma BothColumnsCount(b: seq<byte>, f: seq<int>, c: int)
    requires IsPerm(f, |b|)
    ensures CountLess(LastColumn(b, f), c) == CountLess(Column(b, f), c)
  {
    LastsIsPerm(|b|, f);
    ColumnCounts(b, Lasts(|b|, f), c);
    ColumnCounts(b, f, c);
  }

  /** The slot of last-column byte i lies in the first-column run of that byte. */
  lemma SlotByte(b: seq<byte>, f: seq<int>, i: nat)
    requires IsRotationSort(b, f) && i < |b|
    ensures var l := LastColumn(b, f); var j := Slot(l, i);
            && b[f[j]] == l[i]
            && CountLess(l, l[i]) == CountLess(Column(b, f), l[i])
  {
    var l := LastColumn(b, f);
    var j := Slot(l, i);
    var c: int := l[i];
    BothColumnsCount(b, f, c);
    BothColumnsCount(b, f, c + 1);
    FirstColumnAscending(b, f);
    AscendingCounts(Column(b, f), c, j);
    AscendingCounts(Column(b, f), c + 1, j);
  }

  /** ... and has there the rank that the byte has in the last column. */
  lemma SlotRank(b: seq<byte>, f: seq<int>, i: nat)
    requires IsRotationSort(b, f) && i < |b|
    ensures var l := LastColumn(b, f); var j := Slot(l, i);
            && b[f[j]] == l[i]
            && Occ(Column(b, f)[..j], l[i]) == Occ(l[..i], l[i])
  {
    SlotByte(b, f, i);
    FirstColumnAscending(b, f);
    AscendingRank(Column(b, f), Slot(LastColumn(b, f), i));
  }

  lemma SortedLe(b: seq<byte>, f: seq<int>, i: nat, j: nat)
    requires IsRotationSort(b, f) && i <= j < |b|
    ensures RotLe(b, f[i], f[j])
  {
    if i == j { CmpSelf(b, f[i], |b|); } else { assert Cmp(b, f[i], f[j], |b|) <= 0; }
  }

  /** If the rotation after slot j were below rotation f[i], then each byte c met
      up to slot j in the first column would be met before place i in the last. */
  lemma HitsBefore(b: seq<byte>, f: seq<int>, i: nat, j: nat, p: int)
    requires IsRotationSort(b, f) && i < |b| && j < |b|
    requires !RotLe(b, f[i], Next(|b|, f[j]))
    requires p in Holding(b, f, b[f[j]], false, j + 1)
    ensures IsPerm(Lasts(|b|, f), |b|)
    ensures p in Holding(b, Lasts(|b|, f), b[f[j]], false, i)
  {
    var n := |b|;
    var g := Lasts(n, f);
    LastsIsPerm(n, f);
    var k := HoldingMember(b, f, b[f[j]], false, j + 1, p);
    SortedLe(b, f, k, j);
    RotLeNext(b, p, f[j]);
    var m := PermSurjective(f, n, Next(n, p));
    assert g[m] == p;
    if m >= i {
      SortedLe(b, f, i, m);
      CmpTransitive(b, f[i], Next(n, p), Next(n, f[j]), n);
    }
    HoldingHas(b, g, b[f[j]], false, i, m);
  }

  /** The same with the two columns exchanged. */
  lemma HitsAfter(b: seq<byte>, f: seq<int>, i: nat, j: nat, p: int)
    requires IsRotationSort(b, f) && i < |b| && j < |b|
    requires !RotLe(b, Next(|b|, f[j]), f[i])
    requires IsPerm(Lasts(|b|, f), |b|)
    requires p in Holding(b, Lasts(|b|, f), b[f[j]], false, i + 1)
    ensures p in Holding(b, f, b[f[j]], false, j)
  {
    var n := |b|;
    var g := Lasts(n, f);
    var k := HoldingMember(b, g, b[f[j]], false, i + 1, p);
    assert Next(n, p) == f[k];
    SortedLe(b, f, k, i);
    var m := PermSurjective(f, n, p);
    if m >= j {
      SortedLe(b, f, j, m);
      RotLeNext(b, f[j], p);
      CmpTransitive(b, Next(n, f[j]), Next(n, p), f[i], n);
    }
    HoldingHas(b, f, b[f[j]], false, j, m);
  }

  /** Were the linked rotation above, the first column would hold the byte once
      too often. */
  lemma LinkNotAbove(b: seq<byte>, f: seq<int>, i: nat)
    requires IsRotationSort(b, f) && i < |b|
    ensures RotLe(b, f[i], Next(|b|, f[Slot(LastColumn(b, f), i)]))
  {
    hide Cmp, CountLess, RotLe, Holding, SortedTo;
    var j := Slot(LastColumn(b, f), i);
    var c := b[f[j]];
    SlotRank(b, f, i);
    LastsIsPerm(|b|, f);
    var s1, s2 := Holding(b, f, c, false, j + 1), Holding(b, Lasts(|b|, f), c, false, i);
    assert |s1| > |s2| by {
      HoldingSize(b, Lasts(|b|, f), c, false, i);
      HoldingSize(b, f, c, false, j + 1);
      assert Column(b, f)[..j + 1][..j] == Column(b, f)[..j];
    }
    if !RotLe(b, f[i], Next(|b|, f[j])) {
      forall p | p in s1 ensures p in s2 { HitsBefore(b, f, i, j, p); }
      SubsetSize(s1, s2);
    }
  }

  /** Were it below, the last column would. */
  lemma LinkNotBelow(b: seq<byte>, f: seq<int>, i: nat)
    requires IsRotationSort(b, f) && i < |b|
    ensures RotLe(b, Next(|b|, f[Slot(LastColumn(b, f), i)]), f[i])
  {
    hide Cmp, CountLess, RotLe, Holding, SortedTo;
    var l := LastColumn(b, f);
    var j := Slot(l, i);
    var c := b[f[j]];
    SlotRank(b, f, i);
    LastsIsPerm(|b|, f);
    var s1, s2 := Holding(b, Lasts(|b|, f), c, false, i + 1), Holding(b, f, c, false, j);
    assert |s1| > |s2| by {
      HoldingSize(b, Lasts(|b|, f), c, false, i + 1);
      HoldingSize(b, f, c, false, j);
      assert l[..i + 1][..i] == l[..i];
    }
    if !RotLe(b, Next(|b|, f[j]), f[i]) {
      forall p | p in s1 ensures p in s2 { HitsAfter(b, f, i, j, p); }
      SubsetSize(s1, s2);
    }
  }

  /** Links are total: every slot is the slot of its link. */
  lemma LinksInverse(l: seq<byte>, t: seq<int>, j: nat)
    requires IsLinks(l, t) && j < |l|
    ensures 0 <= t[j] < |l| && Slot(l, t[j]) == j
  {
    var n := |l|;
    var s := seq(n, i requires 0 <= i < n => Slot(l, i));
    forall i, k | 0 <= i < k < n ensures Differ(s, i, k) { SlotInjective(l, i, k); }
    var i := PermSurjective(s, n, j);
    assert t[Slot(l, i)] == i;
  }

  lemma LinksInRange(l: seq<byte>, t: seq<int>)
    requires IsLinks(l, t)
    ensures forall j :: 0 <= j < |t| ==> 0 <= t[j] < |t|
  {
    forall j | 0 <= j < |t| ensures 0 <= t[j] < |t| { LinksInverse(l, t, j); }
  }

  /** One link moves one position on round the block, up to equality of rotations. */
  lemma LinkIsNext(b: seq<byte>, f: seq<int>, t: seq<int>, j: nat)
    requires IsRotationSort(b, f) && IsLinks(LastColumn(b, f), t) && j < |b|
    ensures 0 <= t[j] < |b|
    ensures Cmp(b, f[t[j]], Next(|b|, f[j]), |b|) == 0
    ensures LastColumn(b, f)[t[j]] == b[f[j]]
  {
    var l := LastColumn(b, f);
    LinksInverse(l, t, j);
    LinkNotAbove(b, f, t[j]);
    LinkNotBelow(b, f, t[j]);
    CmpMirror(b, f[t[j]], Next(|b|, f[j]), |b|);
    SlotRank(b, f, t[j]);
  }

  /** After k links from the place of rotation 0 stands a rotation equal to rotation k. */
  lemma {:induction false} ChaseIsRotation(b: seq<byte>, f: seq<int>, t: seq<int>, p: int, k: nat)
    requires IsRotationSort(b, f) && IsLinks(LastColumn(b, f), t)
    requires 0 <= p < |b| && f[p] == 0
    ensures forall j :: 0 <= j < |t| ==> 0 <= t[j] < |t|
    ensures 0 <= Chase(t, p, k) < |b|
    ensures Cmp(b, f[Chase(t, p, k)], Adv(|b|, 0, k), |b|) == 0
  {
    LinksInRange(LastColumn(b, f), t);
    if k == 0 {
      CmpSelf(b, 0, |b|);
    } else {
      ChaseIsRotation(b, f, t, p, k - 1);
      ChaseOneMore(t, p, k - 1);
      AdvOneMore(|b|, 0, k - 1);
      var q := Chase(t, p, k - 1);
      LinkIsNext(b, f, t, q);
      CmpEqualNext(b, f[q], Adv(|b|, 0, k - 1));
      CmpTransitive(b, f[t[q]], Next(|b|, f[q]), Adv(|b|, 0, k), |b|);
    }
  }

  /** Inverse BWT: the byte met after k + 1 links is byte k of the block,
      for every weakly sorted order of the rotations. */
  lemma InverseBwtRecovers(b: seq<byte>, f: seq<int>, t: seq<int>, p: int, k: nat)
    requires IsRotationSort(b, f) && IsLinks(LastColumn(b, f), t)
    requires 0 <= p < |b| && f[p] == 0
    ensures forall j :: 0 <= j < |t| ==> 0 <= t[j] < |t|
    ensures 0 <= Chase(t, p, k) < |b| && 0 <= Chase(t, p, k + 1) < |b|
    ensures LastColumn(b, f)[Chase(t, p, k + 1)] == b[Adv(|b|, 0, k)]
    ensures b[f[Chase(t, p, k)]] == b[Adv(|b|, 0, k)]
    ensures k < |b| ==> Adv(|b|, 0, k) == k
  {
    ChaseIsRotation(b, f, t, p, k);
    ChaseIsRotation(b, f, t, p, k + 1);
    ChaseOneMore(t, p, k);
    var q := Chase(t, p, k);
    CmpEqualNext(b, f[q], Adv(|b|, 0, k));
    LinkIsNext(b, f, t, q);
    if k < |b| { AdvValue(|b|, 0, k); }
  }
}
