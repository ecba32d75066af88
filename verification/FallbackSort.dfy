/** fallbackSort: sorting the rotations of a block by repeated doubling of the
    depth to which they are compared. */
module FallbackSort {
  import opened Counting
  import opened Rotations
  import opened HeaderBits
  import opened QuickSort
  import opened InverseBwt
  import opened FallbackRefine

  // ----- the initial radix sort by one byte

  /** The place at which the radix sort, filling buckets from the top, puts i. */
  function TopSlot(b: seq<byte>, i: nat): (r: int)
    requires i < |b|
  {
    var c: int := b[i];
    CountLess(b, c + 1) - 1 - Occ(b[..i], c)
  }

  lemma TopSlotRange(b: seq<byte>, i: nat)
    requires i < |b|
    ensures var c: int := b[i]; CountLess(b, c) <= TopSlot(b, i) < CountLess(b, c + 1) <= |b|
  {
    var bottom := Slot(b, i);
  }

  /** All top slots, one per position. */
  function TopSlots(b: seq<byte>): (p: seq<int>)
    ensures |p| == |b| && forall i :: 0 <= i < |b| ==> p[i] == TopSlot(b, i)
  {
    seq(|b|, i requires 0 <= i < |b| => TopSlot(b, i))
  }

  lemma TopSlotDistinct(b: seq<byte>, i: nat, j: nat)
    requires i < j < |b|
    ensures TopSlot(b, i) != TopSlot(b, j)
  {
    TopSlotRange(b, i);
    TopSlotRange(b, j);
    var c: int, d: int := b[i], b[j];
    if c == d {
      OccPrefix(b, i, j, c);
    } else if c < d {
      CountMonotone(b, c + 1, d);
    } else {
      CountMonotone(b, d + 1, c);
    }
  }

  lemma TopSlotsPerm(b: seq<byte>)
    ensures IsPerm(TopSlots(b), |b|)
  {
    var p := TopSlots(b);
    forall i | 0 <= i < |b| ensures 0 <= p[i] < |b| { TopSlotRange(b, i); }
    forall i, j | 0 <= i < j < |b| ensures Differ(p, i, j) { TopSlotDistinct(b, i, j); }
  }

  /** f has every position at its top slot. */
  ghost predicate RadixPlaced(b: seq<byte>, f: seq<int>) {
    && |f| == |b|
    && forall i :: 0 <= i < |b| ==> 0 <= TopSlot(b, i) < |b| && f[TopSlot(b, i)] == i
  }

  /** What stands at place k: a position whose byte owns the bucket of k. */
  lemma PlacedAt(b: seq<byte>, f: seq<int>, k: nat)
    requires RadixPlaced(b, f) && k < |b|
    ensures 0 <= f[k] < |b|
    ensures var c: int := b[f[k]]; CountLess(b, c) <= k < CountLess(b, c + 1)
  {
    hide *;
    TopSlotsPerm(b);
    var i := PermSurjective(TopSlots(b), |b|, k);
    TopSlotRange(b, i);
    PlacedFact(b, f, i);
  }

  lemma PlacedFact(b: seq<byte>, f: seq<int>, i: nat)
    requires RadixPlaced(b, f) && i < |b|
    ensures |f| == |b| && 0 <= TopSlot(b, i) < |b| && f[TopSlot(b, i)] == i
  {
  }

  lemma PlacedIsPerm(b: seq<byte>, f: seq<int>)
    requires RadixPlaced(b, f)
    ensures IsPerm(f, |b|)
  {
    TopSlotsPerm(b);
    InverseIsPerm(TopSlots(b), f, |b|);
  }

  /** The radix sort orders the rotations by their first byte. */
  lemma PlacedSorted(b: seq<byte>, f: seq<int>)
    requires RadixPlaced(b, f)
    ensures SortedTo(b, f, 1)
  {
    forall i | 0 <= i < |f| ensures 0 <= f[i] < |b| { PlacedAt(b, f, i); }
    forall i, j | 0 <= i < j < |f| ensures Cmp(b, f[i], f[j], 1) <= 0 {
      PlacedAt(b, f, i);
      PlacedAt(b, f, j);
      if b[f[j]] < b[f[i]] { CountMonotone(b, b[f[j]] as int + 1, b[f[i]]); }
    }
  }

  /** A place whose byte differs from the byte before begins the bucket of its byte. */
  lemma HeaderIsStart(b: seq<byte>, f: seq<int>, k: nat) returns (c: nat)
    requires RadixPlaced(b, f) && k < |b| && Header(b, f, k, 1)
    ensures c < 256 && CountLess(b, c) == k
  {
    PlacedAt(b, f, k);
    if k == 0 {
      CountExtremes(b);
      c := 0;
    } else {
      PlacedAt(b, f, k - 1);
      var d: int, e: int := b[f[k]], b[f[k - 1]];
      if d < e { CountMonotone(b, d + 1, e); }
      CountMonotone(b, e + 1, d);
      c := d;
    }
  }

  /** ... and the bucket of a byte begins nowhere else. */
  lemma StartIsHeader(b: seq<byte>, f: seq<int>, k: nat, c: int)
    requires RadixPlaced(b, f) && k < |b| && CountLess(b, c) == k
    ensures Header(b, f, k, 1)
  {
    PlacedAt(b, f, k);
    if k > 0 {
      PlacedAt(b, f, k - 1);
      var d: int, e: int := b[f[k]], b[f[k - 1]];
      if d == e {
        if c <= d { CountMonotone(b, c, d); } else { CountMonotone(b, d + 1, c); }
      }
    }
  }

  /** The byte counts of b[..i]. */
  ghost predicate Counted(t: seq<int>, b: seq<byte>, i: nat) {
    |t| == 257 && i <= |b| && forall c :: 0 <= c < 257 ==> t[c] == Occ(b[..i], c)
  }

  lemma CountedStep(t: seq<int>, b: seq<byte>, i: nat)
    requires Counted(t, b, i) && i < |b|
    ensures Counted(t[b[i] := t[b[i]] + 1], b, i + 1)
  {
    assert b[..i + 1][..i] == b[..i];
  }

  /** Entries below i summed up, the others still single counts. */
  ghost predicate Summed(t: seq<int>, b: seq<byte>, i: nat) {
    && |t| == 257 && i <= 257
    && (forall c :: 0 <= c < i ==> t[c] == CountLess(b, c + 1))
    && (forall c :: i <= c < 257 ==> t[c] == Occ(b, c))
  }

  lemma SummedStart(t: seq<int>, b: seq<byte>)
    requires Counted(t, b, |b|)
    ensures Summed(t, b, 1)
  {
    assert b[..|b|] == b;
    CountExtremes(b);
    CountStep(b, 0);
  }

  lemma SummedStep(t: seq<int>, b: seq<byte>, i: nat)
    requires Summed(t, b, i) && 1 <= i < 257
    ensures Summed(t[i := t[i] + t[i - 1]], b, i + 1)
  {
    CountStep(b, i);
  }

  /** ftab while the first i positions have been placed. */
  ghost predicate Filling(t: seq<int>, b: seq<byte>, i: nat) {
    && |t| == 257 && i <= |b|
    && (forall c :: 0 <= c < 256 ==> t[c] == CountLess(b, c + 1) - Occ(b[..i], c))
  }

  lemma FillingStep(t: seq<int>, b: seq<byte>, i: nat)
    requires Filling(t, b, i) && i < |b|
    ensures 0 <= t[b[i]] - 1 < |b| && t[b[i]] - 1 == TopSlot(b, i)
    ensures Filling(t[b[i] := t[b[i]] - 1], b, i + 1)
  {
    TopSlotRange(b, i);
    assert b[..i + 1][..i] == b[..i];
  }

  /** ... and where those positions went. */
  ghost predicate PlacedUpTo(b: seq<byte>, f: seq<int>, i: nat) {
    && |f| == |b| && i <= |b|
    && (forall k :: 0 <= k < i ==> 0 <= TopSlot(b, k) < |b| && f[TopSlot(b, k)] == k)
  }

  lemma PlacedStep(b: seq<byte>, f: seq<int>, i: nat)
    requires PlacedUpTo(b, f, i) && i < |b| && 0 <= TopSlot(b, i) < |b|
    ensures PlacedUpTo(b, f[TopSlot(b, i) := i], i + 1)
  {
    forall k | 0 <= k < i ensures TopSlot(b, k) != TopSlot(b, i) { TopSlotDistinct(b, k, i); }
  }

  /** The counting passes of the radix sort. */
  method Tally(b: seq<byte>) returns (ftab: array<int>, ftabCopy: array<int>)
    ensures fresh(ftab) && fresh(ftabCopy) && ftab != ftabCopy
    ensures Summed(ftab[..], b, 257) && Counted(ftabCopy[..], b, |b|)
  {
    ftab := new int[257](_ => 0);
    assert Counted(ftab[..], b, 0);
    hide *;
    for i := 0 to |b|
      invariant Counted(ftab[..], b, i) && ftab.Length == 257
    {
      CountedStep(ftab[..], b, i);
      ghost var t := ftab[..];
      ftab[b[i]] := ftab[b[i]] + 1;
      assert ftab[..] == t[b[i] := t[b[i]] + 1];
    }
    ftabCopy := new int[257];
    ghost var t0 := ftab[..];
    forall i | 0 <= i < 257 { ftabCopy[i] := ftab[i]; }
    assert ftabCopy[..] == t0 == ftab[..];
    SummedStart(t0, b);
    for i := 1 to 257
      invariant Summed(ftab[..], b, i) && ftab.Length == 257 && ftabCopy[..] == t0
    {
      SummedStep(ftab[..], b, i);
      ghost var t := ftab[..];
      ftab[i] := ftab[i] + ftab[i - 1];
      assert ftab[..] == t[i := t[i] + t[i - 1]];
    }
  }

  /** The placing pass: afterwards ftab holds the first place of every bucket. */
  method PlaceAll(b: seq<byte>, ftab: array<int>, fmap: array<int>)
    requires ftab != fmap && fmap.Length == |b| && Summed(ftab[..], b, 257)
    modifies ftab, fmap
    ensures RadixPlaced(b, fmap[..])
    ensures ftab.Length == 257 && forall c :: 0 <= c < 256 ==> ftab[..][c] == CountLess(b, c)
  {
    ghost var f := fmap[..];
    assert ftab.Length == 257 && Filling(ftab[..], b, 0) && PlacedUpTo(b, f, 0);
    hide *;
    for i := 0 to |b|
      invariant Filling(ftab[..], b, i) && PlacedUpTo(b, fmap[..], i)
    {
      ghost var t, g := ftab[..], fmap[..];
      FillingStep(t, b, i);
      PlacedStep(b, g, i);
      var j: int := b[i];
      var k := ftab[j] - 1;
      ftab[j] := k;
      fmap[k] := i;
      assert ftab[..] == t[j := k];
      assert fmap[..] == g[k := i];
    }
    AllPlaced(ftab[..], b, fmap[..]);
  }

  lemma AllPlaced(t: seq<int>, b: seq<byte>, f: seq<int>)
    requires Filling(t, b, |b|) && PlacedUpTo(b, f, |b|)
    ensures RadixPlaced(b, f)
    ensures forall c :: 0 <= c < 256 ==> t[c] == CountLess(b, c)
  {
    assert b[..|b|] == b;
    forall c | 0 <= c < 256 ensures t[c] == CountLess(b, c) { CountStep(b, c); }
  }

  // ----- the first header bits

  /** Some of the first c buckets starts at place k. */
  ghost predicate StartsAt(t: seq<int>, c: nat, k: int) {
    c <= |t| && exists d :: 0 <= d < c && t[d] == k
  }

  /** Below place z, exactly the starts of the first c buckets are marked. */
  ghost predicate StartsMarked(t: seq<int>, bh: seq<Word>, c: nat, z: nat) {
    && z <= 32 * |bh|
    && forall k {:trigger Bit(bh, k)} :: 0 <= k < z ==> Bit(bh, k) == StartsAt(t, c, k)
  }

  lemma StartsMarkedStep(t: seq<int>, bh: seq<Word>, c: nat, z: nat)
    requires StartsMarked(t, bh, c, z) && c < |t| && 0 <= t[c] && t[c] / 32 < |bh|
    ensures StartsMarked(t, WithBit(bh, t[c], true), c + 1, z)
  {
    var bh' := WithBit(bh, t[c], true);
    forall k | 0 <= k < z ensures Bit(bh', k) == StartsAt(t, c + 1, k) {
      WithBitIs(bh, t[c], true, k);
      assert Bit(bh, k) == StartsAt(t, c, k);
      if StartsAt(t, c, k) {
        var d :| 0 <= d < c && t[d] == k;
        assert 0 <= d < c + 1;
      }
    }
  }

  /** The marks that the radix sort gives are those of depth 1. */
  lemma FirstMark(b: seq<byte>, f: seq<int>, t: seq<int>, k: nat)
    requires RadixPlaced(b, f) && |t| == 257 && k < |b|
    requires forall c :: 0 <= c < 256 ==> t[c] == CountLess(b, c)
    ensures StartsAt(t, 256, k) == Header(b, f, k, 1)
  {
    hide RadixPlaced, Header, CountLess;
    if StartsAt(t, 256, k) {
      var d :| 0 <= d < 256 && t[d] == k;
      StartIsHeader(b, f, k, d);
    }
    if Header(b, f, k, 1) {
      var c := HeaderIsStart(b, f, k);
      assert t[c] == k;
    }
  }

  lemma FirstMarks(b: seq<byte>, f: seq<int>, t: seq<int>, bh: seq<Word>)
    requires RadixPlaced(b, f) && |t| == 257 && |b| / 32 < |bh|
    requires forall c :: 0 <= c < 256 ==> t[c] == CountLess(b, c)
    requires StartsMarked(t, bh, 256, |b|)
    ensures Marks(b, f, bh, 1, 0, |b|)
  {
    hide StartsAt, Header, CountLess;
    forall k | 0 <= k < |b| ensures Bit(bh, k) == Header(b, f, k, 1) {
      FirstMark(b, f, t, k);
      assert Bit(bh, k) == StartsAt(t, 256, k);
    }
  }

  /** Clears the words used for the block and marks the starts of the byte buckets. */
  method MarkStarts(bhtab: array<Word>, ftab: array<int>, n: nat)
    requires 3 + n / 32 <= bhtab.Length && ftab.Length == 257
    requires forall c :: 0 <= c < 256 ==> 0 <= ftab[..][c] <= n
    modifies bhtab
    ensures StartsMarked(ftab[..], bhtab[..], 256, n)
  {
    var nBhtab := 2 + n / 32;
    var i := 0;
    while i < nBhtab
      invariant 0 <= i <= nBhtab
      invariant forall k :: 0 <= k < i ==> bhtab[k] == Solid(false)
    {
      bhtab[i] := Solid(false);
      i := i + 1;
    }
    ghost var t := ftab[..];
    StartsUnmarked(t, bhtab[..], n);
    hide *;
    for c := 0 to 256
      invariant StartsMarked(t, bhtab[..], c, n)
    {
      StartsMarkedStep(t, bhtab[..], c, n);
      SetBit(bhtab, ftab[c], true);
    }
  }

  lemma StartsUnmarked(t: seq<int>, bh: seq<Word>, n: nat)
    requires 3 + n / 32 <= |bh| && forall k :: 0 <= k < 2 + n / 32 ==> bh[k] == Solid(false)
    ensures StartsMarked(t, bh, 0, n)
  {
  }

  /** The tables agree below bit n, and the new one ends the block there. */
  ghost predicate Sentinel(bh: seq<Word>, bh': seq<Word>, n: nat, done: bool) {
    && |bh'| == |bh| && (n + 1) / 32 < |bh|
    && (forall k: nat {:trigger Bit(bh', k)} :: k < n ==> Bit(bh', k) == Bit(bh, k))
    && (done ==> Bit(bh', n) && !Bit(bh', n + 1))
  }

  lemma SentinelStep(bh: seq<Word>, bh': seq<Word>, n: nat, i: nat)
    requires Sentinel(bh, bh', n, i > 0) && (n + 2 * i + 1) / 32 < |bh|
    ensures Sentinel(bh, WithBit(WithBit(bh', n + 2 * i, true), n + 2 * i + 1, false), n, true)
  {
    var x := WithBit(bh', n + 2 * i, true);
    var y := WithBit(x, n + 2 * i + 1, false);
    forall k: nat | k <= n + 1 && k / 32 < |bh|
      ensures Bit(y, k) == if k == n + 2 * i then true else if k == n + 2 * i + 1 then false else Bit(bh', k)
    {
      WithBitIs(bh', n + 2 * i, true, k);
      WithBitIs(x, n + 2 * i + 1, false, k);
    }
  }

  /** Sets the sentinel bits after the block: alternately set and clear. */
  method SetSentinels(bhtab: array<Word>, n: nat)
    requires 3 + n / 32 <= bhtab.Length
    modifies bhtab
    ensures Sentinel(old(bhtab[..]), bhtab[..], n, true)
  {
    hide WithBit, Bit;
    ghost var bh := bhtab[..];
    assert Sentinel(bh, bh, n, false);
    hide Sentinel;
    for i := 0 to 32
      invariant Sentinel(bh, bhtab[..], n, i > 0)
    {
      SentinelStep(bh, bhtab[..], n, i);
      SetBit(bhtab, n + 2 * i, true);
      SetBit(bhtab, n + 2 * i + 1, false);
    }
  }

  // ----- rebuilding the block

  /** The bytes of the sorted list: the first column. */
  ghost predicate Rebuilding(b: seq<byte>, f: seq<int>, t: seq<int>, e8: seq<byte>, i: nat, j: int) {
    && IsPerm(f, |b|) && |t| == 257 && |e8| == |b| && i <= |b|
    && (forall c :: 0 <= c < 256 ==> t[c] == Occ(b, c) - Occ(Column(b, f)[..i], c))
    && (forall k :: 0 <= k < i ==> e8[f[k]] == b[f[k]])
    && 0 <= j && (i < |b| ==> j <= Column(b, f)[i])
  }

  lemma OccOfColumn(b: seq<byte>, f: seq<int>, c: int)
    requires IsPerm(f, |b|)
    ensures Occ(Column(b, f), c) == Occ(b, c)
  {
    ColumnCounts(b, f, c);
    ColumnCounts(b, f, c + 1);
    CountStep(b, c);
    CountStep(Column(b, f), c);
  }

  /** Bytes below the next one have all been used up, the next one has not. */
  lemma NextByte(b: seq<byte>, f: seq<int>, i: nat, c: int)
    requires b != [] && IsRotationSort(b, f) && i < |b| && c <= Column(b, f)[i]
    ensures Occ(b, c) - Occ(Column(b, f)[..i], c) > 0 <==> c == Column(b, f)[i]
    ensures Occ(b, c) - Occ(Column(b, f)[..i], c) >= 0
  {
    var s := Column(b, f);
    OccOfColumn(b, f, c);
    assert s[..|s|] == s;
    OccPrefix(s, i, |s|, c);
    if c < s[i] {
      FirstColumnAscending(b, f);
      assert forall k :: i <= k < |s| ==> s[k] >= s[i];
      NoneAfter(s, c, i);
    }
  }

  lemma {:induction false} NoneAfter(s: seq<byte>, c: int, i: nat)
    requires i <= |s| && forall k :: i <= k < |s| ==> s[k] != c
    ensures Occ(s, c) == Occ(s[..i], c)
  {
    if i < |s| {
      assert s[..|s| - 1][..i] == s[..i];
      NoneAfter(s[..|s| - 1], c, i);
    } else {
      assert s[..i] == s;
    }
  }

  lemma RebuildStep(b: seq<byte>, f: seq<int>, t: seq<int>, e8: seq<byte>, i: nat, j: byte)
    requires b != [] && IsRotationSort(b, f) && i < |b| && Rebuilding(b, f, t, e8, i, j)
    requires j == Column(b, f)[i]
    ensures Rebuilding(b, f, t[j := t[j] - 1], e8[f[i] := j], i + 1, j)
  {
    var s := Column(b, f);
    assert s[..i + 1][..i] == s[..i];
    if i + 1 < |b| { FirstColumnAscending(b, f); }
  }

  lemma RebuildFacts(b: seq<byte>, f: seq<int>, t: seq<int>, e8: seq<byte>, i: nat, j: int)
    requires b != [] && IsRotationSort(b, f) && i < |b| && Rebuilding(b, f, t, e8, i, j)
    ensures 0 <= f[i] < |e8| == |b| == |f| && |t| == 257 && 0 <= j <= Column(b, f)[i]
    ensures t[j] == 0 <==> j < Column(b, f)[i]
  {
    NextByte(b, f, i, j);
  }

  lemma Rebuilt(b: seq<byte>, f: seq<int>, t: seq<int>, e8: seq<byte>, j: int)
    requires Rebuilding(b, f, t, e8, |b|, j)
    ensures e8 == b
  {
    forall x | 0 <= x < |b| ensures e8[x] == b[x] {
      var k := PermSurjective(f, |b|, x);
    }
  }

  lemma RebuildStart(b: seq<byte>, f: seq<int>, t: seq<int>, e8: seq<byte>)
    requires IsPerm(f, |b|) && Counted(t, b, |b|) && |e8| == |b|
    ensures Rebuilding(b, f, t, e8, 0, 0)
  {
    assert b[..|b|] == b;
  }

  /** The last loop of fallbackSort. Whatever eclass8 holds, it holds the block
      again afterwards: the sorted list and the byte counts determine it. */
  method Reconstruct(fmap: array<int>, ftabCopy: array<int>, eclass8: array<byte>, ghost b: seq<byte>)
    requires b != [] && IsRotationSort(b, fmap[..]) && Counted(ftabCopy[..], b, |b|)
    requires fmap.Length == eclass8.Length == |b| && ftabCopy != fmap
    modifies ftabCopy, eclass8
    ensures eclass8[..] == b
  {
    hide *;
    ghost var f := fmap[..];
    IsRotationSortPerm(b, f);
    RebuildStart(b, f, ftabCopy[..], eclass8[..]);
    var j := 0;
    for i := 0 to fmap.Length
      invariant Rebuilding(b, f, ftabCopy[..], eclass8[..], i, j) && ftabCopy.Length == 257
    {
      ghost var t, e8 := ftabCopy[..], eclass8[..];
      RebuildFacts(b, f, t, e8, i, j);
      j := FindByte(ftabCopy, j, b, f, e8, i);
      RebuildFacts(b, f, t, e8, i, j);
      RebuildStep(b, f, t, e8, i, j);
      ftabCopy[j] := ftabCopy[j] - 1;
      eclass8[fmap[i]] := j;
      assert ftabCopy[..] == t[j := t[j] - 1];
      assert eclass8[..] == e8[f[i] := j];
    }
    Rebuilt(b, f, ftabCopy[..], eclass8[..], j);
  }

  lemma IsRotationSortPerm(b: seq<byte>, f: seq<int>)
    requires IsRotationSort(b, f)
    ensures IsPerm(f, |b|) && |f| == |b| && forall k :: 0 <= k < |b| ==> 0 <= f[k] < |b|
  {
  }

  lemma RebuildAdvance(b: seq<byte>, f: seq<int>, t: seq<int>, e8: seq<byte>, i: nat, j: int)
    requires b != [] && IsRotationSort(b, f) && i < |b| && Rebuilding(b, f, t, e8, i, j)
    requires |t| == 257 && 0 <= j < 257 && t[j] == 0
    ensures j < 255 && Rebuilding(b, f, t, e8, i, j + 1)
  {
    RebuildFacts(b, f, t, e8, i, j);
  }

  /** while (ftabCopy[j] == 0) j++ */
  method FindByte(ftabCopy: array<int>, j0: int, ghost b: seq<byte>, ghost f: seq<int>, ghost e8: seq<byte>,
                  ghost i: nat)
    returns (j: byte)
    requires b != [] && IsRotationSort(b, f) && i < |b| && Rebuilding(b, f, ftabCopy[..], e8, i, j0)
    ensures Rebuilding(b, f, ftabCopy[..], e8, i, j)
    ensures |f| == |b| && (forall k :: 0 <= k < |b| ==> 0 <= f[k] < |b|) && j == Column(b, f)[i]
  {
    hide *;
    IsRotationSortPerm(b, f);
    RebuildFacts(b, f, ftabCopy[..], e8, i, j0);
    var jj := j0;
    while ftabCopy[jj] == 0
      invariant 0 <= jj < 256 && ftabCopy.Length == 257
      invariant Rebuilding(b, f, ftabCopy[..], e8, i, jj)
      decreases 256 - jj
    {
      RebuildAdvance(b, f, ftabCopy[..], e8, i, jj);
      jj := jj + 1;
    }
    RebuildFacts(b, f, ftabCopy[..], e8, i, jj);
    j := jj;
  }

  // ----- the whole sort

  /** Before a pass of depth h: sorted and marked to that depth. */
  ghost predicate DepthState(b: seq<byte>, f: seq<int>, bh: seq<Word>, h: nat) {
    && IsPerm(f, |b|) && SortedTo(b, f, h) && 0 < h <= |b|
    && (|b| + 1) / 32 < |bh| && Bit(bh, |b|) && !Bit(bh, |b| + 1)
    && Marks(b, f, bh, h, 0, |b|)
  }

  lemma DepthStarts(b: seq<byte>, f: seq<int>, t: seq<int>, bh: seq<Word>, bh': seq<Word>)
    requires b != [] && RadixPlaced(b, f) && |t| == 257
    requires forall c :: 0 <= c < 256 ==> t[c] == CountLess(b, c)
    requires StartsMarked(t, bh, 256, |b|) && Sentinel(bh, bh', |b|, true)
    ensures DepthState(b, f, bh', 1)
  {
    PlacedIsPerm(b, f);
    PlacedSorted(b, f);
    FirstMarks(b, f, t, bh);
  }

  lemma DepthFacts(b: seq<byte>, f: seq<int>, bh: seq<Word>, h: nat)
    requires DepthState(b, f, bh, h)
    ensures IsPerm(f, |b|) && |f| == |b| && 0 < h <= |b| && |b| / 32 < |bh|
  {
  }

  lemma PassStarts(b: seq<byte>, f: seq<int>, bh: seq<Word>, ec: seq<int>, h: nat)
    requires DepthState(b, f, bh, h) && Classed(f, bh, ec, h, |b|)
    ensures Passing(b, f, ec, bh, h, 0)
  {
    ClassesFromBuckets(b, f, bh, ec, h);
    assert Bit(bh, 0) == Header(b, f, 0, h);
    assert f[..0] == [];
  }

  lemma PassDone(b: seq<byte>, f: seq<int>, ec: seq<int>, bh: seq<Word>, h: nat)
    requires Passing(b, f, ec, bh, h, |b|) && 0 < h
    ensures 2 * h <= |b| ==> DepthState(b, f, bh, 2 * h)
    ensures 2 * h > |b| ==> IsRotationSort(b, f)
  {
    assert Run(bh, |b|, |b| + 1, true);
    PassEnds(b, f, bh, h, |b|);
    if 2 * h > |b| { SortedDeepEnough(b, f, 2 * h); }
  }

  lemma NothingToDo(b: seq<byte>, f: seq<int>, bh: seq<Word>, h: nat)
    requires DepthState(b, f, bh, h) && Run(bh, 0, |b| + 1, true)
    ensures IsRotationSort(b, f)
  {
    forall i | 0 < i < |f| ensures Cmp(b, f[i - 1], f[i], h) != 0 {
      assert Bit(bh, i) == Header(b, f, i, h);
      assert Bit(bh, i) == true;
    }
    StrictlySortedStays(b, f, h, |b| - h);
  }

  lemma CountsInRange(b: seq<byte>, t: seq<int>)
    requires |t| == 257 && forall c :: 0 <= c < 256 ==> t[c] == CountLess(b, c)
    ensures forall c :: 0 <= c < 256 ==> 0 <= t[c] <= |b|
  {
  }

  /** The passes: depth doubles until it exceeds the block or nothing is left to do. */
  method DoublingPasses(fmap: array<int>, bhtab: array<Word>, ghost b: seq<byte>)
    requires fmap.Length == |b| <= 900000 && DepthState(b, fmap[..], bhtab[..], 1)
    modifies fmap, bhtab
    ensures IsRotationSort(b, fmap[..])
  {
    hide *;
    var n := fmap.Length;
    var h := 1;
    while true
      invariant DepthState(b, fmap[..], bhtab[..], h)
      decreases n - h
    {
      ghost var f, bh := fmap[..], bhtab[..];
      DepthFacts(b, f, bh, h);
      var eclass := AssignClasses(fmap, bhtab, h);
      PassStarts(b, f, bh, eclass[..], h);
      var nNotDone := RefineBuckets(fmap, eclass[..], bhtab, h, b);
      PassDone(b, fmap[..], eclass[..], bhtab[..], h);
      if nNotDone == 0 { NothingToDo(b, f, bh, h); }
      h := h * 2;
      if h > n || nNotDone == 0 { break; }
    }
  }

  /** fallbackSort: fmap becomes a list of all rotations of the block in weakly
      ascending order, and the block, overwritten meanwhile, is there again. */
  method FallbackSort(fmap: array<int>, eclass8: array<byte>, bhtab: array<Word>)
    requires 0 < fmap.Length == eclass8.Length <= 900000
    requires 3 + fmap.Length / 32 <= bhtab.Length
    modifies fmap, eclass8, bhtab
    ensures IsRotationSort(old(eclass8[..]), fmap[..])
    ensures eclass8[..] == old(eclass8[..])
  {
    hide *;
    ghost var b := eclass8[..];
    var n := fmap.Length;
    var ftab, ftabCopy := Tally(eclass8[..]);
    PlaceAll(eclass8[..], ftab, fmap);
    CountsInRange(b, ftab[..]);
    MarkStarts(bhtab, ftab, n);
    ghost var bh := bhtab[..];
    SetSentinels(bhtab, n);
    DepthStarts(b, fmap[..], ftab[..], bh, bhtab[..]);
    DoublingPasses(fmap, bhtab, b);
    Reconstruct(fmap, ftabCopy, eclass8, b);
  }
}
