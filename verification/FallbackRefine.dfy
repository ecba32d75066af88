/** The bucket-refining passes of fallbackSort: each doubles the depth to which
    the listed rotations are in order. */
module FallbackRefine {
  import opened Counting
  import opened Rotations
  import opened HeaderBits
  import opened QuickSort

  /** Place k begins a bucket of rotations that agree on their first h bytes. */
  ghost predicate Header(b: seq<byte>, f: seq<int>, k: int, h: nat) {
    && 0 <= k < |f|
    && (k == 0 || (0 <= f[k - 1] < |b| && 0 <= f[k] < |b| && Cmp(b, f[k - 1], f[k], h) != 0))
  }

  /** From place a on, below z, the table marks exactly the bucket headers. */
  ghost predicate Marks(b: seq<byte>, f: seq<int>, bh: seq<Word>, h: nat, a: nat, z: nat) {
    && z <= |f| && z / 32 < |bh|
    && forall k {:trigger Bit(bh, k)} :: a <= k < z ==> Bit(bh, k) == Header(b, f, k, h)
  }

  /** Two rotations i <= j places apart compare 0 exactly if no header lies after i up to j. */
  lemma {:induction false} BucketEqual(b: seq<byte>, f: seq<int>, h: nat, i: nat, j: nat)
    requires SortedTo(b, f, h) && i <= j < |f|
    ensures Cmp(b, f[i], f[j], h) <= 0
    ensures Cmp(b, f[i], f[j], h) == 0 <==> forall k :: i < k <= j ==> !Header(b, f, k, h)
    decreases j
  {
    if i == j {
      CmpSelf(b, f[i], h);
    } else {
      BucketEqual(b, f, h, i, j - 1);
      assert Cmp(b, f[j - 1], f[j], h) <= 0;
      CmpTransitive(b, f[i], f[j - 1], f[j], h);
      assert Header(b, f, j, h) <==> Cmp(b, f[j - 1], f[j], h) != 0;
    }
  }

  /** The last header at or before place i. */
  function LastHeader(bh: seq<Word>, i: nat): (r: nat)
    requires i / 32 < |bh|
    ensures r <= i
  {
    if i == 0 || Bit(bh, i) then i else LastHeader(bh, i - 1)
  }

  /** The value of j when the class loop reaches place i. */
  function HeaderBefore(bh: seq<Word>, i: nat): nat {
    if i == 0 || (i - 1) / 32 >= |bh| then 0 else LastHeader(bh, i - 1)
  }

  /** Headers order places by bucket, as comparing h bytes does. */
  lemma {:induction false} LastHeaderOrder(b: seq<byte>, f: seq<int>, bh: seq<Word>, h: nat, i: nat, j: nat)
    requires SortedTo(b, f, h) && Marks(b, f, bh, h, 0, |f|) && i <= j < |f|
    ensures LastHeader(bh, i) <= LastHeader(bh, j)
    ensures LastHeader(bh, i) == LastHeader(bh, j) <==> Cmp(b, f[i], f[j], h) == 0
    ensures Cmp(b, f[i], f[j], h) <= 0
    decreases j
  {
    if i == j {
      CmpSelf(b, f[i], h);
    } else {
      LastHeaderOrder(b, f, bh, h, i, j - 1);
      assert Cmp(b, f[j - 1], f[j], h) <= 0;
      CmpTransitive(b, f[i], f[j - 1], f[j], h);
      assert Bit(bh, j) == Header(b, f, j, h);
    }
  }

  /** The position h before x on the circle, for h at most n. */
  function Back(n: nat, x: nat, h: nat): (r: nat)
    requires x < n && h <= n
    ensures r < n && Adv(n, r, h) == x
  {
    var r := if x < h then x - h + n else x - h;
    AdvValue(n, r, h);
    r
  }

  /** Classes x and y order the rotations h on from x and y by their first h bytes. */
  ghost predicate ClassTells(b: seq<byte>, ec: seq<int>, h: nat, x: nat, y: nat)
    requires x < |b| && y < |b| && |ec| == |b|
  {
    var c := Cmp(b, Adv(|b|, x, h), Adv(|b|, y, h), h);
    (ec[x] < ec[y] <==> c < 0) && (ec[x] == ec[y] <==> c == 0)
  }

  ghost predicate ClassesTell(b: seq<byte>, ec: seq<int>, h: nat) {
    && |ec| == |b|
    && forall x, y {:trigger ClassTells(b, ec, h, x, y)} ::
         0 <= x < |b| && 0 <= y < |b| ==> ClassTells(b, ec, h, x, y)
  }

  /** Every rotation h before one of the first i listed has its bucket as class. */
  ghost predicate Classed(f: seq<int>, bh: seq<Word>, ec: seq<int>, h: nat, i: nat) {
    var n := |f|;
    && |ec| == n && h <= n && i <= n && n / 32 < |bh|
    && Indexes(f, n)
    && (forall k {:trigger f[k]} :: 0 <= k < i ==> ec[Back(n, f[k], h)] == LastHeader(bh, k))
  }

  lemma ClassedStep(f: seq<int>, bh: seq<Word>, ec: seq<int>, h: nat, i: nat)
    requires Classed(f, bh, ec, h, i) && i < |f| && IsPerm(f, |f|)
    ensures Classed(f, bh, ec[Back(|f|, f[i], h) := LastHeader(bh, i)], h, i + 1)
  {
    var n := |f|;
    forall k {:trigger f[k]} | 0 <= k < i ensures Back(n, f[k], h) != Back(n, f[i], h) {
      PermDistinct(f, n, k, i);
      assert Adv(n, Back(n, f[k], h), h) == f[k] && Adv(n, Back(n, f[i], h), h) == f[i];
    }
  }

  lemma ClassesFromBuckets(b: seq<byte>, f: seq<int>, bh: seq<Word>, ec: seq<int>, h: nat)
    requires IsPerm(f, |b|) && SortedTo(b, f, h) && Marks(b, f, bh, h, 0, |f|)
    requires Classed(f, bh, ec, h, |b|)
    ensures ClassesTell(b, ec, h) && Indexes(ec, |b|)
  {
    var n := |b|;
    forall x: nat | x < n ensures 0 <= ec[x] < n {
      var i := PermSurjective(f, n, Adv(n, x, h));
      BackOfAdv(n, x, h);
    }
    forall x: nat, y: nat | x < n && y < n ensures ClassTells(b, ec, h, x, y) {
      var i := PermSurjective(f, n, Adv(n, x, h));
      var j := PermSurjective(f, n, Adv(n, y, h));
      BackOfAdv(n, x, h);
      BackOfAdv(n, y, h);
      if i <= j {
        LastHeaderOrder(b, f, bh, h, i, j);
      } else {
        LastHeaderOrder(b, f, bh, h, j, i);
        CmpMirror(b, f[i], f[j], h);
      }
    }
  }

  lemma BackOfAdv(n: nat, x: nat, h: nat)
    requires x < n && h <= n
    ensures Back(n, Adv(n, x, h), h) == x
  {
    AdvValue(n, x, h);
  }

  /** The body of that loop for place i; j is the last header before it. */
  method AssignOne(fi: int, isSet: bool, eclass: array<int>, h: nat, i: nat, j0: nat, ghost f: seq<int>,
                   ghost bh: seq<Word>)
    returns (j: nat)
    requires i < |f| == eclass.Length && IsPerm(f, |f|) && fi == f[i]
    requires Classed(f, bh, eclass[..], h, i) && isSet == (i / 32 < |bh| && Bit(bh, i))
    requires j0 == HeaderBefore(bh, i)
    modifies eclass
    ensures Classed(f, bh, eclass[..], h, i + 1) && j == HeaderBefore(bh, i + 1)
  {
    hide *;
    ghost var ec := eclass[..];
    ClassedFacts(f, bh, ec, h, i);
    ClassedStep(f, bh, ec, h, i);
    j := if isSet then i else j0;
    var k := fi - h;
    if k < 0 { k := k + eclass.Length; }
    eclass[k] := j;
    assert eclass[..] == ec[k := j];
  }

  /** The first loop of a pass: eclass[k] becomes the bucket of the rotation h on from k. */
  method AssignClasses(fmap: array<int>, bhtab: array<Word>, h: nat) returns (eclass: array<int>)
    requires IsPerm(fmap[..], fmap.Length) && h <= fmap.Length && fmap.Length / 32 < bhtab.Length
    ensures fresh(eclass) && Classed(fmap[..], bhtab[..], eclass[..], h, fmap.Length)
  {
    hide *;
    var n := fmap.Length;
    ghost var f, bh := fmap[..], bhtab[..];
    eclass := new int[n];
    ClassedStart(f, bh, eclass[..], h);
    var j := 0;
    for i := 0 to n
      invariant Classed(f, bh, eclass[..], h, i) && eclass.Length == n
      invariant j == HeaderBefore(bh, i)
    {
      var isSet := TestBit(bhtab, i);
      j := AssignOne(fmap[i], isSet, eclass, h, i, j, f, bh);
    }
  }

  lemma ClassedStart(f: seq<int>, bh: seq<Word>, ec: seq<int>, h: nat)
    requires IsPerm(f, |f|) && h <= |f| && |ec| == |f| && |f| / 32 < |bh|
    ensures Classed(f, bh, ec, h, 0) && HeaderBefore(bh, 0) == 0
  {
  }

  lemma ClassedFacts(f: seq<int>, bh: seq<Word>, ec: seq<int>, h: nat, i: nat)
    requires Classed(f, bh, ec, h, i) && i < |f|
    ensures |ec| == |f| && 0 <= f[i] < |f| && i / 32 < |bh|
    ensures Back(|f|, f[i], h) == if f[i] - h < 0 then f[i] - h + |f| else f[i] - h
    ensures HeaderBefore(bh, i + 1) == LastHeader(bh, i) == if Bit(bh, i) then i else HeaderBefore(bh, i)
  {
  }

  // ----- one pass over the buckets

  /** During a pass of depth h: below place p everything is in order and marked to
      depth 2h, from p on still to depth h; p itself begins a bucket. */
  ghost predicate PassState(b: seq<byte>, f: seq<int>, bh: seq<Word>, h: nat, p: nat) {
    && IsPerm(f, |b|) && SortedTo(b, f, h) && p <= |b|
    && (|b| + 1) / 32 < |bh| && Bit(bh, |b|) && !Bit(bh, |b| + 1) && Bit(bh, p)
    && SortedTo(b, f[..p], 2 * h)
    && Marks(b, f, bh, 2 * h, 0, p)
    && Marks(b, f, bh, h, p, |b|)
  }

  /** Different to depth h is different, and the same way round, to depth 2h. */
  lemma DeeperOrder(b: seq<byte>, i: nat, j: nat, h: nat)
    requires i < |b| && j < |b|
    ensures Cmp(b, i, j, h) != 0 ==> Cmp(b, i, j, 2 * h) == Cmp(b, i, j, h)
    ensures Cmp(b, i, j, h) == 0 ==>
              Cmp(b, i, j, 2 * h) == Cmp(b, Adv(|b|, i, h), Adv(|b|, j, h), h)
  {
    CmpSplit(b, i, j, h, h);
  }

  /** Two entries on different sides of a header differ to depth h. */
  lemma AcrossHeader(b: seq<byte>, f: seq<int>, h: nat, i: nat, k: nat, j: nat)
    requires SortedTo(b, f, h) && i < k <= j < |f| && Header(b, f, k, h)
    ensures Cmp(b, f[i], f[j], h) < 0 && Cmp(b, f[i], f[j], 2 * h) < 0
  {
    BucketEqual(b, f, h, i, j);
    DeeperOrder(b, f[i], f[j], h);
  }

  /** Buckets of one element need no work: the pass moves on over them. */
  lemma SkipSingles(b: seq<byte>, f: seq<int>, bh: seq<Word>, h: nat, p: nat, l: nat)
    requires PassState(b, f, bh, h, p) && p <= l <= |b| && Run(bh, p, l + 1, true)
    ensures PassState(b, f, bh, h, l)
  {
    forall i | p <= i <= l && i < |b| ensures Header(b, f, i, h) && Bit(bh, i) {
      assert Bit(bh, i) == Header(b, f, i, h);
      assert Bit(bh, i) == true;
    }
    assert Bit(bh, l) by { if l < |b| { assert Header(b, f, l, h); } }
    SinglesSorted(b, f, h, p, l);
    forall i | 0 <= i < l ensures Bit(bh, i) == Header(b, f, i, 2 * h) {
      if i >= p {
        assert Header(b, f, i, h);
        if i > 0 { DeeperOrder(b, f[i - 1], f[i], h); }
      }
    }
  }

  lemma SinglesSorted(b: seq<byte>, f: seq<int>, h: nat, p: nat, l: nat)
    requires SortedTo(b, f, h) && p <= l <= |f| && SortedTo(b, f[..p], 2 * h)
    requires forall i :: p <= i < l ==> Header(b, f, i, h)
    ensures SortedTo(b, f[..l], 2 * h)
  {
    forall i, j | 0 <= i < j < l ensures Cmp(b, f[..l][i], f[..l][j], 2 * h) <= 0 {
      if j < p {
        assert Cmp(b, f[..p][i], f[..p][j], 2 * h) <= 0;
      } else {
        AcrossHeader(b, f, h, i, j, j);
      }
    }
  }

  /** [l, r] is a bucket of depth h, and g is f with it sorted by class. */
  ghost predicate Refined(b: seq<byte>, f: seq<int>, g: seq<int>, ec: seq<int>, h: nat, l: nat, r: nat) {
    && l < r < |f| == |b| && |g| == |b|
    && IsPerm(f, |b|) && SortedTo(b, f, h) && IsPerm(g, |b|)
    && Header(b, f, l, h) && (forall k :: l < k <= r ==> !Header(b, f, k, h))
    && (r + 1 < |b| ==> Header(b, f, r + 1, h))
    && (forall k :: 0 <= k < |b| && !(l <= k <= r) ==> g[k] == f[k])
    && (forall k :: l <= k <= r ==> exists m :: l <= m <= r && f[m] == g[k])
    && ClassesTell(b, ec, h)
    && SortedBy(g, ec, l, r)
  }

  /** An entry of the refined list stands in for one of the same bucket before. */
  lemma RefinedFrom(b: seq<byte>, f: seq<int>, g: seq<int>, ec: seq<int>, h: nat, l: nat, r: nat, i: nat)
    returns (k: nat)
    requires Refined(b, f, g, ec, h, l, r) && i < |b|
    ensures k < |b| && f[k] == g[i]
    ensures if l <= i <= r then l <= k <= r else k == i
  {
    if l <= i <= r {
      k :| l <= k <= r && f[k] == g[i];
    } else {
      k := i;
    }
  }

  /** Entries in different buckets keep their order. */
  lemma RefinedAcross(b: seq<byte>, f: seq<int>, g: seq<int>, ec: seq<int>, h: nat, l: nat, r: nat, i: nat, j: nat)
    requires Refined(b, f, g, ec, h, l, r) && i < j < |b| && !(l <= i && j <= r)
    ensures Cmp(b, g[i], g[j], h) <= 0
    ensures i < l <= j ==> Cmp(b, g[i], g[j], h) < 0 && Cmp(b, g[i], g[j], 2 * h) < 0
    ensures i <= r < j ==> Cmp(b, g[i], g[j], h) < 0 && Cmp(b, g[i], g[j], 2 * h) < 0
  {
    var i' := RefinedFrom(b, f, g, ec, h, l, r, i);
    var j' := RefinedFrom(b, f, g, ec, h, l, r, j);
    hide Refined;
    RefinedFacts(b, f, g, ec, h, l, r);
    BucketEqual(b, f, h, i', j');
    if i < l <= j { AcrossHeader(b, f, h, i', l, j'); }
    if i <= r < j { AcrossHeader(b, f, h, i', r + 1, j'); }
  }

  lemma RefinedFacts(b: seq<byte>, f: seq<int>, g: seq<int>, ec: seq<int>, h: nat, l: nat, r: nat)
    requires Refined(b, f, g, ec, h, l, r)
    ensures l < r < |f| == |b| && |g| == |b| && SortedTo(b, f, h) && IsPerm(f, |b|) && IsPerm(g, |b|)
    ensures Header(b, f, l, h) && (r + 1 < |b| ==> Header(b, f, r + 1, h))
    ensures forall k :: l < k <= r ==> !Header(b, f, k, h)
  {
  }

  /** Entries of the bucket agree to depth h and are ordered by class to depth 2h. */
  lemma RefinedWithin(b: seq<byte>, f: seq<int>, g: seq<int>, ec: seq<int>, h: nat, l: nat, r: nat, i: nat, j: nat)
    requires Refined(b, f, g, ec, h, l, r) && l <= i < j <= r
    ensures Cmp(b, g[i], g[j], h) == 0
    ensures Cmp(b, g[i], g[j], 2 * h) <= 0
    ensures Cmp(b, g[i], g[j], 2 * h) == 0 <==> ec[g[i]] == ec[g[j]]
  {
    var i' := RefinedFrom(b, f, g, ec, h, l, r, i);
    var j' := RefinedFrom(b, f, g, ec, h, l, r, j);
    assert KeyLe(g, ec, i, j) && ClassTells(b, ec, h, g[i], g[j]);
    hide Refined;
    RefinedFacts(b, f, g, ec, h, l, r);
    if i' <= j' {
      BucketEqual(b, f, h, i', j');
    } else {
      BucketEqual(b, f, h, j', i');
      CmpMirror(b, f[i'], f[j'], h);
    }
    DeeperOrder(b, g[i], g[j], h);
  }

  lemma RefinedSorted(b: seq<byte>, f: seq<int>, g: seq<int>, ec: seq<int>, h: nat, l: nat, r: nat)
    requires Refined(b, f, g, ec, h, l, r) && SortedTo(b, f[..l], 2 * h)
    ensures SortedTo(b, g, h) && SortedTo(b, g[..r + 1], 2 * h)
  {
    assert forall k :: 0 <= k < l ==> g[k] == f[k];
    RefinedFacts(b, f, g, ec, h, l, r);
    hide Refined;
    forall i, j | 0 <= i < j < |b| ensures Cmp(b, g[i], g[j], h) <= 0 {
      if l <= i && j <= r {
        RefinedWithin(b, f, g, ec, h, l, r, i, j);
      } else {
        RefinedAcross(b, f, g, ec, h, l, r, i, j);
      }
    }
    var t := g[..r + 1];
    forall i, j | 0 <= i < j < |t| ensures Cmp(b, t[i], t[j], 2 * h) <= 0 {
      if l <= i {
        RefinedWithin(b, f, g, ec, h, l, r, i, j);
      } else if j < l {
        assert Cmp(b, f[..l][i], f[..l][j], 2 * h) <= 0;
      } else {
        RefinedAcross(b, f, g, ec, h, l, r, i, j);
      }
    }
  }

  /** What sorting bucket [l, r] and marking its classes does to the two tables. */
  ghost predicate BucketDone(f: seq<int>, g: seq<int>, ec: seq<int>, bh: seq<Word>, bh': seq<Word>, l: nat, r: nat) {
    && l < r < |f| && r / 32 < |bh| == |bh'|
    && Rearranged(f, g, l, r) && Indexes(g, |ec|) && SortedBy(g, ec, l, r)
    && (forall k {:trigger Bit(bh', k)} :: 0 <= k && k / 32 < |bh| && !(l < k <= r) ==> Bit(bh', k) == Bit(bh, k))
    && (forall k {:trigger Bit(bh', k)} :: l < k <= r ==> (Bit(bh', k) <==> ec[g[k - 1]] != ec[g[k]]))
  }

  lemma BucketIsRefined(b: seq<byte>, f: seq<int>, g: seq<int>, ec: seq<int>, bh: seq<Word>, bh': seq<Word>, h: nat,
                        l: nat, r: nat)
    requires PassState(b, f, bh, h, l) && ClassesTell(b, ec, h) && BucketDone(f, g, ec, bh, bh', l, r)
    requires Run(bh, l + 1, r + 1, false) && Bit(bh, r + 1)
    ensures Refined(b, f, g, ec, h, l, r)
  {
    PermRearranged(f, g, |b|);
    assert Bit(bh, l) == Header(b, f, l, h);
    forall k | l < k <= r ensures !Header(b, f, k, h) { assert Bit(bh, k) == Header(b, f, k, h); }
    if r + 1 < |b| { assert Bit(bh, r + 1) == Header(b, f, r + 1, h); }
    forall k | l <= k <= r ensures exists m :: l <= m <= r && f[m] == g[k] {
      var m := RearrangedFrom(f, g, l, r, k);
    }
  }

  /** The bucket is done: the pass has moved on past it. */
  lemma BucketPassed(b: seq<byte>, f: seq<int>, g: seq<int>, ec: seq<int>, bh: seq<Word>, bh': seq<Word>, h: nat,
                     l: nat, r: nat)
    requires PassState(b, f, bh, h, l) && ClassesTell(b, ec, h) && BucketDone(f, g, ec, bh, bh', l, r)
    requires Run(bh, l + 1, r + 1, false) && Bit(bh, r + 1)
    ensures PassState(b, g, bh', h, r + 1)
  {
    BucketIsRefined(b, f, g, ec, bh, bh', h, l, r);
    RefinedSorted(b, f, g, ec, h, l, r);
    BucketMarks(b, f, g, ec, bh, bh', h, l, r);
    assert Bit(bh', r + 1) == Bit(bh, r + 1);
    assert Bit(bh', |b|) == Bit(bh, |b|) && Bit(bh', |b| + 1) == Bit(bh, |b| + 1);
  }

  lemma BucketMarks(b: seq<byte>, f: seq<int>, g: seq<int>, ec: seq<int>, bh: seq<Word>, bh': seq<Word>, h: nat,
                    l: nat, r: nat)
    requires PassState(b, f, bh, h, l) && BucketDone(f, g, ec, bh, bh', l, r)
    requires Refined(b, f, g, ec, h, l, r)
    ensures Marks(b, g, bh', 2 * h, 0, r + 1) && Marks(b, g, bh', h, r + 1, |b|)
  {
    forall k | 0 <= k < r + 1 ensures Bit(bh', k) == Header(b, g, k, 2 * h) {
      if l < k {
        RefinedWithin(b, f, g, ec, h, l, r, k - 1, k);
      } else if k == l {
        assert Bit(bh', l) == Bit(bh, l) == Header(b, f, l, h);
        if l > 0 { RefinedAcross(b, f, g, ec, h, l, r, l - 1, l); }
      } else {
        assert Bit(bh', k) == Bit(bh, k) == Header(b, f, k, 2 * h);
      }
    }
    forall k | r + 1 <= k < |b| ensures Bit(bh', k) == Header(b, g, k, h) {
      assert Bit(bh', k) == Bit(bh, k) == Header(b, f, k, h);
      if k == r + 1 { RefinedAcross(b, f, g, ec, h, l, r, r, k); }
    }
  }

  /** After the last bucket everything is marked and in order to depth 2h. */
  lemma PassEnds(b: seq<byte>, f: seq<int>, bh: seq<Word>, h: nat, p: nat)
    requires PassState(b, f, bh, h, p) && Run(bh, p, |b| + 1, true)
    ensures SortedTo(b, f, 2 * h) && Marks(b, f, bh, 2 * h, 0, |b|)
  {
    SkipSingles(b, f, bh, h, p, |b|);
    assert f[..|b|] == f;
  }

  // ----- the pass itself

  /** Class boundaries after place l and before place i are marked, nothing else changed. */
  ghost predicate ClassMarks(f: seq<int>, ec: seq<int>, bh: seq<Word>, bh': seq<Word>, l: nat, i: nat) {
    && |bh| == |bh'| && l <= i <= |f| && i <= 32 * |bh| && Indexes(f, |ec|)
    && (forall k {:trigger Bit(bh', k)} :: 0 <= k && k / 32 < |bh| && !(l < k < i) ==> Bit(bh', k) == Bit(bh, k))
    && (forall k {:trigger Bit(bh', k)} :: l < k < i ==> (Bit(bh', k) <==> ec[f[k - 1]] != ec[f[k]]))
  }

  lemma ClassMarksStep(f: seq<int>, ec: seq<int>, bh: seq<Word>, bh': seq<Word>, l: nat, i: nat, cc: int)
    requires ClassMarks(f, ec, bh, bh', l, i) && i < |f| && i / 32 < |bh| && Indexes(f, |ec|)
    requires i == l ==> Bit(bh, l) && cc == -1 && ec[f[l]] >= 0
    requires i > l ==> !Bit(bh, i) && cc == ec[f[i - 1]]
    ensures ClassMarks(f, ec, bh, if cc != ec[f[i]] then WithBit(bh', i, true) else bh', l, i + 1)
  {
    var bh2 := WithBit(bh', i, true);
    forall k: nat | k / 32 < |bh| ensures Bit(bh2, k) == if k == i then true else Bit(bh', k) {
      WithBitIs(bh', i, true, k);
    }
  }

  lemma ClassMarksStart(f: seq<int>, ec: seq<int>, bh: seq<Word>, l: nat, r: nat)
    requires l <= r < |f| && r / 32 < |bh| && Indexes(f, |ec|)
    ensures ClassMarks(f, ec, bh, bh, l, l)
  {
  }

  lemma IndexOf(f: seq<int>, n: nat, k: nat)
    requires Indexes(f, n) && k < |f|
    ensures 0 <= f[k] < n
  {
  }

  lemma RunAt(bh: seq<Word>, a: nat, z: nat, v: bool, k: nat)
    requires Run(bh, a, z, v) && a <= k < z && k / 32 < |bh|
    ensures Bit(bh, k) == v
  {
  }

  /** Scans the sorted bucket and sets a header bit wherever the class changes. */
  method MarkClasses(fmap: array<int>, eclass: seq<int>, bhtab: array<Word>, l: nat, r: nat)
    requires l < r < fmap.Length && r / 32 < bhtab.Length
    requires Indexes(fmap[..], |eclass|) && Indexes(eclass, |eclass|)
    requires Bit(bhtab[..], l) && Run(bhtab[..], l + 1, r + 1, false)
    modifies bhtab
    ensures ClassMarks(fmap[..], eclass, old(bhtab[..]), bhtab[..], l, r + 1)
  {
    hide *;
    ghost var f, bh := fmap[..], bhtab[..];
    ClassMarksStart(f, eclass, bh, l, r);
    var cc := -1;
    for i := l to r + 1
      invariant ClassMarks(f, eclass, bh, bhtab[..], l, i)
      invariant cc == if i == l then -1 else ClassAt(f, eclass, i - 1)
    {
      IndexOf(f, |eclass|, i);
      IndexOf(eclass, |eclass|, f[i]);
      ClassAtIs(f, eclass, i);
      if i > l { ClassAtIs(f, eclass, i - 1); RunAt(bh, l + 1, r + 1, false, i); }
      ClassMarksStep(f, eclass, bh, bhtab[..], l, i, cc);
      var cc1 := eclass[fmap[i]];
      if cc != cc1 {
        SetBit(bhtab, i, true);
        cc := cc1;
      }
    }
  }

  function ClassAt(f: seq<int>, ec: seq<int>, k: nat): int {
    if k < |f| && 0 <= f[k] < |ec| then ec[f[k]] else 0
  }

  lemma ClassAtIs(f: seq<int>, ec: seq<int>, k: nat)
    requires Indexes(f, |ec|) && k < |f|
    ensures 0 <= f[k] < |ec| && ClassAt(f, ec, k) == ec[f[k]]
  {
  }

  lemma BucketIsDone(f: seq<int>, g: seq<int>, ec: seq<int>, bh: seq<Word>, bh': seq<Word>, l: nat, r: nat)
    requires l < r < |f| && r / 32 < |bh|
    requires Rearranged(f, g, l, r) && Indexes(g, |ec|) && SortedBy(g, ec, l, r)
    requires ClassMarks(g, ec, bh, bh', l, r + 1)
    ensures BucketDone(f, g, ec, bh, bh', l, r)
  {
  }

  /** Sorts bucket [l, r] by class and marks the new buckets. */
  method SortBucket(fmap: array<int>, eclass: seq<int>, bhtab: array<Word>, l: nat, r: nat)
    requires l < r < fmap.Length <= 900000 && r / 32 < bhtab.Length
    requires Indexes(fmap[..], |eclass|) && Indexes(eclass, |eclass|)
    requires Bit(bhtab[..], l) && Run(bhtab[..], l + 1, r + 1, false)
    modifies fmap, bhtab
    ensures BucketDone(old(fmap[..]), fmap[..], eclass, old(bhtab[..]), bhtab[..], l, r)
  {
    hide *;
    ghost var f, bh := fmap[..], bhtab[..];
    FallbackQSort3(fmap, eclass, l, r);
    MarkClasses(fmap, eclass, bhtab, l, r);
    BucketIsDone(f, fmap[..], eclass, bh, bhtab[..], l, r);
  }

  /** The state of a pass together with what stays fixed during it. */
  ghost predicate Passing(b: seq<byte>, f: seq<int>, ec: seq<int>, bh: seq<Word>, h: nat, p: nat) {
    PassState(b, f, bh, h, p) && ClassesTell(b, ec, h) && Indexes(ec, |b|)
  }

  lemma PassingFacts(b: seq<byte>, f: seq<int>, ec: seq<int>, bh: seq<Word>, h: nat, p: nat)
    requires Passing(b, f, ec, bh, h, p)
    ensures p <= |b| == |f| == |ec| && (|b| + 1) / 32 < |bh| && p / 32 < |bh|
    ensures Bit(bh, p) && Bit(bh, |b|) && !Bit(bh, |b| + 1)
    ensures Indexes(f, |ec|) && Indexes(ec, |ec|)
  {
  }

  lemma PassingSkips(b: seq<byte>, f: seq<int>, ec: seq<int>, bh: seq<Word>, h: nat, p: nat, l: nat)
    requires Passing(b, f, ec, bh, h, p) && p <= l <= |b| && Run(bh, p, l + 1, true)
    ensures Passing(b, f, ec, bh, h, l) && Bit(bh, l)
  {
    SkipSingles(b, f, bh, h, p, l);
  }

  lemma PassingBucket(b: seq<byte>, f: seq<int>, g: seq<int>, ec: seq<int>, bh: seq<Word>, bh': seq<Word>, h: nat,
                      l: nat, r: nat)
    requires Passing(b, f, ec, bh, h, l) && BucketDone(f, g, ec, bh, bh', l, r) && r + 1 <= |b|
    requires r + 1 <= |b| && (|b| + 1) / 32 < |bh| && Run(bh, l + 1, r + 1, false) && Bit(bh, r + 1)
    ensures Passing(b, g, ec, bh', h, r + 1)
  {
    BucketPassed(b, f, g, ec, bh, bh', h, l, r);
  }

  lemma RunFirst(bh: seq<Word>, k0: nat, k: nat, v: bool)
    requires k0 / 32 < |bh| && Bit(bh, k0) == v && k0 <= k && k / 32 < |bh| && Bit(bh, k) != v
    ensures k0 < k
  {
  }

  /** The inner loop of fallbackSort: finds every bucket of more than one rotation
      and sorts it. It reports how many rotations it had to sort; if none, then
      nothing changed and every place begins a bucket. */
  method RefineBuckets(fmap: array<int>, eclass: seq<int>, bhtab: array<Word>, ghost h: nat, ghost b: seq<byte>)
    returns (nNotDone: int)
    requires fmap.Length == |b| <= 900000 && Passing(b, fmap[..], eclass, bhtab[..], h, 0)
    modifies fmap, bhtab
    ensures Passing(b, fmap[..], eclass, bhtab[..], h, |b|)
    ensures nNotDone == 0 ==> fmap[..] == old(fmap[..]) && Run(old(bhtab[..]), 0, |b| + 1, true)
  {
    hide *;
    var n := fmap.Length;
    ghost var f0, bh0 := fmap[..], bhtab[..];
    nNotDone := 0;
    var r := -1;
    RunEmpty(bh0, 0, true);
    while true
      invariant -1 <= r < n && nNotDone >= 0
      invariant Passing(b, fmap[..], eclass, bhtab[..], h, r + 1)
      invariant nNotDone == 0 ==> r == -1 && fmap[..] == f0 && bhtab[..] == bh0
      decreases n - r
    {
      ghost var f, bh := fmap[..], bhtab[..];
      PassingFacts(b, f, eclass, bh, h, r + 1);
      var k := SkipBits(bhtab, r + 1, true, n + 1);
      RunFirst(bh, r + 1, k, true);
      var l := k - 1;
      PassingSkips(b, f, eclass, bh, h, r + 1, l);
      if l >= n { break; }
      assert k / 32 < |bh|;
      k := SkipBits(bhtab, k, false, n);
      RunFirst(bh, l + 1, k, false);
      r := k - 1;
      if r >= n { break; }
      if r > l {
        nNotDone := nNotDone + (r - l + 1);
        SortBucket(fmap, eclass, bhtab, l, r);
        PassingBucket(b, f, fmap[..], eclass, bh, bhtab[..], h, l, r);
      }
    }
  }
}
