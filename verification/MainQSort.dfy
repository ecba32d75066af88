/** mainQSort3: three-way quicksort of the pointers by the bytes of their rotations, one
    depth after the other, with an explicit stack. */
module MainQSort {
  import opened Counting
  import opened Rotations
  import opened RotationRank
  import opened QuickSort
  import opened MainCompare
  import opened MainSimple

  /** A part still to be sorted, and the number of bytes its entries have in common. */
  datatype Job = Job(part: Part, d: nat)

  function Size(p: Part): int { p.hi - p.lo + 1 }

  /** Some rotation begins as all those of the part. */
  ghost predicate Common(b: seq<byte>, f: seq<int>, j: Job) {
    j.d <= 15 && exists r: nat :: AllBegin(b, f, j.part.lo, j.part.hi, r, j.d)
  }

  function Parts(st: seq<Job>): (r: seq<Part>)
    ensures |r| == |st| && forall s :: 0 <= s < |st| ==> r[s] == st[s].part
  {
    seq(|st|, s requires 0 <= s < |st| => st[s].part)
  }

  lemma PartsJoin(rest: seq<Job>, more: seq<Job>)
    ensures Parts(rest + more) == Parts(rest) + Parts(more)
  {
  }

  lemma PartsOne(rest: seq<Job>, top: Job)
    ensures Parts(rest + [top]) == Parts(rest) + [top.part]
  {
  }

  lemma PartsThree(rest: seq<Job>, p: Job, q: Job, r: Job)
    ensures Parts(rest + [p, q, r]) == Parts(rest) + [p.part, q.part, r.part]
  {
  }

  // ----- the byte at depth d

  lemma ByteAt(block: seq<byte>, n: nat, x: nat, d: nat)
    requires Extended(block, n) && x < n && d <= 15
    ensures x + d < |block| && |block[..n]| == n && block[x + d] == block[..n][Adv(n, x, d)]
  {
    ExtendedAt(block, n, x + d);
    AdvValue(n, x, d);
  }

  /** Among rotations with d bytes in common the next byte decides. */
  lemma ByteDecides(block: seq<byte>, quadrant: seq<int>, n: nat, b: seq<byte>, ec: seq<int>, r: nat, d: nat, x: nat,
                    y: nat)
    requires Setup(block, quadrant, n, b, ec) && d <= 15 && Begins(b, r, d, x) && Begins(b, r, d, y)
    ensures x < |ec| && y < |ec| && x + d < |block| && y + d < |block|
    ensures block[x + d] < block[y + d] ==> ec[x] <= ec[y]
    ensures block[x + d] == block[y + d] ==> Cmp(b, x, y, d + 1) == 0
  {
    SetupFacts(block, quadrant, n, b, ec);
    ByteAt(block, n, x, d);
    ByteAt(block, n, y, d);
    BeginAlike(b, r, d, x, y);
    CmpSplit(b, x, y, d, 1);
    if block[x + d] < block[y + d] {
      RotLePrefix(b, x, y, d);
      FirstDecides(b, Adv(n, x, d), Adv(n, y, d));
      RankOrder(b, x, y);
    }
  }

  // ----- three parts from one

  ghost predicate Inside(p: Part, x: int, y: int) { p.lo <= x && y <= p.hi }

  ghost predicate Within(p: Part, top: Part) { top.lo <= p.lo <= p.hi + 1 <= top.hi + 1 }

  /** What a job costs: a round that leaves it, or its successors, costs less. */
  function Weight(j: Job): int {
    if Size(j.part) <= 0 then 1 else 100 * Size(j.part) - 60 + (17 - j.d)
  }

  /** Any two entries of the part are in order or together in one of the three jobs. */
  ghost predicate Divided(f: seq<int>, ec: seq<int>, top: Part, p: Part, q: Part, r: Part) {
    forall x, y {:trigger KeyLe(f, ec, x, y)} :: top.lo <= x < y <= top.hi ==>
      KeyLe(f, ec, x, y) || Inside(p, x, y) || Inside(q, x, y) || Inside(r, x, y)
  }

  /** The three jobs that replace a job; the order does not matter. */
  ghost predicate Replaces(f: seq<int>, b: seq<byte>, ec: seq<int>, top: Job, p: Job, q: Job, r: Job) {
    && Within(p.part, top.part) && Within(q.part, top.part) && Within(r.part, top.part)
    && Apart(p.part, q.part) && Apart(q.part, r.part) && Apart(p.part, r.part)
    && Common(b, f, p) && Common(b, f, q) && Common(b, f, r)
    && Size(p.part) + Size(q.part) + Size(r.part) == Size(top.part)
    && Weight(p) + Weight(q) + Weight(r) < Weight(top)
    && Divided(f, ec, top.part, p.part, q.part, r.part)
  }

  lemma ReplacesTurned(f: seq<int>, b: seq<byte>, ec: seq<int>, top: Job, p: Job, q: Job, r: Job)
    requires Replaces(f, b, ec, top, p, q, r)
    ensures Replaces(f, b, ec, top, q, p, r) && Replaces(f, b, ec, top, p, r, q)
  {
    hide Common, KeyLe;
  }

  lemma CommonPart(b: seq<byte>, f: seq<int>, top: Part, p: Part, r: nat, d: nat)
    requires AllBegin(b, f, top.lo, top.hi, r, d) && d <= 15 && top.lo <= p.lo && p.hi <= top.hi
    ensures Common(b, f, Job(p, d))
  {
    hide Begins;
    assert AllBegin(b, f, p.lo, p.hi, r, d);
  }

  /** The middle part has one byte more in common. */
  lemma CommonMiddle(block: seq<byte>, quadrant: seq<int>, n: nat, b: seq<byte>, ec: seq<int>, f: seq<int>, lo: int,
                     hi: int, r: nat, d: nat, x: int, y: int, med: int)
    requires Setup(block, quadrant, n, b, ec) && d <= 14 && AllBegin(b, f, lo, hi, r, d)
    requires 0 <= lo <= x <= y <= hi < |f| && AllOnSide(f, block[d..], x, y + 1, med, 0)
    ensures Common(b, f, Job(Part(x, y), d + 1))
  {
    AllBeginAt(b, f, lo, hi, r, d, x);
    var r' := f[x];
    SetupFacts(block, quadrant, n, b, ec);
    forall k | x <= k <= y ensures Begins(b, r', d + 1, f[k]) {
      AllBeginAt(b, f, lo, hi, r, d, k);
      assert OnSide(f, block[d..], x, med, 0) && OnSide(f, block[d..], k, med, 0);
      ByteDecides(block, quadrant, n, b, ec, r, d, r', f[k]);
    }
    assert AllBegin(b, f, x, y, r', d + 1);
  }

  /** A pair from different zones is in order. */
  lemma ZonesOrder(block: seq<byte>, quadrant: seq<int>, n: nat, b: seq<byte>, ec: seq<int>, f: seq<int>, lo: int,
                   k: int, m: int, hi: int, r: nat, d: nat, med: int, x: int, y: int)
    requires Setup(block, quadrant, n, b, ec) && d <= 14 && AllBegin(b, f, lo, hi, r, d)
    requires ThreeWay(f, block[d..], lo, k, m, hi, med) && lo <= x < y <= hi
    ensures KeyLe(f, ec, x, y) || Inside(Part(lo, k), x, y) || Inside(Part(m, hi), x, y)
            || Inside(Part(k + 1, m - 1), x, y)
  {
    AllBeginAt(b, f, lo, hi, r, d, x);
    AllBeginAt(b, f, lo, hi, r, d, y);
    SetupFacts(block, quadrant, n, b, ec);
    ByteDecides(block, quadrant, n, b, ec, r, d, f[x], f[y]);
    assert x <= k ==> OnSide(f, block[d..], x, med, -1);
    assert k < x < m ==> OnSide(f, block[d..], x, med, 0);
    assert y <= k ==> OnSide(f, block[d..], y, med, -1);
    assert k < y < m ==> OnSide(f, block[d..], y, med, 0);
    assert m <= y ==> OnSide(f, block[d..], y, med, 1);
    hide Setup, AllBegin, AllOnSide, Begins, Indexes;
  }

  lemma ThreeReplace(block: seq<byte>, quadrant: seq<int>, n: nat, b: seq<byte>, ec: seq<int>, f: seq<int>, lo: int,
                     k: int, m: int, hi: int, r: nat, d: nat, med: int)
    requires Setup(block, quadrant, n, b, ec) && d <= 14 && AllBegin(b, f, lo, hi, r, d)
    requires ThreeWay(f, block[d..], lo, k, m, hi, med) && (lo <= k || m <= hi)
    ensures Replaces(f, b, ec, Job(Part(lo, hi), d), Job(Part(lo, k), d), Job(Part(m, hi), d),
            Job(Part(k + 1, m - 1), d + 1))
  {
    var top, p, q, s := Job(Part(lo, hi), d), Job(Part(lo, k), d), Job(Part(m, hi), d), Job(Part(k + 1, m - 1), d + 1);
    forall x, y | lo <= x < y <= hi
      ensures KeyLe(f, ec, x, y) || Inside(p.part, x, y) || Inside(q.part, x, y) || Inside(s.part, x, y)
    {
      ZonesOrder(block, quadrant, n, b, ec, f, lo, k, m, hi, r, d, med, x, y);
    }
    CommonPart(b, f, top.part, p.part, r, d);
    CommonPart(b, f, top.part, q.part, r, d);
    CommonMiddle(block, quadrant, n, b, ec, f, lo, hi, r, d, k + 1, m - 1, med);
    hide Setup, AllBegin, AllOnSide, Common, KeyLe, Inside;
  }

  // ----- the stack

  /** Part s of the stack has at most n / 2^((s+1)/2) entries, since of three parts the
      largest was pushed first and the other two are at most half as large as the whole. */
  ghost predicate Tapering(st: seq<Part>, n: nat) {
    forall s {:trigger st[s]} :: 0 <= s < |st| ==> Size(st[s]) <= Halved(n, (s + 1) / 2)
  }

  ghost predicate AllCommon(b: seq<byte>, f: seq<int>, st: seq<Job>) {
    forall s {:trigger st[s]} :: 0 <= s < |st| ==> Common(b, f, st[s])
  }

  /** The state between two rounds. */
  ghost predicate Quick(f0: seq<int>, f: seq<int>, b: seq<byte>, ec: seq<int>, st: seq<Job>, loSt: int, hiSt: int) {
    && 0 <= loSt <= hiSt < |f| && hiSt - loSt < 900000
    && Rearranged(f0, f, loSt, hiSt) && Indexes(f, |b|)
    && Settled(f, ec, Parts(st), loSt, hiSt) && Disjoint(Parts(st), loSt, hiSt)
    && AllCommon(b, f, st) && Tapering(Parts(st), hiSt - loSt + 1)
  }

  /** Rearranging another part does not matter. */
  lemma CommonKept(b: seq<byte>, f: seq<int>, g: seq<int>, top: Part, j: Job)
    requires Common(b, f, j) && Rearranged(f, g, top.lo, top.hi) && Apart(j.part, top)
    ensures Common(b, g, j)
  {
    var r: nat :| AllBegin(b, f, j.part.lo, j.part.hi, r, j.d);
    hide Begins, Bag;
    assert AllBegin(b, g, j.part.lo, j.part.hi, r, j.d);
  }

  lemma RestCommon(b: seq<byte>, f: seq<int>, g: seq<int>, rest: seq<Job>, top: Job, loSt: int, hiSt: int)
    requires AllCommon(b, f, rest + [top]) && Disjoint(Parts(rest + [top]), loSt, hiSt)
    requires Rearranged(f, g, top.part.lo, top.part.hi)
    ensures AllCommon(b, g, rest) && Common(b, f, top)
  {
    var st := rest + [top];
    assert st[|rest|] == top;
    forall s | 0 <= s < |rest| ensures Common(b, g, rest[s]) {
      assert st[s] == rest[s];
      assert Apart(Parts(st)[s], Parts(st)[|rest|]);
      CommonKept(b, f, g, top.part, rest[s]);
    }
  }

  lemma TaperingPop(rest: seq<Part>, top: Part, n: nat)
    requires Tapering(rest + [top], n)
    ensures Tapering(rest, n) && Size(top) <= Halved(n, (|rest| + 1) / 2)
  {
    var st := rest + [top];
    assert st[|rest|] == top;
    forall s | 0 <= s < |rest| ensures Size(rest[s]) <= Halved(n, (s + 1) / 2) { assert st[s] == rest[s]; }
  }

  lemma TaperingPush(rest: seq<Part>, top: Part, p: Part, q: Part, r: Part, n: nat)
    requires Tapering(rest + [top], n) && Size(p) >= Size(q) >= Size(r) >= 0 && Size(p) + Size(q) + Size(r) == Size(top)
    ensures Tapering(rest + [p, q, r], n)
  {
    TaperingPop(rest, top, n);
    var st, h := rest + [p, q, r], (|rest| + 1) / 2;
    assert Halved(n, h + 1) == Halved(n, h) / 2;
    assert (|rest| + 2) / 2 == h || (|rest| + 2) / 2 == h + 1;
    assert (|rest| + 3) / 2 == h + 1;
    forall s | 0 <= s < |st| ensures Size(st[s]) <= Halved(n, (s + 1) / 2) {
      if s < |rest| { assert st[s] == rest[s]; }
    }
  }

  /** A part with 21 entries or more lies at most 32 deep. */
  lemma NotTooDeep(rest: seq<Part>, top: Part, n: nat)
    requires Tapering(rest + [top], n) && n <= 900000 && Size(top) >= 21
    ensures |rest| <= 32
  {
    TaperingPop(rest, top, n);
    if |rest| >= 33 { HalvedBound(n, (|rest| + 1) / 2); }
  }

  lemma DisjointThree(rest: seq<Part>, top: Part, p: Part, q: Part, r: Part, loSt: int, hiSt: int)
    requires Disjoint(rest + [top], loSt, hiSt) && Within(p, top) && Within(q, top) && Within(r, top)
    requires Apart(p, q) && Apart(q, r) && Apart(p, r)
    ensures Disjoint(rest + [p, q, r], loSt, hiSt)
  {
    var st, before := rest + [p, q, r], rest + [top];
    assert before[|rest|] == top;
    forall s | 0 <= s < |st| ensures loSt <= st[s].lo <= st[s].hi + 1 <= hiSt + 1 {
      if s < |rest| { assert st[s] == before[s]; }
    }
    forall s, t | 0 <= s < t < |st| ensures Apart(st[s], st[t]) {
      if t < |rest| {
        assert Apart(before[s], before[t]);
      } else if s < |rest| {
        assert Apart(before[s], before[|rest|]);
      }
    }
  }

  lemma TogetherThree(rest: seq<Part>, p: Part, q: Part, r: Part, x: int, y: int)
    ensures Together(rest, x, y) || Inside(p, x, y) || Inside(q, x, y) || Inside(r, x, y)
            ==> Together(rest + [p, q, r], x, y)
  {
    var st := rest + [p, q, r];
    if Together(rest, x, y) {
      var s :| 0 <= s < |rest| && rest[s].lo <= x && y <= rest[s].hi;
      assert st[s] == rest[s];
    }
    assert st[|rest|] == p && st[|rest| + 1] == q && st[|rest| + 2] == r;
  }

  lemma SettledThree(f: seq<int>, g: seq<int>, ec: seq<int>, rest: seq<Part>, top: Part, p: Part, q: Part, r: Part,
                     loSt: int, hiSt: int)
    requires 0 <= loSt && hiSt < |f| && Disjoint(rest + [top], loSt, hiSt)
    requires Settled(f, ec, rest + [top], loSt, hiSt) && Rearranged(f, g, top.lo, top.hi)
             && Divided(g, ec, top, p, q, r)
    ensures Settled(g, ec, rest + [p, q, r], loSt, hiSt)
  {
    hide Together, Rearranged, Disjoint, KeyLe;
    forall x, y | loSt <= x < y <= hiSt ensures KeyLe(g, ec, x, y) || Together(rest + [p, q, r], x, y) {
      hide Settled;
      TogetherThree(rest, p, q, r, x, y);
      SettledStep(f, g, ec, rest, top, rest + [p, q, r], loSt, hiSt, x, y);
    }
  }

  /** Rearranging a part that stays on the stack. */
  lemma SettledSame(f: seq<int>, g: seq<int>, ec: seq<int>, rest: seq<Part>, top: Part, loSt: int, hiSt: int)
    requires 0 <= loSt && hiSt < |f| && Disjoint(rest + [top], loSt, hiSt)
    requires Settled(f, ec, rest + [top], loSt, hiSt) && Rearranged(f, g, top.lo, top.hi)
    ensures Settled(g, ec, rest + [top], loSt, hiSt)
  {
    hide Rearranged, Disjoint, KeyLe;
    var st := rest + [top];
    assert st[|rest|] == top;
    forall x, y | loSt <= x < y <= hiSt ensures KeyLe(g, ec, x, y) || Together(st, x, y) {
      hide Settled;
      if Together(rest, x, y) {
        var s :| 0 <= s < |rest| && rest[s].lo <= x && y <= rest[s].hi;
        assert st[s] == rest[s];
      }
      SettledStep(f, g, ec, rest, top, st, loSt, hiSt, x, y);
    }
  }

  // ----- the rounds

  lemma QuickFacts(f0: seq<int>, f: seq<int>, b: seq<byte>, ec: seq<int>, rest: seq<Job>, top: Job, loSt: int,
                   hiSt: int)
    requires Quick(f0, f, b, ec, rest + [top], loSt, hiSt)
    ensures loSt <= hiSt && 0 <= loSt <= top.part.lo <= top.part.hi + 1 <= hiSt + 1 <= |f| && Indexes(f, |b|)
            && hiSt - loSt < 900000
    ensures Settled(f, ec, Parts(rest) + [top.part], loSt, hiSt) && Disjoint(Parts(rest) + [top.part], loSt, hiSt)
    ensures Tapering(Parts(rest) + [top.part], hiSt - loSt + 1) && Rearranged(f0, f, loSt, hiSt)
    ensures AllCommon(b, f, rest + [top]) && Common(b, f, top) && top.d <= 15
    ensures Size(top.part) >= 21 ==> |rest| <= 32
  {
    PartsJoin(rest, [top]);
    assert Parts([top]) == [top.part];
    assert (rest + [top])[|rest|] == top;
    hide Settled, Disjoint, Tapering, Bag, Indexes;
    DisjointPop(Parts(rest), top.part, loSt, hiSt);
    if Size(top.part) >= 21 { NotTooDeep(Parts(rest), top.part, hiSt - loSt + 1); }
  }

  /** The top job is done with. */
  lemma QuickSorted(f0: seq<int>, f: seq<int>, g: seq<int>, b: seq<byte>, ec: seq<int>, rest: seq<Job>, top: Job,
                    loSt: int, hiSt: int)
    requires Quick(f0, f, b, ec, rest + [top], loSt, hiSt)
    requires Rearranged(f, g, top.part.lo, top.part.hi) && Indexes(g, |b|) && SortedBy(g, ec, top.part.lo, top.part.hi)
    ensures Quick(f0, g, b, ec, rest, loSt, hiSt)
  {
    QuickFacts(f0, f, b, ec, rest, top, loSt, hiSt);
    PartsJoin(rest, [top]);
    assert Parts(rest + [top]) == Parts(rest) + [top.part];
    hide Settled, Disjoint, Tapering, AllCommon, Bag, Indexes, SortedBy;
    SettledSorted(f, g, ec, Parts(rest), top.part, loSt, hiSt);
    DisjointPop(Parts(rest), top.part, loSt, hiSt);
    TaperingPop(Parts(rest), top.part, hiSt - loSt + 1);
    RestCommon(b, f, g, rest, top, loSt, hiSt);
    RearrangedTrans(f0, f, g, loSt, hiSt, top.part.lo, top.part.hi);
  }

  /** The top job goes on one byte deeper. */
  lemma QuickDeeper(f0: seq<int>, f: seq<int>, g: seq<int>, b: seq<byte>, ec: seq<int>, rest: seq<Job>, top: Job,
                    next: Job, loSt: int, hiSt: int)
    requires Quick(f0, f, b, ec, rest + [top], loSt, hiSt)
    requires Rearranged(f, g, top.part.lo, top.part.hi) && Indexes(g, |b|) && next.part == top.part
             && Common(b, g, next)
    ensures Quick(f0, g, b, ec, rest + [next], loSt, hiSt)
  {
    QuickFacts(f0, f, b, ec, rest, top, loSt, hiSt);
    PartsJoin(rest, [next]);
    PartsJoin(rest, [top]);
    assert Parts(rest + [next]) == Parts(rest) + [top.part] == Parts(rest + [top]);
    hide Settled, Disjoint, Tapering, Bag, Indexes, Common;
    SettledSame(f, g, ec, Parts(rest), top.part, loSt, hiSt);
    RestCommon(b, f, g, rest, top, loSt, hiSt);
    RearrangedTrans(f0, f, g, loSt, hiSt, top.part.lo, top.part.hi);
  }

  /** The top job is replaced by three, the largest first. */
  lemma QuickSplit(f0: seq<int>, f: seq<int>, g: seq<int>, b: seq<byte>, ec: seq<int>, rest: seq<Job>, top: Job,
                   p: Job, q: Job, r: Job, loSt: int, hiSt: int)
    requires Quick(f0, f, b, ec, rest + [top], loSt, hiSt)
    requires Rearranged(f, g, top.part.lo, top.part.hi) && Indexes(g, |b|) && Replaces(g, b, ec, top, p, q, r)
    requires Size(p.part) >= Size(q.part) >= Size(r.part)
    ensures Quick(f0, g, b, ec, rest + [p, q, r], loSt, hiSt)
  {
    hide *;
    var st, n := rest + [p, q, r], hiSt - loSt + 1;
    QuickFacts(f0, f, b, ec, rest, top, loSt, hiSt);
    ReplacesFacts(g, b, ec, top, p, q, r);
    PartsThree(rest, p, q, r);
    PartsOne(rest, top);
    SettledThree(f, g, ec, Parts(rest), top.part, p.part, q.part, r.part, loSt, hiSt);
    DisjointThree(Parts(rest), top.part, p.part, q.part, r.part, loSt, hiSt);
    TaperingPush(Parts(rest), top.part, p.part, q.part, r.part, n);
    RestCommon(b, f, g, rest, top, loSt, hiSt);
    ThreeCommon(b, g, rest, p, q, r);
    RearrangedTrans(f0, f, g, loSt, hiSt, top.part.lo, top.part.hi);
    SameLength(f0, g, loSt, hiSt);
    SameLength(f0, f, loSt, hiSt);
    MakeQuick(f0, g, b, ec, st, loSt, hiSt);
  }

  lemma SameLength(f: seq<int>, g: seq<int>, lo: int, hi: int)
    requires Rearranged(f, g, lo, hi)
    ensures |f| == |g|
  {
  }

  lemma MakeQuick(f0: seq<int>, f: seq<int>, b: seq<byte>, ec: seq<int>, st: seq<Job>, loSt: int, hiSt: int)
    requires 0 <= loSt <= hiSt < |f| && hiSt - loSt < 900000 && Rearranged(f0, f, loSt, hiSt) && Indexes(f, |b|)
    requires Settled(f, ec, Parts(st), loSt, hiSt) && Disjoint(Parts(st), loSt, hiSt)
    requires AllCommon(b, f, st) && Tapering(Parts(st), hiSt - loSt + 1)
    ensures Quick(f0, f, b, ec, st, loSt, hiSt)
  {
  }

  lemma ThreeCommon(b: seq<byte>, f: seq<int>, rest: seq<Job>, p: Job, q: Job, r: Job)
    requires AllCommon(b, f, rest) && Common(b, f, p) && Common(b, f, q) && Common(b, f, r)
    ensures AllCommon(b, f, rest + [p, q, r])
  {
    hide Common;
  }

  lemma ReplacesFacts(f: seq<int>, b: seq<byte>, ec: seq<int>, top: Job, p: Job, q: Job, r: Job)
    requires Replaces(f, b, ec, top, p, q, r)
    ensures Within(p.part, top.part) && Within(q.part, top.part) && Within(r.part, top.part)
    ensures Size(p.part) >= 0 && Size(q.part) >= 0 && Size(r.part) >= 0
    ensures Apart(p.part, q.part) && Apart(q.part, r.part) && Apart(p.part, r.part)
    ensures Common(b, f, p) && Common(b, f, q) && Common(b, f, r)
    ensures Size(p.part) + Size(q.part) + Size(r.part) == Size(top.part)
    ensures Weight(p) + Weight(q) + Weight(r) < Weight(top)
    ensures Divided(f, ec, top.part, p.part, q.part, r.part)
  {
    hide Common, Divided, Weight, Apart;
  }

  lemma QuickStarts(f: seq<int>, b: seq<byte>, ec: seq<int>, job: Job)
    requires 0 <= job.part.lo <= job.part.hi < |f| <= 900000 && Indexes(f, |b|) && Common(b, f, job)
    ensures Quick(f, f, b, ec, [job], job.part.lo, job.part.hi)
  {
    var st := Parts([job]);
    forall x, y | job.part.lo <= x < y <= job.part.hi ensures Together(st, x, y) {
      assert st[0].lo <= x && y <= st[0].hi;
    }
  }

  lemma QuickEnds(f0: seq<int>, f: seq<int>, b: seq<byte>, ec: seq<int>, loSt: int, hiSt: int)
    requires Quick(f0, f, b, ec, [], loSt, hiSt)
    ensures SortedBy(f, ec, loSt, hiSt)
  {
    forall x, y | loSt <= x < y <= hiSt ensures KeyLe(f, ec, x, y) { assert !Together(Parts([]), x, y); }
  }

  lemma QuickKept(f0: seq<int>, f: seq<int>, b: seq<byte>, ec: seq<int>, st: seq<Job>, loSt: int, hiSt: int)
    requires Quick(f0, f, b, ec, st, loSt, hiSt)
    ensures Rearranged(f0, f, loSt, hiSt) && Indexes(f, |b|)
  {
  }

  /** The work on the stack. */
  function Load(st: seq<Job>): int {
    if st == [] then 0 else Load(st[..|st| - 1]) + Weight(st[|st| - 1])
  }

  lemma LoadJoin(rest: seq<Job>, j: Job)
    ensures Load(rest + [j]) == Load(rest) + Weight(j)
  {
    assert (rest + [j])[..|rest|] == rest;
  }

  lemma LoadThree(rest: seq<Job>, p: Job, q: Job, r: Job)
    ensures Load(rest + [p, q, r]) == Load(rest) + Weight(p) + Weight(q) + Weight(r)
  {
    LoadJoin(rest, p);
    LoadJoin(rest + [p], q);
    LoadJoin(rest + [p] + [q], r);
    assert rest + [p] + [q] + [r] == rest + [p, q, r];
  }

  // ----- the method

  /** mmed3: the middle one of three. */
  function Med3(a: byte, b: byte, c: byte): (r: byte)
    ensures r == a || r == b || r == c
    ensures (a <= r || b <= r) && (b <= r || c <= r) && (a <= r || c <= r)
    ensures (r <= a || r <= b) && (r <= b || r <= c) && (r <= a || r <= c)
  {
    var (x, y) := if a > b then (b, a) else (a, b);
    if y > c then (if x > c then x else c) else y
  }

  /** The byte around which a part is split: the middle one of its first, last and middle
      entries. */
  method ChooseByte(ptr: array<int>, block: seq<byte>, lo: nat, hi: nat, d: nat, ghost n: nat)
    returns (med: byte, ghost w: int)
    requires lo <= hi < ptr.Length && Indexes(ptr[..], n) && n + d <= |block|
    ensures lo <= w <= hi && OnSide(ptr[..], block[d..], w, med, 0)
  {
    assert forall k :: 0 <= k < ptr.Length ==> ptr[k] == ptr[..][k] && 0 <= ptr[..][k] < n;
    var a, c, m := block[ptr[lo] + d], block[ptr[hi] + d], block[ptr[(lo + hi) / 2] + d];
    med := Med3(a, c, m);
    w := if med == a then lo else if med == c then hi else (lo + hi) / 2;
  }

  /** The three arrays of the stack hold the jobs st, bottom first. */
  ghost predicate Stacked(los: seq<int>, his: seq<int>, ds: seq<nat>, st: seq<Job>) {
    && |st| <= |los| == |his| == |ds|
    && (forall s :: 0 <= s < |st| ==> st[s] == Job(Part(los[s], his[s]), ds[s]))
  }

  method PushJob(stackLo: array<int>, stackHi: array<int>, stackD: array<nat>, sp: nat, j: Job, ghost st: seq<Job>)
    requires stackLo != stackHi && stackLo as object != stackD && stackHi as object != stackD
    requires Stacked(stackLo[..], stackHi[..], stackD[..], st) && sp == |st| < stackLo.Length
    modifies stackLo, stackHi, stackD
    ensures Stacked(stackLo[..], stackHi[..], stackD[..], st + [j])
  {
    stackLo[sp] := j.part.lo;
    stackHi[sp] := j.part.hi;
    stackD[sp] := j.d;
  }

  method PopJob(stackLo: array<int>, stackHi: array<int>, stackD: array<nat>, sp: nat, ghost st: seq<Job>)
    returns (j: Job, ghost rest: seq<Job>)
    requires Stacked(stackLo[..], stackHi[..], stackD[..], st) && 0 < sp == |st|
    ensures st == rest + [j] && |rest| == sp - 1 && Stacked(stackLo[..], stackHi[..], stackD[..], rest)
  {
    j := Job(Part(stackLo[sp - 1], stackHi[sp - 1]), stackD[sp - 1]);
    rest := st[..sp - 1];
  }

  /** Three conditional exchanges put the jobs in descending order of size. */
  method Descending(j0: Job, j1: Job, j2: Job, ghost f: seq<int>, ghost b: seq<byte>, ghost ec: seq<int>,
                    ghost top: Job)
    returns (p: Job, q: Job, r: Job)
    requires Replaces(f, b, ec, top, j0, j1, j2)
    ensures Replaces(f, b, ec, top, p, q, r) && Size(p.part) >= Size(q.part) >= Size(r.part)
  {
    hide Replaces;
    p, q, r := j0, j1, j2;
    if Size(p.part) < Size(q.part) {
      ReplacesTurned(f, b, ec, top, p, q, r);
      p, q := q, p;
    }
    if Size(q.part) < Size(r.part) {
      ReplacesTurned(f, b, ec, top, p, q, r);
      q, r := r, q;
    }
    if Size(p.part) < Size(q.part) {
      ReplacesTurned(f, b, ec, top, p, q, r);
      p, q := q, p;
    }
  }

  datatype Step = Finished | Deeper(next: Job) | Split(p: Job, q: Job, r: Job)

  /** What a round does with the job from the top of the stack. */
  ghost predicate RoundDone(f: seq<int>, g: seq<int>, b: seq<byte>, ec: seq<int>, top: Job, step: Step, budget: int) {
    && Rearranged(f, g, top.part.lo, top.part.hi) && Indexes(g, |b|)
    && (step.Finished? && budget >= 0 ==> SortedBy(g, ec, top.part.lo, top.part.hi))
    && (step.Deeper? ==> step.next == Job(top.part, top.d + 1) && Size(top.part) >= 21 && Common(b, g, step.next))
    && (step.Split? ==> Size(top.part) >= 21 && Replaces(g, b, ec, top, step.p, step.q, step.r)
                        && Size(step.p.part) >= Size(step.q.part) >= Size(step.r.part))
  }

  /** A small part, or one with many bytes in common, is sorted outright; another one is
      partitioned by the next byte. */
  method Round(ptr: array<int>, block: seq<byte>, quadrant: seq<int>, nblock: nat, top: Job, budget0: int,
               ghost b: seq<byte>, ghost ec: seq<int>)
    returns (step: Step, budget: int)
    requires Setup(block, quadrant, nblock, b, ec) && ptr.Length <= 900000 && Indexes(ptr[..], |b|)
             && Common(b, ptr[..], top)
    requires 0 <= top.part.lo <= top.part.hi + 1 <= ptr.Length
    modifies ptr
    ensures RoundDone(old(ptr[..]), ptr[..], b, ec, top, step, budget) && budget <= budget0
    ensures budget0 - budget <= SimpleWork(ptr.Length, nblock)
  {
    var lo, hi, d := top.part.lo, top.part.hi, top.d;
    ghost var f := ptr[..];
    ghost var r: nat :| AllBegin(b, f, lo, hi, r, d);
    assert d <= 15;
    hide *;
    budget := budget0;
    if hi - lo < 20 || d > 14 {
      budget := MainSimpleSort(ptr, block, quadrant, nblock, lo, hi, d, budget0, b, ec, r);
      SimpleWorkUp(hi - lo + 1, ptr.Length, nblock);
      KeptFacts(f, ptr[..], b, lo, hi, r, d);
      step := Finished;
      SimpleRound(f, ptr[..], b, ec, top, budget);
      return;
    }
    SetupFacts(block, quadrant, nblock, b, ec);
    step := PartRound(ptr, block, quadrant, nblock, lo, hi, d, b, ec, r);
    SetBudget(f, ptr[..], b, ec, top, step, budget);
  }

  lemma SimpleRound(f: seq<int>, g: seq<int>, b: seq<byte>, ec: seq<int>, top: Job, budget: int)
    requires Rearranged(f, g, top.part.lo, top.part.hi) && Indexes(g, |b|)
    requires budget >= 0 ==> SortedBy(g, ec, top.part.lo, top.part.hi)
    ensures RoundDone(f, g, b, ec, top, Finished, budget)
  {
  }

  lemma SetBudget(f: seq<int>, g: seq<int>, b: seq<byte>, ec: seq<int>, top: Job, step: Step, budget: int)
    requires RoundDone(f, g, b, ec, top, step, 0)
    ensures RoundDone(f, g, b, ec, top, step, budget)
  {
  }

  method PartRound(ptr: array<int>, block: seq<byte>, quadrant: seq<int>, nblock: nat, lo: nat, hi: nat, d: nat,
                   ghost b: seq<byte>, ghost ec: seq<int>, ghost r: nat)
    returns (step: Step)
    requires Setup(block, quadrant, nblock, b, ec) && Indexes(ptr[..], |b|) && AllBegin(b, ptr[..], lo, hi, r, d)
    requires hi - lo >= 20 && d <= 14 && hi < ptr.Length
    modifies ptr
    ensures RoundDone(old(ptr[..]), ptr[..], b, ec, Job(Part(lo, hi), d), step, 0)
  {
    SetupFacts(block, quadrant, nblock, b, ec);
    ghost var f, top := ptr[..], Job(Part(lo, hi), d);
    var keys: seq<int> := block[d..];
    assert |keys| == nblock + 34 - d;
    hide *;
    var med, w := ChooseByte(ptr, block, lo, hi, d, nblock);
    MoreIndexes(f, |b|, |keys|);
    var done, n, m := Partition(ptr, keys, lo, hi, med, w);
    RearrangedIndexes(f, ptr[..], lo, hi, |b|);
    RearrangedBegin(b, f, ptr[..], lo, hi, r, d);
    if done {
      CommonMiddle(block, quadrant, nblock, b, ec, ptr[..], lo, hi, r, d, lo, hi, med);
      step := Deeper(Job(Part(lo, hi), d + 1));
      DeeperRound(f, ptr[..], b, ec, top, step.next);
    } else {
      ThreeReplace(block, quadrant, nblock, b, ec, ptr[..], lo, n, m, hi, r, d, med);
      var p, q, s := Descending(Job(Part(lo, n), d), Job(Part(m, hi), d), Job(Part(n + 1, m - 1), d + 1), ptr[..], b,
        ec, top);
      step := Split(p, q, s);
      SplitRound(f, ptr[..], b, ec, top, p, q, s);
    }
  }

  lemma MoreIndexes(f: seq<int>, n: nat, m: nat)
    requires Indexes(f, n) && n <= m
    ensures Indexes(f, m)
  {
  }

  lemma RearrangedBegin(b: seq<byte>, f: seq<int>, g: seq<int>, lo: int, hi: int, r: nat, d: nat)
    requires Rearranged(f, g, lo, hi) && AllBegin(b, f, lo, hi, r, d) && 0 <= lo && hi < |f|
    ensures AllBegin(b, g, lo, hi, r, d)
  {
    hide Begins, Bag;
    forall k | lo <= k <= hi && 0 <= k < |g| ensures Begins(b, r, d, g[k]) {
      var i := RearrangedFrom(f, g, lo, hi, k);
    }
  }

  lemma DeeperRound(f: seq<int>, g: seq<int>, b: seq<byte>, ec: seq<int>, top: Job, next: Job)
    requires Rearranged(f, g, top.part.lo, top.part.hi) && Indexes(g, |b|)
    requires next == Job(top.part, top.d + 1) && Size(top.part) >= 21 && Common(b, g, next)
    ensures RoundDone(f, g, b, ec, top, Deeper(next), 0)
  {
    hide Common;
  }

  lemma SplitRound(f: seq<int>, g: seq<int>, b: seq<byte>, ec: seq<int>, top: Job, p: Job, q: Job, r: Job)
    requires Rearranged(f, g, top.part.lo, top.part.hi) && Indexes(g, |b|) && Size(top.part) >= 21
    requires Replaces(g, b, ec, top, p, q, r) && Size(p.part) >= Size(q.part) >= Size(r.part)
    ensures RoundDone(f, g, b, ec, top, Split(p, q, r), 0)
  {
    hide Replaces;
  }

  lemma RoundFacts(f: seq<int>, g: seq<int>, b: seq<byte>, ec: seq<int>, top: Job, step: Step, budget: int)
    requires RoundDone(f, g, b, ec, top, step, budget)
    ensures Rearranged(f, g, top.part.lo, top.part.hi) && Indexes(g, |b|)
    ensures step.Finished? && budget >= 0 ==> SortedBy(g, ec, top.part.lo, top.part.hi)
    ensures step.Deeper? ==> step.next.part == top.part && Size(top.part) >= 21 && Common(b, g, step.next)
                             && Weight(step.next) < Weight(top)
    ensures step.Split? ==> Size(top.part) >= 21 && Replaces(g, b, ec, top, step.p, step.q, step.r)
                            && Size(step.p.part) >= Size(step.q.part) >= Size(step.r.part)
  {
    hide Common, Replaces;
  }

  /** The state after a round, with the jobs now on the stack. */
  function Pushed(rest: seq<Job>, step: Step): seq<Job> {
    match step
    case Finished => rest
    case Deeper(next) => rest + [next]
    case Split(p, q, r) => rest + [p, q, r]
  }

  lemma QuickRound(f0: seq<int>, f: seq<int>, g: seq<int>, b: seq<byte>, ec: seq<int>, rest: seq<Job>, top: Job,
                   step: Step, budget: int, loSt: int, hiSt: int)
    requires Quick(f0, f, b, ec, rest + [top], loSt, hiSt) && RoundDone(f, g, b, ec, top, step, budget)
    ensures Rearranged(f0, g, loSt, hiSt) && Indexes(g, |b|)
    ensures !(step.Finished? && budget < 0) ==> Quick(f0, g, b, ec, Pushed(rest, step), loSt, hiSt)
    ensures !step.Finished? ==> |rest| <= 32
  {
    hide *;
    RoundFacts(f, g, b, ec, top, step, budget);
    QuickFacts(f0, f, b, ec, rest, top, loSt, hiSt);
    RearrangedTrans(f0, f, g, loSt, hiSt, top.part.lo, top.part.hi);
    PushedIs(rest, step);
    match step {
      case Finished => if budget >= 0 { QuickSorted(f0, f, g, b, ec, rest, top, loSt, hiSt); }
      case Deeper(next) => QuickDeeper(f0, f, g, b, ec, rest, top, next, loSt, hiSt);
      case Split(p, q, r) => QuickSplit(f0, f, g, b, ec, rest, top, p, q, r, loSt, hiSt);
    }
  }

  lemma PushedIs(rest: seq<Job>, step: Step)
    ensures step.Finished? ==> Pushed(rest, step) == rest
    ensures step.Deeper? ==> Pushed(rest, step) == rest + [step.next]
    ensures step.Split? ==> Pushed(rest, step) == rest + [step.p, step.q, step.r]
    ensures |Pushed(rest, step)| <= |rest| + 3
  {
  }

  /** The load falls with every round. */
  lemma LoadFalls(f: seq<int>, g: seq<int>, b: seq<byte>, ec: seq<int>, rest: seq<Job>, top: Job, step: Step,
                  budget: int)
    requires RoundDone(f, g, b, ec, top, step, budget) && top.d <= 15
    ensures Load(Pushed(rest, step)) < Load(rest + [top])
  {
    RoundFacts(f, g, b, ec, top, step, budget);
    LoadJoin(rest, top);
    match step {
      case Finished => assert Weight(top) >= 1;
      case Deeper(next) => LoadJoin(rest, next);
      case Split(p, q, r) =>
        ReplacesFacts(g, b, ec, top, p, q, r);
        LoadThree(rest, p, q, r);
    }
    hide Replaces, RoundDone, Common, Weight, Load;
  }

  lemma {:induction false} LoadPositive(b: seq<byte>, f: seq<int>, st: seq<Job>)
    requires AllCommon(b, f, st)
    ensures Load(st) >= 0
  {
    if st != [] {
      var rest := st[..|st| - 1];
      assert Common(b, f, st[|st| - 1]);
      forall s | 0 <= s < |rest| ensures Common(b, f, rest[s]) { assert rest[s] == st[s]; }
      LoadPositive(b, f, rest);
    }
  }

  lemma QuickLoad(f0: seq<int>, f: seq<int>, b: seq<byte>, ec: seq<int>, st: seq<Job>, loSt: int, hiSt: int)
    requires Quick(f0, f, b, ec, st, loSt, hiSt)
    ensures Load(st) >= 0
  {
    LoadPositive(b, f, st);
  }

  /** The jobs of a step are pushed one after the other. */
  method PushStep(stackLo: array<int>, stackHi: array<int>, stackD: array<nat>, sp0: nat, step: Step,
                  ghost rest: seq<Job>)
    returns (sp: nat)
    requires stackLo != stackHi && stackLo as object != stackD && stackHi as object != stackD
    requires Stacked(stackLo[..], stackHi[..], stackD[..], rest) && sp0 == |rest| && |rest| + 3 <= stackLo.Length
    modifies stackLo, stackHi, stackD
    ensures Stacked(stackLo[..], stackHi[..], stackD[..], Pushed(rest, step)) && sp == |Pushed(rest, step)|
  {
    hide Stacked;
    match step {
      case Finished => sp := sp0;
      case Deeper(next) =>
        PushJob(stackLo, stackHi, stackD, sp0, next, rest);
        sp := sp0 + 1;
      case Split(p, q, r) =>
        PushJob(stackLo, stackHi, stackD, sp0, p, rest);
        PushJob(stackLo, stackHi, stackD, sp0 + 1, q, rest + [p]);
        PushJob(stackLo, stackHi, stackD, sp0 + 2, r, rest + [p] + [q]);
        assert rest + [p] + [q] + [r] == rest + [p, q, r];
        sp := sp0 + 3;
    }
  }

  /** What the quicksort of some of m entries can use of the budget. */
  function QuickWork(m: nat, n: nat): nat { Times(100 * m, SimpleWork(m, n)) }

  lemma RestLoad(f0: seq<int>, f: seq<int>, b: seq<byte>, ec: seq<int>, rest: seq<Job>, top: Job, loSt: int, hiSt: int)
    requires Quick(f0, f, b, ec, rest + [top], loSt, hiSt)
    ensures Load(rest) >= 0
  {
    var st := rest + [top];
    forall s | 0 <= s < |rest| ensures Common(b, f, rest[s]) { assert rest[s] == st[s] && Common(b, f, st[s]); }
    hide Common, Load, Settled, Disjoint, Tapering, Rearranged;
    LoadPositive(b, f, rest);
  }

  lemma LoadOne(j: Job)
    ensures Load([j]) == Weight(j)
  {
    LoadJoin([], j);
    assert [] + [j] == [j];
  }

  /** What is used so far, while this load is left of the weight of the first job. */
  ghost predicate Used(budget0: int, budget: int, weight: int, load: int, unit: nat) {
    0 <= load <= weight && budget <= budget0 && budget0 - budget <= Times(weight - load, unit)
  }

  lemma UsedFirst(budget: int, b: seq<byte>, f: seq<int>, j: Job, m: nat, unit: nat)
    requires 0 <= j.part.lo <= j.part.hi < m && Common(b, f, j)
    ensures 0 <= Weight(j) <= 100 * m && Used(budget, budget, Weight(j), Load([j]), unit)
  {
    hide Begins;
    LoadOne(j);
    TimesMore(0, unit);
  }

  /** A round uses the budget, and the load falls. */
  lemma UsedMore(budget0: int, before: int, budget: int, weight: int, load: int, load': int, unit: nat)
    requires Used(budget0, before, weight, load, unit) && 0 <= load' < load
    requires budget <= before && before - budget <= unit
    ensures Used(budget0, budget, weight, load', unit)
  {
    TimesMore(weight - load, unit);
    TimesUp(weight - load + 1, weight - load', unit, unit);
    hide Times;
  }

  lemma UsedEnds(budget0: int, budget: int, weight: int, load: int, m: nat, n: nat)
    requires Used(budget0, budget, weight, load, SimpleWork(m, n)) && weight <= 100 * m
    ensures budget <= budget0 && budget0 - budget <= QuickWork(m, n)
  {
    hide SimpleWork, Times;
    TimesUp(weight - load, 100 * m, SimpleWork(m, n), SimpleWork(m, n));
  }

  /** One turn of the loop: the job from the top of the stack is done, or divided. */
  method Turn(ptr: array<int>, block: seq<byte>, quadrant: seq<int>, nblock: nat, stackLo: array<int>,
              stackHi: array<int>, stackD: array<nat>, sp0: nat, budget0: int, ghost st: seq<Job>, ghost f0: seq<int>,
              ghost loSt: int, ghost hiSt: int, ghost b: seq<byte>, ghost ec: seq<int>)
    returns (over: bool, sp: nat, budget: int, ghost st': seq<Job>)
    requires Setup(block, quadrant, nblock, b, ec) && ptr.Length <= 900000
    requires stackLo != stackHi && stackLo as object != stackD && stackHi as object != stackD
    requires ptr != stackLo && ptr != stackHi && ptr as object != stackD && stackLo.Length == 100
    requires Quick(f0, ptr[..], b, ec, st, loSt, hiSt) && Stacked(stackLo[..], stackHi[..], stackD[..], st)
    requires 0 < sp0 == |st| <= 35
    modifies ptr, stackLo, stackHi, stackD
    ensures budget <= budget0 && budget0 - budget <= SimpleWork(ptr.Length, nblock) && 0 <= Load(st') < Load(st)
    ensures Rearranged(f0, ptr[..], loSt, hiSt) && Indexes(ptr[..], |b|) && (over ==> budget < 0)
    ensures !over ==> Quick(f0, ptr[..], b, ec, st', loSt, hiSt) && Stacked(stackLo[..], stackHi[..], stackD[..], st')
                      && sp == |st'| <= 35
  {
    hide *;
    assert sp0 < 100 - 2;
    ghost var f := ptr[..];
    QuickLoad(f0, f, b, ec, st, loSt, hiSt);
    var top;
    ghost var rest;
    top, rest := PopJob(stackLo, stackHi, stackD, sp0, st);
    sp := sp0 - 1;
    QuickFacts(f0, f, b, ec, rest, top, loSt, hiSt);
    RestLoad(f0, f, b, ec, rest, top, loSt, hiSt);
    var step;
    step, budget := Round(ptr, block, quadrant, nblock, top, budget0, b, ec);
    QuickRound(f0, f, ptr[..], b, ec, rest, top, step, budget, loSt, hiSt);
    LoadFalls(f, ptr[..], b, ec, rest, top, step, budget);
    PushedIs(rest, step);
    st' := Pushed(rest, step);
    over := step.Finished? && budget < 0;
    if over { return; }
    sp := PushStep(stackLo, stackHi, stackD, sp, step, rest);
    QuickLoad(f0, ptr[..], b, ec, st', loSt, hiSt);
  }

  /** mainQSort3. Unless the budget is used up, it leaves the entries in the order of their
      rotations; it never holds more than 35 jobs, so that its check for 98 cannot fail; and no
      more of the budget is used than QuickWork. */
  method MainQSort3(ptr: array<int>, block: seq<byte>, quadrant: seq<int>, nblock: nat, loSt: nat, hiSt: nat,
                    dSt: nat, budget0: int, ghost b: seq<byte>, ghost ec: seq<int>)
    returns (budget: int)
    requires Setup(block, quadrant, nblock, b, ec) && loSt <= hiSt < ptr.Length <= 900000
    requires Indexes(ptr[..], |b|) && Common(b, ptr[..], Job(Part(loSt, hiSt), dSt))
    modifies ptr
    ensures Rearranged(old(ptr[..]), ptr[..], loSt, hiSt) && Indexes(ptr[..], |b|) && budget <= budget0
    ensures budget0 - budget <= QuickWork(ptr.Length, nblock)
    ensures budget >= 0 ==> SortedBy(ptr[..], ec, loSt, hiSt)
  {
    ghost var f0 := ptr[..];
    var stackLo, stackHi, stackD := new int[100], new int[100], new nat[100];
    ghost var st: seq<Job> := [];
    var first := Job(Part(loSt, hiSt), dSt);
    assert Stacked(stackLo[..], stackHi[..], stackD[..], st);
    QuickStarts(f0, b, ec, first);
    hide *;
    ghost var unit, weight := SimpleWork(ptr.Length, nblock), Weight(first);
    UsedFirst(budget0, b, f0, first, ptr.Length, unit);
    QuickKept(f0, f0, b, ec, [first], loSt, hiSt);
    PushJob(stackLo, stackHi, stackD, 0, first, st);
    st := [first];
    assert [] + [first] == st;
    var sp := 1;
    budget := budget0;
    while sp > 0
      invariant Quick(f0, ptr[..], b, ec, st, loSt, hiSt) && Used(budget0, budget, weight, Load(st), unit)
      invariant Stacked(stackLo[..], stackHi[..], stackD[..], st) && sp == |st| <= 35
      decreases Load(st)
    {
      ghost var before, loaded := budget, Load(st);
      var over;
      over, sp, budget, st := Turn(ptr, block, quadrant, nblock, stackLo, stackHi, stackD, sp, budget, st, f0, loSt,
                                   hiSt, b, ec);
      UsedMore(budget0, before, budget, weight, loaded, Load(st), unit);
      if over {
        UsedEnds(budget0, budget, weight, Load(st), ptr.Length, nblock);
        return;
      }
    }
    UsedEnds(budget0, budget, weight, Load(st), ptr.Length, nblock);
    assert st == [];
    QuickEnds(f0, ptr[..], b, ec, loSt, hiSt);
    QuickKept(f0, ptr[..], b, ec, st, loSt, hiSt);
  }
}
