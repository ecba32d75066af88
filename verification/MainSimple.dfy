/** mainSimpleSort: a shell sort of the pointers from lo to hi by the rotations they start,
    which agree in their first d bytes. */
module MainSimple {
  import opened Counting
  import opened Rotations
  import opened RotationRank
  import opened QuickSort
  import opened MainCompare

  // ----- what the entries have in common

  /** The rotation at x begins with the first d bytes of that at r. */
  ghost predicate Begins(b: seq<byte>, r: nat, d: nat, x: int) {
    r < |b| && 0 <= x < |b| && Cmp(b, r, x, d) == 0
  }

  ghost predicate AllBegin(b: seq<byte>, f: seq<int>, lo: int, hi: int, r: nat, d: nat) {
    forall k :: lo <= k <= hi && 0 <= k < |f| ==> Begins(b, r, d, f[k])
  }

  lemma BeginAlike(b: seq<byte>, r: nat, d: nat, x: int, y: int)
    requires Begins(b, r, d, x) && Begins(b, r, d, y)
    ensures Cmp(b, x, y, d) == 0
  {
    CmpMirror(b, r, x, d);
    CmpTransitive(b, x, r, y, d);
  }

  lemma AllBeginAt(b: seq<byte>, f: seq<int>, lo: int, hi: int, r: nat, d: nat, k: int)
    requires AllBegin(b, f, lo, hi, r, d) && lo <= k <= hi && 0 <= k < |f|
    ensures Begins(b, r, d, f[k]) && 0 <= f[k] < |b|
  {
  }

  lemma AllBeginSet(b: seq<byte>, f: seq<int>, lo: int, hi: int, r: nat, d: nat, k: nat, x: int)
    requires AllBegin(b, f, lo, hi, r, d) && k < |f| && Begins(b, r, d, x)
    ensures AllBegin(b, f[k := x], lo, hi, r, d)
  {
  }

  /** What stays the same during a sort: the tables, the block proper and the ranks of its
      rotations. */
  ghost predicate Setup(block: seq<byte>, quadrant: seq<int>, n: nat, b: seq<byte>, ec: seq<int>) {
    Tables(block, quadrant, n) && b == block[..n] && ec == Ranks(b)
  }

  lemma SetupFacts(block: seq<byte>, quadrant: seq<int>, n: nat, b: seq<byte>, ec: seq<int>)
    requires Setup(block, quadrant, n, b, ec)
    ensures n > 34 && |block| == |quadrant| == n + 34 && |b| == |ec| == n
  {
    TablesFacts(block, quadrant, n);
  }

  // ----- one comparison

  /** The entries x and y, compared from depth d on. */
  method Greater(x: nat, y: nat, d: nat, block: seq<byte>, quadrant: seq<int>, nblock: nat, budget0: int,
                 ghost b: seq<byte>, ghost ec: seq<int>, ghost r: nat)
    returns (gt: bool, budget: int)
    requires Setup(block, quadrant, nblock, b, ec) && d <= 15 && Begins(b, r, d, x) && Begins(b, r, d, y)
    ensures x < |ec| && y < |ec| && budget0 - nblock <= budget <= budget0
    ensures gt ==> ec[y] <= ec[x]
    ensures !gt ==> ec[x] <= ec[y]
  {
    SetupFacts(block, quadrant, nblock, b, ec);
    assert x < |b| && y < |b| && Tables(block, quadrant, nblock) && b == block[..nblock] && ec == Ranks(b);
    BeginAlike(b, r, d, x, y);
    CompareRests(b, x, y, d);
    hide *;
    gt, budget := MainGtU(x + d, y + d, block, quadrant, nblock, budget0);
    AnswerRanks(b, x, y, d, gt);
  }

  lemma CompareRests(b: seq<byte>, x: nat, y: nat, d: nat)
    requires x < |b| && y < |b| && d < |b|
    ensures At(|b|, x + d) == Adv(|b|, x, d) && At(|b|, y + d) == Adv(|b|, y, d)
  {
    AdvValue(|b|, x, d);
    AdvValue(|b|, y, d);
  }

  lemma AnswerRanks(b: seq<byte>, x: nat, y: nat, d: nat, gt: bool)
    requires x < |b| && y < |b| && d < |b| && Cmp(b, x, y, d) == 0
    requires At(|b|, x + d) == Adv(|b|, x, d) && At(|b|, y + d) == Adv(|b|, y, d)
    requires Answers(b, At(|b|, x + d), At(|b|, y + d), gt)
    ensures gt ==> Ranks(b)[y] <= Ranks(b)[x]
    ensures !gt ==> Ranks(b)[x] <= Ranks(b)[y]
  {
    CmpMirror(b, x, y, d);
    RotLePrefix(b, x, y, d);
    RotLePrefix(b, y, x, d);
    RankOrder(b, x, y);
    RankOrder(b, y, x);
    hide Ranks;
  }

  // ----- insertion

  /** What every insertion and every pass keeps. */
  ghost predicate Kept(f0: seq<int>, f: seq<int>, b: seq<byte>, lo: int, hi: int, r: nat, d: nat) {
    Rearranged(f0, f, lo, hi) && Indexes(f, |b|) && AllBegin(b, f, lo, hi, r, d)
  }

  lemma KeptOn(f0: seq<int>, f: seq<int>, g: seq<int>, b: seq<byte>, lo: int, hi: int, r: nat, d: nat)
    requires Kept(f0, f, b, lo, hi, r, d) && Kept(f, g, b, lo, hi, r, d)
    ensures Kept(f0, g, b, lo, hi, r, d)
  {
    RearrangedTrans(f0, f, g, lo, hi, lo, hi);
  }

  lemma KeptFacts(f0: seq<int>, f: seq<int>, b: seq<byte>, lo: int, hi: int, r: nat, d: nat)
    requires Kept(f0, f, b, lo, hi, r, d)
    ensures |f0| == |f| && Indexes(f, |b|) && AllBegin(b, f, lo, hi, r, d) && Rearranged(f0, f, lo, hi)
  {
  }

  lemma KeptStarts(f: seq<int>, b: seq<byte>, lo: int, hi: int, r: nat, d: nat)
    requires Indexes(f, |b|) && AllBegin(b, f, lo, hi, r, d)
    ensures Kept(f, f, b, lo, hi, r, d)
  {
  }

  lemma MakeKept(f0: seq<int>, f: seq<int>, b: seq<byte>, lo: int, hi: int, r: nat, d: nat)
    requires Rearranged(f0, f, lo, hi) && Indexes(f, |b|) && AllBegin(b, f, lo, hi, r, d)
    ensures Kept(f0, f, b, lo, hi, r, d)
  {
  }

  /** While entry i of f moves down past larger ones to p, by stride one. */
  ghost predicate Sinking(f: seq<int>, g: seq<int>, ec: seq<int>, lo: int, p: int, i: int) {
    && 0 <= lo <= p <= i < |f| == |g| && Indexes(f, |ec|)
    && (forall k :: lo <= k < p ==> g[k] == f[k])
    && (forall k :: p < k <= i ==> OneUp(f, g, ec, k, i))
  }

  /** The entry before k moved to k, and is not smaller. */
  ghost predicate OneUp(f: seq<int>, g: seq<int>, ec: seq<int>, k: int, i: int)
    requires 0 < k <= i < |f| == |g| && Indexes(f, |ec|)
  {
    g[k] == f[k - 1] && ec[f[i]] <= ec[f[k - 1]]
  }

  lemma SinkingStarts(f: seq<int>, ec: seq<int>, lo: int, i: int)
    requires 0 <= lo <= i < |f| && Indexes(f, |ec|)
    ensures Sinking(f, f, ec, lo, i, i)
  {
  }

  lemma SinkingStep(f: seq<int>, g: seq<int>, ec: seq<int>, lo: int, p: int, i: int)
    requires Sinking(f, g, ec, lo, p, i) && lo < p && 0 <= g[p - 1] < |ec| && ec[f[i]] <= ec[g[p - 1]]
    ensures Sinking(f, g[p := g[p - 1]], ec, lo, p - 1, i)
  {
    var g' := g[p := g[p - 1]];
    assert g[p - 1] == f[p - 1];
    forall k | p - 1 < k <= i ensures OneUp(f, g', ec, k, i) {
      if k > p { assert OneUp(f, g, ec, k, i); }
    }
  }

  /** Where it comes to rest the part up to i is sorted. */
  lemma SinkingEnds(f: seq<int>, g: seq<int>, ec: seq<int>, lo: int, p: int, i: int)
    requires Sinking(f, g, ec, lo, p, i) && SortedBy(f, ec, lo, i - 1)
    requires p > lo ==> 0 <= g[p - 1] < |ec| && ec[g[p - 1]] <= ec[f[i]]
    ensures SortedBy(g[p := f[i]], ec, lo, i)
  {
    var h := g[p := f[i]];
    forall a, c | lo <= a < c <= i ensures KeyLe(h, ec, a, c) {
      var a', c' := if a < p then a else a - 1, if c < p then c else c - 1;
      if c == p {
        if a < p - 1 { assert KeyLe(f, ec, a, p - 1); }
      } else if a == p {
        assert OneUp(f, g, ec, c, i);
      } else {
        assert KeyLe(f, ec, a', c');
        assert c > p ==> OneUp(f, g, ec, c, i);
        assert a > p ==> OneUp(f, g, ec, a, i);
      }
    }
  }

  /** The entry v on its way down, the array being g. */
  ghost predicate Placing(f: seq<int>, g: seq<int>, ec: seq<int>, b: seq<byte>, r: nat, d: nat, lo: int, hi: int,
                          h: int, j: int, i: int) {
    && 0 <= lo <= j <= i <= hi < |f|
    && HoleOpen(f, g, j, f[i], lo, hi, |b|) && AllBegin(b, g, lo, hi, r, d) && Begins(b, r, d, f[i])
    && |ec| == |b| && Indexes(f, |b|)
    && (h == 1 ==> Sinking(f, g, ec, lo, j, i))
  }

  lemma PlacingStarts(f: seq<int>, ec: seq<int>, b: seq<byte>, r: nat, d: nat, lo: int, hi: int, h: int, i: int)
    requires 0 <= lo <= i <= hi < |f| && Indexes(f, |b|) && |ec| == |b| && AllBegin(b, f, lo, hi, r, d)
    ensures Placing(f, f, ec, b, r, d, lo, hi, h, i, i)
  {
    assert f[i := f[i]] == f;
    SinkingStarts(f, ec, lo, i);
    hide Begins;
  }

  lemma PlacingFacts(f: seq<int>, g: seq<int>, ec: seq<int>, b: seq<byte>, r: nat, d: nat, lo: int, hi: int, h: int,
                     j: int, i: int)
    requires Placing(f, g, ec, b, r, d, lo, hi, h, j, i)
    ensures 0 <= lo <= j <= i <= hi < |f| == |g| && Begins(b, r, d, f[i]) && 0 <= f[i] < |b|
    ensures AllBegin(b, g, lo, hi, r, d)
    ensures forall k :: lo <= k <= hi ==> Begins(b, r, d, g[k]) && 0 <= g[k] < |b|
    ensures |ec| == |b| && HoleOpen(f, g, j, f[i], lo, hi, |b|) && Indexes(f, |b|)
    ensures h == 1 ==> Sinking(f, g, ec, lo, j, i)
  {
  }

  lemma PlacingStep(f: seq<int>, g: seq<int>, ec: seq<int>, b: seq<byte>, r: nat, d: nat, lo: int, hi: int, h: int,
                    j: int, i: int)
    requires Placing(f, g, ec, b, r, d, lo, hi, h, j, i) && h >= 1 && lo <= j - h
    requires 0 <= j - h < |g| && 0 <= g[j - h] < |ec| && 0 <= f[i] < |ec| && ec[f[i]] <= ec[g[j - h]]
    ensures Placing(f, g[j := g[j - h]], ec, b, r, d, lo, hi, h, j - h, i)
  {
    hide *;
    PlacingFacts(f, g, ec, b, r, d, lo, hi, h, j, i);
    HoleStep(f, g, j, j - h, f[i], lo, hi, |b|);
    if h == 1 { SinkingStep(f, g, ec, lo, j, i); }
    AllBeginSet(b, g, lo, hi, r, d, j, g[j - h]);
    MakePlacing(f, g[j := g[j - h]], ec, b, r, d, lo, hi, h, j - h, i);
  }

  lemma MakePlacing(f: seq<int>, g: seq<int>, ec: seq<int>, b: seq<byte>, r: nat, d: nat, lo: int, hi: int, h: int,
                    j: int, i: int)
    requires 0 <= lo <= j <= i <= hi < |f| && Begins(b, r, d, f[i]) && |ec| == |b| && Indexes(f, |b|)
    requires HoleOpen(f, g, j, f[i], lo, hi, |b|) && AllBegin(b, g, lo, hi, r, d)
    requires h == 1 ==> Sinking(f, g, ec, lo, j, i)
    ensures Placing(f, g, ec, b, r, d, lo, hi, h, j, i)
  {
  }

  lemma PlacingEnds(f: seq<int>, g: seq<int>, ec: seq<int>, b: seq<byte>, r: nat, d: nat, lo: int, hi: int, h: int,
                    j: int, i: int)
    requires Placing(f, g, ec, b, r, d, lo, hi, h, j, i)
    requires AtRest(g, ec, lo, h, j, f[i])
    ensures var q := g[j := f[i]];
            && Rearranged(f, q, lo, hi) && Indexes(q, |b|) && AllBegin(b, q, lo, hi, r, d)
            && (h == 1 && SortedBy(f, ec, lo, i - 1) ==> SortedBy(q, ec, lo, i))
  {
    PlacingFacts(f, g, ec, b, r, d, lo, hi, h, j, i);
    hide Begins, HoleOpen, Sinking, SortedBy, Indexes, Rearranged;
    HoleFilled(f, g, j, f[i], lo, hi, |b|);
    AllBeginSet(b, g, lo, hi, r, d, j, f[i]);
    if h == 1 && SortedBy(f, ec, lo, i - 1) { SinkingEnds(f, g, ec, lo, j, i); }
  }

  /** It has come to rest, as far as that matters. */
  ghost predicate AtRest(g: seq<int>, ec: seq<int>, lo: int, h: int, j: int, v: int) {
    h == 1 && j > lo ==> 0 <= j - 1 < |g| && 0 <= g[j - 1] < |ec| && 0 <= v < |ec| && ec[g[j - 1]] <= ec[v]
  }

  lemma RestsByOrder(g: seq<int>, ec: seq<int>, lo: int, h: int, j: int, v: int)
    requires 0 <= j - h < |g| && 0 <= g[j - h] < |ec| && 0 <= v < |ec| && ec[g[j - h]] <= ec[v]
    ensures AtRest(g, ec, lo, h, j, v)
  {
  }

  lemma RestsAtBottom(g: seq<int>, ec: seq<int>, lo: int, h: int, j: int, v: int)
    requires j <= lo + h - 1
    ensures AtRest(g, ec, lo, h, j, v)
  {
  }

  /** One turn of the loop: the entry goes h places down unless it has come to rest. */
  method SinkOne(ptr: array<int>, block: seq<byte>, quadrant: seq<int>, nblock: nat, lo: nat, ghost hi: int, h: nat,
                 ghost i: nat, d: nat, budget0: int, v: nat, j: nat, ghost f: seq<int>, ghost b: seq<byte>,
                 ghost ec: seq<int>, ghost r: nat)
    returns (moved: bool, budget: int)
    requires Setup(block, quadrant, nblock, b, ec) && d <= 15 && h >= 1 && lo + h <= j <= i < |f| && v == f[i]
    requires Placing(f, ptr[..], ec, b, r, d, lo, hi, h, j, i)
    modifies ptr
    ensures budget0 - nblock <= budget <= budget0
    ensures moved ==> Placing(f, ptr[..], ec, b, r, d, lo, hi, h, j - h, i)
    ensures !moved ==> Placing(f, ptr[..], ec, b, r, d, lo, hi, h, j, i) && AtRest(ptr[..], ec, lo, h, j, v)
  {
    hide *;
    ghost var g := ptr[..];
    PlacingFacts(f, g, ec, b, r, d, lo, hi, h, j, i);
    var u := ptr[j - h];
    assert g[j - h] == u;
    moved, budget := Greater(u, v, d, block, quadrant, nblock, budget0, b, ec, r);
    if !moved {
      RestsByOrder(g, ec, lo, h, j, v);
      return;
    }
    PlacingStep(f, g, ec, b, r, d, lo, hi, h, j, i);
    ptr[j] := u;
    assert ptr[..] == g[j := u];
  }

  /** The end of the insertion. */
  method PutDown(ptr: array<int>, v: nat, j: nat, ghost lo: nat, ghost hi: int, ghost h: nat, ghost i: nat,
                 ghost d: nat, ghost f: seq<int>, ghost b: seq<byte>, ghost ec: seq<int>, ghost r: nat)
    requires i < |f| && v == f[i]
    requires Placing(f, ptr[..], ec, b, r, d, lo, hi, h, j, i) && AtRest(ptr[..], ec, lo, h, j, v)
    modifies ptr
    ensures Kept(f, ptr[..], b, lo, hi, r, d)
    ensures h == 1 && SortedBy(f, ec, lo, i - 1) ==> SortedBy(ptr[..], ec, lo, i)
  {
    hide *;
    ghost var g := ptr[..];
    PlacingFacts(f, g, ec, b, r, d, lo, hi, h, j, i);
    PlacingEnds(f, g, ec, b, r, d, lo, hi, h, j, i);
    ptr[j] := v;
    assert ptr[..] == g[j := v];
    MakeKept(f, ptr[..], b, lo, hi, r, d);
  }

  /** So many steps of the budget are used at most. */
  ghost predicate Within(budget0: int, budget: int, steps: nat, unit: nat) {
    0 <= budget0 - budget <= Times(steps, unit)
  }

  lemma WithinMore(budget0: int, before: int, budget: int, steps: nat, unit: nat)
    requires Within(budget0, before, steps, unit) && budget <= before && before - budget <= unit
    ensures Within(budget0, budget, steps + 1, unit)
  {
    TimesMore(steps, unit);
    hide Times;
  }

  lemma WithinNone(budget: int, unit: nat)
    ensures Within(budget, budget, 0, unit)
  {
    TimesMore(0, unit);
    hide Times;
  }

  lemma WithinUp(budget0: int, budget: int, steps: nat, k: nat, unit: nat)
    requires Within(budget0, budget, steps, unit) && steps <= k
    ensures budget <= budget0 && budget0 - budget <= Times(k, unit)
  {
    TimesUp(steps, k, unit, unit);
    hide Times;
  }

  /** The inner loop: the entries that are greater go up, until the place for v is found. */
  method Sink(ptr: array<int>, block: seq<byte>, quadrant: seq<int>, nblock: nat, lo: nat, ghost hi: int, h: nat,
              i: nat, d: nat, budget0: int, v: nat, ghost f: seq<int>, ghost b: seq<byte>, ghost ec: seq<int>,
              ghost r: nat)
    returns (j: nat, budget: int)
    requires Setup(block, quadrant, nblock, b, ec) && d <= 15 && h >= 1 && lo + h <= i < |f| && v == f[i]
    requires Placing(f, ptr[..], ec, b, r, d, lo, hi, h, i, i)
    modifies ptr
    ensures budget <= budget0 && budget0 - budget <= Times(i - lo + 1, nblock)
    ensures lo <= j <= i && Placing(f, ptr[..], ec, b, r, d, lo, hi, h, j, i) && AtRest(ptr[..], ec, lo, h, j, v)
  {
    hide *;
    j, budget := i, budget0;
    var moving := true;
    ghost var steps := 0;
    WithinNone(budget, nblock);
    while moving
      invariant lo <= j <= i && (moving ==> lo + h <= j) && Within(budget0, budget, steps, nblock)
      invariant steps <= i - j + (if moving then 0 else 1)
      invariant Placing(f, ptr[..], ec, b, r, d, lo, hi, h, j, i)
      invariant moving || AtRest(ptr[..], ec, lo, h, j, v)
      decreases j, moving
    {
      ghost var before := budget;
      moving, budget := SinkOne(ptr, block, quadrant, nblock, lo, hi, h, i, d, budget, v, j, f, b, ec, r);
      WithinMore(budget0, before, budget, steps, nblock);
      steps := steps + 1;
      if moving {
        j := j - h;
        if j <= lo + h - 1 {
          RestsAtBottom(ptr[..], ec, lo, h, j, v);
          moving := false;
        }
      }
    }
    WithinUp(budget0, budget, steps, i - lo + 1, nblock);
  }

  /** One insertion of the shell sort, with stride h. */
  method Insert(ptr: array<int>, block: seq<byte>, quadrant: seq<int>, nblock: nat, lo: nat, ghost hi: int, h: nat,
                i: nat, d: nat, budget0: int, ghost b: seq<byte>, ghost ec: seq<int>, ghost r: nat)
    returns (budget: int)
    requires Setup(block, quadrant, nblock, b, ec) && d <= 15 && h >= 1
    requires lo + h <= i <= hi < ptr.Length && Indexes(ptr[..], |b|) && AllBegin(b, ptr[..], lo, hi, r, d)
    modifies ptr
    ensures budget <= budget0 && budget0 - budget <= Times(hi - lo + 1, nblock)
    ensures Kept(old(ptr[..]), ptr[..], b, lo, hi, r, d)
    ensures h == 1 && SortedBy(old(ptr[..]), ec, lo, i - 1) ==> SortedBy(ptr[..], ec, lo, i)
  {
    SetupFacts(block, quadrant, nblock, b, ec);
    ghost var f := ptr[..];
    hide *;
    PlacingStarts(f, ec, b, r, d, lo, hi, h, i);
    PlacingFacts(f, f, ec, b, r, d, lo, hi, h, i, i);
    var v := ptr[i];
    var j;
    j, budget := Sink(ptr, block, quadrant, nblock, lo, hi, h, i, d, budget0, v, f, b, ec, r);
    TimesUp(i - lo + 1, hi - lo + 1, nblock, nblock);
    PutDown(ptr, v, j, lo, hi, h, i, d, f, b, ec, r);
  }

  // ----- the passes

  /** Knuth's increments. */
  function Incs(): (r: seq<int>)
    ensures |r| == 14 && r[0] == 1 && r[13] == 2391484 && forall k :: 0 <= k < 14 ==> r[k] >= 1
  {
    [1, 4, 13, 40, 121, 364, 1093, 3280, 9841, 29524, 88573, 265720, 797161, 2391484]
  }

  /** Sorted by the ranks from lo to i, which stride one achieves. */
  ghost predicate Grown(f: seq<int>, ec: seq<int>, lo: int, i: int, h: int) {
    h == 1 ==> SortedBy(f, ec, lo, i)
  }

  lemma GrownAtFirst(f: seq<int>, ec: seq<int>, lo: int, h: int)
    ensures Grown(f, ec, lo, lo + h - 1, h)
  {
  }

  /** One insertion, unless the pass is over. */
  method Copy(ptr: array<int>, block: seq<byte>, quadrant: seq<int>, nblock: nat, lo: nat, hi: int, h: nat, i0: nat,
              d: nat, budget0: int, ghost f0: seq<int>, ghost b: seq<byte>, ghost ec: seq<int>, ghost r: nat)
    returns (over: bool, i: nat, budget: int)
    requires Setup(block, quadrant, nblock, b, ec) && d <= 15 && h >= 1 && lo + h <= i0 <= hi + h && hi < ptr.Length
    requires Kept(f0, ptr[..], b, lo, hi, r, d) && Grown(ptr[..], ec, lo, i0 - 1, h)
    modifies ptr
    ensures Kept(f0, ptr[..], b, lo, hi, r, d) && Grown(ptr[..], ec, lo, i - 1, h) && budget <= budget0
    ensures hi >= lo ==> budget0 - budget <= if over then 0 else Times(hi - lo + 1, nblock)
    ensures over ==> i == i0 > hi
    ensures !over ==> i == i0 + 1 <= hi + 1
  {
    hide *;
    over, i, budget := i0 > hi, i0, budget0;
    if !over {
      ghost var f := ptr[..];
      KeptFacts(f0, f, b, lo, hi, r, d);
      GrownIs(f, ec, lo, i0 - 1, h);
      budget := Insert(ptr, block, quadrant, nblock, lo, hi, h, i0, d, budget0, b, ec, r);
      KeptOn(f0, f, ptr[..], b, lo, hi, r, d);
      GrownIs(ptr[..], ec, lo, i0, h);
      i := i0 + 1;
    }
  }

  lemma GrownIs(f: seq<int>, ec: seq<int>, lo: int, i: int, h: int)
    ensures Grown(f, ec, lo, i, h) <==> (h == 1 ==> SortedBy(f, ec, lo, i))
  {
    hide SortedBy;
  }

  /** One pass of stride h, three insertions to a turn. */
  method ShellPass(ptr: array<int>, block: seq<byte>, quadrant: seq<int>, nblock: nat, lo: nat, hi: int, h: nat,
                   d: nat, budget0: int, ghost f0: seq<int>, ghost b: seq<byte>, ghost ec: seq<int>, ghost r: nat)
    returns (through: bool, budget: int)
    requires Setup(block, quadrant, nblock, b, ec) && d <= 15 && h >= 1 && lo <= hi < ptr.Length
    requires Kept(f0, ptr[..], b, lo, hi, r, d)
    modifies ptr
    ensures Kept(f0, ptr[..], b, lo, hi, r, d) && budget <= budget0 && (!through ==> budget < 0)
    ensures budget0 - budget <= Times(hi - lo + 1, Times(hi - lo + 1, nblock))
    ensures through && h == 1 ==> SortedBy(ptr[..], ec, lo, hi)
  {
    hide *;
    var i := lo + h;
    budget := budget0;
    ghost var unit := Times(hi - lo + 1, nblock);
    TimesMore(0, unit);
    GrownAtFirst(ptr[..], ec, lo, h);
    while true
      invariant lo + h <= i <= hi + h && budget <= budget0 && budget0 - budget <= Times(i - lo - h, unit)
      invariant Kept(f0, ptr[..], b, lo, hi, r, d) && Grown(ptr[..], ec, lo, i - 1, h)
      decreases hi + h - i
    {
      var over;
      ThreeMore(i - lo - h, unit);
      over, i, budget := Copy(ptr, block, quadrant, nblock, lo, hi, h, i, d, budget, f0, b, ec, r);
      if over { break; }
      over, i, budget := Copy(ptr, block, quadrant, nblock, lo, hi, h, i, d, budget, f0, b, ec, r);
      if over { break; }
      over, i, budget := Copy(ptr, block, quadrant, nblock, lo, hi, h, i, d, budget, f0, b, ec, r);
      if over { break; }
      if budget < 0 {
        TimesUp(i - lo - h, hi - lo + 1, unit, unit);
        return false, budget;
      }
    }
    TimesUp(i - lo - h, hi - lo + 1, unit, unit);
    GrownIs(ptr[..], ec, lo, i - 1, h);
    GrownEnough(ptr[..], ec, lo, hi, i - 1, h);
    through := true;
  }

  lemma ThreeMore(k: nat, unit: nat)
    ensures Times(k + 1, unit) == Times(k, unit) + unit && Times(k + 2, unit) == Times(k + 1, unit) + unit
    ensures Times(k + 3, unit) == Times(k + 2, unit) + unit
  {
    TimesMore(k, unit);
    TimesMore(k + 1, unit);
    TimesMore(k + 2, unit);
    hide Times;
  }

  /** What the shell sort of m entries can use of the budget. */
  function SimpleWork(m: nat, n: nat): nat { Times(14, Times(m, Times(m, n))) }

  lemma SimpleWorkUp(m: nat, k: nat, n: nat)
    requires m <= k
    ensures SimpleWork(m, n) <= SimpleWork(k, n)
  {
    TimesUp(m, k, n, n);
    TimesUp(m, k, Times(m, n), Times(k, n));
    TimesUp(14, 14, Times(m, Times(m, n)), Times(k, Times(k, n)));
    hide Times;
  }

  lemma GrownEnough(f: seq<int>, ec: seq<int>, lo: int, hi: int, i: int, h: int)
    requires Grown(f, ec, lo, i, h) && hi <= i
    ensures h == 1 ==> SortedBy(f, ec, lo, hi)
  {
    if h == 1 {
      forall x, y | lo <= x < y <= hi ensures KeyLe(f, ec, x, y) { }
    }
  }

  /** mainSimpleSort. Unless the budget is used up, the entries are in the order of their
      rotations; and no more of it is used than SimpleWork. */
  method MainSimpleSort(ptr: array<int>, block: seq<byte>, quadrant: seq<int>, nblock: nat, lo: nat, hi: int, d: nat,
                        budget0: int, ghost b: seq<byte>, ghost ec: seq<int>, ghost r: nat)
    returns (budget: int)
    requires Setup(block, quadrant, nblock, b, ec) && d <= 15 && lo <= hi + 1 && hi < ptr.Length <= 900000
    requires Indexes(ptr[..], |b|) && AllBegin(b, ptr[..], lo, hi, r, d)
    modifies ptr
    ensures Kept(old(ptr[..]), ptr[..], b, lo, hi, r, d) && budget <= budget0
    ensures budget0 - budget <= SimpleWork(hi - lo + 1, nblock)
    ensures budget >= 0 ==> SortedBy(ptr[..], ec, lo, hi)
  {
    ghost var f0 := ptr[..];
    KeptStarts(f0, b, lo, hi, r, d);
    budget := budget0;
    var bigN := hi - lo + 1;
    OneIsSorted(f0, ec, lo, hi);
    if bigN < 2 { return; }
    assert Incs()[13] == 2391484 && Incs()[0] == 1;
    assert forall k :: 0 <= k < 14 ==> Incs()[k] >= 1;
    assert |Incs()| == 14;
    hide *;
    var hp := 0;
    while Incs()[hp] < bigN
      invariant 0 <= hp < 14 && (hp == 0 || Incs()[hp - 1] < bigN)
      decreases 14 - hp
    {
      hp := hp + 1;
    }
    hp := hp - 1;
    ghost var passes, unit := 0, Times(bigN, Times(bigN, nblock));
    TimesMore(0, unit);
    WorkIs(bigN, nblock);
    while hp >= 0
      invariant -1 <= hp < 14 && budget <= budget0 && Kept(f0, ptr[..], b, lo, hi, r, d)
      invariant passes + hp < 14 && budget0 - budget <= Times(passes, unit)
      invariant hp == -1 ==> SortedBy(ptr[..], ec, lo, hi)
    {
      var through;
      through, budget := ShellPass(ptr, block, quadrant, nblock, lo, hi, Incs()[hp], d, budget, f0, b, ec, r);
      TimesMore(passes, unit);
      passes := passes + 1;
      if !through {
        TimesUp(passes, 14, unit, unit);
        return;
      }
      hp := hp - 1;
    }
    TimesUp(passes, 14, unit, unit);
  }

  lemma WorkIs(m: nat, n: nat)
    ensures SimpleWork(m, n) == Times(14, Times(m, Times(m, n)))
  {
    hide Times;
  }

  lemma OneIsSorted(f: seq<int>, ec: seq<int>, lo: int, hi: int)
    ensures hi <= lo ==> SortedBy(f, ec, lo, hi)
  {
  }
}
