/** The second step of mainSort for a big bucket: its sorted order is scanned from both
    ends to put the small buckets in front of it in order. */
module MainScan {
  import opened Counting
  import opened Rotations
  import opened RotationRank
  import opened QuickSort
  import opened Predecessors

  /** The block, the byte of the big bucket, and the bytes whose big buckets are done. */
  datatype Ctx = Ctx(b: seq<byte>, ss: byte, done: seq<bool>)

  ghost predicate Proper(c: Ctx) {
    c.b != [] && |c.done| == 256 && !c.done[c.ss]
  }

  // ----- lists from the big bucket

  /** Different positions with byte ss, in the order of their rotations. */
  ghost predicate List(c: Ctx, g: seq<int>) {
    && Positions(g, |c.b|) && NoRepeats(g, |g|) && Ascending(Ranks(c.b), g)
    && forall i :: 0 <= i < |g| ==> c.b[g[i]] == c.ss
  }

  /** The byte after each is below, at or above ss. */
  ghost predicate Follow(c: Ctx, g: seq<int>, side: int) {
    Positions(g, |c.b|) && forall i :: 0 <= i < |g| ==> FollowAt(c, g[i], side)
  }

  ghost predicate FollowAt(c: Ctx, x: int, side: int) {
    && 0 <= x < |c.b|
    && (side < 0 ==> c.b[Next(|c.b|, x)] < c.ss) && (side > 0 ==> c.b[Next(|c.b|, x)] > c.ss)
  }

  /** k is another position than z, and not before it in order. */
  ghost predicate After(c: Ctx, z: int, k: int) {
    0 <= z < |c.b| && 0 <= k < |c.b| && z != k && Ranks(c.b)[z] <= Ranks(c.b)[k]
  }

  /** Position k, which is followed by y, against positions followed by another byte. */
  lemma AfterByFollow(c: Ctx, z: int, k: int)
    requires 0 <= z < |c.b| && 0 <= k < |c.b| && c.b[z] == c.b[k] == c.ss && c.b[Next(|c.b|, k)] == c.ss
    ensures FollowAt(c, z, -1) ==> After(c, z, k)
    ensures FollowAt(c, z, 1) ==> After(c, k, z)
  {
    hide Ranks;
    if c.b[Next(|c.b|, z)] < c.ss { WordOrder(c.b, z, k); }
    if c.b[Next(|c.b|, z)] > c.ss { WordOrder(c.b, k, z); }
  }

  /** ... and against predecessors of other listed positions. */
  lemma AfterByNext(c: Ctx, z: int, k: int)
    requires 0 <= z < |c.b| && 0 <= k < |c.b| && c.b[z] == c.b[k]
    ensures After(c, Next(|c.b|, z), Next(|c.b|, k)) ==> After(c, z, k)
  {
    hide Ranks;
    StepBack(c.b, z, k);
  }

  lemma ListAfter(c: Ctx, g: seq<int>, i: nat, j: nat)
    requires List(c, g) && i < j < |g|
    ensures After(c, g[i], g[j])
  {
    assert Differ(g, i, j) && LeAt(Ranks(c.b), g, i, j);
  }

  ghost predicate AfterAt(c: Ctx, g: seq<int>, i: int, j: int) {
    0 <= i < |g| && 0 <= j < |g| && After(c, g[i], g[j])
  }

  lemma MakeList(c: Ctx, g: seq<int>)
    requires Positions(g, |c.b|) && forall i :: 0 <= i < |g| ==> c.b[g[i]] == c.ss
    requires forall i, j {:trigger AfterAt(c, g, i, j)} :: 0 <= i < j < |g| ==> AfterAt(c, g, i, j)
    ensures List(c, g)
  {
    forall i, j | 0 <= i < j < |g| ensures Differ(g, i, j) && LeAt(Ranks(c.b), g, i, j) { assert AfterAt(c, g, i, j); }
  }

  /** The forward scan lengthens the list by the predecessor of an entry met before. */
  lemma GrowBack(c: Ctx, low: seq<int>, g: seq<int>, m: nat, k: int)
    requires List(c, g) && m < |g| && Positions(g[..m], |c.b|) && Follow(c, low, -1)
    requires g == low + Preds(c.b, g[..m], c.ss)
    requires 0 <= k < |c.b| && c.b[k] == c.ss && Next(|c.b|, k) == g[m]
    ensures List(c, g + [k])
  {
    var h := g + [k];
    hide Ranks, Preds;
    assert c.b[Next(|c.b|, k)] == c.ss;
    forall i, j | 0 <= i < j < |h| ensures AfterAt(c, h, i, j) {
      if j < |g| {
        ListAfter(c, g, i, j);
      } else {
        LowOrPred(c, low, g, g[..m], i);
        if i < |low| {
          AfterByFollow(c, h[i], k);
        } else {
          var q := PredsFrom(c.b, g[..m], c.ss, i - |low|);
          ListAfter(c, g, q, m);
          AfterByNext(c, h[i], k);
        }
      }
    }
    MakeList(c, h);
  }

  lemma LowOrPred(c: Ctx, low: seq<int>, g: seq<int>, d: seq<int>, i: nat)
    requires Follow(c, low, -1) && Positions(d, |c.b|) && g == low + Preds(c.b, d, c.ss) && i < |g|
    ensures i < |low| ==> FollowAt(c, g[i], -1)
    ensures i >= |low| ==> i - |low| < |Preds(c.b, d, c.ss)| && g[i] == Preds(c.b, d, c.ss)[i - |low|]
  {
    hide Preds;
    if i < |low| { assert FollowAt(c, low[i], -1); }
  }

  /** The two lists of the backward scan: p is finished, q grows downwards. */
  ghost predicate Lists(c: Ctx, low: seq<int>, p: seq<int>, q: seq<int>, d: seq<int>, high: seq<int>) {
    && List(c, p + q) && Positions(p, |c.b|) && Positions(d, |c.b|)
    && Follow(c, low, -1) && p == low + Preds(c.b, p, c.ss)
    && Follow(c, high, 1) && q == Preds(c.b, d, c.ss) + high
  }

  /** The backward scan puts the predecessor of the entry before those seen in front. */
  lemma GrowFront(c: Ctx, low: seq<int>, p: seq<int>, q: seq<int>, a: seq<int>, y: int, d: seq<int>, high: seq<int>,
                  k: int)
    requires Lists(c, low, p, q, d, high) && q == a + [y] + d
    requires 0 <= k < |c.b| && c.b[k] == c.ss && Next(|c.b|, k) == y
    ensures List(c, p + ([k] + q))
  {
    hide Ranks, Preds;
    forall i | 0 <= i < |p| ensures After(c, p[i], k) { AfterLow(c, low, p, q, a, y, d, high, k, i); }
    forall i | 0 <= i < |q| ensures After(c, k, q[i]) { AfterHigh(c, low, p, q, a, y, d, high, k, i); }
    ListInserted(c, p, q, k);
  }

  lemma ListInserted(c: Ctx, p: seq<int>, q: seq<int>, k: int)
    requires List(c, p + q) && 0 <= k < |c.b| && c.b[k] == c.ss
    requires forall i :: 0 <= i < |p| ==> After(c, p[i], k)
    requires forall i :: 0 <= i < |q| ==> After(c, k, q[i])
    ensures List(c, p + ([k] + q))
  {
    hide After, List;
    var g, h := p + q, p + ([k] + q);
    ListFacts(c, g);
    forall i, j | 0 <= i < j < |h| ensures AfterAt(c, h, i, j) {
      if i != |p| && j != |p| {
        ListAfter(c, g, if i < |p| then i else i - 1, if j < |p| then j else j - 1);
      }
    }
    forall i | 0 <= i < |h| ensures 0 <= h[i] < |c.b| && c.b[h[i]] == c.ss {
      if i < |p| { assert h[i] == g[i]; } else if i > |p| { assert h[i] == g[i - 1]; }
    }
    MakeList(c, h);
  }

  lemma AfterLow(c: Ctx, low: seq<int>, p: seq<int>, q: seq<int>, a: seq<int>, y: int, d: seq<int>, high: seq<int>,
                 k: int, i: nat)
    requires Lists(c, low, p, q, d, high) && q == a + [y] + d
    requires 0 <= k < |c.b| && c.b[k] == c.ss && Next(|c.b|, k) == y && i < |p|
    ensures After(c, p[i], k)
  {
    var g := p + q;
    hide Ranks, Preds;
    assert g[|p| + |a|] == y && g[i] == p[i];
    LowOrPred(c, low, p, p, i);
    if i < |low| {
      AfterByFollow(c, p[i], k);
    } else {
      var r := PredsFrom(c.b, p, c.ss, i - |low|);
      ListAfter(c, g, r, |p| + |a|);
      AfterByNext(c, p[i], k);
    }
  }

  lemma AfterHigh(c: Ctx, low: seq<int>, p: seq<int>, q: seq<int>, a: seq<int>, y: int, d: seq<int>, high: seq<int>,
                  k: int, i: nat)
    requires Lists(c, low, p, q, d, high) && q == a + [y] + d
    requires 0 <= k < |c.b| && c.b[k] == c.ss && Next(|c.b|, k) == y && i < |q|
    ensures After(c, k, q[i])
  {
    var g := p + q;
    hide Ranks, Preds;
    var n := |Preds(c.b, d, c.ss)|;
    assert g[|p| + |a|] == y && g[|p| + i] == q[i];
    if i >= n {
      assert q[i] == high[i - n];
      AfterByFollow(c, q[i], k);
    } else {
      var r := PredsFrom(c.b, d, c.ss, i);
      assert g[|p| + |a| + 1 + r] == d[r];
      ListAfter(c, g, |p| + |a|, |p| + |a| + 1 + r);
      AfterByNext(c, k, q[i]);
    }
  }

  // ----- buckets

  /** Where the entries with word s begin. */
  function From(b: seq<byte>, s: int): (r: nat)
    ensures r <= |b|
  {
    CountLess(Words(b), s)
  }

  /** The small bucket of byte t followed by ss, and the big bucket of ss. */
  function Lo(c: Ctx, t: int): nat { From(c.b, 256 * t + c.ss) }

  function Hi(c: Ctx, t: int): nat { From(c.b, 256 * t + c.ss + 1) }

  function Left(c: Ctx): nat {
    var s: int := c.ss;
    From(c.b, 256 * s)
  }

  function Right(c: Ctx): nat {
    var s: int := c.ss;
    From(c.b, 256 * s + 256)
  }

  lemma FromMonotone(b: seq<byte>, s: int, t: int)
    requires s <= t
    ensures From(b, s) <= From(b, t)
  {
    CountMonotone(Words(b), s, t);
  }

  lemma Bounds(c: Ctx, t: int)
    requires 0 <= t < 256
    ensures Left(c) <= Lo(c, c.ss) <= Hi(c, c.ss) <= Right(c) <= |c.b| && Lo(c, t) <= Hi(c, t) <= |c.b|
    ensures t < c.ss ==> Hi(c, t) <= Left(c)
    ensures t > c.ss ==> Right(c) <= Lo(c, t)
  {
    var s: int := c.ss;
    FromMonotone(c.b, 256 * s, 256 * s + s);
    FromMonotone(c.b, 256 * s + s, 256 * s + s + 1);
    FromMonotone(c.b, 256 * s + s + 1, 256 * s + 256);
    FromMonotone(c.b, 256 * t + s, 256 * t + s + 1);
    if t < s { FromMonotone(c.b, 256 * t + s + 1, 256 * s); }
    if t > s { FromMonotone(c.b, 256 * s + 256, 256 * t + s); }
  }

  /** Two different small buckets do not overlap. */
  lemma BoundsApart(c: Ctx, t: int, u: int)
    requires 0 <= t < u < 256
    ensures Hi(c, t) <= Lo(c, u)
  {
    FromMonotone(c.b, 256 * t + c.ss + 1, 256 * u + c.ss);
  }

  lemma BucketSize(c: Ctx, t: int)
    ensures Hi(c, t) - Lo(c, t) == Occ(Words(c.b), 256 * t + c.ss)
  {
    CountStep(Words(c.b), 256 * t + c.ss);
  }

  /** Entry p lies in the bucket of its word. */
  ghost predicate AtHome(b: seq<byte>, f: seq<int>, p: int) {
    0 <= p < |f| && 0 <= f[p] < |b| && From(b, Word(b, f[p])) <= p < From(b, Word(b, f[p]) + 1)
  }

  /** All positions, sorted by their words. */
  ghost predicate Homed(b: seq<byte>, f: seq<int>) {
    IsPerm(f, |b|) && forall p :: 0 <= p < |f| ==> AtHome(b, f, p)
  }

  lemma HomeWord(b: seq<byte>, f: seq<int>, p: int, s: int)
    requires AtHome(b, f, p)
    ensures From(b, s) <= p < From(b, s + 1) <==> Word(b, f[p]) == s
  {
    var w := Word(b, f[p]);
    if w < s { FromMonotone(b, w + 1, s); }
    if w > s { FromMonotone(b, s + 1, w); }
  }

  /** A range of buckets holds the entries with these words. */
  lemma HomeRange(b: seq<byte>, f: seq<int>, p: int, s: int, t: int)
    requires AtHome(b, f, p)
    ensures From(b, s) <= p < From(b, t) ==> s <= Word(b, f[p]) < t
    ensures s <= Word(b, f[p]) < t ==> From(b, s) <= p < From(b, t)
  {
    var w := Word(b, f[p]);
    if w < s { FromMonotone(b, w + 1, s); }
    if w >= t { FromMonotone(b, t, w); }
    if s <= w { FromMonotone(b, s, w); }
    if w < t { FromMonotone(b, w + 1, t); }
  }

  /** The part of f from a up to but not including z. */
  function Slice(f: seq<int>, a: int, z: int): (r: seq<int>)
    ensures 0 <= a <= z <= |f| ==> |r| == z - a && r == f[a..z]
  {
    if 0 <= a <= z <= |f| then f[a..z] else []
  }

  lemma SliceMore(f: seq<int>, a: int, z: int)
    requires 0 <= a <= z < |f|
    ensures Slice(f, a, z + 1) == Slice(f, a, z) + [f[z]]
  {
  }

  lemma SliceFront(f: seq<int>, a: int, z: int)
    requires 0 < a <= z <= |f|
    ensures Slice(f, a - 1, z) == [f[a - 1]] + Slice(f, a, z)
  {
  }

  lemma SliceSame(f: seq<int>, p: int, x: int, a: int, z: int)
    requires 0 <= a <= z <= |f| && 0 <= p < |f| && (p < a || z <= p)
    ensures Slice(f[p := x], a, z) == Slice(f, a, z)
  {
  }

  // ----- the forward scan

  /** The buckets in front, filled up to cs by the predecessors of the first entries. */
  ghost predicate Filled(c: Ctx, f: seq<int>, cs: seq<int>, j: int, t: int)
    requires |c.done| == 256
  {
    && |cs| == 256 && 0 <= t < 256 && Positions(Slice(f, Left(c), j), |c.b|)
    && (if c.done[t] then cs[t] == Lo(c, t)
        else Lo(c, t) <= cs[t] <= Hi(c, t) && Slice(f, Lo(c, t), cs[t]) == Preds(c.b, Slice(f, Left(c), j), t))
  }

  /** Entry p of f0 is still there unless its bucket has been filled so far. */
  ghost predicate Still(c: Ctx, f0: seq<int>, f: seq<int>, cs: seq<int>, p: int)
    requires |c.done| == 256
  {
    && 0 <= p < |f0| == |f| && 0 <= f0[p] < |c.b| && |cs| == 256
    && (f[p] == f0[p]
        || var t, u: int := c.b[f0[p]], c.b[Next(|c.b|, f0[p])]; u == c.ss && !c.done[t] && p < cs[t])
  }

  /** The state of the forward scan at place j. */
  ghost predicate Forward(c: Ctx, f0: seq<int>, f: seq<int>, cs: seq<int>, j: int) {
    && Proper(c) && Homed(c.b, f0) && |f| == |c.b| && Positions(f, |c.b|) && |cs| == 256
    && Left(c) <= j <= cs[c.ss]
    && (forall t :: 0 <= t < 256 ==> Filled(c, f, cs, j, t))
    && (forall p :: 0 <= p < |f| ==> Still(c, f0, f, cs, p))
    && List(c, Slice(f, Left(c), cs[c.ss]))
  }

  /** The facts a step needs. */
  lemma ForwardFacts(c: Ctx, f0: seq<int>, f: seq<int>, cs: seq<int>, j: int)
    requires Forward(c, f0, f, cs, j)
    ensures Proper(c) && |f| == |f0| == |c.b| && |cs| == 256 && Homed(c.b, f0) && Positions(f, |c.b|)
    ensures Left(c) <= j <= cs[c.ss] <= Hi(c, c.ss) && Lo(c, c.ss) <= cs[c.ss] <= |f|
    ensures List(c, Slice(f, Left(c), cs[c.ss]))
  {
    assert Filled(c, f, cs, j, c.ss);
    Bounds(c, c.ss);
  }

  lemma FilledAt(c: Ctx, f0: seq<int>, f: seq<int>, cs: seq<int>, j: int, t: int)
    requires Forward(c, f0, f, cs, j) && 0 <= t < 256
    ensures Filled(c, f, cs, j, t)
  {
  }

  lemma StillAt(c: Ctx, f0: seq<int>, f: seq<int>, cs: seq<int>, j: int, p: int)
    requires Forward(c, f0, f, cs, j) && 0 <= p < |f|
    ensures Still(c, f0, f, cs, p)
  {
  }

  /** The entry at hand. */
  lemma ForwardEntry(c: Ctx, f0: seq<int>, f: seq<int>, cs: seq<int>, j: int)
    requires Forward(c, f0, f, cs, j) && j < cs[c.ss]
    ensures 0 <= j < |f| == |c.b| && 0 <= f[j] < |c.b| && c.b[f[j]] == c.ss
    ensures List(c, Slice(f, Left(c), j)) && List(c, Slice(f, Left(c), j) + [f[j]])
  {
    ForwardFacts(c, f0, f, cs, j);
    var l := Left(c);
    hide Forward, Left, Lo, Hi, Homed;
    SliceOfSlice(f, l, cs[c.ss], l, j + 1);
    SliceMore(f, l, j);
    ListPart(c, Slice(f, l, cs[c.ss]), 0, j + 1 - l);
    ListPart(c, Slice(f, l, cs[c.ss]), 0, j - l);
    SliceOfSlice(f, l, cs[c.ss], l, j);
    ListLast(c, Slice(f, l, j), f[j]);
  }

  lemma SliceOfSlice(f: seq<int>, a: int, z: int, a': int, z': int)
    requires 0 <= a <= a' <= z' <= z <= |f|
    ensures |Slice(f, a, z)| == z - a && Slice(f, a, z)[a' - a..z' - a] == Slice(f, a', z')
  {
    var g, h := f[a..z][a' - a..z' - a], f[a'..z'];
    assert |g| == |h|;
    forall i | 0 <= i < |g| ensures g[i] == h[i] { }
    assert g == h;
  }

  lemma ListPart(c: Ctx, g: seq<int>, a: int, z: int)
    requires List(c, g) && 0 <= a <= z <= |g|
    ensures List(c, g[a..z])
  {
    hide After, List;
    var h := g[a..z];
    ListFacts(c, g);
    forall i | 0 <= i < |h| ensures 0 <= h[i] < |c.b| && c.b[h[i]] == c.ss { assert h[i] == g[a + i]; }
    forall i, j | 0 <= i < j < |h| ensures AfterAt(c, h, i, j) {
      assert h[i] == g[a + i] && h[j] == g[a + j];
      ListAfter(c, g, a + i, a + j);
    }
    MakeList(c, h);
  }

  lemma ListLast(c: Ctx, g: seq<int>, y: int)
    requires List(c, g + [y])
    ensures 0 <= y < |c.b| && c.b[y] == c.ss && NoRepeats(g + [y], |g + [y]|)
  {
    var h := g + [y];
    assert h[|g|] == y;
  }

  /** Every predecessor with byte t has the word of its bucket. */
  lemma PredWords(c: Ctx, g: seq<int>, t: int)
    requires Positions(g, |c.b|) && forall i :: 0 <= i < |g| ==> c.b[g[i]] == c.ss
    ensures Positions(Preds(c.b, g, t), |c.b|)
    ensures forall i :: 0 <= i < |Preds(c.b, g, t)| ==> Words(c.b)[Preds(c.b, g, t)[i]] == 256 * t + c.ss
  {
    PredsPositions(c.b, g, t);
    forall i | 0 <= i < |Preds(c.b, g, t)| ensures Words(c.b)[Preds(c.b, g, t)[i]] == 256 * t + c.ss {
      var q := PredsFrom(c.b, g, t, i);
      hide Preds;
    }
  }

  /** Predecessors of different entries fit in their bucket. */
  lemma PredsFit(c: Ctx, g: seq<int>, t: int)
    requires Positions(g, |c.b|) && NoRepeats(g, |g|) && forall i :: 0 <= i < |g| ==> c.b[g[i]] == c.ss
    ensures |Preds(c.b, g, t)| <= Hi(c, t) - Lo(c, t)
  {
    PredsDistinct(c.b, g, t);
    PredWords(c, g, t);
    BucketSize(c, t);
    ClassBound(Words(c.b), 256 * t + c.ss, Preds(c.b, g, t));
  }

  /** One entry more: the buckets with another byte stay as they are. */
  lemma FilledOther(c: Ctx, f: seq<int>, cs: seq<int>, j: int, t: int)
    requires |c.done| == 256 && Filled(c, f, cs, j, t) && 0 <= Left(c) <= j < |f| && 0 <= f[j] < |c.b|
    requires c.b[Prev(|c.b|, f[j])] != t || c.done[t]
    ensures Filled(c, f, cs, j + 1, t)
  {
    SliceMore(f, Left(c), j);
    PredsMore(c.b, Slice(f, Left(c), j), f[j], t);
    hide Preds, Slice, Lo, Hi, Left;
  }

  /** The bucket of the predecessor's byte has room for it. */
  lemma Room(c: Ctx, f0: seq<int>, f: seq<int>, cs: seq<int>, j: int, t: int)
    requires Forward(c, f0, f, cs, j) && j < cs[c.ss] && 0 <= j < |f| && 0 <= f[j] < |c.b|
    requires t == c.b[Prev(|c.b|, f[j])] && !c.done[t]
    ensures Lo(c, t) <= cs[t] < Hi(c, t) <= |f|
  {
    ForwardFacts(c, f0, f, cs, j);
    ForwardEntry(c, f0, f, cs, j);
    FilledAt(c, f0, f, cs, j, t);
    Bounds(c, t);
    var g := Slice(f, Left(c), j);
    hide Preds, Slice, Lo, Hi, Left, Forward, Homed;
    ListFacts(c, g + [f[j]]);
    PredsFit(c, g + [f[j]], t);
    PredsMore(c.b, g, f[j], t);
    SliceSize(f, Lo(c, t), cs[t]);
  }

  lemma SliceSize(f: seq<int>, a: int, z: int)
    ensures 0 <= a <= z <= |f| ==> |Slice(f, a, z)| == z - a
  {
  }

  lemma ListFacts(c: Ctx, g: seq<int>)
    requires List(c, g)
    ensures Positions(g, |c.b|) && NoRepeats(g, |g|) && forall i :: 0 <= i < |g| ==> c.b[g[i]] == c.ss
  {
  }

  /** The bucket that gets the predecessor. */
  lemma FilledHere(c: Ctx, f: seq<int>, cs: seq<int>, j: int, t: int, k: int)
    requires |c.done| == 256 && Filled(c, f, cs, j, t) && 0 <= Left(c) <= j < |f| && 0 <= f[j] < |c.b|
    requires k == Prev(|c.b|, f[j]) && c.b[k] == t && !c.done[t] && cs[t] < Hi(c, t) <= |f|
    requires cs[t] < Left(c) || j < cs[t]
    ensures Filled(c, f[cs[t] := k], cs[t := cs[t] + 1], j + 1, t)
  {
    var f', l, p := f[cs[t] := k], Left(c), cs[t];
    SliceMore(f, l, j);
    PredsMore(c.b, Slice(f, l, j), f[j], t);
    SliceSame(f, p, k, l, j + 1);
    SliceMore(f', Lo(c, t), p);
    SliceSame(f, p, k, Lo(c, t), p);
    hide Preds, Slice, Lo, Hi, Left;
  }

  /** The buckets that do not. */
  lemma FilledElsewhere(c: Ctx, f: seq<int>, cs: seq<int>, j: int, t: int, u: int, k: int)
    requires |c.done| == 256 && Filled(c, f, cs, j, u) && 0 <= Left(c) <= j <= |f| == |c.b|
    requires 0 <= t < 256 && t != u && 0 <= cs[t] < |f| && Lo(c, t) <= cs[t] < Hi(c, t)
    requires cs[t] < Left(c) || j <= cs[t]
    ensures Filled(c, f[cs[t] := k], cs[t := cs[t] + 1], j, u)
  {
    var f', p := f[cs[t] := k], cs[t];
    SliceSame(f, p, k, Left(c), j);
    if t < u { BoundsApart(c, t, u); } else { BoundsApart(c, u, t); }
    Bounds(c, u);
    if !c.done[u] { SliceSame(f, p, k, Lo(c, u), cs[u]); }
    hide Preds, Slice, Lo, Hi, Left;
  }

  /** The list of the big bucket, after k went into the bucket of t. */
  lemma ListKept(c: Ctx, f0: seq<int>, f: seq<int>, cs: seq<int>, j: int, t: int, k: int)
    requires Forward(c, f0, f, cs, j) && j < cs[c.ss] && 0 <= j < |f| && 0 <= f[j] < |c.b|
    requires k == Prev(|c.b|, f[j]) && c.b[k] == t
    requires !c.done[t] && Lo(c, t) <= cs[t] < Hi(c, t) && Follow(c, Slice(f0, Left(c), Lo(c, c.ss)), -1)
    ensures List(c, Slice(f[cs[t] := k], Left(c), cs[t := cs[t] + 1][c.ss]))
    ensures cs[t] < Left(c) || cs[c.ss] <= cs[t]
  {
    hide *;
    ForwardFacts(c, f0, f, cs, j);
    Bounds(c, t);
    if t != c.ss {
      SliceSame(f, cs[t], k, Left(c), cs[c.ss]);
    } else {
      ListLonger(c, f0, f, cs, j, k);
    }
  }

  /** What the list consists of: the part below the bucket, and predecessors of its own
      first entries. */
  lemma ListShape(c: Ctx, f0: seq<int>, f: seq<int>, cs: seq<int>, j: int)
    requires Forward(c, f0, f, cs, j) && j < cs[c.ss] <= |f| && 0 <= j && !c.done[c.ss]
    ensures var g := Slice(f, Left(c), cs[c.ss]); var m := j - Left(c);
            && 0 <= m < |g| && g[m] == f[j] && List(c, g) && Positions(g[..m], |c.b|)
            && g == Slice(f0, Left(c), Lo(c, c.ss)) + Preds(c.b, g[..m], c.ss)
  {
    hide *;
    ForwardFacts(c, f0, f, cs, j);
    Bounds(c, c.ss);
    LowKept(c, f0, f, cs, j);
    FilledIs(c, f0, f, cs, j, c.ss);
    SliceJoin(f, Left(c), Lo(c, c.ss), cs[c.ss]);
    SlicePrefix(f, Left(c), cs[c.ss], j - Left(c));
  }

  lemma ListLonger(c: Ctx, f0: seq<int>, f: seq<int>, cs: seq<int>, j: int, k: int)
    requires Forward(c, f0, f, cs, j) && j < cs[c.ss] < Hi(c, c.ss) <= |f| && 0 <= j && 0 <= f[j] < |c.b|
    requires k == Prev(|c.b|, f[j]) && c.b[k] == c.ss && !c.done[c.ss] && Follow(c, Slice(f0, Left(c), Lo(c, c.ss)), -1)
    ensures List(c, Slice(f[cs[c.ss] := k], Left(c), cs[c.ss] + 1))
  {
    hide *;
    ForwardFacts(c, f0, f, cs, j);
    ListShape(c, f0, f, cs, j);
    assert Next(|c.b|, k) == f[j];
    SliceGrown(f, Left(c), cs[c.ss], k);
    var g := Slice(f, Left(c), cs[c.ss]);
    GrowBack(c, Slice(f0, Left(c), Lo(c, c.ss)), g, j - Left(c), k);
  }

  lemma SliceGrown(f: seq<int>, a: int, z: int, k: int)
    requires 0 <= a <= z < |f|
    ensures Slice(f[z := k], a, z + 1) == Slice(f, a, z) + [k]
  {
  }

  lemma SlicePrefix(f: seq<int>, a: int, z: int, i: int)
    requires 0 <= a && 0 <= i && a + i < z <= |f|
    ensures i < |Slice(f, a, z)| == z - a && Slice(f, a, z)[i] == f[a + i] && Slice(f, a, z)[..i] == Slice(f, a, a + i)
  {
  }

  lemma FilledIs(c: Ctx, f0: seq<int>, f: seq<int>, cs: seq<int>, j: int, t: int)
    requires Forward(c, f0, f, cs, j) && 0 <= t < 256 && !c.done[t]
    ensures Positions(Slice(f, Left(c), j), |c.b|) && Lo(c, t) <= cs[t] <= Hi(c, t)
    ensures Slice(f, Lo(c, t), cs[t]) == Preds(c.b, Slice(f, Left(c), j), t)
  {
    FilledAt(c, f0, f, cs, j, t);
  }

  lemma SliceJoin(f: seq<int>, a: int, m: int, z: int)
    requires 0 <= a <= m <= z <= |f|
    ensures Slice(f, a, z) == Slice(f, a, m) + Slice(f, m, z)
  {
  }

  /** The part below the bucket [ss, ss] is not touched. */
  lemma LowKept(c: Ctx, f0: seq<int>, f: seq<int>, cs: seq<int>, j: int)
    requires Forward(c, f0, f, cs, j)
    ensures Slice(f, Left(c), Lo(c, c.ss)) == Slice(f0, Left(c), Lo(c, c.ss))
  {
    hide Forward, Homed, Preds, List;
    ForwardFacts(c, f0, f, cs, j);
    Bounds(c, c.ss);
    var l, m := Left(c), Lo(c, c.ss);
    forall p | l <= p < m ensures f[p] == f0[p] {
      StillAt(c, f0, f, cs, j, p);
      HomedAt(c.b, f0, p);
      var s: int := c.ss;
      HomeRange(c.b, f0, p, 256 * s, 256 * s + s);
    }
  }

  lemma HomedAt(b: seq<byte>, f: seq<int>, p: int)
    requires Homed(b, f) && 0 <= p < |f|
    ensures AtHome(b, f, p) && |f| == |b|
  {
  }

  lemma MakeForward(c: Ctx, f0: seq<int>, f: seq<int>, cs: seq<int>, j: int)
    requires Proper(c) && Homed(c.b, f0) && |f| == |c.b| && Positions(f, |c.b|) && |cs| == 256
    requires Left(c) <= j <= cs[c.ss]
    requires forall t :: 0 <= t < 256 ==> Filled(c, f, cs, j, t)
    requires forall p :: 0 <= p < |f| ==> Still(c, f0, f, cs, p)
    requires List(c, Slice(f, Left(c), cs[c.ss]))
    ensures Forward(c, f0, f, cs, j)
  {
  }

  /** An entry whose predecessor's big bucket is done. */
  lemma ForwardSkips(c: Ctx, f0: seq<int>, f: seq<int>, cs: seq<int>, j: int)
    requires Forward(c, f0, f, cs, j) && 0 <= j < |f| && j < cs[c.ss] && 0 <= f[j] < |c.b|
             && c.done[c.b[Prev(|c.b|, f[j])]]
    ensures Forward(c, f0, f, cs, j + 1)
  {
    hide *;
    ForwardFacts(c, f0, f, cs, j);
    var next := j + 1;
    forall t | 0 <= t < 256 ensures Filled(c, f, cs, next, t) {
      FilledAt(c, f0, f, cs, j, t);
      FilledOther(c, f, cs, j, t);
    }
    forall p | 0 <= p < |f| ensures Still(c, f0, f, cs, p) { StillAt(c, f0, f, cs, j, p); }
    MakeForward(c, f0, f, cs, next);
  }

  /** An entry whose predecessor goes into its bucket. */
  lemma ForwardStep(c: Ctx, f0: seq<int>, f: seq<int>, cs: seq<int>, j: int, t: int, k: int)
    requires Forward(c, f0, f, cs, j) && 0 <= j < |f| && j < cs[c.ss] && 0 <= f[j] < |c.b|
    requires k == Prev(|c.b|, f[j]) && c.b[k] == t && !c.done[t] && 0 <= cs[t] < |f|
    requires Follow(c, Slice(f0, Left(c), Lo(c, c.ss)), -1)
    ensures Forward(c, f0, f[cs[t] := k], cs[t := cs[t] + 1], j + 1)
  {
    hide *;
    ForwardFacts(c, f0, f, cs, j);
    var f', cs', next := f[cs[t] := k], cs[t := cs[t] + 1], j + 1;
    Room(c, f0, f, cs, j, t);
    ListKept(c, f0, f, cs, j, t, k);
    forall u | 0 <= u < 256 ensures Filled(c, f', cs', next, u) {
      FilledAt(c, f0, f, cs, j, u);
      if u == t {
        FilledHere(c, f, cs, j, t, k);
      } else {
        FilledOther(c, f, cs, j, u);
        FilledElsewhere(c, f, cs, j + 1, t, u, k);
      }
    }
    forall p | 0 <= p < |f| ensures Still(c, f0, f', cs', p) {
      StillAt(c, f0, f, cs, j, p);
      StillStep(c, f0, f, cs, t, k, p);
    }
    PositionsSet(f, |c.b|, cs[t], k);
    assert cs'[c.ss] >= cs[c.ss];
    MakeForward(c, f0, f', cs', next);
  }

  lemma PositionsSet(f: seq<int>, n: nat, p: int, k: int)
    requires Positions(f, n) && 0 <= p < |f| && 0 <= k < n
    ensures Positions(f[p := k], n)
  {
  }

  lemma StillStep(c: Ctx, f0: seq<int>, f: seq<int>, cs: seq<int>, t: int, k: int, p: int)
    requires |c.done| == 256 && Still(c, f0, f, cs, p) && Homed(c.b, f0) && 0 <= t < 256 && !c.done[t]
    requires Lo(c, t) <= cs[t] < Hi(c, t) && 0 <= cs[t] < |f|
    ensures Still(c, f0, f[cs[t] := k], cs[t := cs[t] + 1], p)
  {
    if p == cs[t] {
      assert AtHome(c.b, f0, p);
      HomeWord(c.b, f0, p, 256 * t + c.ss);
    }
    hide Homed;
  }

  /** Before the scan. */
  lemma ForwardStarts(c: Ctx, f0: seq<int>, cs: seq<int>)
    requires Proper(c) && Homed(c.b, f0) && |cs| == 256 && forall t :: 0 <= t < 256 ==> cs[t] == Lo(c, t)
    requires List(c, Slice(f0, Left(c), Lo(c, c.ss)))
    ensures Forward(c, f0, f0, cs, Left(c))
  {
    Bounds(c, c.ss);
    forall t | 0 <= t < 256 ensures Filled(c, f0, cs, Left(c), t) { Bounds(c, t); }
    forall p | 0 <= p < |f0| ensures Still(c, f0, f0, cs, p) { assert AtHome(c.b, f0, p); }
    assert Positions(f0, |c.b|);
    hide Lo, Hi, Left, List, Homed;
  }

  // ----- the backward scan

  /** The buckets behind, filled down to ce by the predecessors of the last entries. */
  ghost predicate FilledTop(c: Ctx, f: seq<int>, cs: seq<int>, ce: seq<int>, j: int, t: int)
    requires |c.done| == 256
  {
    && |cs| == |ce| == 256 && 0 <= t < 256 && Positions(Slice(f, j + 1, Right(c)), |c.b|)
    && (!c.done[t] ==> cs[t] <= ce[t] + 1 <= Hi(c, t)
                       && Slice(f, ce[t] + 1, Hi(c, t)) == Preds(c.b, Slice(f, j + 1, Right(c)), t))
  }

  ghost predicate StillBoth(c: Ctx, f0: seq<int>, f: seq<int>, cs: seq<int>, ce: seq<int>, p: int)
    requires |c.done| == 256
  {
    && 0 <= p < |f0| == |f| && 0 <= f0[p] < |c.b| && |cs| == |ce| == 256
    && (f[p] == f0[p]
        || var t, u: int := c.b[f0[p]], c.b[Next(|c.b|, f0[p])]; u == c.ss && !c.done[t] && (p < cs[t] || p > ce[t]))
  }

  /** The first entries, all scanned, and the last ones so far. */
  ghost function Front(c: Ctx, f: seq<int>, cs: seq<int>): seq<int>
    requires |cs| == 256
  {
    Slice(f, Left(c), cs[c.ss])
  }

  ghost function Rear(c: Ctx, f: seq<int>, ce: seq<int>): seq<int>
    requires |ce| == 256
  {
    Slice(f, ce[c.ss] + 1, Right(c))
  }

  /** The state of the backward scan, after the entries from j + 1 on. */
  ghost predicate Backward(c: Ctx, f0: seq<int>, f: seq<int>, cs: seq<int>, ce: seq<int>, j: int) {
    && Proper(c) && Homed(c.b, f0) && |f| == |c.b| && Positions(f, |c.b|) && |cs| == |ce| == 256
    && cs[c.ss] <= ce[c.ss] + 1 <= j + 1 <= Right(c)
    && (forall t :: 0 <= t < 256 ==> Filled(c, f, cs, cs[c.ss], t))
    && (forall t :: 0 <= t < 256 ==> FilledTop(c, f, cs, ce, j, t))
    && (forall p :: 0 <= p < |f| ==> StillBoth(c, f0, f, cs, ce, p))
    && List(c, Front(c, f, cs) + Rear(c, f, ce))
  }

  lemma BackwardFacts(c: Ctx, f0: seq<int>, f: seq<int>, cs: seq<int>, ce: seq<int>, j: int)
    requires Backward(c, f0, f, cs, ce, j)
    ensures Proper(c) && |f| == |f0| == |c.b| && |cs| == |ce| == 256 && Homed(c.b, f0) && Positions(f, |c.b|)
    ensures 0 <= Left(c) <= Lo(c, c.ss) <= cs[c.ss] <= ce[c.ss] + 1 <= j + 1 <= Right(c) <= |f|
    ensures ce[c.ss] + 1 <= Hi(c, c.ss) <= Right(c)
    ensures List(c, Front(c, f, cs) + Rear(c, f, ce))
  {
    hide Preds, List, Slice, Lo, Hi, Left, Right;
    assert Filled(c, f, cs, cs[c.ss], c.ss) && FilledTop(c, f, cs, ce, j, c.ss);
    Bounds(c, c.ss);
  }

  lemma BackwardBuckets(c: Ctx, f0: seq<int>, f: seq<int>, cs: seq<int>, ce: seq<int>, j: int, t: int)
    requires Backward(c, f0, f, cs, ce, j) && 0 <= t < 256
    ensures |c.done| == 256 && |cs| == |ce| == 256 && Filled(c, f, cs, cs[c.ss], t) && FilledTop(c, f, cs, ce, j, t)
  {
  }

  lemma BackwardStill(c: Ctx, f0: seq<int>, f: seq<int>, cs: seq<int>, ce: seq<int>, j: int, p: int)
    requires Backward(c, f0, f, cs, ce, j) && 0 <= p < |f|
    ensures |c.done| == 256 && StillBoth(c, f0, f, cs, ce, p)
  {
  }

  /** What an open bucket holds at both ends. */
  lemma BucketEnds(c: Ctx, f: seq<int>, cs: seq<int>, ce: seq<int>, j: int, t: int)
    requires |c.done| == 256 && |cs| == 256 && Filled(c, f, cs, cs[c.ss], t) && FilledTop(c, f, cs, ce, j, t)
             && !c.done[t]
    ensures Positions(Front(c, f, cs), |c.b|) && Positions(Slice(f, j + 1, Right(c)), |c.b|)
    ensures Lo(c, t) <= cs[t] <= ce[t] + 1 <= Hi(c, t)
    ensures Slice(f, Lo(c, t), cs[t]) == Preds(c.b, Front(c, f, cs), t)
    ensures Slice(f, ce[t] + 1, Hi(c, t)) == Preds(c.b, Slice(f, j + 1, Right(c)), t)
  {
    hide Preds, Slice, Lo, Hi, Left, Right;
  }

  /** The entry at hand, with those scanned. */
  lemma BackwardEntry(c: Ctx, f0: seq<int>, f: seq<int>, cs: seq<int>, ce: seq<int>, j: int)
    requires Backward(c, f0, f, cs, ce, j) && j > ce[c.ss]
    ensures 0 <= j < |f| == |c.b| && 0 <= f[j] < |c.b| && c.b[f[j]] == c.ss
    ensures Rear(c, f, ce) == Slice(f, ce[c.ss] + 1, j) + [f[j]] + Slice(f, j + 1, Right(c))
    ensures List(c, Front(c, f, cs) + Slice(f, j, Right(c)))
  {
    hide *;
    BackwardFacts(c, f0, f, cs, ce, j);
    RearIs(c, f, cs, ce);
    SliceJoin(f, ce[c.ss] + 1, j, Right(c));
    SliceFront(f, j + 1, Right(c));
    var front, a, y, d := Front(c, f, cs), Slice(f, ce[c.ss] + 1, j), f[j], Slice(f, j + 1, Right(c));
    ThreeParts(a, y, d);
    ListWithout(c, front, a, Slice(f, j, Right(c)));
    ListMember(c, front, y, d);
  }

  lemma RearIs(c: Ctx, f: seq<int>, cs: seq<int>, ce: seq<int>)
    requires |ce| == |cs| == 256
    ensures Rear(c, f, ce) == Slice(f, ce[c.ss] + 1, Right(c)) && Front(c, f, cs) == Slice(f, Left(c), cs[c.ss])
  {
  }

  lemma ThreeParts(a: seq<int>, y: int, d: seq<int>)
    ensures a + ([y] + d) == a + [y] + d
  {
  }

  lemma ListWithout(c: Ctx, p: seq<int>, a: seq<int>, q: seq<int>)
    requires List(c, p + (a + q))
    ensures List(c, p + q)
  {
    hide After;
    var g, h := p + (a + q), p + q;
    hide List;
    ListFacts(c, g);
    forall i | 0 <= i < |h| ensures 0 <= h[i] < |c.b| && c.b[h[i]] == c.ss {
      assert h[i] == g[if i < |p| then i else i + |a|];
    }
    forall i, j | 0 <= i < j < |h| ensures AfterAt(c, h, i, j) {
      ListAfter(c, g, if i < |p| then i else i + |a|, if j < |p| then j else j + |a|);
    }
    MakeList(c, h);
  }

  lemma ListMember(c: Ctx, p: seq<int>, y: int, d: seq<int>)
    requires List(c, p + ([y] + d))
    ensures 0 <= y < |c.b| && c.b[y] == c.ss
  {
    assert (p + ([y] + d))[|p|] == y;
  }

  /** The bucket of the predecessor's byte has room for it between its two ends. */
  lemma RoomBetween(c: Ctx, f0: seq<int>, f: seq<int>, cs: seq<int>, ce: seq<int>, j: int, t: int)
    requires Backward(c, f0, f, cs, ce, j) && j > ce[c.ss] && 0 <= j < |f| && 0 <= f[j] < |c.b|
    requires t == c.b[Prev(|c.b|, f[j])] && !c.done[t]
    ensures Lo(c, t) <= cs[t] <= ce[t] < Hi(c, t) <= |f|
  {
    hide *;
    BackwardFacts(c, f0, f, cs, ce, j);
    BackwardEntry(c, f0, f, cs, ce, j);
    BackwardBuckets(c, f0, f, cs, ce, j, t);
    BucketEnds(c, f, cs, ce, j, t);
    Bounds(c, t);
    var front, d := Front(c, f, cs), Slice(f, j + 1, Right(c));
    SliceFront(f, j + 1, Right(c));
    ListFacts(c, front + ([f[j]] + d));
    PredsFit(c, front + ([f[j]] + d), t);
    PredsFront(c.b, d, f[j], t);
    PredsJoin(c.b, front, [f[j]] + d, t);
    SliceSize(f, Lo(c, t), cs[t]);
    SliceSize(f, ce[t] + 1, Hi(c, t));
  }

  /** The low part and the high part are as they were. */
  lemma EndsKept(c: Ctx, f0: seq<int>, f: seq<int>, cs: seq<int>, ce: seq<int>, j: int)
    requires Backward(c, f0, f, cs, ce, j)
    ensures Slice(f, Left(c), Lo(c, c.ss)) == Slice(f0, Left(c), Lo(c, c.ss))
    ensures Slice(f, Hi(c, c.ss), Right(c)) == Slice(f0, Hi(c, c.ss), Right(c))
  {
    hide Backward, Homed, Preds, List;
    BackwardFacts(c, f0, f, cs, ce, j);
    Bounds(c, c.ss);
    var s: int := c.ss;
    forall p | Left(c) <= p < Lo(c, s) || Hi(c, s) <= p < Right(c) ensures f[p] == f0[p] {
      BackwardStill(c, f0, f, cs, ce, j, p);
      HomedAt(c.b, f0, p);
      HomeRange(c.b, f0, p, 256 * s, 256 * s + s);
      HomeRange(c.b, f0, p, 256 * s + s + 1, 256 * s + 256);
    }
  }

  /** The two lists with what they consist of. */
  lemma BackwardLists(c: Ctx, f0: seq<int>, f: seq<int>, cs: seq<int>, ce: seq<int>, j: int)
    requires Backward(c, f0, f, cs, ce, j)
    requires Follow(c, Slice(f0, Left(c), Lo(c, c.ss)), -1) && Follow(c, Slice(f0, Hi(c, c.ss), Right(c)), 1)
    ensures Lists(c, Slice(f0, Left(c), Lo(c, c.ss)), Front(c, f, cs), Rear(c, f, ce), Slice(f, j + 1, Right(c)),
                  Slice(f0, Hi(c, c.ss), Right(c)))
  {
    hide *;
    BackwardFacts(c, f0, f, cs, ce, j);
    ProperNot(c);
    EndsKept(c, f0, f, cs, ce, j);
    BackwardBuckets(c, f0, f, cs, ce, j, c.ss);
    BucketEnds(c, f, cs, ce, j, c.ss);
    RearIs(c, f, cs, ce);
    SliceJoin(f, Left(c), Lo(c, c.ss), cs[c.ss]);
    SliceJoin(f, ce[c.ss] + 1, Hi(c, c.ss), Right(c));
    MakeLists(c, Slice(f0, Left(c), Lo(c, c.ss)), Front(c, f, cs), Rear(c, f, ce), Slice(f, j + 1, Right(c)),
              Slice(f0, Hi(c, c.ss), Right(c)));
  }

  lemma ProperNot(c: Ctx)
    requires Proper(c)
    ensures c.b != [] && |c.done| == 256 && !c.done[c.ss]
  {
  }

  lemma MakeLists(c: Ctx, low: seq<int>, p: seq<int>, q: seq<int>, d: seq<int>, high: seq<int>)
    requires List(c, p + q) && Positions(p, |c.b|) && Positions(d, |c.b|)
    requires Follow(c, low, -1) && p == low + Preds(c.b, p, c.ss)
    requires Follow(c, high, 1) && q == Preds(c.b, d, c.ss) + high
    ensures Lists(c, low, p, q, d, high)
  {
  }

  lemma MakeBackward(c: Ctx, f0: seq<int>, f: seq<int>, cs: seq<int>, ce: seq<int>, j: int)
    requires Proper(c) && Homed(c.b, f0) && |f| == |c.b| && Positions(f, |c.b|) && |cs| == |ce| == 256
    requires cs[c.ss] <= ce[c.ss] + 1 <= j + 1 <= Right(c)
    requires forall t :: 0 <= t < 256 ==> Filled(c, f, cs, cs[c.ss], t)
    requires forall t :: 0 <= t < 256 ==> FilledTop(c, f, cs, ce, j, t)
    requires forall p :: 0 <= p < |f| ==> StillBoth(c, f0, f, cs, ce, p)
    requires List(c, Front(c, f, cs) + Rear(c, f, ce))
    ensures Backward(c, f0, f, cs, ce, j)
  {
  }

  /** One entry more: the buckets with another byte stay as they are. */
  lemma TopOther(c: Ctx, f: seq<int>, cs: seq<int>, ce: seq<int>, j: int, t: int)
    requires |c.done| == 256 && FilledTop(c, f, cs, ce, j, t) && 0 <= j < Right(c) <= |f| && 0 <= f[j] < |c.b|
    requires c.b[Prev(|c.b|, f[j])] != t || c.done[t]
    ensures FilledTop(c, f, cs, ce, j - 1, t)
  {
    hide Preds, Slice, Hi, Right;
    SliceFront(f, j + 1, Right(c));
    PredsFront(c.b, Slice(f, j + 1, Right(c)), f[j], t);
  }

  /** The bucket that gets the predecessor. */
  lemma TopHere(c: Ctx, f: seq<int>, cs: seq<int>, ce: seq<int>, j: int, t: int, k: int)
    requires |c.done| == 256 && FilledTop(c, f, cs, ce, j, t) && 0 <= j < Right(c) <= |f| && 0 <= f[j] < |c.b|
    requires k == Prev(|c.b|, f[j]) && c.b[k] == t && !c.done[t] && 0 <= cs[t] <= ce[t] < Hi(c, t) <= |f|
    requires ce[t] < j || Right(c) <= ce[t]
    ensures FilledTop(c, f[ce[t] := k], cs, ce[t := ce[t] - 1], j - 1, t)
  {
    hide Preds, Slice, Hi, Right;
    var f', r, p := f[ce[t] := k], Right(c), ce[t];
    SliceSame(f, p, k, j, r);
    SliceFront(f, j + 1, r);
    PredsFront(c.b, Slice(f, j + 1, r), f[j], t);
    SliceFront(f', p + 1, Hi(c, t));
    SliceSame(f, p, k, p + 1, Hi(c, t));
  }

  /** The buckets that do not. */
  lemma TopElsewhere(c: Ctx, f: seq<int>, cs: seq<int>, ce: seq<int>, j: int, t: int, u: int, k: int)
    requires |c.done| == 256 && FilledTop(c, f, cs, ce, j, u) && -1 <= j < Right(c) <= |f| == |c.b|
    requires 0 <= t < 256 && t != u && 0 <= ce[t] < |f| && Lo(c, t) <= ce[t] < Hi(c, t)
             && (!c.done[u] ==> Lo(c, u) <= cs[u])
    requires ce[t] < j + 1 || Right(c) <= ce[t]
    ensures FilledTop(c, f[ce[t] := k], cs, ce[t := ce[t] - 1], j, u)
  {
    hide Preds, Slice, Hi, Right, Lo;
    var p := ce[t];
    SliceSame(f, p, k, j + 1, Right(c));
    if t < u { BoundsApart(c, t, u); } else { BoundsApart(c, u, t); }
    Bounds(c, u);
    if !c.done[u] { SliceSame(f, p, k, ce[u] + 1, Hi(c, u)); }
  }

  /** The forward parts are out of reach. */
  lemma FilledStays(c: Ctx, f: seq<int>, cs: seq<int>, ce: seq<int>, t: int, u: int, k: int)
    requires |c.done| == 256 && |ce| == |cs| == 256 && |f| == |c.b| && Filled(c, f, cs, cs[c.ss], u)
    requires 0 <= t < 256 && 0 <= ce[t] < |f| && Lo(c, t) <= cs[t] <= ce[t] < Hi(c, t)
             && 0 <= Left(c) <= cs[c.ss] <= |f|
    requires ce[t] < Left(c) || cs[c.ss] <= ce[t]
    ensures Filled(c, f[ce[t] := k], cs, cs[c.ss], u)
  {
    hide Preds, Slice, Hi, Right, Lo, Left;
    var p := ce[t];
    SliceSame(f, p, k, Left(c), cs[c.ss]);
    if t < u { BoundsApart(c, t, u); }
    if u < t { BoundsApart(c, u, t); }
    Bounds(c, u);
    if !c.done[u] { SliceSame(f, p, k, Lo(c, u), cs[u]); }
  }

  lemma StillBothStep(c: Ctx, f0: seq<int>, f: seq<int>, cs: seq<int>, ce: seq<int>, t: int, k: int, p: int)
    requires |c.done| == 256 && StillBoth(c, f0, f, cs, ce, p) && Homed(c.b, f0) && 0 <= t < 256 && !c.done[t]
    requires Lo(c, t) <= ce[t] < Hi(c, t) && 0 <= ce[t] < |f|
    ensures StillBoth(c, f0, f[ce[t] := k], cs, ce[t := ce[t] - 1], p)
  {
    hide Homed;
    if p == ce[t] {
      HomedAt(c.b, f0, p);
      HomeWord(c.b, f0, p, 256 * t + c.ss);
    }
  }

  /** An entry whose predecessor's big bucket is done. */
  lemma BackwardSkips(c: Ctx, f0: seq<int>, f: seq<int>, cs: seq<int>, ce: seq<int>, j: int)
    requires Backward(c, f0, f, cs, ce, j) && 0 <= j < |f| && j > ce[c.ss] && 0 <= f[j] < |c.b|
    requires c.done[c.b[Prev(|c.b|, f[j])]]
    ensures Backward(c, f0, f, cs, ce, j - 1)
  {
    hide *;
    BackwardFacts(c, f0, f, cs, ce, j);
    ProperNot(c);
    var next := j - 1;
    forall t | 0 <= t < 256 ensures Filled(c, f, cs, cs[c.ss], t) && FilledTop(c, f, cs, ce, next, t) {
      BackwardBuckets(c, f0, f, cs, ce, j, t);
      TopOther(c, f, cs, ce, j, t);
    }
    forall p | 0 <= p < |f| ensures StillBoth(c, f0, f, cs, ce, p) { BackwardStill(c, f0, f, cs, ce, j, p); }
    MakeBackward(c, f0, f, cs, ce, next);
  }

  /** The list of both ends, after k went into the bucket of t. */
  lemma EndsListed(c: Ctx, f0: seq<int>, f: seq<int>, cs: seq<int>, ce: seq<int>, j: int, t: int, k: int)
    requires Backward(c, f0, f, cs, ce, j) && j > ce[c.ss] && 0 <= j < |f| && 0 <= f[j] < |c.b|
    requires k == Prev(|c.b|, f[j]) && c.b[k] == t && !c.done[t] && 0 <= ce[t] < |f|
    requires Lo(c, t) <= cs[t] <= ce[t] < Hi(c, t)
    requires Follow(c, Slice(f0, Left(c), Lo(c, c.ss)), -1) && Follow(c, Slice(f0, Hi(c, c.ss), Right(c)), 1)
    ensures List(c, Front(c, f[ce[t] := k], cs) + Rear(c, f[ce[t] := k], ce[t := ce[t] - 1]))
    ensures ce[t] < Left(c) || cs[c.ss] <= ce[t]
    ensures ce[t] < j || Right(c) <= ce[t]
  {
    hide *;
    BackwardFacts(c, f0, f, cs, ce, j);
    Bounds(c, t);
    var f', ce' := f[ce[t] := k], ce[t := ce[t] - 1];
    RearIs(c, f, cs, ce);
    RearIs(c, f', cs, ce');
    SliceSame(f, ce[t], k, Left(c), cs[c.ss]);
    if t != c.ss {
      SliceSame(f, ce[t], k, ce[c.ss] + 1, Right(c));
    } else {
      BackwardEntry(c, f0, f, cs, ce, j);
      BackwardLists(c, f0, f, cs, ce, j);
      SliceSame(f, ce[t], k, ce[t] + 1, Right(c));
      SliceFront(f', ce[t] + 1, Right(c));
      GrowFront(c, Slice(f0, Left(c), Lo(c, c.ss)), Front(c, f, cs), Rear(c, f, ce), Slice(f, ce[c.ss] + 1, j), f[j],
                Slice(f, j + 1, Right(c)), Slice(f0, Hi(c, c.ss), Right(c)), k);
    }
  }

  /** An entry whose predecessor goes into its bucket. */
  lemma BackwardStep(c: Ctx, f0: seq<int>, f: seq<int>, cs: seq<int>, ce: seq<int>, j: int, t: int, k: int)
    requires Backward(c, f0, f, cs, ce, j) && j > ce[c.ss] && 0 <= j < |f| && 0 <= f[j] < |c.b|
    requires k == Prev(|c.b|, f[j]) && c.b[k] == t && !c.done[t] && 0 <= ce[t] < |f|
    requires Follow(c, Slice(f0, Left(c), Lo(c, c.ss)), -1) && Follow(c, Slice(f0, Hi(c, c.ss), Right(c)), 1)
    ensures Backward(c, f0, f[ce[t] := k], cs, ce[t := ce[t] - 1], j - 1)
  {
    hide *;
    BackwardFacts(c, f0, f, cs, ce, j);
    ProperNot(c);
    RoomBetween(c, f0, f, cs, ce, j, t);
    EndsListed(c, f0, f, cs, ce, j, t, k);
    var f', ce', next := f[ce[t] := k], ce[t := ce[t] - 1], j - 1;
    forall u | 0 <= u < 256 ensures Filled(c, f', cs, cs[c.ss], u) && FilledTop(c, f', cs, ce', next, u) {
      BackwardBuckets(c, f0, f, cs, ce, j, u);
      FilledStays(c, f, cs, ce, t, u, k);
      if u == t {
        TopHere(c, f, cs, ce, j, t, k);
      } else {
        if !c.done[u] { BucketEnds(c, f, cs, ce, j, u); }
        TopOther(c, f, cs, ce, j, u);
        TopElsewhere(c, f, cs, ce, next, t, u, k);
      }
    }
    forall p | 0 <= p < |f| ensures StillBoth(c, f0, f', cs, ce', p) {
      BackwardStill(c, f0, f, cs, ce, j, p);
      StillBothStep(c, f0, f, cs, ce, t, k, p);
    }
    PositionsSet(f, |c.b|, ce[t], k);
    MakeBackward(c, f0, f', cs, ce', next);
  }

  /** Between the scans. */
  lemma BackwardStarts(c: Ctx, f0: seq<int>, f: seq<int>, cs: seq<int>, ce: seq<int>)
    requires |cs| == 256 && Forward(c, f0, f, cs, cs[c.ss])
    requires |ce| == 256 && forall t :: 0 <= t < 256 ==> ce[t] == Hi(c, t) - 1
    requires List(c, Front(c, f, cs) + Slice(f, Hi(c, c.ss), Right(c)))
    ensures Backward(c, f0, f, cs, ce, Right(c) - 1)
  {
    hide *;
    ForwardFacts(c, f0, f, cs, cs[c.ss]);
    ProperNot(c);
    Bounds(c, c.ss);
    RearIs(c, f, cs, ce);
    var next := Right(c) - 1;
    forall t | 0 <= t < 256 ensures Filled(c, f, cs, cs[c.ss], t) && FilledTop(c, f, cs, ce, next, t) {
      FilledAt(c, f0, f, cs, cs[c.ss], t);
      Bounds(c, t);
      TopStarts(c, f, cs, ce, t);
    }
    forall p | 0 <= p < |f| ensures StillBoth(c, f0, f, cs, ce, p) {
      StillAt(c, f0, f, cs, cs[c.ss], p);
      StillIsBoth(c, f0, f, cs, ce, p);
    }
    MakeBackward(c, f0, f, cs, ce, next);
  }

  lemma TopStarts(c: Ctx, f: seq<int>, cs: seq<int>, ce: seq<int>, t: int)
    requires |c.done| == 256 && |cs| == |ce| == 256 && 0 <= t < 256 && Filled(c, f, cs, cs[c.ss], t)
             && ce[t] == Hi(c, t) - 1
    requires |f| == |c.b| && Hi(c, t) <= |f| && Right(c) <= |f|
    ensures FilledTop(c, f, cs, ce, Right(c) - 1, t)
  {
    hide Lo, Hi, Left, Right;
    assert Slice(f, Hi(c, t), Hi(c, t)) == [] && Slice(f, Right(c), Right(c)) == [];
  }

  lemma StillIsBoth(c: Ctx, f0: seq<int>, f: seq<int>, cs: seq<int>, ce: seq<int>, p: int)
    requires |c.done| == 256 && |ce| == 256 && Still(c, f0, f, cs, p)
    ensures StillBoth(c, f0, f, cs, ce, p)
  {
  }

  // ----- both scans are through

  /** All entries met so far, in order. */
  ghost function Met(c: Ctx, f: seq<int>, cs: seq<int>, ce: seq<int>): seq<int>
    requires |cs| == |ce| == 256
  {
    Front(c, f, cs) + Rear(c, f, ce)
  }

  /** The scans have met in the middle of the bucket [ss, ss]. */
  ghost predicate Through(c: Ctx, f0: seq<int>, f: seq<int>, cs: seq<int>, ce: seq<int>) {
    |ce| == 256 && Backward(c, f0, f, cs, ce, ce[c.ss])
    && Follow(c, Slice(f0, Left(c), Lo(c, c.ss)), -1) && Follow(c, Slice(f0, Hi(c, c.ss), Right(c)), 1)
  }

  /** An open bucket at the end of both scans. */
  lemma ThroughBucket(c: Ctx, f0: seq<int>, f: seq<int>, cs: seq<int>, ce: seq<int>, t: int)
    requires Through(c, f0, f, cs, ce) && 0 <= t < 256
    ensures |cs| == |ce| == |c.done| == 256 && List(c, Met(c, f, cs, ce)) && Positions(Met(c, f, cs, ce), |c.b|)
            && |f| == |c.b|
    ensures Lo(c, t) <= Hi(c, t) <= |f|
    ensures !c.done[t] ==>
              && Lo(c, t) <= cs[t] <= ce[t] + 1 <= Hi(c, t)
              && Slice(f, Lo(c, t), cs[t]) + Slice(f, ce[t] + 1, Hi(c, t)) == Preds(c.b, Met(c, f, cs, ce), t)
  {
    hide *;
    ThroughIs(c, f0, f, cs, ce);
    BackwardFacts(c, f0, f, cs, ce, ce[c.ss]);
    BackwardBuckets(c, f0, f, cs, ce, ce[c.ss], t);
    Bounds(c, t);
    MetIs(c, f, cs, ce);
    RearIs(c, f, cs, ce);
    ListFacts(c, Met(c, f, cs, ce));
    if !c.done[t] {
      BucketEnds(c, f, cs, ce, ce[c.ss], t);
      PredsJoin(c.b, Front(c, f, cs), Rear(c, f, ce), t);
    }
  }

  lemma ThroughIs(c: Ctx, f0: seq<int>, f: seq<int>, cs: seq<int>, ce: seq<int>)
    requires Through(c, f0, f, cs, ce)
    ensures |ce| == 256 && Backward(c, f0, f, cs, ce, ce[c.ss])
    ensures Follow(c, Slice(f0, Left(c), Lo(c, c.ss)), -1) && Follow(c, Slice(f0, Hi(c, c.ss), Right(c)), 1)
  {
    hide Backward, Follow;
  }

  lemma MetIs(c: Ctx, f: seq<int>, cs: seq<int>, ce: seq<int>)
    requires |cs| == |ce| == 256
    ensures Met(c, f, cs, ce) == Front(c, f, cs) + Rear(c, f, ce)
  {
    hide Front, Rear;
  }

  /** A position with byte ss that was not met is followed by another such. */
  lemma NotMetNext(c: Ctx, f0: seq<int>, f: seq<int>, cs: seq<int>, ce: seq<int>, x: nat)
    requires Through(c, f0, f, cs, ce) && |cs| == |ce| == 256 && x < |c.b| && c.b[x] == c.ss && x !in Met(c, f, cs, ce)
    ensures c.b[Next(|c.b|, x)] == c.ss && Next(|c.b|, x) !in Met(c, f, cs, ce)
  {
    hide *;
    ThroughIs(c, f0, f, cs, ce);
    ThroughBucket(c, f0, f, cs, ce, c.ss);
    BackwardFacts(c, f0, f, cs, ce, ce[c.ss]);
    ProperNot(c);
    if c.b[Next(|c.b|, x)] != c.ss {
      MetAtEnds(c, f0, f, cs, ce, x);
    } else if Next(|c.b|, x) in Met(c, f, cs, ce) {
      PredsHave(c.b, Met(c, f, cs, ce), c.ss, x);
      MetByBucket(c, f, cs, ce, x);
    }
  }

  /** What lies in the scanned parts of the bucket [ss, ss] has been met. */
  lemma MetByBucket(c: Ctx, f: seq<int>, cs: seq<int>, ce: seq<int>, x: int)
    requires |cs| == |ce| == 256 && 0 <= Left(c) <= Lo(c, c.ss) <= cs[c.ss]
    requires cs[c.ss] <= ce[c.ss] + 1 <= Hi(c, c.ss) <= Right(c) <= |f|
    requires x in Slice(f, Lo(c, c.ss), cs[c.ss]) + Slice(f, ce[c.ss] + 1, Hi(c, c.ss))
    ensures x in Met(c, f, cs, ce)
  {
    hide Lo, Hi, Left, Right, Slice;
    SliceJoin(f, Left(c), Lo(c, c.ss), cs[c.ss]);
    SliceJoin(f, ce[c.ss] + 1, Hi(c, c.ss), Right(c));
  }

  /** So has everything with another byte behind it. */
  lemma MetAtEnds(c: Ctx, f0: seq<int>, f: seq<int>, cs: seq<int>, ce: seq<int>, x: nat)
    requires Through(c, f0, f, cs, ce) && |cs| == |ce| == 256 && x < |c.b| && c.b[x] == c.ss
             && c.b[Next(|c.b|, x)] != c.ss
    ensures x in Met(c, f, cs, ce)
  {
    hide *;
    ThroughIs(c, f0, f, cs, ce);
    BackwardFacts(c, f0, f, cs, ce, ce[c.ss]);
    PermOf(c.b, f0);
    var p := PermSurjective(f0, |c.b|, x);
    HomedAt(c.b, f0, p);
    PlaceOfWord(c, f0, p);
    BackwardStill(c, f0, f, cs, ce, ce[c.ss], p);
    StillOutside(c, f0, f, cs, ce, p);
    MetIs(c, f, cs, ce);
    RearIs(c, f, cs, ce);
    if p < Lo(c, c.ss) { InSlice(f, Left(c), cs[c.ss], p); } else { InSlice(f, ce[c.ss] + 1, Right(c), p); }
  }

  lemma PermOf(b: seq<byte>, f: seq<int>)
    requires Homed(b, f)
    ensures IsPerm(f, |b|) && |f| == |b|
  {
  }

  lemma InSlice(f: seq<int>, a: int, z: int, p: int)
    requires 0 <= a <= p < z <= |f|
    ensures f[p] in Slice(f, a, z)
  {
    assert f[a..z][p - a] == f[p];
  }

  lemma PlaceOfWord(c: Ctx, f: seq<int>, p: int)
    requires AtHome(c.b, f, p) && c.b[f[p]] == c.ss && c.b[Next(|c.b|, f[p])] != c.ss
    ensures Left(c) <= p < Lo(c, c.ss) || Hi(c, c.ss) <= p < Right(c)
  {
    var s: int := c.ss;
    HomeRange(c.b, f, p, 256 * s, 256 * s + s);
    HomeRange(c.b, f, p, 256 * s + s + 1, 256 * s + 256);
  }

  lemma StillOutside(c: Ctx, f0: seq<int>, f: seq<int>, cs: seq<int>, ce: seq<int>, p: int)
    requires |c.done| == 256 && StillBoth(c, f0, f, cs, ce, p)
    ensures c.b[Next(|c.b|, f0[p])] != c.ss || c.done[c.b[f0[p]]] ==> f[p] == f0[p]
  {
  }

  /** Either every position with byte ss has been met, or the block has no other byte and
      none has been met. */
  lemma AllOrNone(c: Ctx, f0: seq<int>, f: seq<int>, cs: seq<int>, ce: seq<int>)
    requires Through(c, f0, f, cs, ce) && |cs| == |ce| == 256
    ensures || (forall x: nat :: x < |c.b| && c.b[x] == c.ss ==> x in Met(c, f, cs, ce))
            || (forall x: nat :: x < |c.b| ==> c.b[x] == c.ss && x !in Met(c, f, cs, ce))
  {
    hide *;
    if x: nat :| x < |c.b| && c.b[x] == c.ss && x !in Met(c, f, cs, ce) {
      var s := set y | y in Range(0, |c.b|) && c.b[y] == c.ss && y !in Met(c, f, cs, ce);
      forall i | 0 <= i < |c.b| && i in s ensures Next(|c.b|, i) in s { NotMetNext(c, f0, f, cs, ce, i); }
      forall y: nat | y < |c.b| ensures c.b[y] == c.ss && y !in Met(c, f, cs, ce) {
        AllTheWayRound(|c.b|, x, y, s);
      }
    }
  }

  /** If all have been met, every open bucket is full, in the right order. */
  lemma BucketFull(c: Ctx, f0: seq<int>, f: seq<int>, cs: seq<int>, ce: seq<int>, t: int)
    requires Through(c, f0, f, cs, ce) && |cs| == |ce| == 256 && 0 <= t < 256 && |c.done| == 256 && !c.done[t]
    requires forall x: nat :: x < |c.b| && c.b[x] == c.ss ==> x in Met(c, f, cs, ce)
    ensures ce[t] + 1 == cs[t]
    ensures Positions(Met(c, f, cs, ce), |c.b|) && Slice(f, Lo(c, t), Hi(c, t)) == Preds(c.b, Met(c, f, cs, ce), t)
  {
    hide *;
    var g := Met(c, f, cs, ce);
    ThroughBucket(c, f0, f, cs, ce, t);
    ListFacts(c, g);
    PredsDistinct(c.b, g, t);
    PredWords(c, g, t);
    WordsSize(c.b);
    forall x | x in Class(Words(c.b), 256 * t + c.ss) ensures x in Preds(c.b, g, t) {
      ClassNext(c, t, x);
      PredsHave(c.b, g, t, x);
    }
    ClassBound(Words(c.b), 256 * t + c.ss, Preds(c.b, g, t));
    BucketSize(c, t);
    SliceSize(f, Lo(c, t), cs[t]);
    SliceSize(f, ce[t] + 1, Hi(c, t));
    SliceJoin(f, Lo(c, t), cs[t], Hi(c, t));
  }

  lemma WordsSize(b: seq<byte>)
    ensures |Words(b)| == |b|
  {
  }

  lemma ClassNext(c: Ctx, t: int, x: int)
    requires 0 <= t < 256 && x in Class(Words(c.b), 256 * t + c.ss)
    ensures 0 <= x < |c.b| && c.b[x] == t && c.b[Next(|c.b|, x)] == c.ss
  {
  }

  // ----- what both scans have done

  /** Entry p has the word it had; outside the open buckets it is what it was. */
  ghost predicate WordKept(c: Ctx, f0: seq<int>, f: seq<int>, p: int)
    requires |c.done| == 256
  {
    && 0 <= p < |f0| == |f| && 0 <= f0[p] < |c.b| && 0 <= f[p] < |c.b| && Word(c.b, f[p]) == Word(c.b, f0[p])
    && (c.b[Next(|c.b|, f0[p])] != c.ss || c.done[c.b[f0[p]]] ==> f[p] == f0[p])
  }

  /** The small buckets of ss are sorted, apart from those that were so before. */
  ghost predicate Induced(c: Ctx, f0: seq<int>, f: seq<int>) {
    && |c.done| == 256 && Homed(c.b, f) && |f| == |f0|
    && (forall p :: 0 <= p < |f| ==> WordKept(c, f0, f, p))
    && (forall t :: 0 <= t < 256 && !c.done[t] ==> BucketSorted(c, f, t))
  }

  ghost predicate BucketSorted(c: Ctx, f: seq<int>, t: int) {
    SortedBy(f, Ranks(c.b), Lo(c, t), Hi(c, t) - 1)
  }

  /** An entry of an open bucket, when the bucket is full. */
  lemma FullEntry(c: Ctx, f: seq<int>, g: seq<int>, t: int, p: int)
    requires List(c, g) && Positions(g, |c.b|) && 0 <= t < 256 && Lo(c, t) <= p < Hi(c, t) <= |f| == |c.b|
    requires Slice(f, Lo(c, t), Hi(c, t)) == Preds(c.b, g, t)
    ensures 0 <= f[p] < |c.b| && Word(c.b, f[p]) == 256 * t + c.ss
  {
    hide *;
    ListFacts(c, g);
    PredWords(c, g, t);
    WordsSize(c.b);
    SliceEntry(f, Lo(c, t), Hi(c, t), p);
    PositionsAt(Preds(c.b, g, t), |c.b|, p - Lo(c, t));
    WordsAt(c.b, f[p]);
  }

  lemma SliceEntry(f: seq<int>, a: int, z: int, p: int)
    requires 0 <= a <= p < z <= |f|
    ensures p - a < |Slice(f, a, z)| == z - a && Slice(f, a, z)[p - a] == f[p]
  {
  }

  lemma PositionsAt(g: seq<int>, n: nat, i: int)
    requires Positions(g, n) && 0 <= i < |g|
    ensures 0 <= g[i] < n
  {
  }

  lemma WordsAt(b: seq<byte>, x: int)
    requires 0 <= x < |b|
    ensures |Words(b)| == |b| && Words(b)[x] == Word(b, x)
  {
  }

  /** A full bucket is sorted and holds no entry twice. */
  lemma FullSorted(c: Ctx, f: seq<int>, g: seq<int>, t: int)
    requires List(c, g) && Positions(g, |c.b|) && 0 <= t < 256 && Lo(c, t) <= Hi(c, t) <= |f| == |c.b|
    requires Slice(f, Lo(c, t), Hi(c, t)) == Preds(c.b, g, t)
    ensures BucketSorted(c, f, t)
    ensures forall p, q :: Lo(c, t) <= p < q < Hi(c, t) ==> f[p] != f[q]
  {
    ListFacts(c, g);
    PredsAscend(c.b, g, t);
    PredsDistinct(c.b, g, t);
    hide Lo, Hi, Preds, List, Ranks;
    var a, z, h := Lo(c, t), Hi(c, t), Preds(c.b, g, t);
    forall p, q | a <= p < q < z ensures f[p] != f[q] && KeyLe(f, Ranks(c.b), p, q) {
      SliceEntry(f, a, z, p);
      SliceEntry(f, a, z, q);
      assert Differ(h, p - a, q - a) && LeAt(Ranks(c.b), h, p - a, q - a);
    }
  }

  /** Which case an entry falls under. */
  lemma FullWord(c: Ctx, f0: seq<int>, f: seq<int>, cs: seq<int>, ce: seq<int>, p: int)
    requires Through(c, f0, f, cs, ce) && |cs| == |ce| == |c.done| == 256 && 0 <= p < |f|
    requires forall x: nat :: x < |c.b| && c.b[x] == c.ss ==> x in Met(c, f, cs, ce)
    ensures WordKept(c, f0, f, p)
  {
    hide *;
    ThroughIs(c, f0, f, cs, ce);
    BackwardFacts(c, f0, f, cs, ce, ce[c.ss]);
    BackwardStill(c, f0, f, cs, ce, ce[c.ss], p);
    HomedAt(c.b, f0, p);
    StillOutside(c, f0, f, cs, ce, p);
    AtHomeEntry(c.b, f0, p);
    var t: int := c.b[f0[p]];
    if c.b[Next(|c.b|, f0[p])] == c.ss && !c.done[t] {
      OpenPlace(c, f0, p);
      ThroughBucket(c, f0, f, cs, ce, t);
      BucketFull(c, f0, f, cs, ce, t);
      FullEntry(c, f, Met(c, f, cs, ce), t, p);
    } else {
      assert f[p] == f0[p];
    }
    MakeWordKept(c, f0, f, p);
  }

  lemma AtHomeEntry(b: seq<byte>, f: seq<int>, p: int)
    requires AtHome(b, f, p)
    ensures 0 <= p < |f| && 0 <= f[p] < |b|
  {
  }

  lemma OpenPlace(c: Ctx, f0: seq<int>, p: int)
    requires AtHome(c.b, f0, p) && c.b[Next(|c.b|, f0[p])] == c.ss
    ensures var t: int := c.b[f0[p]]; Lo(c, t) <= p < Hi(c, t) && Word(c.b, f0[p]) == 256 * t + c.ss
  {
    var t: int := c.b[f0[p]];
    HomeWord(c.b, f0, p, 256 * t + c.ss);
  }

  lemma MakeWordKept(c: Ctx, f0: seq<int>, f: seq<int>, p: int)
    requires |c.done| == 256 && 0 <= p < |f0| == |f| && 0 <= f0[p] < |c.b| && 0 <= f[p] < |c.b|
    requires f[p] == f0[p] || (c.b[Next(|c.b|, f0[p])] == c.ss && !c.done[c.b[f0[p]]]
             && Word(c.b, f[p]) == Word(c.b, f0[p]))
    ensures WordKept(c, f0, f, p)
  {
  }

  lemma WordAtHome(c: Ctx, f0: seq<int>, f: seq<int>, p: int)
    requires |c.done| == 256 && AtHome(c.b, f0, p) && WordKept(c, f0, f, p)
    ensures AtHome(c.b, f, p)
  {
  }

  /** Two entries are different. */
  lemma FullDifferent(c: Ctx, f0: seq<int>, f: seq<int>, cs: seq<int>, ce: seq<int>, p: int, q: int)
    requires Through(c, f0, f, cs, ce) && |cs| == |ce| == |c.done| == 256 && 0 <= p < q < |f|
    requires forall x: nat :: x < |c.b| && c.b[x] == c.ss ==> x in Met(c, f, cs, ce)
    ensures f[p] != f[q]
  {
    hide *;
    ThroughIs(c, f0, f, cs, ce);
    BackwardFacts(c, f0, f, cs, ce, ce[c.ss]);
    FullWord(c, f0, f, cs, ce, p);
    FullWord(c, f0, f, cs, ce, q);
    HomedAt(c.b, f0, p);
    HomedAt(c.b, f0, q);
    AtHomeEntry(c.b, f0, p);
    AtHomeEntry(c.b, f0, q);
    PermOf(c.b, f0);
    PermDistinct(f0, |c.b|, p, q);
    KeptWord(c, f0, f, p);
    KeptWord(c, f0, f, q);
    if f[p] == f[q] {
      SameWordBytes(c.b, f0[p], f0[q]);
      var t: int := c.b[f0[p]];
      if c.b[Next(|c.b|, f0[p])] == c.ss && !c.done[t] {
        OpenPlace(c, f0, p);
        OpenPlace(c, f0, q);
        ThroughBucket(c, f0, f, cs, ce, t);
        BucketFull(c, f0, f, cs, ce, t);
        FullSorted(c, f, Met(c, f, cs, ce), t);
      }
    }
  }

  lemma KeptWord(c: Ctx, f0: seq<int>, f: seq<int>, p: int)
    requires |c.done| == 256 && WordKept(c, f0, f, p)
    ensures 0 <= p < |f0| == |f| && 0 <= f0[p] < |c.b| && 0 <= f[p] < |c.b| && Word(c.b, f[p]) == Word(c.b, f0[p])
    ensures c.b[Next(|c.b|, f0[p])] != c.ss || c.done[c.b[f0[p]]] ==> f[p] == f0[p]
  {
  }

  lemma SameWordBytes(b: seq<byte>, x: int, y: int)
    requires 0 <= x < |b| && 0 <= y < |b| && Word(b, x) == Word(b, y)
    ensures b[x] == b[y] && b[Next(|b|, x)] == b[Next(|b|, y)]
  {
  }

  /** All have been met. */
  lemma InducedFull(c: Ctx, f0: seq<int>, f: seq<int>, cs: seq<int>, ce: seq<int>)
    requires Through(c, f0, f, cs, ce) && |cs| == |ce| == |c.done| == 256
    requires forall x: nat :: x < |c.b| && c.b[x] == c.ss ==> x in Met(c, f, cs, ce)
    ensures Induced(c, f0, f)
  {
    hide *;
    ThroughIs(c, f0, f, cs, ce);
    BackwardFacts(c, f0, f, cs, ce, ce[c.ss]);
    forall p | 0 <= p < |f| ensures WordKept(c, f0, f, p) && AtHome(c.b, f, p) {
      FullWord(c, f0, f, cs, ce, p);
      HomedAt(c.b, f0, p);
      WordAtHome(c, f0, f, p);
    }
    forall t | 0 <= t < 256 && !c.done[t] ensures BucketSorted(c, f, t) {
      ThroughBucket(c, f0, f, cs, ce, t);
      BucketFull(c, f0, f, cs, ce, t);
      FullSorted(c, f, Met(c, f, cs, ce), t);
    }
    forall p, q | 0 <= p < q < |f| ensures f[p] != f[q] { FullDifferent(c, f0, f, cs, ce, p, q); }
    MakeInduced(c, f0, f);
  }

  lemma MakeInduced(c: Ctx, f0: seq<int>, f: seq<int>)
    requires |c.done| == 256 && |f| == |f0| == |c.b| && forall p, q :: 0 <= p < q < |f| ==> f[p] != f[q]
    requires forall p :: 0 <= p < |f| ==> WordKept(c, f0, f, p) && AtHome(c.b, f, p)
    requires forall t :: 0 <= t < 256 && !c.done[t] ==> BucketSorted(c, f, t)
    ensures Induced(c, f0, f)
  {
    hide BucketSorted, WordKept;
    forall p | 0 <= p < |f| ensures 0 <= f[p] < |c.b| { assert AtHome(c.b, f, p); }
    assert IsPerm(f, |c.b|) by { hide AtHome; }
  }

  /** None has been met, in a block of one byte only. */
  lemma InducedNone(c: Ctx, f0: seq<int>, f: seq<int>, cs: seq<int>, ce: seq<int>)
    requires Through(c, f0, f, cs, ce) && |cs| == |ce| == |c.done| == 256
    requires forall x: nat :: x < |c.b| ==> c.b[x] == c.ss && x !in Met(c, f, cs, ce)
    ensures Induced(c, f0, f) && cs[c.ss] == 0 && ce[c.ss] == |c.b| - 1
  {
    hide *;
    ThroughIs(c, f0, f, cs, ce);
    BackwardFacts(c, f0, f, cs, ce, ce[c.ss]);
    NoneMet(c, f0, f, cs, ce);
    forall t | 0 <= t < 256 && !c.done[t] ensures cs[t] == Lo(c, t) && ce[t] + 1 == Hi(c, t) {
      ThroughBucket(c, f0, f, cs, ce, t);
      EmptyPreds(c, t);
      SliceSize(f, Lo(c, t), cs[t]);
      SliceSize(f, ce[t] + 1, Hi(c, t));
    }
    forall p | 0 <= p < |f| ensures f[p] == f0[p] {
      BackwardStill(c, f0, f, cs, ce, ce[c.ss], p);
      HomedAt(c.b, f0, p);
      AtHomeEntry(c.b, f0, p);
      UntouchedEntry(c, f0, f, cs, ce, p);
    }
    assert f == f0;
    ProperNot(c);
    OneByteBounds(c);
    OneByteInduced(c, f0);
  }

  lemma NoneMet(c: Ctx, f0: seq<int>, f: seq<int>, cs: seq<int>, ce: seq<int>)
    requires Through(c, f0, f, cs, ce) && |cs| == |ce| == |c.done| == 256
    requires forall x: nat :: x < |c.b| ==> x !in Met(c, f, cs, ce)
    ensures Met(c, f, cs, ce) == []
  {
    hide *;
    ThroughBucket(c, f0, f, cs, ce, c.ss);
    var g := Met(c, f, cs, ce);
    assert g != [] ==> g[0] in g;
    if g != [] { PositionsAt(g, |c.b|, 0); }
  }

  lemma EmptyPreds(c: Ctx, t: int)
    ensures Positions([], |c.b|) && Preds(c.b, [], t) == []
  {
  }

  lemma UntouchedEntry(c: Ctx, f0: seq<int>, f: seq<int>, cs: seq<int>, ce: seq<int>, p: int)
    requires |c.done| == |cs| == |ce| == 256 && StillBoth(c, f0, f, cs, ce, p) && AtHome(c.b, f0, p)
    requires forall t :: 0 <= t < 256 && !c.done[t] ==> cs[t] == Lo(c, t) && ce[t] + 1 == Hi(c, t)
    ensures f[p] == f0[p]
  {
    hide Lo, Hi;
    if f[p] != f0[p] { OpenPlace(c, f0, p); }
  }

  lemma OneByteBounds(c: Ctx)
    requires forall x: nat :: x < |c.b| ==> c.b[x] == c.ss
    ensures Lo(c, c.ss) == 0 && Hi(c, c.ss) == |c.b|
  {
    var s: int, w := c.ss, Words(c.b);
    OneWord(w, 256 * s + s);
    hide CountLess;
  }

  lemma {:induction false} OneWord(w: seq<int>, s: int)
    requires forall i :: 0 <= i < |w| ==> w[i] == s
    ensures CountLess(w, s) == 0 && CountLess(w, s + 1) == |w|
  {
    if w != [] { OneWord(w[..|w| - 1], s); }
  }

  lemma OneByteInduced(c: Ctx, f: seq<int>)
    requires |c.done| == 256 && Homed(c.b, f) && forall x: nat :: x < |c.b| ==> c.b[x] == c.ss
    ensures Induced(c, f, f)
  {
    hide Lo, Hi, Ranks;
    forall p | 0 <= p < |f| ensures WordKept(c, f, f, p) { HomedAt(c.b, f, p); }
    forall t | 0 <= t < 256 && !c.done[t] ensures BucketSorted(c, f, t) {
      Bounds(c, t);
      forall p, q | Lo(c, t) <= p < q <= Hi(c, t) - 1 ensures KeyLe(f, Ranks(c.b), p, q) {
        HomedAt(c.b, f, p);
        HomedAt(c.b, f, q);
        OneByteEqual(c.b, f[p], f[q], |c.b|);
        RankOrder(c.b, f[p], f[q]);
      }
    }
  }

  lemma {:induction false} OneByteEqual(b: seq<byte>, x: nat, y: nat, h: nat)
    requires x < |b| && y < |b| && forall i, j :: 0 <= i < |b| && 0 <= j < |b| ==> b[i] == b[j]
    ensures Cmp(b, x, y, h) == 0
    decreases h
  {
    if h > 0 { OneByteEqual(b, Next(|b|, x), Next(|b|, y), h - 1); }
  }

  /** The two scans have sorted the small buckets of ss that were open, and left the others
      alone; assertion 1007 holds. */
  lemma ScansDone(c: Ctx, f0: seq<int>, f: seq<int>, cs: seq<int>, ce: seq<int>)
    requires Through(c, f0, f, cs, ce)
    ensures |cs| == |ce| == 256 && Induced(c, f0, f)
    ensures cs[c.ss] - 1 == ce[c.ss] || (cs[c.ss] == 0 && ce[c.ss] == |c.b| - 1)
  {
    hide *;
    ThroughIs(c, f0, f, cs, ce);
    BackwardFacts(c, f0, f, cs, ce, ce[c.ss]);
    ProperNot(c);
    AllOrNone(c, f0, f, cs, ce);
    if forall x: nat :: x < |c.b| && c.b[x] == c.ss ==> x in Met(c, f, cs, ce) {
      InducedFull(c, f0, f, cs, ce);
      BucketFull(c, f0, f, cs, ce, c.ss);
    } else {
      InducedNone(c, f0, f, cs, ce);
    }
  }
}
