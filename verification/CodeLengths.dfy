/** BZ2_hbMakeCodeLengths: the lengths of a Huffman code for given frequencies, none longer
    than a limit. */
module CodeLengths {
  import opened Counting
  import opened Heap
  import opened Forest
  import opened Optimal
  import opened BitStream
  import opened Huffman
  import opened Tables

  // ----- from depths to lengths

  /** The frequencies the trees are built for: zeroes count as one. */
  function Positive(freq: seq<nat>): (f: seq<nat>)
    ensures |f| == |freq| && forall i :: 0 <= i < |f| ==> f[i] == if freq[i] == 0 then 1 else freq[i]
  {
    seq(|freq|, i requires 0 <= i < |freq| => if freq[i] == 0 then 1 else freq[i])
  }

  lemma {:induction false} PositiveSum(freq: seq<nat>, k: nat)
    requires k <= |freq|
    ensures SumOf(Positive(freq), k) <= SumOf(freq, k) + k
  {
    if k > 0 { PositiveSum(freq, k - 1); }
  }

  /** What is done to frequencies when a code comes out too long. */
  function Scaled(f: seq<nat>): (g: seq<nat>)
    ensures |g| == |f| && forall i :: 0 <= i < |g| ==> g[i] == 1 + f[i] / 2
  {
    seq(|f|, i requires 0 <= i < |f| => 1 + f[i] / 2)
  }

  ghost predicate AllPositive(f: seq<nat>) { forall i :: 0 <= i < |f| ==> f[i] >= 1 }

  /** Scaling lowers the sum, unless all frequencies are 1 or 2. */
  lemma {:induction false} ScaledSum(f: seq<nat>, k: nat)
    requires k <= |f| && AllPositive(f)
    ensures SumOf(Scaled(f), k) <= SumOf(f, k)
    ensures SumOf(Scaled(f), k) < SumOf(f, k) || SumOf(f, k) <= 2 * k
  {
    if k > 0 { ScaledSum(f, k - 1); }
  }

  ghost predicate AreLengths(len: seq<byte>, d: seq<nat>) {
    |len| == |d| && forall i :: 0 <= i < |d| ==> len[i] == d[i]
  }

  lemma {:induction false} ShareIsKraft(len: seq<byte>, d: seq<nat>, hi: nat, k: nat)
    requires AreLengths(len, d) && k <= |d| && hi <= HEIGHT && forall i :: 0 <= i < |d| ==> d[i] <= hi
    ensures ShareOf(d, k) == Pow2(HEIGHT - hi) * KraftSum(len[..k], hi)
  {
    if k > 0 {
      ShareIsKraft(len, d, hi, k - 1);
      assert len[..k][..k - 1] == len[..k - 1];
      PowersJoin(HEIGHT - hi, hi - d[k - 1]);
      hide Pow2, KraftSum;
      Distribute(Pow2(HEIGHT - hi), KraftSum(len[..k - 1], hi), Pow2(hi - d[k - 1]));
      KraftMore(len[..k], hi);
    }
  }

  lemma KraftMore(len: seq<byte>, hi: nat)
    requires len != [] && forall i :: 0 <= i < |len| ==> len[i] <= hi
    ensures KraftSum(len, hi) == KraftSum(len[..|len| - 1], hi) + Pow2(hi - len[|len| - 1])
  {
  }

  lemma {:induction false} PowersJoin(m: nat, n: nat)
    ensures Pow2(m + n) == Pow2(m) * Pow2(n)
  {
    if m > 0 {
      PowersJoin(m - 1, n);
      Twice(Pow2(m - 1), Pow2(n));
    }
  }

  lemma Twice(a: nat, b: nat)
    ensures 2 * (a * b) == (2 * a) * b
  {
  }

  lemma Distribute(a: nat, b: nat, c: nat)
    ensures a * (b + c) == a * b + a * c
  {
  }

  lemma Bigger(a: nat, b: nat, c: nat)
    requires a >= 1 && b < c
    ensures a * b < a * c
  {
  }

  lemma SameFactor(a: nat, b: nat, c: nat)
    requires a >= 1 && a * b == a * c
    ensures b == c
  {
    if b < c { Bigger(a, b, c); } else if c < b { Bigger(a, c, b); }
  }

  /** The code is complete: its words are all there are. */
  ghost predicate Complete(len: seq<byte>) {
    GoodTable(len) && KraftSum(len, MaxLen(len)) == Pow2(MaxLen(len))
  }

  lemma KraftEquals(len: seq<byte>, d: seq<nat>, hi: nat)
    requires AreLengths(len, d) && ShareOf(d, |d|) == Pow2(HEIGHT) && hi <= HEIGHT
    requires forall i :: 0 <= i < |d| ==> d[i] <= hi && len[i] <= hi
    ensures KraftSum(len, hi) == Pow2(hi)
  {
    hide *;
    ShareIsKraft(len, d, hi, |d|);
    SameSize(len, d);
    assert len[..|d|] == len;
    PowersJoin(HEIGHT - hi, hi);
    PowerPositive(HEIGHT - hi);
    var a := Pow2(HEIGHT - hi);
    SameFactor(a, KraftSum(len, hi), Pow2(hi));
  }

  lemma SameSize(len: seq<byte>, d: seq<nat>)
    requires AreLengths(len, d)
    ensures |len| == |d|
  {
  }

  lemma PowerPositive(n: nat)
    ensures Pow2(n) >= 1
  {
  }

  lemma DepthsGood(len: seq<byte>, d: seq<nat>)
    requires AreLengths(len, d) && 2 <= |d| <= 258 && ShareOf(d, |d|) == Pow2(HEIGHT)
    requires forall i :: 0 <= i < |d| ==> d[i] <= 20
    ensures Complete(len) && forall i :: 0 <= i < |len| ==> len[i] >= 1
  {
    hide Pow2, ShareOf, KraftSum;
    forall i | 0 <= i < |d| ensures len[i] == d[i] && 1 <= len[i] { NotAlone(d, i); }
    var hi := MaxLen(len);
    assert MinLen(len) in len && hi in len;
    KraftEquals(len, d, hi);
  }

  // ----- the trees

  /** The nodes from 1 to k, each once. */
  ghost predicate UpTo(m: multiset<int>, k: nat) {
    |m| == k && forall r :: m[r] == if 1 <= r <= k then 1 else 0
  }

  lemma UpToMore(m: multiset<int>, k: nat)
    requires UpTo(m, k)
    ensures UpTo(m + multiset{k + 1}, k + 1)
  {
  }

  /** The leaves have their weights and are no one's children. */
  ghost predicate Leaves(f: seq<nat>, w: seq<int>) {
    && |f| <= 258 && |w| == 516 && w[0] == 0 && AllPositive(f)
    && forall i :: 0 <= i < |f| ==> w[i + 1] == 256 * f[i]
  }

  lemma LeafWeight(f: seq<nat>, w: seq<int>, i: nat)
    requires Leaves(f, w) && 1 <= i <= |f|
    ensures w[i] > 0 && |w| == 516
  {
    assert w[(i - 1) + 1] == 256 * f[i - 1];
  }

  lemma EmptyHeap(g: seq<int>, w: seq<int>)
    requires |g| >= 1 && g[0] == 0 && |w| >= 1 && w[0] == 0
    ensures IsHeap(g, w, 0) && UpTo(Held(g, 0), 0)
  {
    assert g[1..1] == [];
  }

  /** All leaves go on the heap. */
  method PushLeaves(heap: array<int>, weight: array<int>, parent: array<int>, ghost f: seq<nat>, alphaSize: nat)
    requires heap.Length == 260 && weight.Length == parent.Length == 516 && heap != weight && heap != parent
             && weight != parent
    requires alphaSize == |f| && Leaves(f, weight[..])
    modifies heap, parent
    ensures IsHeap(heap[..], weight[..], alphaSize) && UpTo(Held(heap[..], alphaSize), alphaSize)
    ensures forall k :: 1 <= k <= alphaSize ==> parent[k] == -1
  {
    hide IsHeap, Held, UpTo;
    ghost var w := weight[..];
    heap[0], parent[0] := 0, -2;
    EmptyHeap(heap[..], w);
    for i := 1 to alphaSize + 1
      invariant IsHeap(heap[..], w, i - 1) && UpTo(Held(heap[..], i - 1), i - 1) && weight[..] == w
      invariant forall k :: 1 <= k < i ==> parent[k] == -1
    {
      parent[i] := -1;
      LeafWeight(f, w, i);
      UpToMore(Held(heap[..], i - 1), i - 1);
      Push(heap, weight[..], i - 1, i);
    }
  }

  /** The state of the trees is that of the arrays. */
  ghost predicate Shows(s: Forest, heap: seq<int>, w: seq<int>, parent: seq<int>, n: nat, nNodes: nat) {
    && Ok(s) && s.w == w && s.parent == parent && s.top == nNodes
    && IsHeap(heap, w, n) && s.live == Held(heap, n) && |s.live| == n
  }

  lemma ShowsFacts(s: Forest, heap: seq<int>, w: seq<int>, parent: seq<int>, n: nat, nNodes: nat)
    requires Shows(s, heap, w, parent, n, nNodes)
    ensures Ok(s) && s.w == w && s.parent == parent && s.top == nNodes && |s.live| == n
    ensures IsHeap(heap, w, n) && s.live == Held(heap, n) && n < |heap|
    ensures |s.d| == |s.root| == |s.f| && |w| == |parent| == 516 && n + nNodes == 2 * |s.f| <= 516
  {
  }

  lemma MakeShows(s: Forest, heap: seq<int>, w: seq<int>, parent: seq<int>, n: nat, nNodes: nat)
    requires Ok(s) && s.w == w && s.parent == parent && s.top == nNodes && |s.live| == n
    requires IsHeap(heap, w, n) && s.live == Held(heap, n)
    ensures Shows(s, heap, w, parent, n, nNodes)
  {
  }

  /** The weights of the nodes on the heap are positive, and none is a new node. */
  lemma RootsKnown(s: Forest, r: int)
    requires Ok(s) && r in s.live
    ensures 1 <= r <= s.top
  {
    assert Live(s, r);
  }

  lemma NewWeight(s: Forest, heap: seq<int>, n: nat, n1: int, n2: int)
    requires n < |heap| && IsHeap(heap, s.w, n)
    requires Lightest(s, n1, n2) && s.live - multiset{n1} - multiset{n2} == Held(heap, n)
    requires |s.w| == 516 && s.top < 515 && 1 <= n1 <= s.top && 1 <= n2 <= s.top
    ensures IsHeap(heap, s.w[s.top + 1 := Added(s.w[n1], s.w[n2])], n) && Added(s.w[n1], s.w[n2]) > 0
  {
    LightestFacts(s, n1, n2);
    var w' := s.w[s.top + 1 := Added(s.w[n1], s.w[n2])];
    forall x | x in Held(heap, n) && 0 <= x < |s.w| ensures w'[x] == s.w[x] {
      assert x in s.live;
      RootsKnown(s, x);
    }
    AddedPositive(s.w[n1], s.w[n2], s.low);
    hide Added, Held, IsHeap, Lightest, Ok;
    OtherWeights(heap, s.w, w', n);
  }

  lemma AddedPositive(w1: int, w2: int, low: nat)
    requires Grown(w1, low) && Grown(w2, low)
    ensures Added(w1, w2) > 0
  {
    FibMonotone(0, Depth(w1));
    FibMonotone(0, Depth(w2));
  }

  /** One turn of the loop: the two lightest trees become one. */
  method MergeTwo(heap: array<int>, weight: array<int>, parent: array<int>, n: nat, nNodes: nat, ghost s: Forest)
    returns (ghost t: Forest)
    requires heap.Length == 260 && weight.Length == parent.Length == 516 && heap != weight && heap != parent
             && weight != parent
    requires Shows(s, heap[..], weight[..], parent[..], n, nNodes) && n > 1 && Beats(s)
    modifies heap, weight, parent
    ensures Shows(t, heap[..], weight[..], parent[..], n - 1, nNodes + 1) && t.f == s.f && Beats(t)
    ensures forall k :: 0 <= k <= nNodes ==> weight[k] == old(weight[k])
  {
    hide *;
    ghost var w, p := weight[..], parent[..];
    ShowsFacts(s, heap[..], w, p, n, nNodes);
    var n1 := PopLightest(heap, weight[..], n);
    var n2 := PopLightest(heap, weight[..], n - 1);
    TwoLightest(s, n1, n2);
    LightestFacts(s, n1, n2);
    MergedOk(s, n1, n2);
    JoinedBeats(s, n1, n2);
    t := Joined(s, n1, n2);
    NewWeight(s, heap[..], n - 2, n1, n2);
    MergedParts(s, n1, n2);
    WriteNode(weight, parent, n1, n2, nNodes + 1);
    Push(heap, weight[..], n - 2, nNodes + 1);
    WeightFits(t, nNodes + 1);
    assert weight[nNodes + 1] < 0x8000_0000;
    MakeShows(t, heap[..], weight[..], parent[..], n - 1, nNodes + 1);
  }

  /** The new node over n1 and n2. */
  method WriteNode(weight: array<int>, parent: array<int>, n1: int, n2: int, n: nat)
    requires weight.Length == parent.Length == 516 && weight != parent && 0 <= n1 < n < 516 && 0 <= n2 < n
    modifies weight, parent
    ensures weight[..] == old(weight[..])[n := Added(old(weight[n1]), old(weight[n2]))]
    ensures parent[..] == old(parent[..])[n1 := n][n2 := n][n := -1]
  {
    AddedIs(weight[n1], weight[n2]);
    hide Added;
    parent[n1], parent[n2] := n, n;
    weight[n] := (weight[n1] / 256 + weight[n2] / 256) * 256
                 + (1 + (if weight[n1] % 256 > weight[n2] % 256 then weight[n1] % 256 else weight[n2] % 256));
    parent[n] := -1;
  }

  /** A weight is far below 2^31. */
  lemma WeightFits(s: Forest, r: int)
    requires Ok(s) && r in s.live
    ensures 0 <= r < |s.w| && s.w[r] < 0x4000_0000
  {
    assert Live(s, r);
    UnderTotal(s.f, s.root, r, |s.f|);
    hide SumUnder, FreqUnder, Grown;
  }

  /** The low byte of the sum of the weights is free for the depth. */
  lemma AddedIs(w1: int, w2: int)
    ensures Added(w1, w2)
            == (w1 / 256 + w2 / 256) * 256 + (1 + (if w1 % 256 > w2 % 256 then w1 % 256 else w2 % 256))
  {
  }

  lemma TwoLightest(s: Forest, n1: int, n2: int)
    requires Ok(s) && n1 in s.live && n2 in s.live - multiset{n1}
    requires forall y :: y in s.live ==> 0 <= y < |s.w| && 0 <= n1 < |s.w| && s.w[n1] <= s.w[y]
    requires forall y :: y in s.live - multiset{n1} ==> 0 <= y < |s.w| && 0 <= n2 < |s.w| && s.w[n2] <= s.w[y]
    ensures Lightest(s, n1, n2)
  {
  }

  lemma MergedParts(s: Forest, n1: int, n2: int)
    requires |s.d| == |s.root| && |s.parent| == |s.w| == 516 && s.top < 515 && 0 <= n1 < 516 && 0 <= n2 < 516
    requires n1 in s.live && n2 in s.live - multiset{n1}
    ensures var t, n := Joined(s, n1, n2), s.top + 1;
            && t.f == s.f && t.w == s.w[n := Added(s.w[n1], s.w[n2])] && t.top == n
            && t.parent == s.parent[n1 := n][n2 := n][n := -1]
            && t.live == s.live - multiset{n1} - multiset{n2} + multiset{n} && |t.live| == |s.live| - 1
  {
    MergedCount(s.live, n1, n2, s.top + 1);
    hide Added;
  }

  /** The trees for given weights; in the end there is one. */
  method BuildTree(heap: array<int>, weight: array<int>, parent: array<int>, alphaSize: nat, ghost f: seq<nat>)
    returns (ghost s: Forest)
    requires heap.Length == 260 && weight.Length == parent.Length == 516 && heap != weight && heap != parent
             && weight != parent
    requires 1 <= alphaSize == |f| && Leaves(f, weight[..]) && SumOf(f, |f|) < 2178309
    modifies heap, weight, parent
    ensures Ok(s) && |s.live| == 1 && s.f == f && s.parent == parent[..] && Leaves(f, weight[..]) && Best(f, s.d)
  {
    hide *;
    LeavesFacts(f, weight[..]);
    PushLeaves(heap, weight, parent, f, alphaSize);
    var nNodes, nHeap := alphaSize, alphaSize;
    s := Start(f, parent[..], weight[..], Held(heap[..], alphaSize));
    StartShows(f, heap[..], weight[..], parent[..], alphaSize);
    while nHeap > 1
      invariant 1 <= nHeap && alphaSize <= nNodes && s.f == f && Beats(s)
      invariant Shows(s, heap[..], weight[..], parent[..], nHeap, nNodes)
      invariant forall k :: 0 <= k <= alphaSize ==> weight[k] == old(weight[k])
      decreases nHeap
    {
      s := MergeTwo(heap, weight, parent, nHeap, nNodes, s);
      nHeap, nNodes := nHeap - 1, nNodes + 1;
    }
    ShowsFacts(s, heap[..], weight[..], parent[..], nHeap, nNodes);
    LeavesKept(f, old(weight[..]), weight[..]);
    EndsBest(s);
  }

  lemma LeavesFacts(f: seq<nat>, w: seq<int>)
    requires Leaves(f, w)
    ensures |f| <= 258 && |w| == 516
  {
  }

  lemma LeavesKept(f: seq<nat>, w: seq<int>, w': seq<int>)
    requires Leaves(f, w) && |w'| == 516 && forall k :: 0 <= k <= |f| ==> w'[k] == w[k]
    ensures Leaves(f, w')
  {
  }

  lemma StartShows(f: seq<nat>, heap: seq<int>, w: seq<int>, parent: seq<int>, a: nat)
    requires 1 <= a == |f| && Leaves(f, w) && SumOf(f, |f|) < 2178309 && |parent| == 516 && a < |heap|
    requires IsHeap(heap, w, a) && UpTo(Held(heap, a), a) && forall k :: 1 <= k <= a ==> parent[k] == -1
    ensures Start(f, parent, w, Held(heap, a)).f == f && Beats(Start(f, parent, w, Held(heap, a)))
    ensures Shows(Start(f, parent, w, Held(heap, a)), heap, w, parent, a, a)
  {
    hide Beats;
    StartOk(f, parent, w, Held(heap, a));
    StartBeats(f, parent, w, Held(heap, a));
  }

  // ----- the lengths

  lemma {:induction false} PathStep(parent: seq<int>, top: nat, k: int, d: nat, r: int)
    requires Path(parent, top, k, d, r)
    ensures 1 <= k <= top < |parent| && (d == 0 ==> k == r)
    ensures d > 0 ==> parent[k] > 0 && Path(parent, top, parent[k], d - 1, r)
  {
  }

  /** The way up from a leaf in the one tree there is. */
  lemma LeafWay(s: Forest, i: nat)
    requires Ok(s) && i < |s.f|
    ensures |s.d| == |s.root| == |s.f| && |s.parent| == 516 && 0 <= s.root[i] < 516 && s.parent[s.root[i]] == -1
    ensures Path(s.parent, s.top, i + 1, s.d[i], s.root[i]) && s.d[i] < 30
  {
    LeafShallow(s, i);
    hide Path;
  }

  /** The number of steps from a leaf to the root. */
  method CountUp(parent: seq<int>, i: nat, ghost s: Forest) returns (j: nat)
    requires Ok(s) && s.parent == parent && 1 <= i <= |s.f| && |s.d| == |s.f|
    ensures j == s.d[i - 1] < 30
  {
    hide *;
    LeafWay(s, i - 1);
    ghost var r := s.root[i - 1];
    j := 0;
    var k: int := i;
    PathStep(parent, s.top, k, s.d[i - 1], r);
    while parent[k] >= 0
      invariant j <= s.d[i - 1] && Path(parent, s.top, k, s.d[i - 1] - j, r) && 0 <= k < |parent|
      invariant s.d[i - 1] == j ==> k == r
      decreases s.d[i - 1] - j
    {
      PathStep(parent, s.top, k, s.d[i - 1] - j, r);
      k := parent[k];
      j := j + 1;
      PathStep(parent, s.top, k, s.d[i - 1] - j, r);
    }
    PathStep(parent, s.top, k, s.d[i - 1] - j, r);
  }

  /** Writes the lengths, and finds out if one is over the limit. */
  method ReadLengths(parent: seq<int>, len: array<byte>, maxLen: nat, ghost s: Forest) returns (tooLong: bool)
    requires Ok(s) && s.parent == parent && len.Length == |s.f| == |s.d|
    modifies len
    ensures AreLengths(len[..], s.d) && (tooLong <==> exists i :: 0 <= i < |s.d| && s.d[i] > maxLen)
  {
    hide Ok;
    tooLong := false;
    for i := 1 to len.Length + 1
      invariant forall k :: 0 <= k < i - 1 ==> len[k] == s.d[k]
      invariant tooLong <==> exists k :: 0 <= k < i - 1 && s.d[k] > maxLen
    {
      var j := CountUp(parent, i, s);
      len[i - 1] := j;
      if j > maxLen { tooLong := true; }
    }
  }

  /** Scales the weights of the leaves, and with them the frequencies. */
  method ScaleWeights(weight: array<int>, alphaSize: nat, ghost f: seq<nat>)
    requires alphaSize == |f| && Leaves(f, weight[..])
    modifies weight
    ensures Leaves(Scaled(f), weight[..])
  {
    ghost var w := weight[..];
    for i := 1 to alphaSize + 1
      invariant weight.Length == 516 && weight[0] == 0
      invariant forall k :: 0 <= k < i - 1 ==> weight[k + 1] == 256 * (1 + f[k] / 2)
      invariant forall k :: i - 1 <= k < alphaSize ==> weight[k + 1] == 256 * f[k]
    {
      assert weight[(i - 1) + 1] == 256 * f[i - 1];
      var j := weight[i] / 256;
      j := 1 + j / 2;
      weight[i] := j * 256;
    }
  }

  /** The leaves begin with the frequencies as their weights. */
  method FirstWeights(weight: array<int>, freq: seq<nat>, alphaSize: nat)
    requires weight.Length == 516 && |freq| == alphaSize <= 258
    modifies weight
    ensures Leaves(Positive(freq), weight[..])
  {
    weight[0] := 0;
    for i := 0 to alphaSize
      invariant weight[0] == 0 && forall k :: 0 <= k < i ==> weight[k + 1] == 256 * Positive(freq)[k]
    {
      weight[i + 1] := (if freq[i] == 0 then 1 else freq[i]) * 256;
    }
  }

  /** A code that is too long has a great frequency, and scaling lowers the sum. */
  lemma TooLongScales(s: Forest, w: seq<int>, maxLen: nat)
    requires Ok(s) && |s.live| == 1 && Leaves(s.f, w) && maxLen >= 12
    requires |s.d| == |s.f| && exists i :: 0 <= i < |s.d| && s.d[i] > maxLen
    ensures |Scaled(s.f)| == |s.f| && SumOf(Scaled(s.f), |s.f|) < SumOf(s.f, |s.f|)
  {
    EndsWell(s);
    ScaledSum(s.f, |s.f|);
    hide Ok, SumOf;
  }

  lemma ShortEnough(s: Forest, len: seq<byte>, maxLen: nat)
    requires Ok(s) && |s.live| == 1 && |s.f| >= 2 && maxLen <= 20
    requires AreLengths(len, s.d) && forall i :: 0 <= i < |s.d| ==> s.d[i] <= maxLen
    ensures Complete(len) && |len| == |s.f| && forall i :: 0 <= i < |len| ==> 1 <= len[i] <= maxLen
  {
    EndsWell(s);
    assert |s.f| <= 258;
    hide Ok;
    DepthsGood(len, s.d);
  }

  /** Frequencies scaled n times over. */
  function Times(f: seq<nat>, n: nat): (g: seq<nat>)
    ensures |g| == |f|
  {
    if n == 0 then f else Scaled(Times(f, n - 1))
  }

  function Depths(len: seq<byte>): (d: seq<nat>)
    ensures AreLengths(len, d)
  {
    seq(|len|, i requires 0 <= i < |len| => len[i] as nat)
  }

  /** For frequencies f a best code has a length over the limit. */
  ghost predicate TooLong(f: seq<nat>, maxLen: nat) {
    exists d :: Best(f, d) && exists i :: 0 <= i < |d| && d[i] > maxLen
  }

  ghost predicate AllTooLong(f: seq<nat>, rounds: nat, maxLen: nat) {
    forall j :: 0 <= j < rounds ==> TooLong(Times(f, j), maxLen)
  }

  lemma OneRoundMore(f: seq<nat>, rounds: nat, maxLen: nat, d: seq<nat>)
    requires AllTooLong(f, rounds, maxLen) && Best(Times(f, rounds), d) && exists i :: 0 <= i < |d| && d[i] > maxLen
    ensures AllTooLong(f, rounds + 1, maxLen) && Times(f, rounds + 1) == Scaled(Times(f, rounds))
  {
    hide Best, Scaled;
  }

  lemma NoRounds(f: seq<nat>, maxLen: nat)
    ensures AllTooLong(f, 0, maxLen) && Times(f, 0) == f
  {
  }

  lemma DepthsAre(len: seq<byte>, d: seq<nat>)
    requires AreLengths(len, d)
    ensures Depths(len) == d
  {
  }

  /** BZ2_hbMakeCodeLengths. For any frequencies the loop ends, with a complete code of which no
      length is 0 or over the limit; and no prefix code takes fewer bits for the frequencies it
      was made for, which are those given, zeroes counted as one, scaled as often as a best code
      came out too long. */
  method MakeCodeLengths(len: array<byte>, freq: seq<nat>, alphaSize: nat, maxLen: nat) returns (ghost rounds: nat)
    requires 2 <= alphaSize <= 258 && len.Length == |freq| == alphaSize && SumOf(freq, alphaSize) <= 900001
    requires 12 <= maxLen <= 20
    modifies len
    ensures Complete(len[..]) && forall i :: 0 <= i < alphaSize ==> 1 <= len[i] <= maxLen
    ensures Best(Times(Positive(freq), rounds), Depths(len[..])) && AllTooLong(Positive(freq), rounds, maxLen)
  {
    hide *;
    var heap, weight, parent := new int[260], new int[516], new int[516];
    ghost var f := Positive(freq);
    PositiveSum(freq, alphaSize);
    FirstWeights(weight, freq, alphaSize);
    rounds := 0;
    NoRounds(f, maxLen);
    while true
      invariant |f| == alphaSize && Leaves(f, weight[..]) && SumOf(f, alphaSize) < 2178309
      invariant f == Times(Positive(freq), rounds) && AllTooLong(Positive(freq), rounds, maxLen)
      invariant fresh(heap) && fresh(weight) && fresh(parent)
      decreases SumOf(f, alphaSize)
    {
      ghost var s := BuildTree(heap, weight, parent, alphaSize, f);
      OneDepthEach(s);
      var tooLong := ReadLengths(parent[..], len, maxLen, s);
      if !tooLong {
        ShortEnough(s, len[..], maxLen);
        DepthsAre(len[..], s.d);
        break;
      }
      OneRoundMore(Positive(freq), rounds, maxLen, s.d);
      TooLongScales(s, weight[..], maxLen);
      ScaleWeights(weight, alphaSize, f);
      f := Scaled(f);
      rounds := rounds + 1;
    }
  }

  lemma OneDepthEach(s: Forest)
    requires Ok(s)
    ensures |s.d| == |s.f|
  {
  }
}
