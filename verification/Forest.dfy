/** The trees that BZ2_hbMakeCodeLengths builds: where every leaf is, what it weighs, and why
    no leaf gets deep. */
module Forest {
  import B = BitStream

  /** No depth comes near this. */
  const HEIGHT: nat := 255

  /** The nodes made so far are those up to top. Leaf i is node i + 1, of frequency f[i]; it
      lies d[i] below the root of its tree. No live root is of less frequency than low. */
  datatype Forest = Forest(f: seq<nat>, d: seq<nat>, root: seq<int>, parent: seq<int>, w: seq<int>,
                           live: multiset<int>, top: nat, low: nat)

  // ----- sums over the leaves of a tree

  function Share(x: nat): nat { if x <= HEIGHT then B.Pow2(HEIGHT - x) else 0 }

  function SumUnder(d: seq<nat>, root: seq<int>, r: int, k: nat): nat
    requires k <= |d| == |root|
  {
    if k == 0 then 0 else SumUnder(d, root, r, k - 1) + if root[k - 1] == r then Share(d[k - 1]) else 0
  }

  function FreqUnder(f: seq<nat>, root: seq<int>, r: int, k: nat): nat
    requires k <= |f| == |root|
  {
    if k == 0 then 0 else FreqUnder(f, root, r, k - 1) + if root[k - 1] == r then f[k - 1] else 0
  }

  function SumOf(f: seq<nat>, k: nat): nat
    requires k <= |f|
  {
    if k == 0 then 0 else SumOf(f, k - 1) + f[k - 1]
  }

  lemma {:induction false} UnderTotal(f: seq<nat>, root: seq<int>, r: int, k: nat)
    requires k <= |f| == |root|
    ensures FreqUnder(f, root, r, k) <= SumOf(f, k)
  {
    if k > 0 { UnderTotal(f, root, r, k - 1); }
  }

  // ----- weights

  /** 1, 2, 3, 5, 8, ... */
  function Fib(n: nat): nat {
    if n == 0 then 1 else if n == 1 then 2 else Fib(n - 1) + Fib(n - 2)
  }

  lemma {:induction false} FibMonotone(m: nat, n: nat)
    requires m <= n
    ensures 1 <= Fib(m) <= Fib(n)
  {
    if n > 1 && m < n {
      FibMonotone(m, n - 1);
      FibMonotone(0, n - 2);
    } else if m == n && n > 1 {
      FibMonotone(0, n - 1);
    }
  }

  /** The low byte of a weight is a depth, the rest a frequency. */
  function Freq(w: int): int { w / 256 }

  function Depth(w: int): nat { w % 256 }

  /** A tree of some depth has a great frequency, and all the frequency of its deeper half
      came off the heap before the trees that are live now. */
  ghost predicate Grown(w: int, low: nat) {
    && Fib(Depth(w)) <= Freq(w) && low <= Freq(w)
    && (Depth(w) >= 1 ==> Fib(Depth(w) - 1) <= low)
  }

  function Max(a: nat, b: nat): nat { if a > b then a else b }

  /** ADDWEIGHTS */
  function Added(w1: int, w2: int): int {
    256 * (Freq(w1) + Freq(w2)) + (1 + Max(Depth(w1), Depth(w2)))
  }

  lemma AddedParts(w1: int, w2: int)
    requires Max(Depth(w1), Depth(w2)) < 255
    ensures Freq(Added(w1, w2)) == Freq(w1) + Freq(w2)
    ensures Depth(Added(w1, w2)) == 1 + Max(Depth(w1), Depth(w2))
  {
  }

  lemma FreqOrder(w1: int, w2: int)
    requires w1 <= w2
    ensures Freq(w1) <= Freq(w2)
  {
  }

  lemma AddedGrown(w1: int, w2: int, low: nat)
    requires Grown(w1, low) && Grown(w2, low) && w1 <= w2 && Max(Depth(w1), Depth(w2)) < 255
    ensures Freq(w2) >= low && Grown(Added(w1, w2), Freq(w2))
  {
    AddedParts(w1, w2);
    FreqOrder(w1, w2);
    var x := if Depth(w1) > Depth(w2) then w1 else w2;
    var z := if Depth(w1) > Depth(w2) then w2 else w1;
    hide Freq, Depth, Added;
    FibMonotone(0, Depth(z));
    if Depth(x) >= 1 { assert Fib(Depth(x) + 1) == Fib(Depth(x)) + Fib(Depth(x) - 1); }
  }

  lemma LowRises(w: int, low: nat, low': nat)
    requires Grown(w, low) && low <= low' <= Freq(w)
    ensures Grown(w, low')
  {
  }

  /** Depths below 30 for as many symbols as a block can have, and below 13 for 258 leaves of
      frequency 1 or 2. */
  lemma DepthBound(w: int, low: nat)
    requires Grown(w, low)
    ensures Freq(w) < 2178309 ==> Depth(w) < 30
    ensures Freq(w) <= 516 ==> Depth(w) <= 12
  {
    FibValues();
    hide Freq, Depth;
    if Depth(w) >= 30 { FibMonotone(30, Depth(w)); }
    if Depth(w) >= 13 { FibMonotone(13, Depth(w)); }
  }

  lemma FibValues()
    ensures Fib(13) == 610 && Fib(30) == 2178309
  {
    assert Fib(6) == 21 && Fib(7) == 34;
    assert Fib(12) == 377 && Fib(13) == 610 by {
      assert Fib(8) == 55 && Fib(9) == 89 && Fib(10) == 144 && Fib(11) == 233;
    }
    assert Fib(18) == 6765 && Fib(19) == 10946 by {
      assert Fib(14) == 987 && Fib(15) == 1597 && Fib(16) == 2584 && Fib(17) == 4181;
    }
    assert Fib(24) == 121393 && Fib(25) == 196418 by {
      assert Fib(20) == 17711 && Fib(21) == 28657 && Fib(22) == 46368 && Fib(23) == 75025;
    }
    assert Fib(26) == 317811 && Fib(27) == 514229 && Fib(28) == 832040 && Fib(29) == 1346269;
  }

  // ----- ways up

  /** d steps up from node k lead to r, through nodes up to top. */
  ghost predicate Path(parent: seq<int>, top: nat, k: int, d: nat, r: int)
    decreases d
  {
    && 1 <= k <= top < |parent|
    && if d == 0 then k == r else parent[k] > 0 && Path(parent, top, parent[k], d - 1, r)
  }

  lemma {:induction false} PathKept(parent: seq<int>, parent': seq<int>, top: nat, k: int, d: nat, r: int)
    requires Path(parent, top, k, d, r) && |parent'| == |parent| > top + 1
    requires forall x :: 1 <= x <= top && parent[x] > 0 ==> parent'[x] == parent[x]
    ensures Path(parent', top + 1, k, d, r)
    decreases d
  {
    if d > 0 { PathKept(parent, parent', top, parent[k], d - 1, r); }
  }

  lemma {:induction false} PathMore(parent: seq<int>, top: nat, k: int, d: nat, r: int, n: int)
    requires Path(parent, top, k, d, r) && 1 <= r <= top < |parent| && parent[r] == n && 1 <= n <= top
    ensures Path(parent, top, k, d + 1, n)
    decreases d
  {
    if d > 0 { PathMore(parent, top, parent[k], d - 1, r, n); }
  }

  // ----- the state

  ghost predicate Live(s: Forest, r: int)
    requires |s.d| == |s.root| == |s.f| && |s.parent| == |s.w| == 516 && s.top < 516
  {
    && s.live[r] == 1 && 1 <= r <= s.top && s.parent[r] == -1
    && SumUnder(s.d, s.root, r, |s.f|) == B.Pow2(HEIGHT)
    && Freq(s.w[r]) == FreqUnder(s.f, s.root, r, |s.f|) && Grown(s.w[r], s.low)
  }

  ghost predicate Leaf(s: Forest, i: nat)
    requires |s.d| == |s.root| == |s.f| && |s.parent| == |s.w| == 516 && s.top < 516 && i < |s.f|
  {
    && s.root[i] in s.live && 0 <= s.root[i] <= s.top && s.f[i] >= 1
    && s.d[i] <= Depth(s.w[s.root[i]]) && Path(s.parent, s.top, i + 1, s.d[i], s.root[i])
  }

  ghost predicate Ok(s: Forest) {
    && 1 <= |s.f| <= 258 && |s.d| == |s.root| == |s.f| && |s.parent| == |s.w| == 516
    && |s.f| <= s.top < 2 * |s.f| && |s.live| + s.top == 2 * |s.f| && s.w[0] == 0
    && SumOf(s.f, |s.f|) < 2178309
    && (forall r :: r in s.live ==> Live(s, r))
    && (forall i :: 0 <= i < |s.f| ==> Leaf(s, i))
  }

  // ----- the beginning

  /** Every leaf is a tree. */
  ghost function Start(f: seq<nat>, parent: seq<int>, w: seq<int>, live: multiset<int>): Forest {
    Forest(f, seq(|f|, _ => 0), seq(|f|, i => i + 1), parent, w, live, |f|, 1)
  }

  lemma {:induction false} AloneUnder(d: seq<nat>, f: seq<nat>, root: seq<int>, r: int, k: nat)
    requires k <= |d| == |f| == |root| && 1 <= r <= |f|
    requires forall i :: 0 <= i < |d| ==> d[i] == 0 && root[i] == i + 1
    ensures SumUnder(d, root, r, k) == if r <= k then Share(0) else 0
    ensures FreqUnder(f, root, r, k) == if r <= k then f[r - 1] else 0
  {
    hide Share;
    if k > 0 { AloneUnder(d, f, root, r, k - 1); }
  }

  lemma StartOk(f: seq<nat>, parent: seq<int>, w: seq<int>, live: multiset<int>)
    requires 1 <= |f| <= 258 && |parent| == |w| == 516 && w[0] == 0 && SumOf(f, |f|) < 2178309
    requires |live| == |f| && forall r :: live[r] == if 1 <= r <= |f| then 1 else 0
    requires forall i :: 0 <= i < |f| ==> f[i] >= 1 && w[i + 1] == 256 * f[i] && parent[i + 1] == -1
    ensures Ok(Start(f, parent, w, live))
  {
    var s := Start(f, parent, w, live);
    forall r | r in live ensures Live(s, r) {
      AloneUnder(s.d, f, s.root, r, |f|);
      assert w[(r - 1) + 1] == 256 * f[r - 1];
      LeafGrown(f[r - 1]);
    }
    forall i | 0 <= i < |f| ensures Leaf(s, i) { assert live[i + 1] == 1; }
  }

  lemma LeafGrown(x: nat)
    requires x >= 1
    ensures Grown(256 * x, 1) && Freq(256 * x) == x && Depth(256 * x) == 0
  {
  }

  // ----- two trees become one

  function Deeper(d: seq<nat>, root: seq<int>, n1: int, n2: int): (r: seq<nat>)
    requires |d| == |root|
    ensures |r| == |d| && forall i :: 0 <= i < |d| ==> r[i] == if root[i] == n1 || root[i] == n2 then d[i] + 1 else d[i]
  {
    seq(|d|, i requires 0 <= i < |d| => if root[i] == n1 || root[i] == n2 then d[i] + 1 else d[i])
  }

  function NewRoot(root: seq<int>, n1: int, n2: int, n: int): (r: seq<int>)
    ensures |r| == |root| && forall i :: 0 <= i < |r| ==> r[i] == if root[i] == n1 || root[i] == n2 then n else root[i]
  {
    seq(|root|, i requires 0 <= i < |root| => if root[i] == n1 || root[i] == n2 then n else root[i])
  }

  ghost function Joined(s: Forest, n1: int, n2: int): Forest
    requires |s.d| == |s.root| && |s.parent| == |s.w| == 516 && s.top < 515
    requires 0 <= n1 < 516 && 0 <= n2 < 516
  {
    var n := s.top + 1;
    Forest(s.f, Deeper(s.d, s.root, n1, n2), NewRoot(s.root, n1, n2, n), s.parent[n1 := n][n2 := n][n := -1],
           s.w[n := Added(s.w[n1], s.w[n2])], s.live - multiset{n1} - multiset{n2} + multiset{n}, n,
           if Freq(s.w[n2]) >= 0 then Freq(s.w[n2]) else 0)
  }

  lemma ShareHalves(x: nat)
    requires x < HEIGHT
    ensures Share(x) == 2 * Share(x + 1)
  {
  }

  lemma {:induction false} MergedSum(d: seq<nat>, root: seq<int>, n1: int, n2: int, n: int, k: nat)
    requires k <= |d| == |root| && n1 != n2
    requires forall i :: 0 <= i < |d| ==> d[i] < HEIGHT && root[i] != n
    ensures 2 * SumUnder(Deeper(d, root, n1, n2), NewRoot(root, n1, n2, n), n, k)
            == SumUnder(d, root, n1, k) + SumUnder(d, root, n2, k)
  {
    if k > 0 {
      MergedSum(d, root, n1, n2, n, k - 1);
      ShareHalves(d[k - 1]);
      hide Share;
    }
  }

  lemma {:induction false} MergedFreq(f: seq<nat>, root: seq<int>, n1: int, n2: int, n: int, k: nat)
    requires k <= |f| == |root| && n1 != n2 && forall i :: 0 <= i < |f| ==> root[i] != n
    ensures FreqUnder(f, NewRoot(root, n1, n2, n), n, k) == FreqUnder(f, root, n1, k) + FreqUnder(f, root, n2, k)
  {
    if k > 0 { MergedFreq(f, root, n1, n2, n, k - 1); }
  }

  lemma {:induction false} OtherSum(d: seq<nat>, f: seq<nat>, root: seq<int>, n1: int, n2: int, n: int, r: int, k: nat)
    requires k <= |d| == |f| == |root| && r != n && r != n1 && r != n2
    ensures SumUnder(Deeper(d, root, n1, n2), NewRoot(root, n1, n2, n), r, k) == SumUnder(d, root, r, k)
    ensures FreqUnder(f, NewRoot(root, n1, n2, n), r, k) == FreqUnder(f, root, r, k)
  {
    if k > 0 { OtherSum(d, f, root, n1, n2, n, r, k - 1); }
  }

  /** The two lightest roots, n1 first. */
  ghost predicate Lightest(s: Forest, n1: int, n2: int) {
    && Ok(s) && n1 in s.live && n2 in s.live - multiset{n1}
    && (forall r :: r in s.live ==> 0 <= r < 516 && 0 <= n1 < 516 && s.w[n1] <= s.w[r])
    && (forall r :: r in s.live - multiset{n1} ==> 0 <= r < 516 && 0 <= n2 < 516 && s.w[n2] <= s.w[r])
  }

  lemma LightestFacts(s: Forest, n1: int, n2: int)
    requires Lightest(s, n1, n2)
    ensures |s.d| == |s.root| == |s.f| && |s.parent| == |s.w| == 516 && s.top + 1 < 2 * |s.f| <= 516 && Ok(s)
    ensures n1 != n2 && n2 in s.live && Live(s, n1) && Live(s, n2) && 1 <= n1 <= s.top && 1 <= n2 <= s.top
    ensures s.w[n1] <= s.w[n2] && Depth(s.w[n1]) < 30 && Depth(s.w[n2]) < 30
  {
    assert s.live == (s.live - multiset{n1} - multiset{n2}) + multiset{n1} + multiset{n2};
    assert Live(s, n1) && Live(s, n2);
    UnderTotal(s.f, s.root, n1, |s.f|);
    UnderTotal(s.f, s.root, n2, |s.f|);
    DepthBound(s.w[n1], s.low);
    DepthBound(s.w[n2], s.low);
  }

  lemma LeafShallow(s: Forest, i: nat)
    requires Ok(s) && i < |s.f|
    ensures s.d[i] < 30 && s.root[i] in s.live && Live(s, s.root[i]) && Leaf(s, i)
  {
    assert Leaf(s, i) && Live(s, s.root[i]);
    UnderTotal(s.f, s.root, s.root[i], |s.f|);
    DepthBound(s.w[s.root[i]], s.low);
  }

  lemma MergedNew(s: Forest, n1: int, n2: int)
    requires Lightest(s, n1, n2)
    ensures |s.d| == |s.root| == |s.f| && |s.parent| == |s.w| == 516 && s.top + 1 < 2 * |s.f| <= 516
    ensures 0 <= n1 < 516 && 0 <= n2 < 516 && Live(Joined(s, n1, n2), s.top + 1)
  {
    LightestFacts(s, n1, n2);
    var n := s.top + 1;
    forall i | 0 <= i < |s.d| ensures s.d[i] < HEIGHT && s.root[i] != n { LeafShallow(s, i); }
    MergedSum(s.d, s.root, n1, n2, n, |s.f|);
    MergedFreq(s.f, s.root, n1, n2, n, |s.f|);
    AddedParts(s.w[n1], s.w[n2]);
    AddedGrown(s.w[n1], s.w[n2], s.low);
    assert n !in s.live;
    hide SumUnder, FreqUnder, Added, Grown, Freq, Depth;
  }

  lemma MergedOther(s: Forest, n1: int, n2: int, r: int)
    requires Lightest(s, n1, n2) && r in s.live && r != n1 && r != n2
    ensures |s.d| == |s.root| == |s.f| && |s.parent| == |s.w| == 516 && s.top + 1 < 2 * |s.f| <= 516
    ensures 0 <= n1 < 516 && 0 <= n2 < 516 && Live(Joined(s, n1, n2), r)
  {
    LightestFacts(s, n1, n2);
    assert Live(s, r) && r in s.live - multiset{n1};
    OtherSum(s.d, s.f, s.root, n1, n2, s.top + 1, r, |s.f|);
    FreqOrder(s.w[n2], s.w[r]);
    AddedGrown(s.w[n1], s.w[n2], s.low);
    LowRises(s.w[r], s.low, Freq(s.w[n2]));
    hide SumUnder, FreqUnder, Added, Grown, Freq, Depth;
  }

  /** The ways up lead on to the new root. */
  lemma MergedPath(s: Forest, n1: int, n2: int, i: nat)
    requires Lightest(s, n1, n2) && i < |s.f|
    ensures |s.d| == |s.root| == |s.f| && |s.parent| == |s.w| == 516 && s.top + 1 < 2 * |s.f| <= 516
    ensures 0 <= n1 < 516 && 0 <= n2 < 516
    ensures var t := Joined(s, n1, n2);
            |t.d| == |t.root| == |s.f| && Path(t.parent, s.top + 1, i + 1, t.d[i], t.root[i])
  {
    hide *;
    LightestFacts(s, n1, n2);
    LiveFacts(s, n1);
    LiveFacts(s, n2);
    LeafPath(s, i);
    MergedParents(s.parent, n1, n2, s.top + 1);
    MergedFields(s, n1, n2, i);
    var t, n := Joined(s, n1, n2), s.top + 1;
    PathKept(s.parent, t.parent, s.top, i + 1, s.d[i], s.root[i]);
    if s.root[i] == n1 || s.root[i] == n2 { PathMore(t.parent, n, i + 1, s.d[i], s.root[i], n); }
  }

  lemma LiveFacts(s: Forest, r: int)
    requires |s.d| == |s.root| == |s.f| && |s.parent| == |s.w| == 516 && s.top < 516 && Live(s, r)
    ensures s.live[r] == 1 && 1 <= r <= s.top && s.parent[r] == -1
  {
    hide SumUnder, FreqUnder, Grown, Freq;
  }

  lemma LeafPath(s: Forest, i: nat)
    requires Ok(s) && i < |s.f|
    ensures |s.d| == |s.root| == |s.f| && Path(s.parent, s.top, i + 1, s.d[i], s.root[i])
  {
    hide Live, Path;
    assert Leaf(s, i);
  }

  lemma MergedFields(s: Forest, n1: int, n2: int, i: nat)
    requires |s.d| == |s.root| == |s.f| && |s.parent| == |s.w| == 516 && s.top < 515
    requires 0 <= n1 < 516 && 0 <= n2 < 516 && i < |s.f|
    ensures var t, n := Joined(s, n1, n2), s.top + 1;
            && t.parent == s.parent[n1 := n][n2 := n][n := -1] && |t.d| == |t.root| == |s.f|
            && t.d[i] == (if s.root[i] == n1 || s.root[i] == n2 then s.d[i] + 1 else s.d[i])
            && t.root[i] == (if s.root[i] == n1 || s.root[i] == n2 then n else s.root[i])
  {
  }

  lemma MergedParents(parent: seq<int>, n1: int, n2: int, n: int)
    requires |parent| == 516 && 1 <= n1 < n < 516 && 1 <= n2 < n && parent[n1] == -1 && parent[n2] == -1
    ensures var p := parent[n1 := n][n2 := n][n := -1];
            p[n1] == n && p[n2] == n && forall x :: 1 <= x < n && parent[x] > 0 ==> p[x] == parent[x]
  {
  }

  lemma MergedLeaf(s: Forest, n1: int, n2: int, i: nat)
    requires Lightest(s, n1, n2) && i < |s.f|
    ensures |s.d| == |s.root| == |s.f| && |s.parent| == |s.w| == 516 && s.top + 1 < 2 * |s.f| <= 516
    ensures 0 <= n1 < 516 && 0 <= n2 < 516 && Leaf(Joined(s, n1, n2), i)
  {
    hide *;
    LightestFacts(s, n1, n2);
    LiveFacts(s, n1);
    LiveFacts(s, n2);
    LeafFacts(s, i);
    var x := s.root[i];
    MaxBoth(Depth(s.w[n1]), Depth(s.w[n2]));
    AddedParts(s.w[n1], s.w[n2]);
    MergedPath(s, n1, n2, i);
    MergedFields(s, n1, n2, i);
    MergedLive(s, n1, n2, x);
    LeafIs(Joined(s, n1, n2), i);
  }

  lemma MaxBoth(a: nat, b: nat)
    ensures a <= Max(a, b) && b <= Max(a, b) && (Max(a, b) == a || Max(a, b) == b)
  {
  }

  lemma LeafFacts(s: Forest, i: nat)
    requires Ok(s) && i < |s.f|
    ensures |s.d| == |s.root| == |s.f| && |s.parent| == |s.w| == 516 && s.top < 516
    ensures s.root[i] in s.live && 1 <= s.root[i] <= s.top && s.f[i] >= 1 && s.d[i] <= Depth(s.w[s.root[i]])
  {
    hide Path, Grown, Freq, Depth, SumUnder, FreqUnder;
    assert Leaf(s, i) && Live(s, s.root[i]);
  }

  lemma LeafIs(s: Forest, i: nat)
    requires |s.d| == |s.root| == |s.f| && |s.parent| == |s.w| == 516 && s.top < 516 && i < |s.f|
    ensures Leaf(s, i) <==> s.root[i] in s.live && 0 <= s.root[i] <= s.top && s.f[i] >= 1
                            && s.d[i] <= Depth(s.w[s.root[i]]) && Path(s.parent, s.top, i + 1, s.d[i], s.root[i])
  {
    hide Path, Depth;
  }

  lemma MergedLive(s: Forest, n1: int, n2: int, x: int)
    requires |s.d| == |s.root| == |s.f| && |s.parent| == |s.w| == 516 && s.top < 515
    requires 1 <= n1 <= s.top && 1 <= n2 <= s.top && 1 <= x <= s.top && x in s.live
    ensures var t, n := Joined(s, n1, n2), s.top + 1;
            && t.f == s.f && |t.d| == |t.root| == |t.f| && |t.parent| == |t.w| == 516 && t.top == n
            && n in t.live && t.w[n] == Added(s.w[n1], s.w[n2]) && t.w[x] == s.w[x]
            && (x != n1 && x != n2 ==> x in t.live)
  {
    StaysLive(s.live, n1, n2, s.top + 1, x);
    hide Added, Freq;
  }

  lemma StaysLive(live: multiset<int>, n1: int, n2: int, n: int, x: int)
    requires x in live
    ensures n in live - multiset{n1} - multiset{n2} + multiset{n}
    ensures x != n1 && x != n2 ==> x in live - multiset{n1} - multiset{n2} + multiset{n}
  {
    assert x != n1 && x != n2 ==> x in live - multiset{n1} - multiset{n2};
  }

  lemma MergedOk(s: Forest, n1: int, n2: int)
    requires Lightest(s, n1, n2)
    ensures |s.d| == |s.root| && |s.parent| == |s.w| == 516 && s.top < 515
    ensures 0 <= n1 < 516 && 0 <= n2 < 516 && Ok(Joined(s, n1, n2))
  {
    LightestFacts(s, n1, n2);
    var t := Joined(s, n1, n2);
    forall r | r in t.live ensures Live(t, r) {
      if r == s.top + 1 {
        MergedNew(s, n1, n2);
      } else {
        assert r in s.live;
        MergedOther(s, n1, n2, r);
      }
    }
    forall i | 0 <= i < |t.f| ensures Leaf(t, i) { MergedLeaf(s, n1, n2, i); }
    MergedCount(s.live, n1, n2, s.top + 1);
  }

  lemma MergedCount(live: multiset<int>, n1: int, n2: int, n: int)
    requires n1 in live && n2 in live - multiset{n1}
    ensures |live - multiset{n1} - multiset{n2} + multiset{n}| == |live| - 1
  {
  }

  // ----- the end

  lemma OneLeft(live: multiset<int>, r: int, x: int)
    requires |live| == 1 && r in live && x in live
    ensures x == r
  {
    assert x != r ==> live == (live - multiset{r} - multiset{x}) + multiset{r} + multiset{x};
  }

  lemma {:induction false} AllUnder(d: seq<nat>, f: seq<nat>, root: seq<int>, r: int, k: nat)
    requires k <= |d| == |f| == |root| && forall i :: 0 <= i < |root| ==> root[i] == r
    ensures FreqUnder(f, root, r, k) == SumOf(f, k) && SumUnder(d, root, r, k) == ShareOf(d, k)
  {
    if k > 0 { AllUnder(d, f, root, r, k - 1); }
  }

  function ShareOf(d: seq<nat>, k: nat): nat
    requires k <= |d|
  {
    if k == 0 then 0 else ShareOf(d, k - 1) + Share(d[k - 1])
  }

  /** When one tree is left its leaves meet Kraft's inequality with equality, and none is deep
      if all are of frequency 1 or 2. */
  lemma EndsWell(s: Forest)
    requires Ok(s) && |s.live| == 1
    ensures |s.d| == |s.f| && ShareOf(s.d, |s.d|) == B.Pow2(HEIGHT)
    ensures forall i :: 0 <= i < |s.d| ==> s.d[i] < 30
    ensures SumOf(s.f, |s.f|) <= 516 ==> forall i :: 0 <= i < |s.d| ==> s.d[i] <= 12
  {
    var r := s.root[0];
    LeafShallow(s, 0);
    forall i | 0 <= i < |s.f| ensures s.root[i] == r && s.d[i] < 30 && s.d[i] <= Depth(s.w[r]) && Live(s, r) {
      LeafShallow(s, i);
      OneLeft(s.live, r, s.root[i]);
    }
    AllUnder(s.d, s.f, s.root, r, |s.f|);
    assert Live(s, r);
    DepthBound(s.w[r], s.low);
  }

  /** Then no leaf is a tree by itself, if there are two. */
  lemma NotAlone(d: seq<nat>, i: nat)
    requires i < |d| && |d| >= 2 && ShareOf(d, |d|) == B.Pow2(HEIGHT) && forall j :: 0 <= j < |d| ==> d[j] < 30
    ensures d[i] >= 1
  {
    var j := if i == 0 then 1 else 0;
    assert Share(0) == B.Pow2(HEIGHT) && Share(d[j]) >= 1;
    TwoShares(d, |d|, if i < j then i else j, if i < j then j else i);
  }

  lemma {:induction false} OneShare(d: seq<nat>, k: nat, i: nat)
    requires i < k <= |d|
    ensures ShareOf(d, k) >= Share(d[i])
  {
    if i < k - 1 { OneShare(d, k - 1, i); }
  }

  lemma {:induction false} TwoShares(d: seq<nat>, k: nat, i: nat, j: nat)
    requires i < j < k <= |d|
    ensures ShareOf(d, k) >= Share(d[i]) + Share(d[j])
  {
    if j < k - 1 { TwoShares(d, k - 1, i, j); } else { OneShare(d, k - 1, i); }
  }
}
