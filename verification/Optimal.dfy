/** Why the code of BZ2_hbMakeCodeLengths is the best: joining the two lightest trees never
    loses against any other code. */
module Optimal {
  import opened Forest
  import opened BitStream

  /** The bits that symbols of these frequencies take with codes of these lengths. */
  function CostOf(f: seq<nat>, e: seq<nat>, k: nat): nat
    requires k <= |f| == |e|
  {
    if k == 0 then 0 else CostOf(f, e, k - 1) + f[k - 1] * e[k - 1]
  }

  /** What a place at depth x takes of a tree of height m, in leaves of the lowest row. */
  function Room(m: nat, x: nat): nat { if x <= m then Pow2(m - x) else 0 }

  function RoomOf(e: seq<nat>, m: nat, k: nat): nat
    requires k <= |e|
  {
    if k == 0 then 0 else RoomOf(e, m, k - 1) + Room(m, e[k - 1])
  }

  /** Kraft's inequality, which the lengths of every prefix code satisfy. */
  ghost predicate MeetsKraft(e: seq<nat>, m: nat) {
    (forall i :: 0 <= i < |e| ==> e[i] <= m) && RoomOf(e, m, |e|) <= Pow2(m)
  }

  /** No code takes fewer bits. */
  ghost predicate Shortest(f: seq<nat>, d: seq<nat>) {
    |d| == |f| && forall e, m: nat :: |e| == |f| && MeetsKraft(e, m) ==> CostOf(f, d, |f|) <= CostOf(f, e, |f|)
  }

  // ----- places for the trees

  function Weight(w: seq<int>, r: nat): nat
    requires r < |w|
  {
    if Freq(w[r]) > 0 then Freq(w[r]) else 0
  }

  /** The bits that live trees take with their roots at depths p. */
  function Costs(live: multiset<int>, w: seq<int>, p: seq<nat>): (t: seq<nat>)
    requires |w| == |p|
    ensures |t| == |p| && forall r :: 0 <= r < |t| ==> t[r] == if r in live then Weight(w, r) * p[r] else 0
  {
    seq(|p|, r requires 0 <= r < |p| => if r in live then Weight(w, r) * p[r] else 0)
  }

  function Rooms(live: multiset<int>, p: seq<nat>, m: nat): (t: seq<nat>)
    ensures |t| == |p| && forall r :: 0 <= r < |t| ==> t[r] == if r in live then Room(m, p[r]) else 0
  {
    seq(|p|, r requires 0 <= r < |p| => if r in live then Room(m, p[r]) else 0)
  }

  function CostAt(live: multiset<int>, w: seq<int>, p: seq<nat>): nat
    requires |w| == |p|
  {
    SumOf(Costs(live, w, p), |p|)
  }

  /** The live roots have room at depths p of a tree of height m. */
  ghost predicate Placed(live: multiset<int>, p: seq<nat>, m: nat) {
    && (forall r :: 0 <= r < |p| && r in live ==> p[r] <= m)
    && SumOf(Rooms(live, p, m), |p|) <= Pow2(m)
  }

  lemma {:induction false} SumChange(t: seq<nat>, u: seq<nat>, a: nat, k: nat)
    requires k <= |t| == |u| && a < |t| && forall i :: 0 <= i < |t| && i != a ==> t[i] == u[i]
    ensures if a < k then SumOf(t, k) + u[a] == SumOf(u, k) + t[a] else SumOf(t, k) == SumOf(u, k)
  {
    if k > 0 { SumChange(t, u, a, k - 1); }
  }

  lemma {:induction false} PartOfSum(t: seq<nat>, a: nat, k: nat)
    requires a < k <= |t|
    ensures t[a] <= SumOf(t, k)
  {
    if a < k - 1 { PartOfSum(t, a, k - 1); }
  }

  /** All terms twice those of u, with c over. */
  lemma {:induction false} Halves(t: seq<nat>, u: seq<nat>, c: seq<nat>, k: nat)
    requires k <= |t| == |u| == |c| && forall i :: 0 <= i < |t| ==> t[i] == 2 * u[i] + c[i]
    ensures SumOf(t, k) == 2 * SumOf(u, k) + SumOf(c, k)
  {
    if k > 0 { Halves(t, u, c, k - 1); }
  }

  /** One root moved: what changes is its own part. */
  lemma MoveRoom(live: multiset<int>, p: seq<nat>, m: nat, a: nat, x: nat)
    requires a < |p| && a in live
    ensures SumOf(Rooms(live, p[a := x], m), |p|) + Room(m, p[a]) == SumOf(Rooms(live, p, m), |p|) + Room(m, x)
  {
    hide Room;
    SumChange(Rooms(live, p[a := x], m), Rooms(live, p, m), a, |p|);
  }

  lemma MoveCost(live: multiset<int>, w: seq<int>, p: seq<nat>, a: nat, x: nat)
    requires a < |p| == |w| && a in live
    ensures CostAt(live, w, p[a := x]) + Weight(w, a) * p[a] == CostAt(live, w, p) + Weight(w, a) * x
  {
    hide Weight;
    SumChange(Costs(live, w, p[a := x]), Costs(live, w, p), a, |p|);
  }

  // ----- two roots in the lowest row

  ghost predicate Row(live: multiset<int>, p: seq<nat>, m: nat, a: int) {
    0 <= a < |p| && a in live && p[a] == m
  }

  lemma {:induction false} RoomTwice(m: nat, x: nat)
    requires m >= 1 && x <= m
    ensures Room(m, x) == 2 * Room(m - 1, x) + (if x == m then 1 else 0)
  {
  }

  /** The room in a tree one lower, and the roots in the row that is lost. */
  lemma LowerRow(live: multiset<int>, p: seq<nat>, m: nat)
    requires m >= 1 && Placed(live, p, m)
    requires forall a, b :: Row(live, p, m, a) && Row(live, p, m, b) ==> a == b
    ensures (forall a :: !Row(live, p, m, a)) ==> SumOf(Rooms(live, p, m - 1), |p|) <= Pow2(m - 1)
    ensures (exists a :: Row(live, p, m, a)) ==> SumOf(Rooms(live, p, m - 1), |p|) < Pow2(m - 1)
  {
    var c: seq<nat> := seq(|p|, r requires 0 <= r < |p| => if r in live && p[r] == m then 1 else 0);
    var t, u := Rooms(live, p, m), Rooms(live, p, m - 1);
    forall r | 0 <= r < |p| ensures t[r] == 2 * u[r] + c[r] {
      if r in live { RoomTwice(m, p[r]); }
    }
    hide Room;
    Halves(t, u, c, |p|);
    if a :| Row(live, p, m, a) { PartOfSum(c, a, |p|); }
  }

  /** Two roots do not both have room in a tree of height 0. */
  lemma TwoPlaces(live: multiset<int>, p: seq<nat>, a: nat, b: nat)
    requires a < |p| && b < |p| && a != b && a in live && b in live
    ensures !Placed(live, p, 0)
  {
    var t := Rooms(live, p, 0);
    var u: seq<nat> := t[a := 0];
    hide SumOf;
    SumChange(t, u, a, |p|);
    PartOfSum(u, b, |p|);
  }

  /** Without loss two roots are in the lowest row. */
  lemma {:induction false} TwoDeep(live: multiset<int>, w: seq<int>, p: seq<nat>, m: nat, n1: nat, n2: nat)
    returns (q: seq<nat>, h: nat, x: nat, y: nat)
    requires |p| == |w| && n1 < |p| && n2 < |p| && n1 != n2 && n1 in live && n2 in live && Placed(live, p, m)
    ensures |q| == |p| && h >= 1 && Placed(live, q, h) && CostAt(live, w, q) <= CostAt(live, w, p)
    ensures x != y && Row(live, q, h, x) && Row(live, q, h, y)
    decreases m
  {
    hide *;
    TwoPlaces(live, p, n1, n2);
    q, h, x, y := p, m, n1, n2;
    if a, b :| Row(live, p, m, a) && Row(live, p, m, b) && a != b {
      RowIn(live, p, m, a);
      RowIn(live, p, m, b);
      x, y := a, b;
    } else {
      LowerRow(live, p, m);
      if a :| Row(live, p, m, a) {
        RowIn(live, p, m, a);
        MoveUp(live, w, p, m, a);
        q := p[a := m - 1];
      } else {
        StayUp(live, p, m);
      }
      q, h, x, y := TwoDeep(live, w, q, m - 1, n1, n2);
    }
  }

  lemma RowIn(live: multiset<int>, p: seq<nat>, m: nat, a: int)
    requires Row(live, p, m, a)
    ensures 0 <= a < |p| && a in live && p[a] == m
  {
  }

  lemma StayUp(live: multiset<int>, p: seq<nat>, m: nat)
    requires m >= 1 && Placed(live, p, m) && forall a :: !Row(live, p, m, a)
    requires SumOf(Rooms(live, p, m - 1), |p|) <= Pow2(m - 1)
    ensures Placed(live, p, m - 1)
  {
    hide SumOf, Rooms;
    forall r | 0 <= r < |p| && r in live ensures p[r] <= m - 1 { assert !Row(live, p, m, r); }
  }

  lemma MoveUp(live: multiset<int>, w: seq<int>, p: seq<nat>, m: nat, a: nat)
    requires |p| == |w| && m >= 1 && Row(live, p, m, a) && Placed(live, p, m)
    requires forall b :: Row(live, p, m, b) ==> a == b
    requires SumOf(Rooms(live, p, m - 1), |p|) < Pow2(m - 1)
    ensures a < |p| && Placed(live, p[a := m - 1], m - 1) && CostAt(live, w, p[a := m - 1]) <= CostAt(live, w, p)
  {
    hide *;
    RowIn(live, p, m, a);
    MoveRoom(live, p, m - 1, a, m - 1);
    LastRoom(m);
    MoveCost(live, w, p, a, m - 1);
    Less(Weight(w, a), m - 1, m);
    MovedHigh(live, p, m, a);
  }

  lemma LastRoom(m: nat)
    requires m >= 1
    ensures Room(m - 1, m) == 0 && Room(m - 1, m - 1) == 1
  {
  }

  lemma MovedHigh(live: multiset<int>, p: seq<nat>, m: nat, a: nat)
    requires m >= 1 && a < |p| && Placed(live, p, m) && forall b :: Row(live, p, m, b) ==> a == b
    requires SumOf(Rooms(live, p[a := m - 1], m - 1), |p|) <= Pow2(m - 1)
    ensures Placed(live, p[a := m - 1], m - 1)
  {
    hide SumOf, Rooms;
    var q := p[a := m - 1];
    forall r | 0 <= r < |q| && r in live ensures q[r] <= m - 1 {
      assert Row(live, p, m, r) ==> r == a;
    }
  }

  lemma Less(c: nat, a: nat, b: nat)
    requires a <= b
    ensures c * a <= c * b
  {
  }

  // ----- the two lightest in the lowest row

  function Swapped(p: seq<nat>, a: nat, b: nat): seq<nat>
    requires a < |p| && b < |p|
  {
    p[a := p[b]][b := p[a]]
  }

  /** A lighter root may take the place of a heavier one below it. */
  lemma SwapBetter(live: multiset<int>, w: seq<int>, p: seq<nat>, m: nat, a: nat, b: nat)
    requires |p| == |w| && a < |p| && b < |p| && a != b && a in live && b in live && Placed(live, p, m)
    requires Weight(w, a) <= Weight(w, b) && p[a] <= p[b]
    ensures Placed(live, Swapped(p, a, b), m) && CostAt(live, w, Swapped(p, a, b)) <= CostAt(live, w, p)
  {
    hide SumOf, CostAt, Room, Weight;
    var q := p[a := p[b]];
    MoveRoom(live, p, m, a, p[b]);
    MoveRoom(live, q, m, b, p[a]);
    MoveCost(live, w, p, a, p[b]);
    MoveCost(live, w, q, b, p[a]);
    Products(Weight(w, a), Weight(w, b), p[a], p[b]);
  }

  lemma Products(a: nat, b: nat, x: nat, y: nat)
    requires a <= b && x <= y
    ensures a * y + b * x <= a * x + b * y
  {
    var c, z := b - a, y - x;
    assert c * z >= 0;
    assert a * y == a * x + a * z && b * y == b * x + b * z;
    assert b * z == a * z + c * z;
  }

  /** A lightest root can be moved into the lowest row, leaving another one there. */
  lemma ToRow(live: multiset<int>, w: seq<int>, p: seq<nat>, m: nat, n: nat, x: nat) returns (q: seq<nat>)
    requires |p| == |w| && n < |p| && n in live && Placed(live, p, m) && Row(live, p, m, x)
    requires Weight(w, n) <= Weight(w, x)
    ensures |q| == |p| && Placed(live, q, m) && CostAt(live, w, q) <= CostAt(live, w, p) && Row(live, q, m, n)
    ensures forall r :: 0 <= r < |p| && r != n && r != x ==> q[r] == p[r]
    ensures p[n] == m ==> q == p
  {
    q := p;
    hide SumOf, CostAt, Weight, Rooms;
    if p[n] != m {
      SwapBetter(live, w, p, m, n, x);
      q := Swapped(p, n, x);
    }
  }

  /** Both lightest roots can be in the lowest row. */
  lemma BothDeep(live: multiset<int>, w: seq<int>, p: seq<nat>, m: nat, n1: nat, n2: nat)
    returns (q: seq<nat>, h: nat)
    requires |p| == |w| && n1 < |p| && n2 < |p| && n1 != n2 && n1 in live && n2 in live && Placed(live, p, m)
    requires forall r :: 0 <= r < |p| && r in live ==> Weight(w, n1) <= Weight(w, r)
    requires forall r :: 0 <= r < |p| && r in live && r != n1 ==> Weight(w, n2) <= Weight(w, r)
    ensures |q| == |p| && h >= 1 && Placed(live, q, h) && CostAt(live, w, q) <= CostAt(live, w, p)
    ensures q[n1] == h && q[n2] == h
  {
    hide SumOf, CostAt, Weight, Rooms, Placed;
    var q0, x, y;
    q0, h, x, y := TwoDeep(live, w, p, m, n1, n2);
    if x == n1 { x, y := y, x; }
    var q1 := ToRow(live, w, q0, h, n1, x);
    var z := if q0[n1] == h then x else y;
    assert Row(live, q1, h, z) && z != n1;
    q := ToRow(live, w, q1, h, n2, z);
  }

  // ----- joining

  lemma {:induction false} JoinedCost(f: seq<nat>, d: seq<nat>, root: seq<int>, n1: int, n2: int, k: nat)
    requires k <= |f| == |d| == |root| && n1 != n2
    ensures CostOf(f, Deeper(d, root, n1, n2), k)
            == CostOf(f, d, k) + FreqUnder(f, root, n1, k) + FreqUnder(f, root, n2, k)
  {
    if k > 0 {
      JoinedCost(f, d, root, n1, n2, k - 1);
      OneMore(f[k - 1], d[k - 1]);
    }
  }

  lemma OneMore(a: nat, b: nat)
    ensures a * (b + 1) == a * b + a
  {
  }

  /** The roots of s at depths p take no more bits than e does in all. */
  ghost predicate Under(s: Forest, e: seq<nat>, p: seq<nat>, m: nat)
    requires |s.f| == |s.d| == |e| && |s.w| == 516
  {
    && |p| == 516 && Placed(s.live, p, m)
    && CostAt(s.live, s.w, p) + CostOf(s.f, s.d, |s.f|) <= CostOf(s.f, e, |s.f|)
  }

  /** Every code can be improved to one that the trees of s are part of. */
  ghost predicate Beats(s: Forest) {
    && |s.f| == |s.d| && |s.w| == 516
    && forall e, m: nat :: |e| == |s.f| && MeetsKraft(e, m) ==> exists p, h: nat :: Under(s, e, p, h)
  }

  /** n has come in the place of n1 and n2. */
  ghost predicate InPlace(live: multiset<int>, live': multiset<int>, n1: nat, n2: nat, n: nat) {
    && n1 != n2 && n1 != n && n2 != n && n1 in live && n2 in live && n !in live
    && forall r :: 0 <= r < 516 ==> (r in live' <==> r == n || (r in live && r != n1 && r != n2))
  }

  /** The roots after a joining, where the two joined ones were in the lowest row. */
  lemma JoinRoom(live: multiset<int>, live': multiset<int>, n1: nat, n2: nat, n: nat, p: seq<nat>, m: nat)
    requires |p| == 516 && n1 < 516 && n2 < 516 && n < 516 && InPlace(live, live', n1, n2, n)
    requires m >= 1 && Placed(live, p, m) && p[n1] == p[n2] == m
    ensures Placed(live', p[n := m - 1], m)
  {
    hide SumOf, Room;
    RowRoom(m);
    var q := p[n := m - 1];
    ThreeChange(Rooms(live, p, m), Rooms(live', q, m), n1, n2, n);
  }

  lemma RowRoom(m: nat)
    requires m >= 1
    ensures Room(m, m) == 1 && Room(m, m - 1) == 2
  {
    assert Pow2(1) == 2 * Pow2(0);
  }

  lemma JoinCost(live: multiset<int>, live': multiset<int>, w: seq<int>, w': seq<int>, n1: nat, n2: nat, n: nat,
                 p: seq<nat>, m: nat)
    requires |w| == |w'| == |p| == 516 && n1 < 516 && n2 < 516 && n < 516 && InPlace(live, live', n1, n2, n)
    requires m >= 1 && p[n1] == p[n2] == m
    requires forall r :: 0 <= r < 516 && r != n ==> w'[r] == w[r]
    requires Weight(w', n) == Weight(w, n1) + Weight(w, n2)
    ensures CostAt(live', w', p[n := m - 1]) + Weight(w', n) == CostAt(live, w, p)
  {
    hide SumOf;
    var q := p[n := m - 1];
    var t, u := Costs(live, w, p), Costs(live', w', q);
    forall r | 0 <= r < 516 && r != n1 && r != n2 && r != n ensures t[r] == u[r] {
      assert Weight(w', r) == Weight(w, r);
    }
    hide Weight;
    ThreeChange(t, u, n1, n2, n);
    Spread(Weight(w, n1), Weight(w, n2), m);
  }

  lemma Spread(a: nat, b: nat, m: nat)
    requires m >= 1
    ensures (a + b) * (m - 1) + (a + b) == a * m + b * m
  {
  }

  lemma ThreeChange(t: seq<nat>, u: seq<nat>, a: nat, b: nat, c: nat)
    requires |t| == |u| && a < |t| && b < |t| && c < |t| && a != b && a != c && b != c
    requires forall i :: 0 <= i < |t| && i != a && i != b && i != c ==> t[i] == u[i]
    ensures SumOf(t, |t|) + u[a] + u[b] + u[c] == SumOf(u, |t|) + t[a] + t[b] + t[c]
  {
    var t1 := t[a := u[a]];
    var t2 := t1[b := u[b]];
    SumChange(t, t1, a, |t|);
    SumChange(t1, t2, b, |t|);
    SumChange(t2, u, c, |t|);
  }

  lemma {:induction false} LiveWeight(s: Forest, r: int)
    requires Ok(s) && r in s.live
    ensures 1 <= r <= s.top < 516 && |s.w| == 516 && |s.f| == |s.d| == |s.root|
    ensures Weight(s.w, r) == Freq(s.w[r]) == FreqUnder(s.f, s.root, r, |s.f|)
  {
    assert Live(s, r);
    hide SumUnder, FreqUnder, Grown, Freq;
  }

  /** What joining does to the live roots and their weights. */
  lemma JoinFields(s: Forest, n1: int, n2: int)
    requires Lightest(s, n1, n2)
    ensures |s.d| == |s.root| == |s.f| && |s.parent| == |s.w| == 516 && s.top < 515
    ensures 1 <= n1 <= s.top && 1 <= n2 <= s.top && n1 != n2 && n1 in s.live && n2 in s.live && s.top + 1 !in s.live
    ensures var t, n := Joined(s, n1, n2), s.top + 1;
      && t.f == s.f && t.d == Deeper(s.d, s.root, n1, n2) && |t.w| == 516
      && (forall r :: 0 <= r < 516 && r != n ==> t.w[r] == s.w[r])
      && Weight(t.w, n) == Weight(s.w, n1) + Weight(s.w, n2)
      && InPlace(s.live, t.live, n1, n2, n)
  {
    LightestFacts(s, n1, n2);
    LiveWeight(s, n1);
    LiveWeight(s, n2);
    MaxBoth(Depth(s.w[n1]), Depth(s.w[n2]));
    AddedParts(s.w[n1], s.w[n2]);
    if s.top + 1 in s.live { LiveWeight(s, s.top + 1); }
    LiveOnce(s, n1);
    LiveOnce(s, n2);
    hide Added, Ok, Live, FreqUnder, Depth, Freq;
  }

  lemma LiveOnce(s: Forest, r: int)
    requires Ok(s) && r in s.live
    ensures s.live[r] == 1
  {
    assert Live(s, r);
  }

  lemma LightestWeights(s: Forest, n1: int, n2: int)
    requires Lightest(s, n1, n2)
    ensures |s.w| == 516 && 0 <= n1 < 516 && 0 <= n2 < 516
    ensures forall r :: 0 <= r < 516 && r in s.live ==> Weight(s.w, n1) <= Weight(s.w, r)
    ensures forall r :: 0 <= r < 516 && r in s.live && r != n1 ==> Weight(s.w, n2) <= Weight(s.w, r)
  {
    LightestFacts(s, n1, n2);
    forall r | 0 <= r < 516 && r in s.live ensures Weight(s.w, n1) <= Weight(s.w, r) {
      FreqOrder(s.w[n1], s.w[r]);
    }
    forall r | 0 <= r < 516 && r in s.live && r != n1 ensures Weight(s.w, n2) <= Weight(s.w, r) {
      assert r in s.live - multiset{n1};
      FreqOrder(s.w[n2], s.w[r]);
    }
  }

  /** Joining the two lightest roots keeps the bound. */
  lemma JoinedUnder(s: Forest, n1: int, n2: int, e: seq<nat>, p: seq<nat>, m: nat) returns (q: seq<nat>, h: nat)
    requires Lightest(s, n1, n2) && |s.f| == |s.d| == |s.root| == |e| && |s.parent| == |s.w| == 516 && s.top < 515
    requires 0 <= n1 < 516 && 0 <= n2 < 516 && Under(s, e, p, m)
    ensures var t := Joined(s, n1, n2); |t.f| == |t.d| == |e| && |t.w| == 516 && Under(t, e, q, h)
  {
    hide *;
    JoinFields(s, n1, n2);
    LightestWeights(s, n1, n2);
    UnderIs(s, e, p, m);
    var q0, n, t;
    q0, h := BothDeep(s.live, s.w, p, m, n1, n2);
    n, t := s.top + 1, Joined(s, n1, n2);
    JoinRoom(s.live, t.live, n1, n2, n, q0, h);
    JoinCost(s.live, t.live, s.w, t.w, n1, n2, n, q0, h);
    q := q0[n := h - 1];
    LightestFacts(s, n1, n2);
    LiveWeight(s, n1);
    LiveWeight(s, n2);
    JoinedCost(s.f, s.d, s.root, n1, n2, |s.f|);
    UnderIs(t, e, q, h);
  }

  lemma UnderIs(s: Forest, e: seq<nat>, p: seq<nat>, m: nat)
    requires |s.f| == |s.d| == |e| && |s.w| == 516
    ensures Under(s, e, p, m) <==>
              && |p| == 516 && Placed(s.live, p, m)
              && CostAt(s.live, s.w, p) + CostOf(s.f, s.d, |s.f|) <= CostOf(s.f, e, |s.f|)
  {
    hide CostAt, CostOf, Placed;
  }

  lemma JoinedBeats(s: Forest, n1: int, n2: int)
    requires Lightest(s, n1, n2) && Beats(s)
    ensures |s.d| == |s.root| && |s.parent| == |s.w| == 516 && s.top < 515
    ensures 0 <= n1 < 516 && 0 <= n2 < 516 && Beats(Joined(s, n1, n2))
  {
    JoinFields(s, n1, n2);
    hide Lightest, Under, MeetsKraft, Joined;
    var t := Joined(s, n1, n2);
    forall e, m: nat | |e| == |s.f| && MeetsKraft(e, m) ensures exists p, h: nat :: Under(t, e, p, h) {
      var p, k: nat :| Under(s, e, p, k);
      var q, h := JoinedUnder(s, n1, n2, e, p, k);
    }
  }

  // ----- the beginning and the end

  /** The roots are the leaves, at the depths of the code. */
  function LeafPlaces(e: seq<nat>): (p: seq<nat>)
    requires |e| <= 258
    ensures |p| == 516 && forall r :: 0 <= r < 516 ==> p[r] == if 1 <= r <= |e| then e[r - 1] else 0
  {
    seq(516, r requires 0 <= r < 516 => if 1 <= r <= |e| then e[r - 1] else 0)
  }

  lemma {:induction false} LeafSums(t: seq<nat>, u: seq<nat>, k: nat)
    requires k < |t| && |u| < |t| && forall r :: 0 <= r < |t| ==> t[r] == if 1 <= r <= |u| then u[r - 1] else 0
    ensures SumOf(t, k + 1) == SumOf(u, if k <= |u| then k else |u|)
  {
    if k > 0 { LeafSums(t, u, k - 1); }
  }

  lemma {:induction false} SumIsCost(u: seq<nat>, f: seq<nat>, e: seq<nat>, k: nat)
    requires k <= |f| == |e| == |u| && forall i :: 0 <= i < |u| ==> u[i] == f[i] * e[i]
    ensures SumOf(u, k) == CostOf(f, e, k)
  {
    if k > 0 { SumIsCost(u, f, e, k - 1); }
  }

  lemma {:induction false} SumIsRoom(u: seq<nat>, e: seq<nat>, m: nat, k: nat)
    requires k <= |e| == |u| && forall i :: 0 <= i < |u| ==> u[i] == Room(m, e[i])
    ensures SumOf(u, k) == RoomOf(e, m, k)
  {
    hide Room;
    if k > 0 { SumIsRoom(u, e, m, k - 1); }
  }

  lemma {:induction false} NoCost(f: seq<nat>, d: seq<nat>, k: nat)
    requires k <= |f| == |d| && forall i :: 0 <= i < |d| ==> d[i] == 0
    ensures CostOf(f, d, k) == 0
  {
    if k > 0 { NoCost(f, d, k - 1); }
  }

  lemma LeafTotal(t: seq<nat>, u: seq<nat>)
    requires |u| < |t| && forall r :: 0 <= r < |t| ==> t[r] == if 1 <= r <= |u| then u[r - 1] else 0
    ensures SumOf(t, |t|) == SumOf(u, |u|)
  {
    LeafSums(t, u, |t| - 1);
  }

  lemma StartCost(f: seq<nat>, w: seq<int>, live: multiset<int>, e: seq<nat>)
    requires 1 <= |f| <= 258 && |w| == 516 && |e| == |f|
    requires forall r :: live[r] == if 1 <= r <= |f| then 1 else 0
    requires forall i :: 0 <= i < |f| ==> w[i + 1] == 256 * f[i]
    ensures CostAt(live, w, LeafPlaces(e)) == CostOf(f, e, |f|)
  {
    hide *;
    var c: seq<nat> := seq(|f|, i requires 0 <= i < |f| => f[i] * e[i]);
    var t := Costs(live, w, LeafPlaces(e));
    forall r | 0 <= r < |t| ensures t[r] == if 1 <= r <= |f| then c[r - 1] else 0 {
      if 1 <= r <= |f| { LeafCost(f, w, r); }
    }
    LeafTotal(t, c);
    SumIsCost(c, f, e, |f|);
    CostIs(live, w, LeafPlaces(e));
  }

  lemma CostIs(live: multiset<int>, w: seq<int>, p: seq<nat>)
    requires |w| == |p|
    ensures CostAt(live, w, p) == SumOf(Costs(live, w, p), |Costs(live, w, p)|)
  {
  }

  lemma LeafCost(f: seq<nat>, w: seq<int>, r: nat)
    requires |f| <= 258 && |w| == 516 && 1 <= r <= |f| && forall i :: 0 <= i < |f| ==> w[i + 1] == 256 * f[i]
    ensures Weight(w, r) == f[r - 1]
  {
    assert w[(r - 1) + 1] == 256 * f[r - 1];
  }

  lemma StartPlaced(n: nat, live: multiset<int>, e: seq<nat>, m: nat)
    requires 1 <= n <= 258 && |e| == n && MeetsKraft(e, m)
    requires forall r :: live[r] == if 1 <= r <= n then 1 else 0
    ensures Placed(live, LeafPlaces(e), m)
  {
    hide *;
    KraftIs(e, m);
    var k: seq<nat> := seq(n, i requires 0 <= i < n => Room(m, e[i]));
    var p := LeafPlaces(e);
    LeafTotal(Rooms(live, p, m), k);
    SumIsRoom(k, e, m, n);
    MakePlaced(live, p, m);
  }

  lemma KraftIs(e: seq<nat>, m: nat)
    requires MeetsKraft(e, m)
    ensures (forall i :: 0 <= i < |e| ==> e[i] <= m) && RoomOf(e, m, |e|) <= Pow2(m)
  {
  }

  lemma MakePlaced(live: multiset<int>, p: seq<nat>, m: nat)
    requires forall r :: 0 <= r < |p| && r in live ==> p[r] <= m
    requires SumOf(Rooms(live, p, m), |Rooms(live, p, m)|) <= Pow2(m)
    ensures Placed(live, p, m)
  {
  }

  lemma StartUnder(f: seq<nat>, parent: seq<int>, w: seq<int>, live: multiset<int>, e: seq<nat>, m: nat)
    requires 1 <= |f| <= 258 && |w| == 516 && |e| == |f| && MeetsKraft(e, m)
    requires forall r :: live[r] == if 1 <= r <= |f| then 1 else 0
    requires forall i :: 0 <= i < |f| ==> w[i + 1] == 256 * f[i]
    ensures Under(Start(f, parent, w, live), e, LeafPlaces(e), m)
  {
    hide CostAt, CostOf, Placed, MeetsKraft;
    StartCost(f, w, live, e);
    StartPlaced(|f|, live, e, m);
    NoCost(f, Start(f, parent, w, live).d, |f|);
  }

  lemma StartBeats(f: seq<nat>, parent: seq<int>, w: seq<int>, live: multiset<int>)
    requires 1 <= |f| <= 258 && |w| == 516
    requires forall r :: live[r] == if 1 <= r <= |f| then 1 else 0
    requires forall i :: 0 <= i < |f| ==> w[i + 1] == 256 * f[i]
    ensures Beats(Start(f, parent, w, live))
  {
    hide Under, MeetsKraft;
    var s := Start(f, parent, w, live);
    forall e, m: nat | |e| == |f| && MeetsKraft(e, m) ensures exists p, h: nat :: Under(s, e, p, h) {
      StartUnder(f, parent, w, live, e, m);
    }
  }

  lemma {:induction false} ShareIsRoom(d: seq<nat>, k: nat)
    requires k <= |d|
    ensures ShareOf(d, k) == RoomOf(d, HEIGHT, k)
  {
    hide Pow2;
    if k > 0 { ShareIsRoom(d, k - 1); }
  }

  /** The lengths of a prefix code that is as good as any. */
  ghost predicate Best(f: seq<nat>, d: seq<nat>) {
    MeetsKraft(d, HEIGHT) && Shortest(f, d)
  }

  /** In the end the depths are those of a best code. */
  lemma EndsBest(s: Forest)
    requires Ok(s) && |s.live| == 1 && Beats(s)
    ensures Best(s.f, s.d)
  {
    hide *;
    EndsWell(s);
    BeatsShortest(s);
    ShareIsRoom(s.d, |s.d|);
    MakeBest(s.f, s.d);
  }

  lemma MakeBest(f: seq<nat>, d: seq<nat>)
    requires (forall i :: 0 <= i < |d| ==> d[i] < 30) && RoomOf(d, HEIGHT, |d|) == Pow2(HEIGHT) && Shortest(f, d)
    ensures Best(f, d)
  {
    hide RoomOf, Shortest, Pow2;
  }

  lemma BeatsShortest(s: Forest)
    requires Beats(s)
    ensures Shortest(s.f, s.d)
  {
    hide MeetsKraft;
    forall e, m: nat | |e| == |s.f| && MeetsKraft(e, m)
      ensures CostOf(s.f, s.d, |s.f|) <= CostOf(s.f, e, |s.f|)
    {
      var p, h: nat :| Under(s, e, p, h);
    }
  }
}
