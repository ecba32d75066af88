/** Two-byte words of a block, and the predecessors of listed positions: how the order of
    one big bucket tells the order of the small buckets in front of it. */
module Predecessors {
  import opened Counting
  import opened Rotations
  import opened RotationRank

  // ----- words

  /** The first two bytes of the rotation at i. */
  function Word(b: seq<byte>, i: nat): (r: int)
    requires i < |b|
    ensures 0 <= r < 65536
  {
    var c: int := b[i];
    256 * c + b[Next(|b|, i)]
  }

  function Words(b: seq<byte>): (w: seq<int>)
    ensures |w| == |b| && forall i :: 0 <= i < |b| ==> w[i] == Word(b, i)
  {
    seq(|b|, i requires 0 <= i < |b| => Word(b, i))
  }

  /** A smaller word begins a smaller rotation. */
  lemma WordOrder(b: seq<byte>, x: nat, y: nat)
    requires x < |b| && y < |b| && Word(b, x) < Word(b, y)
    ensures Ranks(b)[x] <= Ranks(b)[y]
  {
    RankOrder(b, x, y);
    if b[x] == b[y] {
      RotLeNext(b, x, y);
      FirstDecides(b, Next(|b|, x), Next(|b|, y));
    } else {
      FirstDecides(b, x, y);
    }
  }

  /** The positions with word s. */
  function Class(w: seq<int>, s: int): (r: set<int>)
    ensures |r| == Occ(w, s)
    ensures forall x :: x in r <==> 0 <= x < |w| && w[x] == s
  {
    if w == [] then {}
    else
      var m := |w| - 1;
      assert w[..m] + [w[m]] == w;
      if w[m] == s then Class(w[..m], s) + {m} else Class(w[..m], s)
  }

  // ----- lists of positions

  ghost predicate Positions(g: seq<int>, n: nat) {
    forall i :: 0 <= i < |g| ==> 0 <= g[i] < n
  }

  ghost predicate LeAt(ec: seq<int>, g: seq<int>, i: int, j: int) {
    0 <= i < |g| && 0 <= j < |g| && 0 <= g[i] < |ec| && 0 <= g[j] < |ec| && ec[g[i]] <= ec[g[j]]
  }

  ghost predicate Ascending(ec: seq<int>, g: seq<int>) {
    forall i, j {:trigger LeAt(ec, g, i, j)} :: 0 <= i < j < |g| ==> LeAt(ec, g, i, j)
  }

  /** A list of different positions of one class is no longer than the class, and as long
      only if it has them all. */
  lemma ClassBound(w: seq<int>, s: int, g: seq<int>)
    requires NoRepeats(g, |g|) && Positions(g, |w|) && forall i :: 0 <= i < |g| ==> w[g[i]] == s
    ensures |g| <= Occ(w, s)
    ensures (forall x :: x in Class(w, s) ==> x in g) ==> |g| == Occ(w, s)
  {
    var e := Elements(g, |g|);
    ElementsSize(g, |g|);
    forall x | x in e ensures x in Class(w, s) { var i := ElementsFrom(g, |g|, x); }
    SubsetSize(e, Class(w, s));
    if forall x :: x in Class(w, s) ==> x in g {
      forall x | x in Class(w, s) ensures x in e { ElementsHave(g, |g|, x); }
      assert e == Class(w, s);
    }
  }

  lemma {:induction false} ElementsHave(g: seq<int>, k: nat, x: int)
    requires k <= |g| && x in g[..k]
    ensures x in Elements(g, k)
  {
    assert g[..|g|] == g;
    if g[k - 1] != x {
      assert g[..k] == g[..k - 1] + [g[k - 1]];
      ElementsHave(g, k - 1, x);
    }
  }

  // ----- predecessors

  /** The positions before those listed that hold byte t. */
  function Preds(b: seq<byte>, g: seq<int>, t: int): (r: seq<int>)
    requires Positions(g, |b|)
  {
    if g == [] then []
    else
      var m := |g| - 1;
      var k := Prev(|b|, g[m]);
      Preds(b, g[..m], t) + if b[k] == t then [k] else []
  }

  lemma {:induction false} PredsJoin(b: seq<byte>, g: seq<int>, h: seq<int>, t: int)
    requires Positions(g, |b|) && Positions(h, |b|)
    ensures Positions(g + h, |b|) && Preds(b, g + h, t) == Preds(b, g, t) + Preds(b, h, t)
    decreases |h|
  {
    if h == [] {
      assert g + h == g;
    } else {
      var m := |h| - 1;
      assert (g + h)[..|g + h| - 1] == g + h[..m];
      PredsJoin(b, g, h[..m], t);
    }
  }

  lemma PredsOne(b: seq<byte>, y: int, t: int)
    requires 0 <= y < |b|
    ensures Positions([y], |b|)
    ensures Preds(b, [y], t) == if b[Prev(|b|, y)] == t then [Prev(|b|, y)] else []
  {
    assert [y][..0] == [];
  }

  lemma PredsMore(b: seq<byte>, g: seq<int>, y: int, t: int)
    requires Positions(g, |b|) && 0 <= y < |b|
    ensures Positions(g + [y], |b|)
    ensures Preds(b, g + [y], t) == Preds(b, g, t) + if b[Prev(|b|, y)] == t then [Prev(|b|, y)] else []
  {
    PredsOne(b, y, t);
    PredsJoin(b, g, [y], t);
  }

  lemma PredsFront(b: seq<byte>, g: seq<int>, y: int, t: int)
    requires Positions(g, |b|) && 0 <= y < |b|
    ensures Positions([y] + g, |b|)
    ensures Preds(b, [y] + g, t) == (if b[Prev(|b|, y)] == t then [Prev(|b|, y)] else []) + Preds(b, g, t)
  {
    PredsOne(b, y, t);
    PredsJoin(b, [y], g, t);
  }

  /** Where an entry of the predecessors comes from. */
  lemma {:induction false} PredsFrom(b: seq<byte>, g: seq<int>, t: int, i: nat) returns (q: nat)
    requires Positions(g, |b|) && i < |Preds(b, g, t)|
    ensures q < |g| && 0 <= Preds(b, g, t)[i] < |b| && b[Preds(b, g, t)[i]] == t
    ensures Next(|b|, Preds(b, g, t)[i]) == g[q]
  {
    var m := |g| - 1;
    if i < |Preds(b, g[..m], t)| { q := PredsFrom(b, g[..m], t, i); } else { q := m; }
  }

  /** A position whose successor is listed is among the predecessors. */
  lemma {:induction false} PredsHave(b: seq<byte>, g: seq<int>, t: int, x: int)
    requires Positions(g, |b|) && 0 <= x < |b| && b[x] == t && Next(|b|, x) in g
    ensures x in Preds(b, g, t)
    decreases |g|
  {
    var m := |g| - 1;
    if g[m] == Next(|b|, x) {
      PrevOfNext(|b|, x);
      assert Preds(b, g, t)[|Preds(b, g[..m], t)|] == x;
    } else {
      assert g == g[..m] + [g[m]];
      PredsHave(b, g[..m], t, x);
    }
  }

  lemma PrevOfNext(n: nat, x: nat)
    requires x < n
    ensures Prev(n, Next(n, x)) == x
  {
  }

  lemma PredsPositions(b: seq<byte>, g: seq<int>, t: int)
    requires Positions(g, |b|)
    ensures Positions(Preds(b, g, t), |b|) && forall i :: 0 <= i < |Preds(b, g, t)| ==> b[Preds(b, g, t)[i]] == t
  {
    forall i | 0 <= i < |Preds(b, g, t)| ensures 0 <= Preds(b, g, t)[i] < |b| && b[Preds(b, g, t)[i]] == t {
      var q := PredsFrom(b, g, t, i);
    }
  }

  /** Different positions have different predecessors. */
  lemma {:induction false} PredsDistinct(b: seq<byte>, g: seq<int>, t: int)
    requires Positions(g, |b|) && NoRepeats(g, |g|)
    ensures NoRepeats(Preds(b, g, t), |Preds(b, g, t)|)
    decreases |g|
  {
    if g != [] {
      var m := |g| - 1;
      forall i, j | 0 <= i < j < m ensures Differ(g[..m], i, j) { assert Differ(g, i, j); }
      PredsDistinct(b, g[..m], t);
      var p, q := Preds(b, g[..m], t), Preds(b, g, t);
      forall i, j | 0 <= i < j < |q| ensures Differ(q, i, j) {
        if j < |p| {
          assert Differ(p, i, j);
        } else {
          var k := PredsFrom(b, g[..m], t, i);
          assert Differ(g, k, m);
        }
      }
    }
  }

  /** Predecessors of ascending positions with one byte ascend. */
  lemma {:induction false} PredsAscend(b: seq<byte>, g: seq<int>, t: int)
    requires Positions(g, |b|) && Ascending(Ranks(b), g)
    ensures Ascending(Ranks(b), Preds(b, g, t))
    decreases |g|
  {
    if g != [] {
      var m, ec := |g| - 1, Ranks(b);
      forall i, j | 0 <= i < j < m ensures LeAt(ec, g[..m], i, j) { assert LeAt(ec, g, i, j); }
      PredsAscend(b, g[..m], t);
      var p, q := Preds(b, g[..m], t), Preds(b, g, t);
      PredsPositions(b, g, t);
      forall i, j | 0 <= i < j < |q| ensures LeAt(ec, q, i, j) {
        if j < |p| {
          assert LeAt(ec, p, i, j);
        } else {
          var k := PredsFrom(b, g[..m], t, i);
          assert LeAt(ec, g, k, m);
          StepBack(b, q[i], q[j]);
        }
      }
    }
  }

  /** Of two positions with the same byte the order is that of their successors. */
  lemma StepBack(b: seq<byte>, x: int, y: int)
    requires 0 <= x < |b| && 0 <= y < |b| && b[x] == b[y]
    ensures Ranks(b)[x] <= Ranks(b)[y] <==> Ranks(b)[Next(|b|, x)] <= Ranks(b)[Next(|b|, y)]
  {
    RankOrder(b, x, y);
    RankOrder(b, Next(|b|, x), Next(|b|, y));
    RotLeNext(b, x, y);
  }

  // ----- going round

  /** A set of positions that holds all successors of its members holds all or none. */
  lemma {:induction false} AllTheWayRound(n: nat, x: nat, y: nat, s: set<int>)
    requires x < n && y < n && x in s && forall i :: 0 <= i < n && i in s ==> Next(n, i) in s
    ensures y in s
    decreases if y >= x then y - x else y + n - x
  {
    if x != y { AllTheWayRound(n, Next(n, x), y, s); }
  }
}
