/** The order of the rotations as a number: how many rotations are smaller. */
module RotationRank {
  import opened Counting
  import opened Rotations

  /** The rotations before that at x. */
  ghost function Smaller(b: seq<byte>, x: nat): (r: set<int>)
    requires x < |b|
    ensures r <= Range(0, |b|)
  {
    set y | y in Range(0, |b|) && Cmp(b, y, x, |b|) < 0
  }

  ghost function Rank(b: seq<byte>, x: nat): nat
    requires x < |b|
  {
    |Smaller(b, x)|
  }

  ghost function Ranks(b: seq<byte>): (r: seq<int>)
    ensures |r| == |b| && forall x :: 0 <= x < |b| ==> r[x] == Rank(b, x)
  {
    seq(|b|, x requires 0 <= x < |b| => Rank(b, x))
  }

  lemma SmallerGrows(b: seq<byte>, x: nat, y: nat)
    requires x < |b| && y < |b| && RotLe(b, x, y)
    ensures Smaller(b, x) <= Smaller(b, y)
  {
    forall z | z in Smaller(b, x) ensures z in Smaller(b, y) {
      CmpTransitive(b, z, x, y, |b|);
    }
  }

  /** Ranks compare as the rotations do. */
  lemma RankOrder(b: seq<byte>, x: nat, y: nat)
    requires x < |b| && y < |b|
    ensures Ranks(b)[x] <= Ranks(b)[y] <==> RotLe(b, x, y)
  {
    CmpMirror(b, x, y, |b|);
    if RotLe(b, x, y) {
      SmallerGrows(b, x, y);
      SubsetSize(Smaller(b, x), Smaller(b, y));
    } else {
      SmallerGrows(b, y, x);
      SubsetSize(Smaller(b, y), Smaller(b, x));
      CmpSelf(b, y, |b|);
      assert y in Smaller(b, x) && y !in Smaller(b, y);
    }
  }

  /** After a common beginning the order is that of the rests. */
  lemma {:induction false} RotLePrefix(b: seq<byte>, i: nat, j: nat, t: nat)
    requires i < |b| && j < |b| && Cmp(b, i, j, t) == 0
    ensures RotLe(b, i, j) <==> RotLe(b, Adv(|b|, i, t), Adv(|b|, j, t))
    decreases t
  {
    if t > 0 {
      RotLeNext(b, i, j);
      RotLePrefix(b, Next(|b|, i), Next(|b|, j), t - 1);
    }
  }

  /** Different first bytes decide. */
  lemma FirstDecides(b: seq<byte>, i: nat, j: nat)
    requires i < |b| && j < |b| && b[i] != b[j]
    ensures RotLe(b, i, j) <==> b[i] < b[j]
  {
  }
}
