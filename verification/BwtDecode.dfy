/** The two ways of undoing the block sort: one vector holding bytes and links
    together, and the small-memory layout of 20-bit pointers reversed in place. */
module BwtDecode {
  import opened Counting
  import opened Rotations
  import opened InverseBwt

  // ----- what both layouts must deliver

  /** The m bytes met from place p when byte k is read after k + 1 links. */
  function Walked(l: seq<byte>, t: seq<int>, p: int, m: nat): (s: seq<byte>)
    requires |t| == |l| && 0 <= p < |t|
    requires forall i :: 0 <= i < |t| ==> 0 <= t[i] < |t|
    ensures |s| == m
  {
    seq(m, k requires 0 <= k < m => WalkedAt(l, t, p, k))
  }

  function WalkedAt(l: seq<byte>, t: seq<int>, p: int, k: nat): byte
    requires |t| == |l| && 0 <= p < |t|
    requires forall i :: 0 <= i < |t| ==> 0 <= t[i] < |t|
  {
    ChaseOneMore(t, p, k + 1);
    l[Chase(t, p, k + 1)]
  }

  lemma WalkedAtBlock(b: seq<byte>, f: seq<int>, t: seq<int>, p: int, k: nat)
    requires IsRotationSort(b, f) && IsLinks(LastColumn(b, f), t)
    requires 0 <= p < |b| && f[p] == 0
    requires |t| == |b| && forall j :: 0 <= j < |t| ==> 0 <= t[j] < |t|
    ensures WalkedAt(LastColumn(b, f), t, p, k) == b[Adv(|b|, 0, k)]
    ensures k < |b| ==> Adv(|b|, 0, k) == k
  {
    hide IsRotationSort, IsLinks, Adv, Chase, LastColumn;
    InverseBwtRecovers(b, f, t, p, k);
  }

  /** For the last column of a block, the links spell the block, then start again. */
  lemma WalkedIsBlock(b: seq<byte>, f: seq<int>, t: seq<int>, p: int, m: nat)
    requires IsRotationSort(b, f) && IsLinks(LastColumn(b, f), t)
    requires 0 <= p < |b| && f[p] == 0
    ensures |t| == |b| && forall j :: 0 <= j < |t| ==> 0 <= t[j] < |t|
    ensures var s := Walked(LastColumn(b, f), t, p, |b| + m);
            && s[..|b|] == b
            && forall k :: 0 <= k < |b| + m ==> s[k] == b[Adv(|b|, 0, k)]
  {
    LinksInRange(LastColumn(b, f), t);
    var l := LastColumn(b, f);
    hide IsRotationSort, IsLinks, Adv, LastColumn, WalkedAt;
    var s := Walked(l, t, p, |b| + m);
    forall k | 0 <= k < |b| + m
      ensures s[k] == b[Adv(|b|, 0, k)] && (k < |b| ==> Adv(|b|, 0, k) == k)
    {
      WalkedAtBlock(b, f, t, p, k);
    }
  }

  // ----- origPtr

  /** The search of BZ2_blockSort for the unrotated block: its assertion 1003 holds. */
  method FindOrigPtr(ptr: seq<int>) returns (origPtr: int)
    requires ptr != [] && IsPerm(ptr, |ptr|)
    ensures 0 <= origPtr < |ptr| && ptr[origPtr] == 0
  {
    ghost var w := PermSurjective(ptr, |ptr|, 0);
    origPtr := -1;
    for i := 0 to |ptr|
      invariant origPtr == -1 && i <= w
    {
      if ptr[i] == 0 { origPtr := i; break; }
    }
    assert origPtr != -1;
  }

  // ----- the cumulative counts and their checks

  function Total(u: seq<int>, c: nat): int
    requires c <= |u|
  {
    if c == 0 then 0 else Total(u, c - 1) + u[c - 1]
  }

  /** Counts that can be those of a block of n bytes. */
  ghost predicate Plausible(u: seq<int>, n: nat)
    requires |u| == 256
  {
    (forall c :: 0 <= c < 256 ==> 0 <= u[c] <= n) && Total(u, 256) <= n
  }

  lemma {:induction false} TotalMonotone(u: seq<int>, c: nat, d: nat)
    requires c <= d <= |u| && forall i :: 0 <= i < |u| ==> 0 <= u[i]
    ensures 0 <= Total(u, c) <= Total(u, d)
    decreases d
  {
    if c < d { TotalMonotone(u, c, d - 1); } else if 0 < d { TotalMonotone(u, c - 1, d - 1); }
  }

  ghost predicate Totals(cft: seq<int>, u: seq<int>) {
    |u| == 256 && |cft| == 257 && forall c :: 0 <= c <= 256 ==> cft[c] == Total(u, c)
  }

  /** cftab[i] = unzftab[i-1], then running sums. */
  method Accumulate(cftab: array<int>, unzftab: seq<int>)
    requires |unzftab| == 256 && cftab.Length == 257
    modifies cftab
    ensures Totals(cftab[..], unzftab)
  {
    cftab[0] := 0;
    for i := 1 to 257
      invariant cftab[0] == 0 && forall c :: 1 <= c < i ==> cftab[c] == unzftab[c - 1]
    {
      cftab[i] := unzftab[i - 1];
    }
    for i := 1 to 257
      invariant forall c :: 0 <= c < i ==> cftab[c] == Total(unzftab, c)
      invariant forall c :: i <= c < 257 ==> cftab[c] == unzftab[c - 1]
    {
      cftab[i] := cftab[i] + cftab[i - 1];
    }
  }

  /** All entries are between 0 and nblock. */
  method InRange(tab: seq<int>, nblock: nat) returns (ok: bool)
    ensures ok <==> forall c :: 0 <= c < |tab| ==> 0 <= tab[c] <= nblock
  {
    for i := 0 to |tab|
      invariant forall c :: 0 <= c < i ==> 0 <= tab[c] <= nblock
    {
      if tab[i] < 0 || tab[i] > nblock { return false; }
    }
    return true;
  }

  method NonDescending(cftab: seq<int>, ghost unzftab: seq<int>) returns (ok: bool)
    requires Totals(cftab, unzftab) && forall i :: 0 <= i < |unzftab| ==> 0 <= unzftab[i]
    ensures ok
  {
    for i := 1 to 257
    {
      TotalMonotone(unzftab, i - 1, i);
      if cftab[i - 1] > cftab[i] { return false; }
    }
    return true;
  }

  lemma TotalsInRange(cft: seq<int>, u: seq<int>, n: nat)
    requires Totals(cft, u) && forall i :: 0 <= i < |u| ==> 0 <= u[i] <= n
    ensures (forall c :: 0 <= c < |cft| ==> 0 <= cft[c] <= n) <==> Plausible(u, n)
  {
    forall c | 0 <= c <= 256 ensures 0 <= cft[c] <= cft[256] { TotalMonotone(u, c, 256); }
  }

  /** Fills cftab from unzftab. The three checks pass exactly for plausible counts;
      the last one never fails. */
  method BuildCftab(unzftab: seq<int>, nblock: nat) returns (ok: bool, cftab: array<int>)
    requires |unzftab| == 256
    ensures fresh(cftab)
    ensures ok <==> Plausible(unzftab, nblock)
    ensures ok ==> Totals(cftab[..], unzftab)
  {
    cftab := new int[257];
    ok := InRange(unzftab, nblock);
    if !ok { return; }
    Accumulate(cftab, unzftab);
    TotalsInRange(cftab[..], unzftab, nblock);
    ok := InRange(cftab[..], nblock);
    if !ok { return; }
    ok := NonDescending(cftab[..], unzftab);
  }

  /** unzftab counts the bytes of l. */
  ghost predicate CountsOf(u: seq<int>, l: seq<byte>) {
    |u| == 256 && forall c :: 0 <= c < 256 ==> u[c] == Occ(l, c)
  }

  /** cftab tells for every byte how many of l are below it. */
  ghost predicate Below(cft: seq<int>, l: seq<byte>) {
    |cft| == 257 && forall c :: 0 <= c <= 256 ==> cft[c] == CountLess(l, c)
  }

  lemma {:induction false} TotalIsCountLess(u: seq<int>, l: seq<byte>, c: nat)
    requires CountsOf(u, l) && c <= 256
    ensures Total(u, c) == CountLess(l, c)
  {
    if c == 0 {
      CountExtremes(l);
    } else {
      TotalIsCountLess(u, l, c - 1);
      CountStep(l, c - 1);
    }
  }

  /** The counts the decoder keeps are always accepted and give the first column. */
  lemma CountsAccepted(u: seq<int>, l: seq<byte>)
    requires CountsOf(u, l)
    ensures Plausible(u, |l|)
    ensures forall cft :: Totals(cft, u) ==> Below(cft, l)
  {
    forall c | 0 <= c <= 256 ensures Total(u, c) == CountLess(l, c) { TotalIsCountLess(u, l, c); }
    CountExtremes(l);
  }

  // ----- fast layout: the low byte is the last column, the rest the links

  /** x |= i << 8 for a cell whose high bits are still clear. */
  function OrShifted(x: int, i: nat): (r: int)
    requires 0 <= x < 256
    ensures r % 256 == x && r / 256 == i
  {
    x + 256 * i
  }

  ghost predicate Linked(l: seq<byte>, tt: seq<int>, q: nat)
    requires q < |l| <= |tt|
  {
    tt[Slot(l, q)] / 256 == q
  }

  ghost predicate Unlinked(l: seq<byte>, tt: seq<int>, q: nat)
    requires q < |l| <= |tt|
  {
    tt[Slot(l, q)] == l[Slot(l, q)]
  }

  /** The links of the first i places are in. */
  ghost predicate Linking(l: seq<byte>, tt: seq<int>, cft: seq<int>, i: nat) {
    && i <= |l| <= |tt| && |cft| == 257
    && (forall j :: 0 <= j < |l| ==> tt[j] % 256 == l[j])
    && (forall q :: 0 <= q < i ==> Linked(l, tt, q))
    && (forall q :: i <= q < |l| ==> Unlinked(l, tt, q))
    && (forall c :: 0 <= c < 256 ==> cft[c] == CountLess(l, c) + Occ(l[..i], c))
  }

  lemma LinkingFacts(l: seq<byte>, tt: seq<int>, cft: seq<int>, i: nat)
    requires Linking(l, tt, cft, i) && i < |l|
    ensures |l| <= |tt| && |cft| == 257
    ensures tt[i] % 256 == l[i] && cft[l[i]] == Slot(l, i) && tt[Slot(l, i)] == l[Slot(l, i)]
  {
    assert Unlinked(l, tt, i);
  }

  lemma LinkingStep(l: seq<byte>, tt: seq<int>, tt': seq<int>, cft: seq<int>, cft': seq<int>, i: nat, v: int)
    requires Linking(l, tt, cft, i) && i < |l|
    requires v % 256 == l[Slot(l, i)] && v / 256 == i
    requires tt' == tt[Slot(l, i) := v]
    requires cft' == cft[l[i] := cft[l[i]] + 1]
    ensures Linking(l, tt', cft', i + 1)
  {
    forall q | 0 <= q < i ensures Linked(l, tt', q) { SlotInjective(l, q, i); assert Linked(l, tt, q); }
    forall q | i < q < |l| ensures Unlinked(l, tt', q) { SlotInjective(l, i, q); assert Unlinked(l, tt, q); }
    assert l[..i + 1][..i] == l[..i];
  }

  /** The link part of a finished tt. */
  function Links(tt: seq<int>, n: nat): (t: seq<int>)
    requires n <= |tt|
    ensures |t| == n && forall j :: 0 <= j < n ==> t[j] == tt[j] / 256
  {
    seq(n, j requires 0 <= j < n => tt[j] / 256)
  }

  lemma LinkingEnds(l: seq<byte>, tt: seq<int>, cft: seq<int>)
    requires Linking(l, tt, cft, |l|)
    ensures IsLinks(l, Links(tt, |l|)) && forall j :: 0 <= j < |l| ==> tt[j] % 256 == l[j]
  {
    forall i | 0 <= i < |l| ensures Links(tt, |l|)[Slot(l, i)] == i { assert Linked(l, tt, i); }
  }

  lemma LinkingStarts(l: seq<byte>, tt: seq<int>, cft: seq<int>)
    requires |l| <= |tt| && tt[..|l|] == l && Below(cft, l)
    ensures Linking(l, tt, cft, 0)
  {
    forall q | 0 <= q < |l| ensures Unlinked(l, tt, q) { assert tt[..|l|][Slot(l, q)] == l[Slot(l, q)]; }
    forall j | 0 <= j < |l| ensures tt[j] % 256 == l[j] { assert tt[..|l|][j] == l[j]; }
    assert l[..0] == [];
  }

  /** Computes the inverse vector into the high bits of tt, without disturbing a byte. */
  method BuildLinks(tt: array<int>, cftab: array<int>, nblock: nat, ghost l: seq<byte>)
    requires tt != cftab && nblock == |l| <= tt.Length && tt[..nblock] == l && Below(cftab[..], l)
    modifies tt, cftab
    ensures IsLinks(l, Links(tt[..], nblock))
    ensures forall j :: 0 <= j < nblock ==> tt[..][j] % 256 == l[j]
  {
    hide *;
    assert tt[..][..|l|] == l;
    LinkingStarts(l, tt[..], cftab[..]);
    for i := 0 to nblock
      invariant Linking(l, tt[..], cftab[..], i)
    {
      ghost var g, h := tt[..], cftab[..];
      LinkingFacts(l, g, h, i);
      var uc := tt[i] % 256;
      var slot := cftab[uc];
      tt[slot] := OrShifted(tt[slot], i);
      assert tt[..] == g[slot := OrShifted(g[slot], i)];
      cftab[uc] := cftab[uc] + 1;
      assert cftab[..] == h[uc := h[uc] + 1];
      LinkingStep(l, g, tt[..], h, cftab[..], i, OrShifted(g[slot], i));
    }
    LinkingEnds(l, tt[..], cftab[..]);
  }

  // ----- reading the block back

  /** The places passed when following links from p. */
  function Trail(t: seq<int>, p: int, m: nat): (s: seq<int>)
    requires 0 <= p < |t| && forall i :: 0 <= i < |t| ==> 0 <= t[i] < |t|
    ensures |s| == m && forall k :: 0 <= k < m ==> s[k] == Chase(t, p, k)
  {
    seq(m, k requires 0 <= k < m => Chase(t, p, k))
  }

  /** Read k finds byte s[k] at pos[k] and moves on to pos[k + 1]. */
  ghost predicate FastRead(tt: seq<int>, s: seq<byte>, pos: seq<int>, k: nat)
    requires k < |s| < |pos|
  {
    0 <= pos[k] < |tt| && tt[pos[k]] % 256 == s[k] && tt[pos[k]] / 256 == pos[k + 1]
  }

  ghost predicate FastReads(tt: seq<int>, s: seq<byte>, pos: seq<int>) {
    |pos| == |s| + 1 && forall k :: 0 <= k < |s| ==> FastRead(tt, s, pos, k)
  }

  /** The fast layout reads what the links spell. */
  lemma FastDelivers(l: seq<byte>, tt: seq<int>, p: int, m: nat)
    requires |l| <= |tt| && IsLinks(l, Links(tt, |l|)) && 0 <= p < |l|
    requires forall j :: 0 <= j < |l| ==> tt[j] % 256 == l[j]
    ensures var t := Links(tt, |l|);
            && (forall j :: 0 <= j < |t| ==> 0 <= t[j] < |t|)
            && FastReads(tt, Walked(l, t, p, m), Trail(t, t[p], m + 1))
  {
    var t := Links(tt, |l|);
    LinksInRange(l, t);
    hide IsLinks, Slot;
    var s, pos := Walked(l, t, p, m), Trail(t, t[p], m + 1);
    forall k | 0 <= k < m ensures FastRead(tt, s, pos, k) {
      ChaseOneMore(t, p, k + 1);
      ChaseOneMore(t, t[p], k);
    }
  }
}
