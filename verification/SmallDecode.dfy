/** The small-memory layout: 20-bit pointers packed in two arrays, reversed in
    place along the cycle that is going to be followed. */
module SmallDecode {
  import opened Counting
  import opened Rotations
  import opened InverseBwt
  import opened BwtDecode

  // ----- packed pointers

  const LIMIT := 0x100000

  /** The upper four bits of pointer i: GET_LL4. */
  function Nibble(ll4: seq<int>, i: nat): int
    requires i / 2 < |ll4|
  {
    if i % 2 == 0 then ll4[i / 2] % 16 else ll4[i / 2] / 16 % 16
  }

  /** GET_LL */
  function GetLL(ll16: seq<int>, ll4: seq<int>, i: nat): int
    requires i < |ll16| && i / 2 < |ll4|
  {
    ll16[i] + 0x10000 * Nibble(ll4, i)
  }

  ghost predicate Packed(ll16: seq<int>, ll4: seq<int>) {
    && |ll16| <= 2 * |ll4|
    && (forall i :: 0 <= i < |ll16| ==> 0 <= ll16[i] < 0x10000)
    && (forall i :: 0 <= i < |ll4| ==> 0 <= ll4[i] < 0x100)
  }

  /** All pointers. */
  function Pointers(ll16: seq<int>, ll4: seq<int>): (r: seq<int>)
    requires |ll16| <= 2 * |ll4|
    ensures |r| == |ll16| && forall i :: 0 <= i < |ll16| ==> r[i] == GetLL(ll16, ll4, i)
  {
    seq(|ll16|, i requires 0 <= i < |ll16| => GetLL(ll16, ll4, i))
  }

  /** What SET_LL4 leaves in a cell: it replaces one nibble and keeps the other. */
  function WithNibble(cell: int, odd: bool, v: int): (r: int)
    requires 0 <= cell < 0x100 && 0 <= v < 16
    ensures 0 <= r < 0x100
    ensures (if odd then r / 16 else r % 16) == v
    ensures (if odd then r % 16 == cell % 16 else r / 16 == cell / 16)
  {
    if odd then cell % 16 + 16 * v else cell / 16 * 16 + v
  }

  lemma SetPacked(lo: seq<int>, hi: seq<int>, i: nat, n: int, hi': seq<int>)
    requires Packed(lo, hi) && i < |lo| && 0 <= n < LIMIT
    requires hi' == hi[i / 2 := WithNibble(hi[i / 2], i % 2 == 1, n / 0x10000)]
    ensures Packed(lo[i := n % 0x10000], hi')
    ensures Pointers(lo[i := n % 0x10000], hi') == Pointers(lo, hi)[i := n]
  {
    var lo' := lo[i := n % 0x10000];
    assert GetLL(lo', hi', i) == n;
    forall k | 0 <= k < |lo| && k != i ensures GetLL(lo', hi', k) == GetLL(lo, hi, k) {
      assert k / 2 == i / 2 ==> k % 2 != i % 2;
    }
  }

  /** SET_LL changes pointer i of the first n and no other, for every value below 2^20. */
  method SetLL(ll16: array<int>, ll4: array<int>, ghost n: nat, i: nat, v: int)
    requires ll16 != ll4 && n <= ll16.Length && Packed(ll16[..n], ll4[..]) && i < n && 0 <= v < LIMIT
    modifies ll16, ll4
    ensures Packed(ll16[..n], ll4[..])
    ensures ll16[..n] == old(ll16[..n])[i := v % 0x10000]
    ensures Pointers(ll16[..n], ll4[..]) == old(Pointers(ll16[..n], ll4[..]))[i := v]
  {
    ghost var lo, hi := ll16[..n], ll4[..];
    ll16[i] := v % 0x10000;
    assert ll16[..n] == lo[i := v % 0x10000];
    ll4[i / 2] := WithNibble(ll4[i / 2], i % 2 == 1, v / 0x10000);
    assert ll4[..] == hi[i / 2 := WithNibble(hi[i / 2], i % 2 == 1, v / 0x10000)];
    SetPacked(lo, hi, i, v, ll4[..]);
  }

  // ----- the T vector

  ghost predicate Placed(l: seq<byte>, v: seq<int>, q: nat)
    requires q < |l| <= |v|
  {
    v[q] == Slot(l, q)
  }

  /** The first i pointers are set; the others still hold their bytes. */
  ghost predicate Filling(l: seq<byte>, lo: seq<int>, v: seq<int>, cft: seq<int>, i: nat) {
    && i <= |l| <= |lo| == |v| && |cft| == 257
    && (forall q :: i <= q < |l| ==> lo[q] == l[q])
    && (forall q :: 0 <= q < i ==> Placed(l, v, q))
    && (forall c :: 0 <= c < 256 ==> cft[c] == CountLess(l, c) + Occ(l[..i], c))
  }

  lemma FillingFacts(l: seq<byte>, lo: seq<int>, v: seq<int>, cft: seq<int>, i: nat)
    requires Filling(l, lo, v, cft, i) && i < |l|
    ensures lo[i] == l[i] && |cft| == 257 && cft[l[i]] == Slot(l, i) < |l|
  {
  }

  lemma FillingStep(l: seq<byte>, lo: seq<int>, v: seq<int>, cft: seq<int>, i: nat)
    requires Filling(l, lo, v, cft, i) && i < |l|
    ensures Filling(l, lo[i := Slot(l, i) % 0x10000], v[i := Slot(l, i)], cft[l[i] := cft[l[i]] + 1], i + 1)
  {
    var v' := v[i := Slot(l, i)];
    forall q | 0 <= q < i ensures Placed(l, v', q) { assert Placed(l, v, q); }
    assert l[..i + 1][..i] == l[..i];
  }

  /** T as a vector: the inverse of the links. */
  function Slots(l: seq<byte>): (s: seq<int>)
    ensures |s| == |l| && forall i :: 0 <= i < |l| ==> s[i] == Slot(l, i)
  {
    seq(|l|, i requires 0 <= i < |l| => Slot(l, i))
  }

  lemma SlotsPerm(l: seq<byte>)
    ensures IsPerm(Slots(l), |l|)
  {
    forall i, j | 0 <= i < j < |l| ensures Differ(Slots(l), i, j) { SlotInjective(l, i, j); }
  }

  lemma FillingEnds(l: seq<byte>, lo: seq<int>, v: seq<int>, cft: seq<int>)
    requires Filling(l, lo, v, cft, |l|) && |v| == |l|
    ensures v == Slots(l)
  {
    forall q | 0 <= q < |l| ensures v[q] == Slot(l, q) { assert Placed(l, v, q); }
  }

  lemma FillingStarts(l: seq<byte>, lo: seq<int>, v: seq<int>, cft: seq<int>)
    requires |l| == |v| && lo == l && Below(cft, l)
    ensures Filling(l, lo, v, cft, 0)
  {
    assert l[..0] == [];
  }

  /** Cells that hold bytes are in range, whatever stands in ll4. */
  lemma BytesPacked(l: seq<byte>, hi: seq<int>)
    requires |l| <= 2 * |hi| && forall i :: 0 <= i < |hi| ==> 0 <= hi[i] < 0x100
    ensures Packed(l, hi)
  {
  }

  /** Computes the T vector, each pointer overwriting the byte it was computed from. */
  method BuildT(ll16: array<int>, ll4: array<int>, cftab: seq<int>, nblock: nat, ghost l: seq<byte>)
    requires ll16 != ll4 && nblock == |l| <= ll16.Length && nblock < LIMIT && nblock <= 2 * ll4.Length
    requires forall i :: 0 <= i < ll4.Length ==> 0 <= ll4[i] < 0x100
    requires ll16[..nblock] == l && Below(cftab, l)
    modifies ll16, ll4
    ensures Packed(ll16[..nblock], ll4[..])
    ensures Pointers(ll16[..nblock], ll4[..]) == Slots(l)
  {
    var cftabCopy := CopyCounts(cftab, l);
    BytesPacked(l, ll4[..]);
    assert |ll16[..nblock]| == nblock && |ll4[..]| == ll4.Length;
    hide *;
    FillingStarts(l, ll16[..nblock], Pointers(ll16[..nblock], ll4[..]), cftabCopy[..]);
    for i := 0 to nblock
      invariant Packed(ll16[..nblock], ll4[..]) && |ll16[..nblock]| <= 2 * |ll4[..]|
      invariant Filling(l, ll16[..nblock], Pointers(ll16[..nblock], ll4[..]), cftabCopy[..], i)
    {
      ghost var lo, v, h := ll16[..nblock], Pointers(ll16[..nblock], ll4[..]), cftabCopy[..];
      FillingFacts(l, lo, v, h, i);
      assert lo[i] == ll16[i];
      var uc := ll16[i] % 256;
      SetLL(ll16, ll4, nblock, i, cftabCopy[uc]);
      cftabCopy[uc] := cftabCopy[uc] + 1;
      assert cftabCopy[..] == h[uc := h[uc] + 1];
      FillingStep(l, lo, v, h, i);
    }
    FillingEnds(l, ll16[..nblock], Pointers(ll16[..nblock], ll4[..]), cftabCopy[..]);
  }

  method CopyCounts(cftab: seq<int>, ghost l: seq<byte>) returns (cftabCopy: array<int>)
    requires Below(cftab, l)
    ensures fresh(cftabCopy) && cftabCopy[..] == cftab
  {
    cftabCopy := new int[257];
    for i := 0 to 257
      invariant forall c :: 0 <= c < i ==> cftabCopy[c] == cftab[c]
    {
      cftabCopy[i] := cftab[i];
    }
  }

  // ----- pointer reversal

  /** The element passed just before cyc[q], starting from p. */
  function Before(p: int, cyc: seq<int>, q: nat): int
    requires q < |cyc|
  {
    if q == 0 then p else cyc[q - 1]
  }

  /** cyc[q] is the successor under T0 of the element before it, and its pointer now
      leads back there. */
  ghost predicate TurnedAt(T0: seq<int>, v: seq<int>, p: int, cyc: seq<int>, q: nat)
    requires |T0| == |v| && q < |cyc|
  {
    && 0 <= Before(p, cyc, q) < |T0| && 0 <= cyc[q] < |T0|
    && T0[Before(p, cyc, q)] == cyc[q]
    && v[cyc[q]] == Before(p, cyc, q)
  }

  ghost predicate Visited(cyc: seq<int>, x: int) {
    exists q :: 0 <= q < |cyc| && cyc[q] == x
  }

  /** v is T0 with the pointers of the elements passed so far, cyc, turned round. */
  ghost predicate Turned(T0: seq<int>, v: seq<int>, p: int, cyc: seq<int>) {
    && |T0| == |v| && IsPerm(T0, |T0|) && 0 <= p < |T0|
    && NoRepeats(cyc, |cyc|)
    && (forall q :: 0 <= q < |cyc| ==> TurnedAt(T0, v, p, cyc, q))
    && (forall x :: 0 <= x < |v| ==> v[x] == T0[x] || Visited(cyc, x))
  }

  /** The last element passed. */
  function Here(p: int, cyc: seq<int>): int {
    if cyc == [] then p else cyc[|cyc| - 1]
  }

  lemma BeforeNotHere(p: int, cyc: seq<int>, q: nat)
    requires NoRepeats(cyc, |cyc|) && !Visited(cyc, p) && q < |cyc|
    ensures Before(p, cyc, q) != Here(p, cyc)
  {
    if q > 0 { assert Differ(cyc, q - 1, |cyc| - 1); }
  }

  /** Before the circle closes, the next element is a new one. */
  lemma NextIsNew(T0: seq<int>, v: seq<int>, p: int, cyc: seq<int>, j: int)
    requires Turned(T0, v, p, cyc) && !Visited(cyc, p)
    requires 0 <= Here(p, cyc) < |T0| && j == T0[Here(p, cyc)]
    ensures !Visited(cyc, j)
  {
    forall q | 0 <= q < |cyc| ensures cyc[q] != j {
      assert TurnedAt(T0, v, p, cyc, q);
      BeforeNotHere(p, cyc, q);
      PermDistinct(T0, |T0|, Before(p, cyc, q), Here(p, cyc));
    }
  }

  lemma TurnOne(T0: seq<int>, v: seq<int>, p: int, cyc: seq<int>, j: int)
    requires Turned(T0, v, p, cyc) && !Visited(cyc, p)
    requires 0 <= Here(p, cyc) < |T0| && j == T0[Here(p, cyc)]
    ensures 0 <= j < |v| && v[j] == T0[j]
    ensures Turned(T0, v[j := Here(p, cyc)], p, cyc + [j])
  {
    NextIsNew(T0, v, p, cyc, j);
    var v', cyc' := v[j := Here(p, cyc)], cyc + [j];
    forall a, b | 0 <= a < b < |cyc'| ensures Differ(cyc', a, b) {
      if b < |cyc| { assert Differ(cyc, a, b); } else { assert cyc[a] != j; }
    }
    forall q | 0 <= q < |cyc'| ensures TurnedAt(T0, v', p, cyc', q) {
      if q < |cyc| { assert TurnedAt(T0, v, p, cyc, q) && cyc[q] != j; }
    }
    forall x | 0 <= x < |v'| ensures v'[x] == T0[x] || Visited(cyc', x) {
      if x == j {
        assert cyc'[|cyc|] == x;
      } else if Visited(cyc, x) {
        var q :| 0 <= q < |cyc| && cyc[q] == x;
        assert cyc'[q] == x;
      }
    }
  }

  /** No more steps than elements. */
  lemma CycleFits(T0: seq<int>, v: seq<int>, p: int, cyc: seq<int>)
    requires Turned(T0, v, p, cyc)
    ensures |cyc| <= |T0|
  {
    ElementsSize(cyc, |cyc|);
    var e := Elements(cyc, |cyc|);
    forall x | x in e ensures x in Range(0, |T0|) {
      var q := ElementsFrom(cyc, |cyc|, x);
      assert TurnedAt(T0, v, p, cyc, q);
    }
    SubsetSize(e, Range(0, |T0|));
  }

  lemma PassOn(cyc: seq<int>, j: int, p: int)
    requires !Visited(cyc, p)
    ensures j != p ==> !Visited(cyc + [j], p)
    ensures Here(p, cyc + [j]) == j && Visited(cyc + [j], j)
  {
    assert (cyc + [j])[|cyc|] == j;
    forall q | 0 <= q < |cyc| ensures cyc[q] != p { assert !Visited(cyc, p); }
  }

  lemma TurnStarts(T0: seq<int>, p: int)
    requires IsPerm(T0, |T0|) && 0 <= p < |T0|
    ensures Turned(T0, T0, p, []) && !Visited([], p) && Here(p, []) == p
  {
  }

  /** Pointer reversal on T from origPtr: it stops, having turned exactly the
      pointers of the cycle through origPtr. */
  method ReversePointers(ll16: array<int>, ll4: array<int>, origPtr: nat, nblock: nat, ghost T0: seq<int>)
    returns (ghost cyc: seq<int>)
    requires ll16 != ll4 && nblock <= ll16.Length && Packed(ll16[..nblock], ll4[..]) && nblock < LIMIT
    requires IsPerm(T0, nblock) && Pointers(ll16[..nblock], ll4[..]) == T0 && origPtr < nblock
    modifies ll16, ll4
    ensures Packed(ll16[..nblock], ll4[..])
    ensures Turned(T0, Pointers(ll16[..nblock], ll4[..]), origPtr, cyc) && Visited(cyc, origPtr)
    ensures Here(origPtr, cyc) == origPtr && cyc != []
  {
    var i := origPtr;
    assert |ll16[..nblock]| <= 2 * |ll4[..]| && |T0| == nblock;
    PermRange(T0, i);
    var j := ReadLL(ll16, ll4, nblock, i);
    assert j == T0[i];
    cyc := [];
    hide *;
    TurnStarts(T0, origPtr);
    while true
      invariant Packed(ll16[..nblock], ll4[..]) && |ll16[..nblock]| <= 2 * |ll4[..]|
      invariant Turned(T0, Pointers(ll16[..nblock], ll4[..]), origPtr, cyc) && !Visited(cyc, origPtr)
      invariant i == Here(origPtr, cyc) && 0 <= i < nblock && 0 <= j < nblock && j == T0[i]
      decreases nblock - |cyc|
    {
      ghost var v := Pointers(ll16[..nblock], ll4[..]);
      CycleFits(T0, v, origPtr, cyc);
      TurnOne(T0, v, origPtr, cyc, j);
      var tmp := ReadLL(ll16, ll4, nblock, j);
      SetLL(ll16, ll4, nblock, j, i);
      PassOn(cyc, j, origPtr);
      cyc := cyc + [j];
      CycleFits(T0, v[j := i], origPtr, cyc);
      PermRange(T0, j);
      i, j := j, tmp;
      if i == origPtr { break; }
    }
  }

  lemma PermRange(T0: seq<int>, i: nat)
    requires IsPerm(T0, |T0|) && i < |T0|
    ensures 0 <= T0[i] < |T0|
  {
  }

  method ReadLL(ll16: array<int>, ll4: array<int>, ghost n: nat, i: nat) returns (v: int)
    requires i < n <= ll16.Length && n <= 2 * ll4.Length
    ensures v == Pointers(ll16[..n], ll4[..])[i]
  {
    v := ll16[i] + 0x10000 * (if i % 2 == 0 then ll4[i / 2] % 16 else ll4[i / 2] / 16 % 16);
  }

  // ----- why that is enough

  /** On the cycle the turned pointers are the links. */
  lemma TurnedIsLink(l: seq<byte>, t: seq<int>, v: seq<int>, p: int, cyc: seq<int>, x: int)
    requires Turned(Slots(l), v, p, cyc) && Here(p, cyc) == p && cyc != []
    requires IsLinks(l, t) && Visited(cyc, x)
    ensures 0 <= x < |v| && v[x] == t[x] && Visited(cyc, v[x])
  {
    var q :| 0 <= q < |cyc| && cyc[q] == x;
    assert TurnedAt(Slots(l), v, p, cyc, q);
    assert t[Slot(l, Before(p, cyc, q))] == Before(p, cyc, q);
    assert Before(p, cyc, q) == cyc[if q == 0 then |cyc| - 1 else q - 1];
  }

  lemma {:induction false} TurnedChase(l: seq<byte>, t: seq<int>, v: seq<int>, p: int, cyc: seq<int>, k: nat)
    requires Turned(Slots(l), v, p, cyc) && Here(p, cyc) == p && cyc != [] && IsLinks(l, t) && 0 <= p < |t|
    requires forall i :: 0 <= i < |t| ==> 0 <= t[i] < |t|
    ensures Visited(cyc, Chase(t, p, k))
    ensures 0 <= Chase(t, p, k) < |t| == |v| && v[Chase(t, p, k)] == Chase(t, p, k + 1)
  {
    ChaseOneMore(t, p, k);
    if k == 0 {
      assert cyc[|cyc| - 1] == p;
      TurnedIsLink(l, t, v, p, cyc, p);
    } else {
      TurnedChase(l, t, v, p, cyc, k - 1);
      TurnedIsLink(l, t, v, p, cyc, Chase(t, p, k - 1));
      TurnedIsLink(l, t, v, p, cyc, Chase(t, p, k));
    }
  }

  // ----- the first column

  /** Place j of the first column belongs to byte c. */
  ghost predicate InRun(cft: seq<int>, c: nat, j: int)
    requires c + 1 < |cft|
  {
    cft[c] <= j < cft[c + 1]
  }

  /** BZ2_indexIntoF: binary search for the byte whose run in the first column holds indx. */
  method IndexIntoF(indx: int, cftab: seq<int>) returns (nb: nat)
    requires |cftab| == 257 && cftab[0] <= indx < cftab[256]
    ensures nb < 256 && InRun(cftab, nb, indx)
  {
    nb := 0;
    var na := 256;
    while true
      invariant 0 <= nb < na - 1 < 256 && cftab[nb] <= indx < cftab[na]
      decreases na - nb
    {
      var mid := (nb + na) / 2;
      if indx >= cftab[mid] { nb := mid; } else { na := mid; }
      if na - nb == 1 { break; }
    }
  }

  /** Only one byte has place j in its run of the first column. */
  lemma OneByteAt(l: seq<byte>, j: int, c: int, d: int)
    requires CountLess(l, c) <= j < CountLess(l, c + 1)
    requires CountLess(l, d) <= j < CountLess(l, d + 1)
    ensures c == d
  {
    if c < d { CountMonotone(l, c + 1, d); }
    if d < c { CountMonotone(l, d + 1, c); }
  }

  /** Read k finds in the first column byte s[k] at pos[k], and pointer pos[k] leads
      to pos[k + 1]. */
  ghost predicate SmallRead(v: seq<int>, cft: seq<int>, s: seq<byte>, pos: seq<int>, k: nat)
    requires k < |s| < |pos| && |cft| == 257
  {
    && 0 <= pos[k] < |v| && v[pos[k]] == pos[k + 1]
    && cft[0] <= pos[k] < cft[256]
    && (forall c :: 0 <= c < 256 && InRun(cft, c, pos[k]) ==> c == s[k])
  }

  ghost predicate SmallReads(v: seq<int>, cft: seq<int>, s: seq<byte>, pos: seq<int>) {
    |pos| == |s| + 1 && |cft| == 257 && forall k :: 0 <= k < |s| ==> SmallRead(v, cft, s, pos, k)
  }

  /** The small layout reads what the links spell: the same bytes as the fast one,
      for every last column and every starting place. */
  lemma SmallDelivers(l: seq<byte>, t: seq<int>, v: seq<int>, cft: seq<int>, p: int, cyc: seq<int>, m: nat)
    requires Turned(Slots(l), v, p, cyc) && Here(p, cyc) == p && cyc != [] && IsLinks(l, t) && Below(cft, l)
    requires 0 <= p < |t| && forall i :: 0 <= i < |t| ==> 0 <= t[i] < |t|
    ensures SmallReads(v, cft, Walked(l, t, p, m), Trail(t, p, m + 1))
  {
    var s, pos := Walked(l, t, p, m), Trail(t, p, m + 1);
    CountExtremes(l);
    forall k | 0 <= k < m ensures SmallRead(v, cft, s, pos, k) {
      TurnedChase(l, t, v, p, cyc, k);
      ChaseOneMore(t, p, k);
      LinksInverse(l, t, pos[k]);
      forall c | 0 <= c < 256 && InRun(cft, c, pos[k]) ensures c == s[k] {
        OneByteAt(l, pos[k], c, l[t[pos[k]]]);
      }
    }
  }

  // ----- the links, however they are found

  /** Every last column has links. */
  lemma LinksExist(l: seq<byte>) returns (t: seq<int>)
    ensures IsLinks(l, t)
  {
    SlotsPerm(l);
    t := [];
    for j := 0 to |l|
      invariant |t| == j && forall k :: 0 <= k < j ==> 0 <= t[k] < |l| && Slot(l, t[k]) == k
    {
      var i := PermSurjective(Slots(l), |l|, j);
      t := t + [i];
    }
    forall i | 0 <= i < |l| ensures t[Slot(l, i)] == i {
      var k := t[Slot(l, i)];
      if k != i { PermDistinct(Slots(l), |l|, k, i); }
    }
  }

  /** And only one. */
  lemma LinksUnique(l: seq<byte>, t: seq<int>, u: seq<int>)
    requires IsLinks(l, t) && IsLinks(l, u)
    ensures t == u
  {
    SlotsPerm(l);
    forall j | 0 <= j < |l| ensures t[j] == u[j] {
      var i := PermSurjective(Slots(l), |l|, j);
      assert t[Slot(l, i)] == i && u[Slot(l, i)] == i;
    }
  }
}
