/** Move-to-front lists: the plain list, and the decoder's list of sixteen windows
    sliding down a 4096-byte array. */
module MoveToFront {
  import opened Counting

  /** The list l with its element k moved to the front. */
  function ToFront<T>(l: seq<T>, k: nat): (r: seq<T>)
    requires k < |l|
    ensures |r| == |l| && r[0] == l[k]
    ensures forall i :: 0 < i <= k ==> r[i] == l[i - 1]
    ensures forall i :: k < i < |l| ==> r[i] == l[i]
  {
    [l[k]] + l[..k] + l[k + 1..]
  }

  /** The windows are in bounds, in ascending order and do not overlap. */
  ghost predicate Layout(bs: seq<int>) {
    && |bs| == 16 && 0 <= bs[0] && bs[15] + 16 <= 4096
    && (forall j :: 0 <= j < 15 ==> NextAbove(bs, j))
  }

  ghost predicate NextAbove(bs: seq<int>, j: int) {
    0 <= j < |bs| - 1 && bs[j] + 16 <= bs[j + 1]
  }

  lemma {:induction false} LayoutApart(bs: seq<int>, i: nat, j: nat)
    requires Layout(bs) && i <= j < 16
    ensures bs[i] + 16 * (j - i) <= bs[j]
    ensures 0 <= bs[i] && bs[j] + 16 <= 4096
    decreases j
  {
    if i < j { LayoutApart(bs, i, j - 1); assert NextAbove(bs, j - 1); }
      else { LayoutFromZero(bs, i); LayoutToEnd(bs, i); }
    LayoutToEnd(bs, j);
    LayoutFromZero(bs, i);
  }

  lemma {:induction false} LayoutFromZero(bs: seq<int>, i: nat)
    requires Layout(bs) && i < 16
    ensures 16 * i <= bs[i]
    decreases i
  {
    if i > 0 { LayoutFromZero(bs, i - 1); assert NextAbove(bs, i - 1); }
  }

  lemma {:induction false} LayoutToEnd(bs: seq<int>, i: nat)
    requires Layout(bs) && i < 16
    ensures bs[i] <= 3840 + 16 * i
    decreases 16 - i
  {
    if i < 15 { LayoutToEnd(bs, i + 1); assert NextAbove(bs, i); }
  }

  /** Slot k of window j holds element 16 j + k of the list c. */
  ghost predicate SlotHolds(a: seq<byte>, bs: seq<int>, c: seq<byte>, j: int, k: int) {
    && 0 <= j < |bs| && 0 <= bs[j] + k < |a| && 0 <= 16 * j + k < |c|
    && a[bs[j] + k] == c[16 * j + k]
  }

  /** The windows spell out the list c. */
  ghost predicate Spells(a: seq<byte>, bs: seq<int>, c: seq<byte>) {
    && |a| == 4096 && Layout(bs) && |c| == 256
    && forall j, k {:trigger SlotHolds(a, bs, c, j, k)} ::
         0 <= j < 16 && 0 <= k < 16 ==> SlotHolds(a, bs, c, j, k)
  }

  /** The list spelled by the windows. */
  ghost function Spelled(a: seq<byte>, bs: seq<int>): (c: seq<byte>)
    requires |a| == 4096 && Layout(bs)
    ensures |c| == 256 && Spells(a, bs, c)
  {
    var c := seq(256, t requires 0 <= t < 256 =>
      LayoutApart(bs, t / 16, t / 16);
      a[bs[t / 16] + t % 16]);
    assert Spells(a, bs, c) by {
      forall j, k | 0 <= j < 16 && 0 <= k < 16 ensures SlotHolds(a, bs, c, j, k) {
        LayoutApart(bs, j, j);
        assert (16 * j + k) / 16 == j && (16 * j + k) % 16 == k;
      }
    }
    c
  }

  /** Spelling determines the list. */
  lemma SpellsUnique(a: seq<byte>, bs: seq<int>, c: seq<byte>, d: seq<byte>)
    requires Spells(a, bs, c) && Spells(a, bs, d)
    ensures c == d
  {
    forall t | 0 <= t < 256 ensures c[t] == d[t] {
      var j, k := t / 16, t % 16;
      assert t == 16 * j + k;
      assert SlotHolds(a, bs, c, j, k) && SlotHolds(a, bs, d, j, k);
    }
  }

  // ----- a move within the first window

  /** a with the segment from p to p + n rotated up by one place. */
  ghost predicate Rotated(a: seq<byte>, a': seq<byte>, p: int, n: int) {
    && |a'| == |a| && 0 <= p && 0 <= n && p + n < |a|
    && a'[p] == a[p + n]
    && (forall i :: p < i <= p + n ==> a'[i] == a[i - 1])
    && (forall i :: 0 <= i < |a| && !(p <= i <= p + n) ==> a'[i] == a[i])
  }

  lemma NearMove(a: seq<byte>, a': seq<byte>, bs: seq<int>, c: seq<byte>, nn: nat)
    requires Spells(a, bs, c) && nn < 16 && Rotated(a, a', bs[0], nn)
    ensures Spells(a', bs, ToFront(c, nn))
  {
    var d := ToFront(c, nn);
    forall j, k | 0 <= j < 16 && 0 <= k < 16 ensures SlotHolds(a', bs, d, j, k) {
      LayoutApart(bs, 0, j);
      assert SlotHolds(a, bs, c, j, k);
      if j == 0 && k == 0 { assert SlotHolds(a, bs, c, 0, nn); }
      if j == 0 && 0 < k <= nn { assert SlotHolds(a, bs, c, 0, k - 1); }
    }
  }

  /** The segment above place n already moved up. */
  ghost predicate Shifted(a: seq<byte>, a': seq<byte>, p: int, n: int, top: int) {
    && |a'| == |a| && 0 <= p && 0 <= n <= top && p + top < |a|
    && (forall i :: p + n < i <= p + top ==> a'[i] == a[i - 1])
    && (forall i :: 0 <= i < |a| && !(p + n < i <= p + top) ==> a'[i] == a[i])
  }

  lemma ShiftOne(a: seq<byte>, a': seq<byte>, p: int, n: int, top: int)
    requires Shifted(a, a', p, n, top) && n > 0
    ensures Shifted(a, a'[p + n := a'[p + n - 1]], p, n - 1, top)
  {
  }

  lemma ShiftDone(a: seq<byte>, a': seq<byte>, p: int, top: int)
    requires Shifted(a, a', p, 0, top)
    ensures Rotated(a, a'[p := a[p + top]], p, top)
  {
  }

  /** The case nn < 16: shift within the first window, four at a time, then singly. */
  method MoveNear(mtfa: array<byte>, pp: int, n0: int) returns (uc: byte)
    requires 0 <= pp && 0 <= n0 && pp + n0 < mtfa.Length
    modifies mtfa
    ensures uc == old(mtfa[pp + n0]) && Rotated(old(mtfa[..]), mtfa[..], pp, n0)
  {
    ghost var a := mtfa[..];
    uc := mtfa[pp + n0];
    var nn := n0;
    assert Shifted(a, a, pp, nn, n0);
    hide Shifted, Rotated;
    while nn > 3
      invariant 0 <= nn <= n0 && Shifted(a, mtfa[..], pp, nn, n0)
    {
      var z := pp + nn;
      ShiftInto(mtfa, z, a, pp, nn, n0);
      ShiftInto(mtfa, z - 1, a, pp, nn - 1, n0);
      ShiftInto(mtfa, z - 2, a, pp, nn - 2, n0);
      ShiftInto(mtfa, z - 3, a, pp, nn - 3, n0);
      nn := nn - 4;
    }
    while nn > 0
      invariant 0 <= nn <= n0 && Shifted(a, mtfa[..], pp, nn, n0)
    {
      ShiftInto(mtfa, pp + nn, a, pp, nn, n0);
      nn := nn - 1;
    }
    ShiftDone(a, mtfa[..], pp, n0);
    ghost var b := mtfa[..];
    mtfa[pp] := uc;
    assert mtfa[..] == b[pp := uc];
  }

  /** mtfa[z] = mtfa[z - 1] */
  method ShiftInto(mtfa: array<byte>, z: int, ghost a: seq<byte>, ghost p: int, ghost n: int, ghost top: int)
    requires Shifted(a, mtfa[..], p, n, top) && n > 0 && z == p + n
    modifies mtfa
    ensures Shifted(a, mtfa[..], p, n - 1, top)
  {
    ghost var b := mtfa[..];
    ShiftOne(a, b, p, n, top);
    mtfa[z] := mtfa[z - 1];
    assert mtfa[..] == b[p + n := b[p + n - 1]];
  }

  // ----- a move from a later window

  /** The bases after a move from window lno: all lower windows one place down. */
  function Lowered(bs: seq<int>, lno: int): (r: seq<int>)
    requires |bs| == 16
    ensures |r| == 16 && forall j :: 0 <= j < 16 ==> r[j] == if j < lno then bs[j] - 1 else bs[j]
  {
    seq(16, j requires 0 <= j < 16 => if j < lno then bs[j] - 1 else bs[j])
  }

  lemma LoweredLayout(bs: seq<int>, lno: int)
    requires Layout(bs) && bs[0] > 0 && 0 < lno < 16
    ensures Layout(Lowered(bs, lno))
  {
    var nb := Lowered(bs, lno);
    forall j | 0 <= j < 15 ensures NextAbove(nb, j) {
      assert NextAbove(bs, j);
    }
  }

  /** The move of element nn, from window lno of list c at bases bs0, while the
      windows above l are finished and window l still lacks its first slot. */
  ghost predicate FarState(a: seq<byte>, bs: seq<int>, c: seq<byte>, bs0: seq<int>, lno: int, nn: int, l: int) {
    && |a| == 4096 && Layout(bs0) && bs0[0] > 0 && |c| == 256 && |bs| == 16
    && 0 <= l <= lno < 16 && 0 < lno && 16 * lno <= nn < 16 * lno + 16
    && (forall j :: 0 <= j < 16 ==>
          bs[j] == if j < l then bs0[j] else if j == l then Lowered(bs0, lno)[j] + 1 else Lowered(bs0, lno)[j])
    && (forall j, k {:trigger SlotHolds(a, Lowered(bs0, lno), ToFront(c, nn), j, k)} ::
          l <= j < 16 && (if j == l then 1 else 0) <= k < 16 ==>
            SlotHolds(a, Lowered(bs0, lno), ToFront(c, nn), j, k))
    && (forall j, k {:trigger SlotHolds(a, bs0, c, j, k)} ::
          0 <= j < l && 0 <= k < 16 ==> SlotHolds(a, bs0, c, j, k))
  }

  lemma FarStart(a: seq<byte>, a': seq<byte>, bs0: seq<int>, c: seq<byte>, lno: int, nn: int)
    requires Spells(a, bs0, c) && bs0[0] > 0 && 0 < lno < 16 && 16 * lno <= nn < 16 * lno + 16
    requires Shifted(a, a', bs0[lno], 0, nn - 16 * lno)
    ensures FarState(a', bs0[lno := bs0[lno] + 1], c, bs0, lno, nn, lno)
  {
    var nb, d := Lowered(bs0, lno), ToFront(c, nn);
    forall j, k | lno <= j < 16 && (if j == lno then 1 else 0) <= k < 16 ensures SlotHolds(a', nb, d, j, k) {
      LayoutApart(bs0, lno, j);
      assert SlotHolds(a, bs0, c, j, k);
      if j == lno && k <= nn - 16 * lno { assert SlotHolds(a, bs0, c, j, k - 1); }
    }
    forall j, k | 0 <= j < lno && 0 <= k < 16 ensures SlotHolds(a', bs0, c, j, k) {
      LayoutApart(bs0, j, lno);
      assert SlotHolds(a, bs0, c, j, k);
    }
  }

  lemma FarFacts(a: seq<byte>, bs: seq<int>, c: seq<byte>, bs0: seq<int>, lno: int, nn: int, l: int)
    requires FarState(a, bs, c, bs0, lno, nn, l)
    ensures |a| == 4096 && |bs| == 16 && 0 <= bs[l] - 1 == Lowered(bs0, lno)[l] < 4096
    ensures l > 0 ==> bs[l - 1] == bs0[l - 1] && 0 <= bs0[l - 1] + 15 < 4096
  {
    LayoutApart(bs0, 0, l);
    if l > 0 { LayoutApart(bs0, l - 1, l - 1); }
  }

  lemma FarStepSlot(a: seq<byte>, bs: seq<int>, c: seq<byte>, bs0: seq<int>, lno: int, nn: int, l: int, j: int,
                    k: int)
    requires FarState(a, bs, c, bs0, lno, nn, l) && l > 0
    requires l - 1 <= j < 16 && (if j == l - 1 then 1 else 0) <= k < 16
    ensures 0 <= Lowered(bs0, lno)[l] < 4096 && 0 <= bs0[l - 1] + 15 < 4096
    ensures SlotHolds(a[Lowered(bs0, lno)[l] := a[bs0[l - 1] + 15]], Lowered(bs0, lno), ToFront(c, nn), j, k)
  {
    FarFacts(a, bs, c, bs0, lno, nn, l);
    LayoutApart(bs0, l - 1, l);
    if j == l - 1 {
      assert SlotHolds(a, bs0, c, j, k - 1);
    } else if j == l && k == 0 {
      assert SlotHolds(a, bs0, c, l - 1, 15);
    } else {
      assert SlotHolds(a, Lowered(bs0, lno), ToFront(c, nn), j, k);
      LayoutApart(bs0, l, j);
    }
  }

  lemma FarStep(a: seq<byte>, bs: seq<int>, c: seq<byte>, bs0: seq<int>, lno: int, nn: int, l: int)
    requires FarState(a, bs, c, bs0, lno, nn, l) && l > 0
    ensures 0 <= bs[l] - 1 < 4096 && 0 <= bs[l - 1] + 15 < 4096
    ensures FarState(a[bs[l] - 1 := a[bs[l - 1] + 15]], bs[l := bs[l] - 1], c, bs0, lno, nn, l - 1)
  {
    FarFacts(a, bs, c, bs0, lno, nn, l);
    var nb, d := Lowered(bs0, lno), ToFront(c, nn);
    var a' := a[nb[l] := a[bs0[l - 1] + 15]];
    forall j, k | l - 1 <= j < 16 && (if j == l - 1 then 1 else 0) <= k < 16 ensures SlotHolds(a', nb, d, j, k) {
      FarStepSlot(a, bs, c, bs0, lno, nn, l, j, k);
    }
    forall j, k | 0 <= j < l - 1 && 0 <= k < 16 ensures SlotHolds(a', bs0, c, j, k) {
      LayoutApart(bs0, j, l);
      assert SlotHolds(a, bs0, c, j, k);
    }
  }

  lemma FarEnd(a: seq<byte>, bs: seq<int>, c: seq<byte>, bs0: seq<int>, lno: int, nn: int)
    requires FarState(a, bs, c, bs0, lno, nn, 0)
    ensures 0 <= bs[0] - 1 < 4096
    ensures Spells(a[bs[0] - 1 := c[nn]], bs[0 := bs[0] - 1], ToFront(c, nn))
  {
    FarFacts(a, bs, c, bs0, lno, nn, 0);
    LoweredLayout(bs0, lno);
    var nb, d := Lowered(bs0, lno), ToFront(c, nn);
    assert bs[0 := bs[0] - 1] == nb;
    var a' := a[nb[0] := c[nn]];
    forall j, k | 0 <= j < 16 && 0 <= k < 16 ensures SlotHolds(a', nb, d, j, k) {
      LayoutApart(nb, 0, j);
      if !(j == 0 && k == 0) { assert SlotHolds(a, nb, d, j, k); }
    }
  }

  /** The general case up to the point where the moved byte is stored. */
  method MoveFar(mtfa: array<byte>, mtfbase: array<int>, nn: int, ghost c: seq<byte>) returns (uc: byte)
    requires mtfa as object != mtfbase
    requires 16 <= nn < 256 && Spells(mtfa[..], mtfbase[..], c) && mtfbase[..][0] > 0
    modifies mtfa, mtfbase
    ensures uc == c[nn] && Spells(mtfa[..], mtfbase[..], ToFront(c, nn))
  {
    hide *;
    ghost var a, bs0 := mtfa[..], mtfbase[..];
    var lno, off := nn / 16, nn % 16;
    FarReads(a, bs0, c, lno, off);
    var pp := mtfbase[lno] + off;
    uc := mtfa[pp];
    var base := mtfbase[lno];
    ShiftNone(a, base, off);
    while pp > base
      invariant base <= pp <= base + off && Shifted(a, mtfa[..], base, pp - base, off)
      invariant mtfbase[..] == bs0
    {
      ShiftInto(mtfa, pp, a, base, pp - base, off);
      pp := pp - 1;
    }
    FarStart(a, mtfa[..], bs0, c, lno, nn);
    mtfbase[lno] := mtfbase[lno] + 1;
    assert mtfbase[..] == bs0[lno := bs0[lno] + 1];
    ghost var lno0 := lno;
    while lno > 0
      invariant 0 <= lno <= lno0 && FarState(mtfa[..], mtfbase[..], c, bs0, lno0, nn, lno)
    {
      StepDown(mtfa, mtfbase, lno, c, bs0, lno0, nn);
      lno := lno - 1;
    }
    FarEnd(mtfa[..], mtfbase[..], c, bs0, lno0, nn);
    FarFacts(mtfa[..], mtfbase[..], c, bs0, lno0, nn, 0);
    ghost var a1, bs1 := mtfa[..], mtfbase[..];
    mtfbase[0] := mtfbase[0] - 1;
    assert mtfbase[..] == bs1[0 := bs1[0] - 1];
    mtfa[mtfbase[0]] := uc;
    assert mtfa[..] == a1[bs1[0] - 1 := uc];
  }

  lemma FarReads(a: seq<byte>, bs: seq<int>, c: seq<byte>, lno: int, off: int)
    requires Spells(a, bs, c) && 0 <= lno < 16 && 0 <= off < 16
    ensures |bs| == 16 && |a| == 4096 && |c| == 256 && 0 <= bs[lno] && bs[lno] + 16 <= 4096
    ensures a[bs[lno] + off] == c[16 * lno + off]
  {
    assert SlotHolds(a, bs, c, lno, off);
    LayoutApart(bs, lno, lno);
  }

  lemma ShiftNone(a: seq<byte>, p: int, n: int)
    requires 0 <= p && 0 <= n && p + n < |a|
    ensures Shifted(a, a, p, n, n)
  {
  }

  /** One window down: it takes over the last byte of the window below. */
  method StepDown(mtfa: array<byte>, mtfbase: array<int>, lno: int, ghost c: seq<byte>, ghost bs0: seq<int>,
                  ghost lno0: int, ghost nn: int)
    requires mtfa as object != mtfbase
    requires FarState(mtfa[..], mtfbase[..], c, bs0, lno0, nn, lno) && lno > 0
    modifies mtfa, mtfbase
    ensures FarState(mtfa[..], mtfbase[..], c, bs0, lno0, nn, lno - 1)
  {
    hide *;
    ghost var a, bs := mtfa[..], mtfbase[..];
    FarFacts(a, bs, c, bs0, lno0, nn, lno);
    FarStep(a, bs, c, bs0, lno0, nn, lno);
    FarLevel(a, bs, c, bs0, lno0, nn, lno);
    mtfbase[lno] := mtfbase[lno] - 1;
    assert mtfbase[..] == bs[lno := bs[lno] - 1];
    mtfa[mtfbase[lno]] := mtfa[mtfbase[lno - 1] + 16 - 1];
    assert mtfa[..] == a[bs[lno] - 1 := a[bs[lno - 1] + 15]];
  }

  lemma FarLevel(a: seq<byte>, bs: seq<int>, c: seq<byte>, bs0: seq<int>, lno: int, nn: int, l: int)
    requires FarState(a, bs, c, bs0, lno, nn, l)
    ensures 0 <= l <= lno < 16
  {
  }

  // ----- rebuilding the windows at the top of the array

  /** The bases of the rebuilt windows. */
  function TopBases(): (r: seq<int>)
    ensures |r| == 16 && forall j :: 0 <= j < 16 ==> r[j] == 3840 + 16 * j
  {
    seq(16, j => 3840 + 16 * j)
  }

  /** Elements from place t on are copied to the top; those below are where they were. */
  ghost predicate Rebuilding(a: seq<byte>, bs: seq<int>, c: seq<byte>, bs0: seq<int>, t: int) {
    && |a| == 4096 && Layout(bs0) && |c| == 256 && |bs| == 16 && 0 <= t <= 256
    && (forall j :: 0 <= j < 16 ==> bs[j] == if t <= 16 * j then 3840 + 16 * j else bs0[j])
    && (forall j, k {:trigger SlotHolds(a, bs0, c, j, k)} ::
          0 <= j < 16 && 0 <= k < 16 && 16 * j + k < t ==> SlotHolds(a, bs0, c, j, k))
    && (forall j, k {:trigger SlotHolds(a, TopBases(), c, j, k)} ::
          0 <= j < 16 && 0 <= k < 16 && 16 * j + k >= t ==> SlotHolds(a, TopBases(), c, j, k))
  }

  lemma RebuildFacts(a: seq<byte>, bs: seq<int>, c: seq<byte>, bs0: seq<int>, ii: int, jj: int)
    requires Rebuilding(a, bs, c, bs0, 16 * ii + jj + 1) && 0 <= ii < 16 && 0 <= jj < 16
    ensures |a| == 4096 && |bs| == 16 && |c| == 256 && 0 <= bs[ii] <= 3840 + 16 * ii
    ensures bs[ii] == bs0[ii] && a[bs[ii] + jj] == c[16 * ii + jj]
  {
    assert SlotHolds(a, bs0, c, ii, jj);
    LayoutApart(bs0, ii, ii);
    LayoutToEnd(bs0, ii);
  }

  lemma RebuildStep(a: seq<byte>, bs: seq<int>, c: seq<byte>, bs0: seq<int>, ii: int, jj: int)
    requires Rebuilding(a, bs, c, bs0, 16 * ii + jj + 1) && 0 <= ii < 16 && 0 <= jj < 16
    ensures Rebuilding(a[3840 + 16 * ii + jj := c[16 * ii + jj]],
                       if jj == 0 then bs[ii := 3840 + 16 * ii] else bs, c, bs0, 16 * ii + jj)
  {
    var t := 16 * ii + jj;
    var a' := a[3840 + t := c[t]];
    forall j, k | 0 <= j < 16 && 0 <= k < 16 && 16 * j + k < t ensures SlotHolds(a', bs0, c, j, k) {
      assert SlotHolds(a, bs0, c, j, k);
      LayoutToEnd(bs0, j);
    }
    forall j, k | 0 <= j < 16 && 0 <= k < 16 && 16 * j + k >= t ensures SlotHolds(a', TopBases(), c, j, k) {
      if 16 * j + k > t { assert SlotHolds(a, TopBases(), c, j, k); }
    }
  }

  lemma RebuildStarts(a: seq<byte>, bs: seq<int>, c: seq<byte>)
    requires Spells(a, bs, c)
    ensures Rebuilding(a, bs, c, bs, 256)
  {
  }

  lemma RebuildEnds(a: seq<byte>, bs: seq<int>, c: seq<byte>, bs0: seq<int>)
    requires Rebuilding(a, bs, c, bs0, 0)
    ensures Spells(a, bs, c) && bs[0] == 3840
  {
    assert bs == TopBases();
    forall j | 0 <= j < 15 ensures NextAbove(bs, j) { }
    forall j, k | 0 <= j < 16 && 0 <= k < 16 ensures SlotHolds(a, bs, c, j, k) {
      assert SlotHolds(a, TopBases(), c, j, k);
    }
  }

  /** Copies the windows to the top of the array, last element first. */
  method Rebuild(mtfa: array<byte>, mtfbase: array<int>, ghost c: seq<byte>)
    requires mtfa as object != mtfbase && Spells(mtfa[..], mtfbase[..], c)
    modifies mtfa, mtfbase
    ensures Spells(mtfa[..], mtfbase[..], c) && mtfbase[..][0] == 3840
  {
    hide *;
    ghost var bs0 := mtfbase[..];
    RebuildStarts(mtfa[..], bs0, c);
    var kk := 4096 - 1;
    var ii := 16 - 1;
    while ii >= 0
      invariant -1 <= ii <= 15 && kk == 3840 + 16 * ii + 15
      invariant Rebuilding(mtfa[..], mtfbase[..], c, bs0, 16 * ii + 16)
    {
      kk := RebuildWindow(mtfa, mtfbase, ii, kk, c, bs0);
      ii := ii - 1;
    }
    RebuildEnds(mtfa[..], mtfbase[..], c, bs0);
  }

  /** One window of the rebuilding loop. */
  method RebuildWindow(mtfa: array<byte>, mtfbase: array<int>, ii: int, kk0: int, ghost c: seq<byte>,
                       ghost bs0: seq<int>)
    returns (kk: int)
    requires mtfa as object != mtfbase && 0 <= ii < 16 && kk0 == 3840 + 16 * ii + 15
    requires Rebuilding(mtfa[..], mtfbase[..], c, bs0, 16 * ii + 16)
    modifies mtfa, mtfbase
    ensures kk == kk0 - 16 && Rebuilding(mtfa[..], mtfbase[..], c, bs0, 16 * ii)
  {
    hide *;
    kk := kk0;
    ghost var bs := mtfbase[..];
    var jj := 16 - 1;
    while jj > 0
      invariant 0 <= jj <= 15 && kk == 3840 + 16 * ii + jj && mtfbase[..] == bs
      invariant Rebuilding(mtfa[..], bs, c, bs0, 16 * ii + jj + 1)
    {
      kk := CopyUp(mtfa, mtfbase, ii, jj, kk, c, bs0);
      jj := jj - 1;
    }
    ghost var a := mtfa[..];
    RebuildFacts(a, bs, c, bs0, ii, 0);
    RebuildStep(a, bs, c, bs0, ii, 0);
    mtfa[kk] := mtfa[mtfbase[ii] + jj];
    kk := kk - 1;
    assert mtfa[..] == a[3840 + 16 * ii + 0 := c[16 * ii + 0]];
    mtfbase[ii] := kk + 1;
    assert mtfbase[..] == bs[ii := 3840 + 16 * ii];
  }

  method CopyUp(mtfa: array<byte>, mtfbase: array<int>, ii: int, jj: int, kk: int, ghost c: seq<byte>,
                ghost bs0: seq<int>)
    returns (kk': int)
    requires mtfa as object != mtfbase && 0 <= ii < 16 && 0 < jj < 16 && kk == 3840 + 16 * ii + jj
    requires Rebuilding(mtfa[..], mtfbase[..], c, bs0, 16 * ii + jj + 1)
    modifies mtfa
    ensures kk' == kk - 1 && Rebuilding(mtfa[..], mtfbase[..], c, bs0, 16 * ii + jj)
  {
    hide *;
    ghost var a := mtfa[..];
    RebuildFacts(a, mtfbase[..], c, bs0, ii, jj);
    RebuildStep(a, mtfbase[..], c, bs0, ii, jj);
    mtfa[kk] := mtfa[mtfbase[ii] + jj];
    assert mtfa[..] == a[3840 + 16 * ii + jj := c[16 * ii + jj]];
    kk' := kk - 1;
  }

  // ----- the decoder's list

  /** The bytes in ascending order: the list before the first move. */
  function InitialList(n: nat): (r: seq<byte>)
    requires n <= 256
    ensures |r| == n && forall i :: 0 <= i < n ==> r[i] == i
  {
    seq(n, i requires 0 <= i < n => i as byte)
  }

  /** The sixteen windows of the decoder. */
  class Windows {
    const mtfa: array<byte>
    const mtfbase: array<int>

    /** The windows are laid out properly and room is left for one more move. */
    ghost predicate Valid()
      reads this, mtfa, mtfbase
    {
      && mtfa.Length == 4096 && mtfbase.Length == 16 && mtfa as object != mtfbase
      && Layout(mtfbase[..]) && mtfbase[0] > 0
    }

    /** The 256 bytes in list order. */
    ghost function Contents(): (c: seq<byte>)
      reads this, mtfa, mtfbase
      requires Valid()
      ensures Spells(mtfa[..], mtfbase[..], c)
    {
      Spelled(mtfa[..], mtfbase[..])
    }

    /** MTF init. */
    constructor ()
      ensures Valid() && fresh(mtfa) && fresh(mtfbase) && Contents() == InitialList(256)
    {
      var a := new byte[4096](i requires 0 <= i < 4096 => if i < 3840 then 0 else (i - 3840) as byte);
      var bs := new int[16](i => 3840 + 16 * i);
      mtfa := a;
      mtfbase := bs;
      new;
      InitSpells(mtfa[..], mtfbase[..]);
      SpellsUnique(mtfa[..], mtfbase[..], Contents(), InitialList(256));
    }

    /** uc = MTF(nn): returns element nn of the list and moves it to the front. */
    method MoveToFront(nn: nat) returns (uc: byte)
      requires Valid() && nn < 256
      modifies mtfa, mtfbase
      ensures Valid()
      ensures uc == old(Contents())[nn] && Contents() == ToFront(old(Contents()), nn)
    {
      ghost var a, bs, c := mtfa[..], mtfbase[..], Contents();
      if nn < 16 {
        FarReads(a, bs, c, 0, nn);
        uc := MoveNear(mtfa, mtfbase[0], nn);
        NearMove(a, mtfa[..], bs, c, nn);
      } else {
        uc := MoveFar(mtfa, mtfbase, nn, c);
        if mtfbase[0] == 0 {
          Rebuild(mtfa, mtfbase, ToFront(c, nn));
        }
      }
      assert Spells(mtfa[..], mtfbase[..], ToFront(c, nn));
      SpellsUnique(mtfa[..], mtfbase[..], Contents(), ToFront(c, nn));
    }
  }

  lemma InitSpells(a: seq<byte>, bs: seq<int>)
    requires |a| == 4096 && |bs| == 16
    requires forall i :: 3840 <= i < 4096 ==> a[i] == i - 3840
    requires forall j :: 0 <= j < 16 ==> bs[j] == 3840 + 16 * j
    ensures Spells(a, bs, InitialList(256))
  {
    forall j | 0 <= j < 15 ensures NextAbove(bs, j) { }
  }
}
