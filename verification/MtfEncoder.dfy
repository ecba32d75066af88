/** generateMTFValues: coding the last column into the very array that still holds
    the sorted pointers. */
module MtfEncoder {
  import opened Counting
  import opened Rotations
  import opened InverseBwt
  import opened MoveToFront
  import opened MtfCoding
  import opened ByteMaps

  // ----- one array, two views

  /** The 32-bit view of the array: pointer i occupies halfwords 2i and 2i + 1. */
  function Pointer(h: seq<int>, i: nat): int
    requires 2 * i + 1 < |h|
  {
    h[2 * i] + 0x10000 * h[2 * i + 1]
  }

  /** From place i on the array still holds the pointers f. */
  ghost predicate HoldsFrom(h: seq<int>, f: seq<int>, i: nat) {
    |h| == 2 * |f| && forall k :: i <= k < |f| ==> Pointer(h, k) == f[k]
  }

  // ----- symbols written so far, and their frequencies

  /** The 16-bit view holds the symbols written, freq counts them. */
  ghost predicate Written(h: seq<int>, freq: seq<int>, wr: nat, syms: seq<int>) {
    && wr <= |h| && h[..wr] == syms && |freq| == 258
    && forall v :: 0 <= v < 258 ==> freq[v] == Occ(syms, v)
  }

  lemma WrittenStep(h: seq<int>, freq: seq<int>, wr: nat, syms: seq<int>, v: int)
    requires Written(h, freq, wr, syms) && wr < |h| && 0 <= v < 258
    ensures Written(h[wr := v], freq[v := freq[v] + 1], wr + 1, syms + [v])
  {
    assert (syms + [v])[..|syms|] == syms;
    assert h[wr := v][..wr + 1] == h[..wr] + [v];
  }

  /** mtfv[wr] = v; wr++; mtfFreq[v]++ */
  method Emit(arr1: array<int>, freq: array<int>, wr: nat, v: int, ghost syms: seq<int>) returns (wr': nat)
    requires arr1 != freq && Written(arr1[..], freq[..], wr, syms) && wr < arr1.Length && 0 <= v < 258
    modifies arr1, freq
    ensures wr' == wr + 1 && Written(arr1[..], freq[..], wr', syms + [v])
    ensures arr1[..][wr'..] == old(arr1[..])[wr'..]
  {
    hide *;
    ghost var h, q := arr1[..], freq[..];
    WrittenStep(h, q, wr, syms, v);
    WrittenRoom(h, q, wr, syms);
    arr1[wr] := v;
    freq[v] := freq[v] + 1;
    wr' := wr + 1;
    assert arr1[..] == h[wr := v];
    assert freq[..] == q[v := q[v] + 1];
  }

  lemma WrittenRoom(h: seq<int>, freq: seq<int>, wr: nat, syms: seq<int>)
    requires Written(h, freq, wr, syms)
    ensures |freq| == 258 && |syms| == wr <= |h|
  {
  }

  lemma {:induction false} DigitsShort(p: nat)
    ensures 1 <= |Digits(p)| <= p + 1
  {
    if p >= 2 { DigitsShort((p - 2) / 2); }
  }

  lemma DigitsUnfold(p: nat)
    ensures Digits(p) == [if p % 2 == 1 then RUNB else RUNA] + (if p < 2 then [] else Digits((p - 2) / 2))
  {
  }

  /** Writes out zPend > 0 pending zeroes as run digits. */
  method EmitRun(arr1: array<int>, freq: array<int>, wr: nat, zPend0: nat, ghost syms: seq<int>) returns (wr': nat)
    requires arr1 != freq && Written(arr1[..], freq[..], wr, syms)
    requires zPend0 > 0 && wr + zPend0 <= arr1.Length
    modifies arr1, freq
    ensures wr < wr' <= wr + zPend0
    ensures Written(arr1[..], freq[..], wr', syms + RunDigits(zPend0))
    ensures arr1[..][wr'..] == old(arr1[..])[wr'..]
  {
    ghost var goal := syms + RunDigits(zPend0);
    hide *;
    var zPend := zPend0 - 1;
    wr' := wr;
    ghost var s := syms;
    RunDigitsOf(zPend0);
    DigitsShort(zPend);
    while true
      invariant 0 <= zPend
      invariant wr <= wr' && wr' + |Digits(zPend)| <= wr + zPend0 && 1 <= |Digits(zPend)|
      invariant Written(arr1[..], freq[..], wr', s) && s + Digits(zPend) == goal
      invariant arr1[..][wr'..] == old(arr1[..])[wr'..]
      decreases zPend
    {
      DigitsUnfold(zPend);
      ghost var h := arr1[..];
      var d := if zPend % 2 == 1 then 1 else 0;
      DigitNames();
      wr' := Emit(arr1, freq, wr', d, s);
      TailKept(old(arr1[..]), h, arr1[..], wr' - 1, wr');
      ghost var s' := s;
      s := s + [d];
      if zPend < 2 {
        assert s' + ([d] + []) == s;
        break;
      }
      zPend := (zPend - 2) / 2;
      DigitsShort(zPend);
      assert s' + ([d] + Digits(zPend)) == s + Digits(zPend);
    }
  }

  lemma DigitNames()
    ensures RUNA == 0 && RUNB == 1
  {
  }

  lemma RunDigitsOf(z: nat)
    requires z > 0
    ensures RunDigits(z) == Digits(z - 1)
  {
  }

  lemma TailKept(h0: seq<int>, h: seq<int>, h': seq<int>, wr: nat, wr': nat)
    requires |h0| == |h| == |h'| && wr <= wr' <= |h|
    requires h[wr..] == h0[wr..] && h'[wr'..] == h[wr'..]
    ensures h'[wr'..] == h0[wr'..]
  {
    assert h[wr..][wr' - wr..] == h[wr'..];
    assert h0[wr..][wr' - wr..] == h0[wr'..];
  }

  lemma PointersKept(h: seq<int>, h': seq<int>, f: seq<int>, wr: nat, i: nat)
    requires HoldsFrom(h, f, i) && |h'| == |h| && wr <= 2 * i <= |h| && h'[wr..] == h[wr..]
    ensures HoldsFrom(h', f, i)
  {
    forall k | i <= k < |f| ensures Pointer(h', k) == f[k] {
      assert h'[2 * k] == h'[wr..][2 * k - wr] && h'[2 * k + 1] == h'[wr..][2 * k + 1 - wr];
      assert h[2 * k] == h[wr..][2 * k - wr] && h[2 * k + 1] == h[wr..][2 * k + 1 - wr];
      assert Pointer(h, k) == f[k];
    }
  }

  // ----- the list

  /** The list while the searched value has not been met up to place j. */
  ghost predicate Searching(y0: seq<byte>, y: seq<byte>, j: nat, x: byte) {
    && |y| == |y0| && 1 <= j < |y0|
    && (forall k :: 0 <= k < j ==> y0[k] != x)
    && (forall k :: 1 <= k <= j ==> y[k] == y0[k - 1])
    && (forall k :: j < k < |y0| ==> y[k] == y0[k])
  }

  lemma SearchNext(y0: seq<byte>, y: seq<byte>, j: nat, x: byte)
    requires Searching(y0, y, j, x) && x in y0 && y0[j] != x
    ensures j + 1 < |y0| && Searching(y0, y[j + 1 := y0[j]], j + 1, x) && y[j + 1] == y0[j + 1]
  {
    var m :| 0 <= m < |y0| && y0[m] == x;
  }

  lemma SearchFound(y0: seq<byte>, y: seq<byte>, j: nat, x: byte)
    requires Searching(y0, y, j, x) && y0[j] == x
    ensures y[0 := x] == ToFront(y0, j) && x in y0 && IndexOf(y0, x) == j
  {
  }

  /** Moves ll_i to the front of yy by shifting while searching. */
  method SearchToFront(yy: array<byte>, ll_i: byte) returns (j: nat)
    requires ll_i in yy[..] && yy[..][0] != ll_i
    modifies yy
    ensures j < yy.Length && old(ll_i in yy[..]) && j == IndexOf(old(yy[..]), ll_i)
    ensures yy[..] == ToFront(old(yy[..]), j)
  {
    ghost var y0 := yy[..];
    var rtmp := yy[1];
    yy[1] := yy[0];
    j := 1;
    ghost var y := yy[..];
    while ll_i != rtmp
      invariant yy[..] == y && Searching(y0, y, j, ll_i) && rtmp == y0[j]
      decreases yy.Length - j
    {
      SearchNext(y0, y, j, ll_i);
      j := j + 1;
      var rtmp2 := rtmp;
      rtmp := yy[j];
      yy[j] := rtmp2;
      y := y[j := rtmp2];
    }
    SearchFound(y0, y, j, ll_i);
    yy[0] := rtmp;
    assert yy[..] == y[0 := ll_i];
  }

  // ----- the coding loop

  /** After i values: what is written and what is still to be emitted make up goal,
      and writing has not caught up with the pointers still to be read. */
  ghost predicate Coding(h: seq<int>, freq: seq<int>, wr: nat, zPend: nat, yy: seq<byte>, f: seq<int>, i: nat,
                         syms: seq<int>, ls: seq<byte>, goal: seq<int>) {
    && Written(h, freq, wr, syms) && HoldsFrom(h, f, i)
    && i <= |f| == |ls| && wr + zPend <= i && yy != []
    && AllIn(ls[i..], yy)
    && syms + Encode(yy, zPend, ls[i..]) == goal
  }

  lemma CodingStarts(h: seq<int>, freq: seq<int>, f: seq<int>, n: nat, ls: seq<byte>)
    requires HoldsFrom(h, f, 0) && |f| == |ls| && 1 <= n <= 256
    requires |freq| == 258 && forall v :: 0 <= v < 258 ==> freq[v] == 0
    requires forall k :: 0 <= k < |ls| ==> ls[k] < n
    ensures AllIn(ls, InitialList(n))
    ensures Coding(h, freq, 0, 0, InitialList(n), f, 0, [], ls, Encode(InitialList(n), 0, ls))
  {
    forall k | 0 <= k < |ls| ensures ls[k] in InitialList(n) { assert InitialList(n)[ls[k]] == ls[k]; }
    assert ls[0..] == ls;
  }

  lemma CodingFacts(h: seq<int>, freq: seq<int>, wr: nat, zPend: nat, yy: seq<byte>, f: seq<int>, i: nat,
                    syms: seq<int>, ls: seq<byte>, goal: seq<int>)
    requires Coding(h, freq, wr, zPend, yy, f, i, syms, ls, goal)
    ensures |h| == 2 * |f| && |f| == |ls| && wr + zPend <= i <= |f| && yy != []
    ensures Written(h, freq, wr, syms) && HoldsFrom(h, f, i)
    ensures i < |f| ==> ls[i] in yy && Pointer(h, i) == f[i]
  {
    if i < |f| { assert ls[i..][0] == ls[i]; }
  }

  lemma CodingZero(h: seq<int>, freq: seq<int>, wr: nat, zPend: nat, yy: seq<byte>, f: seq<int>, i: nat,
                   syms: seq<int>, ls: seq<byte>, goal: seq<int>)
    requires Coding(h, freq, wr, zPend, yy, f, i, syms, ls, goal) && i < |f| && ls[i] == yy[0]
    ensures Coding(h, freq, wr, zPend + 1, yy, f, i + 1, syms, ls, goal)
  {
    assert ls[i..][1..] == ls[i + 1..];
  }

  /** After a value that is not at the front: the run, then the place. */
  lemma CodingMove(h: seq<int>, h': seq<int>, freq: seq<int>, freq': seq<int>, wr: nat, wr': nat, zPend: nat,
                   yy: seq<byte>, f: seq<int>, i: nat, syms: seq<int>, ls: seq<byte>, goal: seq<int>, k: nat)
    requires Coding(h, freq, wr, zPend, yy, f, i, syms, ls, goal) && i < |f| && ls[i] in yy && ls[i] != yy[0]
    requires k == IndexOf(yy, ls[i]) && wr' <= i + 1
    requires Written(h', freq', wr', syms + RunDigits(zPend) + [k + 1])
    requires |h'| == |h| && h'[wr'..] == h[wr'..]
    ensures Coding(h', freq', wr', 0, ToFront(yy, k), f, i + 1, syms + RunDigits(zPend) + [k + 1], ls, goal)
  {
    hide *;
    CodingNext(h, freq, wr, zPend, yy, f, i, syms, ls, goal);
    PointersKept(h, h', f, wr', i + 1);
    var l := ls[i..];
    EncodeMove(yy, zPend, l);
    assert l[1..] == ls[i + 1..];
    var more := Encode(ToFront(yy, k), 0, l[1..]);
    assert syms + (RunDigits(zPend) + [k + 1] + more) == syms + RunDigits(zPend) + [k + 1] + more;
    MakeCoding(h', freq', wr', 0, ToFront(yy, k), f, i + 1, syms + RunDigits(zPend) + [k + 1], ls, goal);
  }

  lemma MakeCoding(h: seq<int>, freq: seq<int>, wr: nat, zPend: nat, yy: seq<byte>, f: seq<int>, i: nat,
                   syms: seq<int>, ls: seq<byte>, goal: seq<int>)
    requires Written(h, freq, wr, syms) && HoldsFrom(h, f, i)
    requires i <= |f| == |ls| && wr + zPend <= i && yy != [] && AllIn(ls[i..], yy)
    requires syms + Encode(yy, zPend, ls[i..]) == goal
    ensures Coding(h, freq, wr, zPend, yy, f, i, syms, ls, goal)
  {
  }

  lemma CodingNext(h: seq<int>, freq: seq<int>, wr: nat, zPend: nat, yy: seq<byte>, f: seq<int>, i: nat,
                   syms: seq<int>, ls: seq<byte>, goal: seq<int>)
    requires Coding(h, freq, wr, zPend, yy, f, i, syms, ls, goal) && i < |f|
    ensures HoldsFrom(h, f, i + 1) && |h| == 2 * |f| && |f| == |ls| && yy != []
    ensures ls[i..] != [] && ls[i..][0] == ls[i] && AllIn(ls[i..], yy)
    ensures syms + Encode(yy, zPend, ls[i..]) == goal
  {
  }

  lemma CodingEnds(h: seq<int>, freq: seq<int>, wr: nat, zPend: nat, yy: seq<byte>, f: seq<int>, syms: seq<int>,
                   ls: seq<byte>, goal: seq<int>)
    requires Coding(h, freq, wr, zPend, yy, f, |f|, syms, ls, goal)
    ensures goal == syms + RunDigits(zPend) + [|yy| + 1]
  {
    assert ls[|f|..] == [];
    assert syms + (RunDigits(zPend) + [|yy| + 1]) == syms + RunDigits(zPend) + [|yy| + 1];
  }

  /** Writes out the pending zeroes, if any. */
  method FlushRun(arr1: array<int>, freq: array<int>, wr: nat, zPend: nat, ghost syms: seq<int>) returns (wr': nat)
    requires arr1 != freq && Written(arr1[..], freq[..], wr, syms) && wr + zPend <= arr1.Length
    modifies arr1, freq
    ensures wr <= wr' <= wr + zPend
    ensures Written(arr1[..], freq[..], wr', syms + RunDigits(zPend))
    ensures arr1[..][wr'..] == old(arr1[..])[wr'..]
  {
    if zPend > 0 {
      hide *;
      wr' := EmitRun(arr1, freq, wr, zPend, syms);
    } else {
      wr' := wr;
      assert syms + RunDigits(0) == syms;
    }
  }

  /** One value of the last column that is not at the front of the list. */
  method CodeMove(arr1: array<int>, freq: array<int>, yy: array<byte>, wr: nat, zPend: nat, ll_i: byte,
                  ghost f: seq<int>, ghost i: nat, ghost syms: seq<int>, ghost ls: seq<byte>, ghost goal: seq<int>)
    returns (wr': nat, ghost syms': seq<int>)
    requires arr1 != freq && arr1 as object != yy && freq as object != yy && yy.Length <= 256
    requires Coding(arr1[..], freq[..], wr, zPend, yy[..], f, i, syms, ls, goal)
    requires i < |f| && ll_i == ls[i] && yy[..][0] != ll_i
    modifies arr1, freq, yy
    ensures Coding(arr1[..], freq[..], wr', 0, yy[..], f, i + 1, syms', ls, goal)
  {
    hide *;
    ghost var h, q, y := arr1[..], freq[..], yy[..];
    CodingFacts(h, q, wr, zPend, y, f, i, syms, ls, goal);
    wr' := FlushRun(arr1, freq, wr, zPend, syms);
    ghost var h1 := arr1[..];
    var j := SearchToFront(yy, ll_i);
    wr' := Emit(arr1, freq, wr', j + 1, syms + RunDigits(zPend));
    TailKept(h, h1, arr1[..], wr' - 1, wr');
    syms' := syms + RunDigits(zPend) + [j + 1];
    CodingMove(h, arr1[..], q, freq[..], wr, wr', zPend, y, f, i, syms, ls, goal, j);
  }

  /** What the coding loop needs to know about its read-only inputs. */
  ghost predicate Inputs(block: seq<byte>, unseqToSeq: seq<byte>, inUse: seq<bool>, f: seq<int>, ls: seq<byte>) {
    && block != [] && IsPerm(f, |block|) && |inUse| == 256 && |unseqToSeq| == 256
    && (forall k :: 0 <= k < |block| ==> inUse[block[k]])
    && (forall x: byte :: inUse[x] ==> unseqToSeq[x] == Rank(inUse, x))
    && ls == Ranks(inUse, LastColumn(block, f))
  }

  /** The loop over all places of the sorted list, and the end mark. */
  method CodeAll(arr1: array<int>, freq: array<int>, yy: array<byte>, block: seq<byte>, unseqToSeq: seq<byte>,
                 ghost inUse: seq<bool>, ghost f: seq<int>, ghost ls: seq<byte>, ghost goal: seq<int>)
    returns (nMTF: nat)
    requires arr1 != freq && arr1 as object != yy && freq as object != yy && 1 <= yy.Length <= 256
    requires Inputs(block, unseqToSeq, inUse, f, ls)
    requires Coding(arr1[..], freq[..], 0, 0, yy[..], f, 0, [], ls, goal)
    modifies arr1, freq, yy
    ensures nMTF <= |block| + 1 && Written(arr1[..], freq[..], nMTF, goal)
  {
    hide *;
    var wr: nat, zPend: nat := 0, 0;
    ghost var syms: seq<int> := [];
    ghost var m := yy.Length;
    InputsSize(block, unseqToSeq, inUse, f, ls);
    for i := 0 to |block|
      invariant Coding(arr1[..], freq[..], wr, zPend, yy[..], f, i, syms, ls, goal)
    {
      CodingFacts(arr1[..], freq[..], wr, zPend, yy[..], f, i, syms, ls, goal);
      assert wr <= i;
      var ll_i := ReadLast(arr1, block, unseqToSeq, i, inUse, f, ls);
      if yy[0] == ll_i {
        CodingZero(arr1[..], freq[..], wr, zPend, yy[..], f, i, syms, ls, goal);
        zPend := zPend + 1;
      } else {
        wr, syms := CodeMove(arr1, freq, yy, wr, zPend, ll_i, f, i, syms, ls, goal);
        zPend := 0;
      }
    }
    CodingFacts(arr1[..], freq[..], wr, zPend, yy[..], f, |block|, syms, ls, goal);
    CodingEnds(arr1[..], freq[..], wr, zPend, yy[..], f, syms, ls, goal);
    wr := FlushRun(arr1, freq, wr, zPend, syms);
    nMTF := Emit(arr1, freq, wr, yy.Length + 1, syms + RunDigits(zPend));
  }

  lemma InputsSize(block: seq<byte>, unseqToSeq: seq<byte>, inUse: seq<bool>, f: seq<int>, ls: seq<byte>)
    requires Inputs(block, unseqToSeq, inUse, f, ls)
    ensures 1 <= |block| == |f| == |ls|
    ensures 1 <= NInUse(inUse) <= 256 && AllIn(ls, InitialList(NInUse(inUse)))
    ensures forall k :: 0 <= k < |ls| ==> ls[k] < NInUse(inUse)
  {
    RankFinds(inUse, block[0]);
    forall k | 0 <= k < |ls| ensures ls[k] in InitialList(NInUse(inUse)) {
      assert InitialList(NInUse(inUse))[ls[k]] == ls[k];
    }
  }

  /** generateMTFValues: on return the first nMTF halfwords of the pointer array
      are the symbols that encode the last column, and mtfFreq counts them. */
  method GenerateMtfValues(arr1: array<int>, block: seq<byte>, inUse: seq<bool>, ghost f: seq<int>)
    returns (nMTF: nat, mtfFreq: array<int>, ghost ls: seq<byte>)
    requires block != [] && IsPerm(f, |block|) && HoldsFrom(arr1[..], f, 0)
    requires |inUse| == 256 && forall i :: 0 <= i < |block| ==> inUse[block[i]]
    modifies arr1
    ensures fresh(mtfFreq) && 1 <= NInUse(inUse) <= 256
    ensures ls == Ranks(inUse, LastColumn(block, f))
    ensures AllIn(ls, InitialList(NInUse(inUse)))
    ensures nMTF <= |block| + 1
    ensures Written(arr1[..], mtfFreq[..], nMTF, Encode(InitialList(NInUse(inUse)), 0, ls))
  {
    ls := Ranks(inUse, LastColumn(block, f));
    var nInUse, unseqToSeq := MakeMapsE(inUse);
    assert Inputs(block, unseqToSeq[..], inUse, f, ls);
    hide *;
    InputsSize(block, unseqToSeq[..], inUse, f, ls);
    mtfFreq := new int[258](_ => 0);
    var yy := FillList(nInUse);
    CodingStarts(arr1[..], mtfFreq[..], f, nInUse, ls);
    nMTF := CodeAll(arr1, mtfFreq, yy, block, unseqToSeq[..], inUse, f, ls, Encode(InitialList(nInUse), 0, ls));
  }

  /** for (i = 0; i < nInUse; i++) yy[i] = i */
  method FillList(nInUse: nat) returns (yy: array<byte>)
    requires nInUse <= 256
    ensures fresh(yy) && yy[..] == InitialList(nInUse)
  {
    yy := new byte[nInUse];
    for i := 0 to nInUse
      invariant forall k :: 0 <= k < i ==> yy[k] == k
    {
      yy[i] := i;
    }
  }

  /** The number of the last byte of the rotation listed at place i. */
  method ReadLast(arr1: array<int>, block: seq<byte>, unseqToSeq: seq<byte>, i: nat, ghost inUse: seq<bool>,
                  ghost f: seq<int>, ghost ls: seq<byte>)
    returns (ll_i: byte)
    requires Inputs(block, unseqToSeq, inUse, f, ls)
    requires |arr1[..]| == 2 * |f| && i < |f| && Pointer(arr1[..], i) == f[i]
    ensures i < |ls| && ll_i == ls[i]
  {
    var j := arr1[2 * i] + 0x10000 * arr1[2 * i + 1] - 1;
    if j < 0 { j := j + |block|; }
    assert j == Prev(|block|, f[i]);
    ll_i := unseqToSeq[block[j]];
  }
}
