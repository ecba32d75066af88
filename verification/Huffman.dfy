/** Canonical prefix codes: hbAssignCodes for the encoder, hbCreateDecodeTables and
    the code walk of GET_MTF_VAL for the decoder. */
module Huffman {
  import opened Counting
  import opened InverseBwt
  import opened BitStream

  /** The lengths a table may have. */
  ghost predicate Lengths(len: seq<byte>, lo: nat, hi: nat) {
    && 1 <= lo <= hi <= 20 && 1 <= |len| <= 258
    && (forall i :: 0 <= i < |len| ==> lo <= len[i] <= hi)
  }

  /** The first code of length n: vec at the start of round n. */
  function FirstCode(len: seq<byte>, lo: nat, n: nat): nat
    decreases n
  {
    if n <= lo then 0 else 2 * (FirstCode(len, lo, n - 1) + Occ(len, n - 1))
  }

  /** One more than the last code of length n: vec at the end of round n. */
  function NextCode(len: seq<byte>, lo: nat, n: nat): nat {
    FirstCode(len, lo, n) + Occ(len, n)
  }

  /** The code of symbol i. */
  function CodeOf(len: seq<byte>, lo: nat, i: nat): nat
    requires i < |len|
  {
    FirstCode(len, lo, len[i]) + Occ(len[..i], len[i])
  }

  // ----- Kraft's inequality

  /** The share of all words of length hi that begin with a code, summed over the symbols. */
  function KraftSum(len: seq<byte>, hi: nat): nat
    requires forall i :: 0 <= i < |len| ==> len[i] <= hi
  {
    if len == [] then 0 else KraftSum(len[..|len| - 1], hi) + Pow2(hi - len[|len| - 1])
  }

  /** Kraft's inequality: the codes need no more than all words of length hi. */
  ghost predicate Fits(len: seq<byte>, lo: nat, hi: nat) {
    Lengths(len, lo, hi) && KraftSum(len, hi) <= Pow2(hi)
  }

  lemma {:induction false} NextCodeMore(len: seq<byte>, x: byte, lo: nat, n: nat)
    requires lo <= x && lo <= n
    ensures NextCode(len + [x], lo, n) == NextCode(len, lo, n) + if x <= n then Pow2(n - x) else 0
    decreases n
  {
    assert (len + [x])[..|len|] == len;
    if n > lo {
      NextCodeMore(len, x, lo, n - 1);
      assert x < n ==> Pow2(n - x) == 2 * Pow2(n - 1 - x);
    }
  }

  lemma {:induction false} NextCodeEmpty(lo: nat, n: nat)
    ensures NextCode([], lo, n) == 0
    decreases n
  {
    if n > lo { NextCodeEmpty(lo, n - 1); }
  }

  /** The last value of vec is the Kraft sum. */
  lemma {:induction false} KraftIsNextCode(len: seq<byte>, lo: nat, hi: nat)
    requires lo <= hi && forall i :: 0 <= i < |len| ==> lo <= len[i] <= hi
    ensures KraftSum(len, hi) == NextCode(len, lo, hi)
  {
    if len == [] {
      NextCodeEmpty(lo, hi);
    } else {
      var front, x := len[..|len| - 1], len[|len| - 1];
      KraftIsNextCode(front, lo, hi);
      NextCodeMore(front, x, lo, hi);
      assert len == front + [x];
    }
  }

  lemma {:induction false} TakenGrows(len: seq<byte>, lo: nat, hi: nat, n: nat)
    requires lo <= n <= hi
    ensures Times(NextCode(len, lo, n), Pow2(hi - n)) <= NextCode(len, lo, hi)
    decreases hi - n
  {
    if n < hi {
      TakenGrows(len, lo, hi, n + 1);
      ProductStep(NextCode(len, lo, n), Occ(len, n + 1), Pow2(hi - n - 1));
    } else {
      assert NextCode(len, lo, hi) * Pow2(0) == NextCode(len, lo, hi);
    }
  }

  function Times(a: nat, b: nat): nat { a * b }

  lemma ProductStep(a: nat, b: nat, p: nat)
    ensures a * (2 * p) <= (2 * a + b) * p
  {
    assert (2 * a + b) * p == a * (2 * p) + b * p;
  }

  lemma CancelFactor(a: nat, b: nat, p: nat)
    requires Times(a, p) <= Times(b, p) && p >= 1
    ensures a <= b
  {
    assert a > b ==> a * p == b * p + (a - b) * p;
  }

  lemma CodeBelowNext(len: seq<byte>, lo: nat, i: nat)
    requires i < |len|
    ensures FirstCode(len, lo, len[i]) <= CodeOf(len, lo, i) < NextCode(len, lo, len[i])
  {
    OccPrefix(len, i, |len|, len[i]);
    assert len[..|len|] == len;
  }

  /** Under Kraft's inequality every code fits in its length. */
  lemma CodeFits(len: seq<byte>, lo: nat, hi: nat, i: nat)
    requires Fits(len, lo, hi) && i < |len|
    ensures CodeOf(len, lo, i) < Pow2(len[i])
  {
    var n := len[i];
    assert lo <= n <= hi;
    KraftIsNextCode(len, lo, hi);
    hide *;
    CodeBelowNext(len, lo, i);
    TakenGrows(len, lo, hi, n);
    Pow2Sum(n, hi - n);
    CancelFactor(NextCode(len, lo, n), Pow2(n), Pow2(hi - n));
  }

  lemma {:induction false} Pow2Sum(a: nat, b: nat)
    ensures Pow2(a + b) == Times(Pow2(a), Pow2(b))
    decreases b
  {
    if b > 0 {
      Pow2Sum(a, b - 1);
      assert Pow2(a) * Pow2(b) == Pow2(a) * (2 * Pow2(b - 1)) == 2 * (Pow2(a) * Pow2(b - 1));
    }
  }

  // ----- the tables

  /** The decoding tables for lengths len: last code and offset for every length, and
      the symbols in the order of their codes. */
  ghost predicate DecodeTables(len: seq<byte>, lo: nat, hi: nat, limit: seq<int>, base: seq<int>, perm: seq<int>) {
    && |limit| == 23 && |base| == 23 && |perm| == 258 && hi <= 20
    && (forall n :: lo <= n <= hi ==> limit[n] == NextCode(len, lo, n) - 1)
    && (forall n :: 0 <= n < 23 && !(lo <= n <= hi) ==> limit[n] == 0)
    && (forall n :: lo <= n <= hi ==> base[n] == FirstCode(len, lo, n) - CountLess(len, n))
    && |len| <= 258 && IsLinks(len, perm[..|len|])
  }

  datatype Parsed<T> = Got(value: T, rest: seq<bool>) | Bad | Short

  /** The loop of GET_MTF_VAL: lengthens zvec until it is at most the last code of its length. */
  function WalkCode(limit: seq<int>, base: seq<int>, perm: seq<int>, zn: nat, zvec: nat, bs: seq<bool>): Parsed<int>
    requires |limit| == 23 && |base| == 23 && |perm| == 258
    decreases |bs|
  {
    if zn > 20 then Bad
    else if zvec <= limit[zn] then
      if zvec - base[zn] < 0 || zvec - base[zn] >= 258 then Bad else Got(perm[zvec - base[zn]], bs)
    else if bs == [] then Short
    else WalkCode(limit, base, perm, zn + 1, 2 * zvec + (if bs[0] then 1 else 0), bs[1..])
  }

  function ReadSymbol(limit: seq<int>, base: seq<int>, perm: seq<int>, minLen: nat, bs: seq<bool>): Parsed<int>
    requires |limit| == 23 && |base| == 23 && |perm| == 258
  {
    if |bs| < minLen then Short
    else WalkCode(limit, base, perm, minLen, Value(bs[..minLen]), bs[minLen..])
  }

  lemma {:induction false} UpperMore(v: nat, k: nat)
    ensures Upper(v, k + 1) == Upper(v, k) / 2
    decreases k
  {
    if k > 0 { UpperMore(v / 2, k - 1); }
  }

  /** Cut to n bits, a longer code lies above all codes of length n. */
  lemma {:induction false} PrefixAbove(len: seq<byte>, lo: nat, i: nat, n: nat)
    requires i < |len| && lo <= n <= len[i]
    ensures Upper(CodeOf(len, lo, i), len[i] - n) >= FirstCode(len, lo, n)
    ensures n < len[i] ==> Upper(CodeOf(len, lo, i), len[i] - n) >= NextCode(len, lo, n)
    decreases len[i] - n
  {
    if n < len[i] {
      PrefixAbove(len, lo, i, n + 1);
      UpperMore(CodeOf(len, lo, i), len[i] - n - 1);
    }
  }

  lemma UpperBit(v: nat, k: nat)
    requires k > 0
    ensures Upper(v, k - 1) == 2 * Upper(v, k) + (if Bits(v, k)[0] then 1 else 0)
    ensures Bits(v, k)[1..] == Bits(v, k - 1)
  {
    UpperMore(v, k - 1);
    BitsSplit(v, 1, k - 1);
    assert Bits(v, k) == Bits(Upper(v, k - 1), 1) + Bits(v, k - 1);
  }

  lemma FoundHere(len: seq<byte>, lo: nat, hi: nat, limit: seq<int>, base: seq<int>, perm: seq<int>, i: nat)
    requires Lengths(len, lo, hi) && DecodeTables(len, lo, hi, limit, base, perm) && i < |len|
    ensures var c := CodeOf(len, lo, i); var n: nat := len[i];
            n <= 20 && c <= limit[n] && 0 <= c - base[n] < 258 && perm[c - base[n]] == i
  {
    CodeBelowNext(len, lo, i);
    assert perm[..|len|][Slot(len, i)] == i;
  }

  lemma WalkOn(limit: seq<int>, base: seq<int>, perm: seq<int>, zn: nat, zvec: nat, bs: seq<bool>)
    requires |limit| == 23 && |base| == 23 && |perm| == 258 && zn <= 20
    ensures zvec > limit[zn] && bs != [] ==>
              WalkCode(limit, base, perm, zn, zvec, bs)
              == WalkCode(limit, base, perm, zn + 1, 2 * zvec + (if bs[0] then 1 else 0), bs[1..])
    ensures zvec <= limit[zn] && 0 <= zvec - base[zn] < 258 ==>
              WalkCode(limit, base, perm, zn, zvec, bs) == Got(perm[zvec - base[zn]], bs)
  {
  }

  lemma NotYet(len: seq<byte>, lo: nat, hi: nat, limit: seq<int>, base: seq<int>, perm: seq<int>, i: nat, n: nat)
    requires Lengths(len, lo, hi) && DecodeTables(len, lo, hi, limit, base, perm)
    requires i < |len| && lo <= n < len[i]
    ensures n <= 20 && Upper(CodeOf(len, lo, i), len[i] - n) > limit[n]
  {
    hide FirstCode, NextCode, CodeOf, IsLinks;
    PrefixAbove(len, lo, i, n);
  }

  lemma CodeTail(c: nat, k: nat, rest: seq<bool>)
    requires k > 0
    ensures var bs := Bits(c, k) + rest;
            bs != [] && bs[1..] == Bits(c, k - 1) + rest
            && Upper(c, k - 1) == 2 * Upper(c, k) + (if bs[0] then 1 else 0)
  {
    UpperBit(c, k);
    assert (Bits(c, k) + rest)[1..] == Bits(c, k)[1..] + rest;
  }

  /** The walk over the code of symbol i from length n on. */
  lemma {:induction false} WalkFinds(len: seq<byte>, lo: nat, hi: nat, limit: seq<int>, base: seq<int>,
                                     perm: seq<int>, i: nat, n: nat, rest: seq<bool>)
    requires Lengths(len, lo, hi) && DecodeTables(len, lo, hi, limit, base, perm)
    requires |limit| == 23 && |base| == 23 && |perm| == 258
    requires i < |len| && lo <= n <= len[i]
    ensures var c := CodeOf(len, lo, i); var k := len[i] - n;
            WalkCode(limit, base, perm, n, Upper(c, k), Bits(c, k) + rest) == Got(i, rest)
    decreases len[i] - n
  {
    hide *;
    var c := CodeOf(len, lo, i);
    var k := len[i] - n;
    if k == 0 {
      FoundHere(len, lo, hi, limit, base, perm, i);
      NoBits(c, rest);
      WalkOn(limit, base, perm, n, c, rest);
    } else {
      NotYet(len, lo, hi, limit, base, perm, i, n);
      CodeTail(c, k, rest);
      WalkOn(limit, base, perm, n, Upper(c, k), Bits(c, k) + rest);
      WalkFinds(len, lo, hi, limit, base, perm, i, n + 1, rest);
    }
  }

  lemma NoBits(c: nat, rest: seq<bool>)
    ensures Upper(c, 0) == c && Bits(c, 0) + rest == rest
  {
  }

  lemma CodeSplits(len: seq<byte>, lo: nat, hi: nat, i: nat, rest: seq<bool>)
    requires Fits(len, lo, hi) && i < |len|
    ensures lo <= len[i]
    ensures var bs := Bits(CodeOf(len, lo, i), len[i]) + rest; var k := len[i] - lo;
            && lo <= |bs|
            && Value(bs[..lo]) == Upper(CodeOf(len, lo, i), k)
            && bs[lo..] == Bits(CodeOf(len, lo, i), k) + rest
  {
    assert Lengths(len, lo, hi) && lo <= len[i] <= hi;
    var c := CodeOf(len, lo, i);
    var k := len[i] - lo;
    CodeFits(len, lo, hi, i);
    hide *;
    BitsSplit(c, lo, k);
    UpperFits(c, lo, k);
    ValueOfBits(Upper(c, k), lo);
    var bs := Bits(c, len[i]) + rest;
    assert bs[..lo] == Bits(Upper(c, k), lo);
    assert bs[lo..] == Bits(c, k) + rest;
  }

  /** Decoding inverts coding: the code of a symbol, whatever follows it, is read back
      as that symbol. */
  lemma ReadInvertsCode(len: seq<byte>, lo: nat, hi: nat, limit: seq<int>, base: seq<int>, perm: seq<int>, i: nat,
                        rest: seq<bool>)
    requires Fits(len, lo, hi) && DecodeTables(len, lo, hi, limit, base, perm) && i < |len|
    ensures |limit| == 23 && |base| == 23 && |perm| == 258
    ensures ReadSymbol(limit, base, perm, lo, Bits(CodeOf(len, lo, i), len[i]) + rest) == Got(i, rest)
  {
    assert |limit| == 23 && |base| == 23 && |perm| == 258 && Lengths(len, lo, hi);
    hide *;
    CodeSplits(len, lo, hi, i, rest);
    WalkFinds(len, lo, hi, limit, base, perm, i, lo, rest);
    ReadIsWalk(limit, base, perm, lo, Bits(CodeOf(len, lo, i), len[i]) + rest);
  }

  lemma ReadIsWalk(limit: seq<int>, base: seq<int>, perm: seq<int>, minLen: nat, bs: seq<bool>)
    requires |limit| == 23 && |base| == 23 && |perm| == 258 && minLen <= |bs|
    ensures ReadSymbol(limit, base, perm, minLen, bs)
            == WalkCode(limit, base, perm, minLen, Value(bs[..minLen]), bs[minLen..])
  {
  }

  lemma {:induction false} UpperFits(v: nat, m: nat, n: nat)
    requires v < Pow2(m + n)
    ensures Upper(v, n) < Pow2(m)
    decreases n
  {
    if n > 0 { UpperFits(v / 2, m, n - 1); }
  }

  // ----- building the tables

  /** Codes are assigned to all symbols shorter than n, and to those of length n before i. */
  ghost predicate Assigned(len: seq<byte>, lo: nat, code: seq<int>, n: nat, i: nat) {
    && |code| == |len|
    && (forall q :: 0 <= q < |len| && Before(len, n, i, q) ==> code[q] == CodeOf(len, lo, q))
  }

  predicate Before(len: seq<byte>, n: nat, i: nat, q: nat)
    requires q < |len|
  {
    len[q] < n || (len[q] == n && q < i)
  }

  lemma OccStep(len: seq<byte>, i: nat, n: int)
    requires i < |len|
    ensures Occ(len[..i + 1], n) == Occ(len[..i], n) + if len[i] == n then 1 else 0
  {
    assert len[..i + 1][..i] == len[..i];
  }

  lemma OccAll(len: seq<byte>, n: int)
    ensures Occ(len[..|len|], n) == Occ(len, n) && Occ(len[..0], n) == 0
  {
    assert len[..|len|] == len;
  }

  lemma AssignStep(len: seq<byte>, lo: nat, code: seq<int>, n: nat, i: nat)
    requires i < |len| && Assigned(len, lo, code, n, i)
    ensures Assigned(len, lo, if len[i] == n then code[i := CodeOf(len, lo, i)] else code, n, i + 1)
  {
    hide CodeOf;
  }

  lemma NextRound(len: seq<byte>, lo: nat, code: seq<int>, n: nat)
    requires Assigned(len, lo, code, n, |len|)
    ensures Assigned(len, lo, code, n + 1, 0)
  {
    hide CodeOf;
  }

  /** BZ2_hbAssignCodes */
  method AssignCodes(length: seq<byte>, minLen: nat, maxLen: nat) returns (code: array<int>)
    requires Lengths(length, minLen, maxLen)
    ensures fresh(code) && code.Length == |length|
    ensures forall i :: 0 <= i < |length| ==> code[i] == CodeOf(length, minLen, i)
  {
    code := new int[|length|];
    var vec := 0;
    for n := minLen to maxLen + 1
      invariant vec == FirstCode(length, minLen, n) && Assigned(length, minLen, code[..], n, 0)
    {
      OccAll(length, n);
      vec := AssignRound(length, minLen, n, code, vec);
      NextRound(length, minLen, code[..], n);
      vec := vec * 2;
    }
  }

  method AssignRound(length: seq<byte>, ghost minLen: nat, n: nat, code: array<int>, vec0: int) returns (vec: int)
    requires vec0 == FirstCode(length, minLen, n) && Assigned(length, minLen, code[..], n, 0)
    modifies code
    ensures vec == NextCode(length, minLen, n) && Assigned(length, minLen, code[..], n, |length|)
  {
    vec := vec0;
    OccAll(length, n);
    hide FirstCode, Occ, Before;
    for i := 0 to |length|
      invariant vec == FirstCode(length, minLen, n) + Occ(length[..i], n)
      invariant |code[..]| == |length| && Assigned(length, minLen, code[..], n, i)
    {
      OccStep(length, i, n);
      ghost var g := code[..];
      AssignStep(length, minLen, g, n, i);
      if length[i] == n {
        code[i] := vec;
        assert code[..] == g[i := vec];
        vec := vec + 1;
      }
    }
  }

  // ----- perm: a counting sort of the symbols by length

  /** The symbols before i in round n are placed. */
  ghost predicate Sorted(len: seq<byte>, perm: seq<int>, n: nat, i: nat) {
    && |len| <= |perm|
    && (forall q :: 0 <= q < |len| && Before(len, n, i, q) ==> perm[Slot(len, q)] == q)
  }

  lemma SortStep(len: seq<byte>, perm: seq<int>, n: nat, i: nat)
    requires i < |len| && Sorted(len, perm, n, i)
    ensures Sorted(len, if len[i] == n then perm[Slot(len, i) := i] else perm, n, i + 1)
  {
    hide Slot;
    if len[i] == n {
      forall q | 0 <= q < |len| && Before(len, n, i, q) ensures Slot(len, q) != Slot(len, i) {
        if q < i { SlotInjective(len, q, i); } else { SlotInjective(len, i, q); }
      }
    }
  }

  lemma SlotIs(len: seq<byte>, i: nat)
    requires i < |len|
    ensures Slot(len, i) == CountLess(len, len[i]) + Occ(len[..i], len[i])
  {
  }

  /** perm lists the symbols in the order of length, then of number. */
  method BuildPerm(length: seq<byte>, minLen: nat, maxLen: nat) returns (perm: array<int>)
    requires Lengths(length, minLen, maxLen)
    ensures fresh(perm) && perm.Length == 258 && IsLinks(length, perm[..|length|])
  {
    perm := new int[258](_ => 0);
    var pp := 0;
    NoneLess(length, minLen, 0);
    assert length[..0] == [];
    for i := minLen to maxLen + 1
      invariant pp == CountLess(length, i) && Sorted(length, perm[..], i, 0)
    {
      pp := PermRound(length, i, perm, pp);
      CountStep(length, i);
    }
    AllSorted(length, perm[..], minLen, maxLen, maxLen + 1);
  }

  lemma AllSorted(len: seq<byte>, perm: seq<int>, lo: nat, hi: nat, n: nat)
    requires Lengths(len, lo, hi) && Sorted(len, perm, n, 0) && n == hi + 1
    ensures IsLinks(len, perm[..|len|])
  {
    forall q | 0 <= q < |len| ensures perm[Slot(len, q)] == q { assert Before(len, n, 0, q); }
  }

  method PermRound(length: seq<byte>, i: nat, perm: array<int>, pp0: int) returns (pp: int)
    requires pp0 == CountLess(length, i) && Sorted(length, perm[..], i, 0)
    modifies perm
    ensures pp == CountLess(length, i) + Occ(length, i) && Sorted(length, perm[..], i + 1, 0)
  {
    pp := pp0;
    OccAll(length, i);
    hide CountLess, Occ, Slot, Before;
    for j := 0 to |length|
      invariant pp == CountLess(length, i) + Occ(length[..j], i)
      invariant |length| <= |perm[..]| && Sorted(length, perm[..], i, j)
    {
      OccStep(length, j, i);
      SlotIs(length, j);
      ghost var g := perm[..];
      SortStep(length, g, i, j);
      if length[j] == i {
        perm[pp] := j;
        assert perm[..] == g[pp := j];
        pp := pp + 1;
      }
    }
    SortRound(length, perm[..], i);
  }

  lemma SortRound(len: seq<byte>, perm: seq<int>, n: nat)
    requires Sorted(len, perm, n, |len|)
    ensures Sorted(len, perm, n + 1, 0)
  {
    hide Slot;
  }

  // ----- base and limit

  /** base[length[i]+1]++ for all symbols, then running sums: how many are shorter. */
  ghost predicate Counted(len: seq<byte>, base: seq<int>) {
    |base| == 23 && forall n :: 0 <= n < 23 ==> base[n] == CountLess(len, n)
  }

  method CountLengths(length: seq<byte>, base: array<int>)
    requires base.Length == 23 && forall i :: 0 <= i < |length| ==> length[i] <= 20
    modifies base
    ensures Counted(length, base[..])
  {
    for i := 0 to 23
      invariant forall n :: 0 <= n < i ==> base[n] == 0
    {
      base[i] := 0;
    }
    for i := 0 to |length|
      invariant base[0] == 0 && forall n :: 1 <= n < 23 ==> base[n] == Occ(length[..i], n - 1)
    {
      assert length[..i + 1][..i] == length[..i];
      base[length[i] + 1] := base[length[i] + 1] + 1;
    }
    assert length[..|length|] == length;
    NoneLess(length, 0, 0);
    assert length[..0] == [];
    for i := 1 to 23
      invariant forall n :: 0 <= n < i ==> base[n] == CountLess(length, n)
      invariant forall n :: i <= n < 23 ==> base[n] == Occ(length, n - 1)
    {
      CountStep(length, i - 1);
      base[i] := base[i] + base[i - 1];
    }
  }

  method BuildLimit(length: seq<byte>, minLen: nat, maxLen: nat, base: seq<int>) returns (limit: array<int>)
    requires Lengths(length, minLen, maxLen) && Counted(length, base)
    ensures fresh(limit) && limit.Length == 23
    ensures forall n :: minLen <= n <= maxLen ==> limit[n] == NextCode(length, minLen, n) - 1
    ensures forall n :: 0 <= n < 23 && !(minLen <= n <= maxLen) ==> limit[n] == 0
  {
    limit := new int[23](_ => 0);
    var vec := 0;
    for i := minLen to maxLen + 1
      invariant vec == FirstCode(length, minLen, i)
      invariant forall n :: minLen <= n < i ==> limit[n] == NextCode(length, minLen, n) - 1
      invariant forall n :: 0 <= n < 23 && !(minLen <= n < i) ==> limit[n] == 0
    {
      CountStep(length, i);
      vec := vec + (base[i + 1] - base[i]);
      limit[i] := vec - 1;
      vec := vec * 2;
    }
  }

  lemma NextIsFirst(len: seq<byte>, lo: nat, n: nat)
    requires n > lo
    ensures NextCode(len, lo, n - 1) * 2 == FirstCode(len, lo, n)
  {
  }

  lemma LowestCount(len: seq<byte>, lo: nat)
    requires forall i :: 0 <= i < |len| ==> len[i] >= lo
    ensures CountLess(len, lo) == 0 == FirstCode(len, lo, lo)
  {
    NoneLess(len, lo, 0);
    assert len[..0] == [];
  }

  /** The last loop: base becomes the difference of first code and number of shorter symbols. */
  method AdjustBase(length: seq<byte>, minLen: nat, maxLen: nat, limit: seq<int>, base: array<int>)
    requires Lengths(length, minLen, maxLen) && Counted(length, base[..]) && |limit| == 23
    requires forall n :: minLen <= n <= maxLen ==> limit[n] == NextCode(length, minLen, n) - 1
    modifies base
    ensures |base[..]| == 23
    ensures forall n :: minLen <= n <= maxLen ==> base[..][n] == FirstCode(length, minLen, n) - CountLess(length, n)
  {
    LowestCount(length, minLen);
    assert forall n :: 0 <= n < 23 ==> base[..][n] == CountLess(length, n);
    hide Occ, CountLess, FirstCode, NextCode;
    for i := minLen + 1 to maxLen + 1
      invariant forall n :: minLen <= n < i ==> base[n] == FirstCode(length, minLen, n) - CountLess(length, n)
      invariant forall n :: i <= n <= maxLen ==> base[n] == CountLess(length, n)
    {
      NextIsFirst(length, minLen, i);
      base[i] := (limit[i - 1] + 1) * 2 - base[i];
    }
  }

  /** BZ2_hbCreateDecodeTables */
  method CreateDecodeTables(length: seq<byte>, minLen: nat, maxLen: nat)
    returns (limit: array<int>, base: array<int>, perm: array<int>)
    requires Lengths(length, minLen, maxLen)
    ensures fresh(limit) && fresh(base) && fresh(perm)
    ensures DecodeTables(length, minLen, maxLen, limit[..], base[..], perm[..])
  {
    hide FirstCode, NextCode, CountLess, IsLinks, Counted;
    perm := BuildPerm(length, minLen, maxLen);
    base := new int[23];
    CountLengths(length, base);
    limit := BuildLimit(length, minLen, maxLen, base[..]);
    AdjustBase(length, minLen, maxLen, limit[..], base);
    assert perm[..][..|length|] == perm[..|length|];
  }

  // ----- arbitrary input

  /** Whatever the bits are, a decoded symbol is one of the alphabet: perm is never
      read beyond the symbols placed in it. */
  lemma {:induction false} WalkInRange(len: seq<byte>, lo: nat, hi: nat, limit: seq<int>, base: seq<int>,
                                       perm: seq<int>, zn: nat, zvec: nat, bs: seq<bool>)
    requires Lengths(len, lo, hi) && DecodeTables(len, lo, hi, limit, base, perm) && lo in len
    requires lo <= zn && if zn <= hi then zvec >= FirstCode(len, lo, zn) else zvec >= 1
    ensures |limit| == 23 && |base| == 23 && |perm| == 258
    ensures var p := WalkCode(limit, base, perm, zn, zvec, bs); p.Got? ==> 0 <= p.value < |len|
    decreases |bs|
  {
    assert |limit| == 23 && |base| == 23 && |perm| == 258;
    if zn <= hi {
      assert limit[zn] == NextCode(len, lo, zn) - 1 && base[zn] == FirstCode(len, lo, zn) - CountLess(len, zn);
      if zvec <= limit[zn] {
        CountStep(len, zn);
        LinksInverse(len, perm[..|len|], zvec - base[zn]);
      } else if bs != [] {
        LowestUsed(len, lo, zn);
        WalkInRange(len, lo, hi, limit, base, perm, zn + 1, 2 * zvec + (if bs[0] then 1 else 0), bs[1..]);
      }
    } else if zn <= 20 {
      assert limit[zn] == 0;
      if bs != [] {
        WalkInRange(len, lo, hi, limit, base, perm, zn + 1, 2 * zvec + (if bs[0] then 1 else 0), bs[1..]);
      }
    }
  }

  lemma {:induction false} LowestUsed(len: seq<byte>, lo: nat, n: nat)
    requires lo in len && lo <= n
    ensures NextCode(len, lo, n) >= 1
    decreases n
  {
    if n == lo {
      var i :| 0 <= i < |len| && len[i] == lo;
      OccPrefix(len, i, i + 1, lo);
      OccPrefix(len, i + 1, |len|, lo);
      assert len[..|len|] == len;
    } else {
      LowestUsed(len, lo, n - 1);
    }
  }

  lemma ReadInRange(len: seq<byte>, lo: nat, hi: nat, limit: seq<int>, base: seq<int>, perm: seq<int>, bs: seq<bool>)
    requires Lengths(len, lo, hi) && DecodeTables(len, lo, hi, limit, base, perm) && lo in len
    ensures |limit| == 23 && |base| == 23 && |perm| == 258
    ensures var p := ReadSymbol(limit, base, perm, lo, bs); p.Got? ==> 0 <= p.value < |len|
  {
    if lo <= |bs| {
      WalkInRange(len, lo, hi, limit, base, perm, lo, Value(bs[..lo]), bs[lo..]);
    } else {
      assert |limit| == 23;
    }
  }
}
