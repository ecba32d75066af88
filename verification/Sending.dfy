/** sendMTFValues after the tables have been chosen: what it writes is the format of
    module Tables, bit by bit. */
module Sending {
  import opened Counting
  import opened MoveToFront
  import opened MtfCoding
  import opened BitStream
  import opened Huffman
  import opened Tables

  lemma OneBit(b: bool)
    ensures Bits(if b then 1 else 0, 1) == [b] && Pow2(1) == 2
  {
  }

  lemma Append(before: seq<bool>, a: seq<bool>, b: seq<bool>)
    ensures before + a + b == before + (a + b)
  {
  }

  /** bsW(s,1,1) or bsW(s,1,0) */
  method SendFlag(w: Writer, b: bool)
    requires w.Valid()
    modifies w
    ensures w.Valid() && w.Written() == old(w.Written()) + [b]
  {
    OneBit(b);
    w.BsW(1, if b then 1 else 0);
  }

  method SendFlags(w: Writer, flags: seq<bool>)
    requires w.Valid()
    modifies w
    ensures w.Valid() && w.Written() == old(w.Written()) + flags
  {
    hide *;
    ghost var start := w.Written();
    assert start + flags[..0] == start;
    for i := 0 to |flags|
      invariant w.Valid() && w.Written() == start + flags[..i]
    {
      SendFlag(w, flags[i]);
      assert start + flags[..i] + [flags[i]] == start + flags[..i + 1];
    }
    assert flags[..|flags|] == flags;
  }

  // ----- the map of used bytes

  method FindUsedGroups(inUse: seq<bool>) returns (inUse16: seq<bool>)
    requires |inUse| == 256
    ensures inUse16 == InUse16(inUse)
  {
    inUse16 := [];
    for i := 0 to 16
      invariant inUse16 == InUse16(inUse)[..i]
    {
      var used := false;
      for j := 0 to 16
        invariant used <==> true in Group(inUse, i)[..j]
      {
        assert inUse[i * 16 + j] == Group(inUse, i)[j];
        assert Group(inUse, i)[..j + 1] == Group(inUse, i)[..j] + [Group(inUse, i)[j]];
        if inUse[i * 16 + j] { used := true; }
      }
      assert Group(inUse, i)[..16] == Group(inUse, i);
      inUse16 := inUse16 + [used];
    }
    assert InUse16(inUse)[..16] == InUse16(inUse);
  }

  lemma GroupBitsStep(inUse: seq<bool>, i: nat)
    requires |inUse| == 256 && i < 16
    ensures GroupBits(inUse, i) == (if InUse16(inUse)[i] then Group(inUse, i) else []) + GroupBits(inUse, i + 1)
    ensures GroupBits(inUse, 16) == [] && |InUse16(inUse)| == 16
  {
    hide Group;
  }

  /** Transmits the mapping table. */
  method SendMap(w: Writer, inUse: seq<bool>)
    requires w.Valid() && |inUse| == 256
    modifies w
    ensures w.Valid() && w.Written() == old(w.Written()) + MapBits(inUse)
  {
    ghost var start := w.Written();
    var inUse16 := FindUsedGroups(inUse);
    hide Group, InUse16, GroupBits;
    SendFlags(w, inUse16);
    ghost var goal := start + inUse16 + GroupBits(inUse, 0);
    Append(start, inUse16, GroupBits(inUse, 0));
    for i := 0 to 16
      invariant w.Valid() && w.Written() + GroupBits(inUse, i) == goal
    {
      GroupBitsStep(inUse, i);
      ghost var before := w.Written();
      if inUse16[i] {
        SendFlags(w, GroupFlags(inUse, i));
        Append(before, GroupFlags(inUse, i), GroupBits(inUse, i + 1));
      } else {
        assert [] + GroupBits(inUse, i + 1) == GroupBits(inUse, i + 1);
      }
    }
    GroupBitsStep(inUse, 15);
    assert w.Written() + [] == w.Written();
  }

  function GroupFlags(inUse: seq<bool>, i: nat): (r: seq<bool>)
    requires |inUse| == 256 && i < 16
    ensures r == Group(inUse, i)
  {
    inUse[16 * i..16 * i + 16]
  }

  // ----- selectors

  /** The search has passed j places, shifting each value up by one. */
  ghost predicate Shifting(y0: seq<byte>, y: seq<byte>, j: nat, x: byte) {
    && |y| == |y0| && j < |y0| && y[0] == y0[0]
    && (forall k :: 1 <= k <= j ==> y[k] == y0[k - 1])
    && (forall k :: j < k < |y| ==> y[k] == y0[k])
    && (forall k :: 0 <= k < j ==> y0[k] != x)
  }

  /** Finds ll_i on the list and moves it to the front. */
  method FindSelector(pos: array<byte>, ll_i: byte) returns (j: nat)
    requires ll_i in pos[..]
    modifies pos
    ensures j < pos.Length && old(ll_i in pos[..]) && j == IndexOf(old(pos[..]), ll_i)
    ensures pos[..] == ToFront(old(pos[..]), j)
  {
    ghost var y0 := pos[..];
    j := 0;
    var tmp := pos[0];
    while ll_i != tmp
      invariant Shifting(y0, pos[..], j, ll_i) && tmp == y0[j]
      decreases pos.Length - j
    {
      assert exists k :: j < k < |y0| && y0[k] == ll_i by {
        var k :| 0 <= k < |y0| && y0[k] == ll_i;
      }
      j := j + 1;
      var tmp2 := tmp;
      tmp := pos[j];
      pos[j] := tmp2;
    }
    pos[0] := tmp;
    assert pos[..] == ToFront(y0, j);
    assert j == IndexOf(y0, ll_i);
  }

  lemma SelectorMtfStep(pos: seq<byte>, sel: seq<byte>)
    requires pos != [] && AllIn(sel, pos) && sel != []
    ensures sel[0] in pos && IndexOf(pos, sel[0]) < |pos|
    ensures AllIn(sel[1..], ToFront(pos, IndexOf(pos, sel[0])))
    ensures SelectorMtf(pos, sel) == [IndexOf(pos, sel[0])] + SelectorMtf(ToFront(pos, IndexOf(pos, sel[0])), sel[1..])
  {
    hide ToFront, IndexOf;
    HeadIn(sel, pos);
    AllInMoved(sel, pos, IndexOf(pos, sel[0]));
  }

  /** pos is the list after the first i selectors, and their places are recorded. */
  ghost predicate MtfSoFar(pos: seq<byte>, sel: seq<byte>, i: nat, done: seq<nat>, goal: seq<nat>) {
    && i <= |sel| && |done| == i && pos != [] && AllIn(sel[i..], pos)
    && done + SelectorMtf(pos, sel[i..]) == goal
  }

  lemma MtfSoFarHead(pos: seq<byte>, sel: seq<byte>, i: nat, done: seq<nat>, goal: seq<nat>)
    requires MtfSoFar(pos, sel, i, done, goal) && i < |sel|
    ensures |done| == i && pos != [] && AllIn(sel[i..], pos) && done + SelectorMtf(pos, sel[i..]) == goal
    ensures sel[i..] != [] && sel[i..][0] == sel[i] && sel[i..][1..] == sel[i + 1..]
  {
    hide AllIn, SelectorMtf;
  }

  lemma MtfSoFarNext(pos: seq<byte>, sel: seq<byte>, i: nat, done: seq<nat>, j: nat, more: seq<nat>)
    requires i < |sel| && |done| == i && pos != [] && AllIn(sel[i + 1..], pos) && more == SelectorMtf(pos, sel[i + 1..])
    ensures MtfSoFar(pos, sel, i + 1, done + [j], done + ([j] + more))
  {
    hide AllIn, SelectorMtf;
    assert done + ([j] + more) == done + [j] + more;
  }

  lemma MtfSoFarStep(pos: seq<byte>, sel: seq<byte>, i: nat, done: seq<nat>, goal: seq<nat>)
    requires MtfSoFar(pos, sel, i, done, goal) && i < |sel|
    ensures sel[i] in pos
    ensures var j := IndexOf(pos, sel[i]); j < |pos| && MtfSoFar(ToFront(pos, j), sel, i + 1, done + [j], goal)
  {
    hide *;
    MtfSoFarHead(pos, sel, i, done, goal);
    SelectorMtfStep(pos, sel[i..]);
    var j := IndexOf(pos, sel[i]);
    MtfSoFarNext(ToFront(pos, j), sel, i, done, j, SelectorMtf(ToFront(pos, j), sel[i + 1..]));
  }

  /** Computes MTF values for the selectors. */
  method SelectorsToMtf(selector: seq<byte>, nGroups: nat) returns (selectorMtf: seq<nat>)
    requires 1 <= nGroups <= 6 && AllIn(selector, InitialList(nGroups))
    ensures selectorMtf == SelectorMtf(InitialList(nGroups), selector)
  {
    ghost var goal := SelectorMtf(InitialList(nGroups), selector);
    var pos := new byte[nGroups](i requires 0 <= i < nGroups <= 6 => i);
    assert pos[..] == InitialList(nGroups);
    assert selector[0..] == selector;
    selectorMtf := [];
    assert MtfSoFar(pos[..], selector, 0, selectorMtf, goal);
    hide *;
    for i := 0 to |selector|
      invariant MtfSoFar(pos[..], selector, i, selectorMtf, goal)
    {
      MtfSoFarStep(pos[..], selector, i, selectorMtf, goal);
      var j := FindSelector(pos, selector[i]);
      selectorMtf := selectorMtf + [j];
    }
    MtfDone(pos[..], selector, selectorMtf, goal);
  }

  lemma MtfDone(pos: seq<byte>, sel: seq<byte>, done: seq<nat>, goal: seq<nat>)
    requires MtfSoFar(pos, sel, |sel|, done, goal)
    ensures done == goal
  {
    assert sel[|sel|..] == [];
  }

  lemma UnaryMore(before: seq<bool>, j: nat)
    ensures j > 0 ==> before + Unary(j) == before + [true] + Unary(j - 1)
    ensures before + Unary(0) == before + [false]
  {
  }

  method SendUnary(w: Writer, n: nat)
    requires w.Valid()
    modifies w
    ensures w.Valid() && w.Written() == old(w.Written()) + Unary(n)
  {
    hide *;
    ghost var goal := w.Written() + Unary(n);
    for j := 0 to n
      invariant w.Valid() && w.Written() + Unary(n - j) == goal
    {
      UnaryMore(w.Written(), n - j);
      SendFlag(w, true);
    }
    UnaryMore(w.Written(), 0);
    SendFlag(w, false);
  }

  function SelectorBits(nGroups: nat, js: seq<nat>): seq<bool> {
    Bits(nGroups, 3) + Bits(|js|, 15) + UnaryAll(js)
  }

  lemma UnaryAllStep(before: seq<bool>, js: seq<nat>, i: nat)
    requires i < |js|
    ensures before + UnaryAll(js[i..]) == before + Unary(js[i]) + UnaryAll(js[i + 1..])
  {
    assert js[i..][1..] == js[i + 1..];
    UnaryAllCons(js[i..]);
    Append(before, Unary(js[i]), UnaryAll(js[i + 1..]));
  }

  method SendAllUnary(w: Writer, js: seq<nat>)
    requires w.Valid()
    modifies w
    ensures w.Valid() && w.Written() == old(w.Written()) + UnaryAll(js)
  {
    assert js[0..] == js;
    hide *;
    ghost var goal := w.Written() + UnaryAll(js);
    for i := 0 to |js|
      invariant w.Valid() && w.Written() + UnaryAll(js[i..]) == goal
    {
      UnaryAllStep(w.Written(), js, i);
      SendUnary(w, js[i]);
    }
    NoUnary(w.Written(), js);
  }

  lemma SelectorBitsParts(before: seq<bool>, nGroups: nat, js: seq<nat>)
    requires nGroups <= 6 && |js| <= MAX_SELECTORS
    ensures before + Bits(nGroups, 3) + Bits(|js|, 15) + UnaryAll(js) == before + SelectorBits(nGroups, js)
    ensures nGroups < Pow2(3) && |js| < Pow2(15)
  {
    Powers();
    hide Bits, UnaryAll, Pow2;
    assert before + (Bits(nGroups, 3) + Bits(|js|, 15) + UnaryAll(js))
        == before + Bits(nGroups, 3) + Bits(|js|, 15) + UnaryAll(js);
  }

  /** Transmits the selectors. */
  method SendSelectors(w: Writer, nGroups: nat, selectorMtf: seq<nat>)
    requires w.Valid() && 2 <= nGroups <= 6 && |selectorMtf| <= MAX_SELECTORS
    modifies w
    ensures w.Valid() && w.Written() == old(w.Written()) + SelectorBits(nGroups, selectorMtf)
  {
    SelectorBitsParts(w.Written(), nGroups, selectorMtf);
    hide *;
    w.BsW(3, nGroups);
    w.BsW(15, |selectorMtf|);
    SendAllUnary(w, selectorMtf);
  }

  lemma NoUnary(before: seq<bool>, js: seq<nat>)
    ensures before + UnaryAll(js[|js|..]) == before
  {
    assert js[|js|..] == [];
  }

  lemma Powers()
    ensures Pow2(2) == 4 && Pow2(3) == 8 && Pow2(5) == 32 && Pow2(8) == 256 && Pow2(15) == 32768
            && Pow2(24) == 0x1000000
  {
    assert Pow2(4) == 16 && Pow2(7) == 128 && Pow2(10) == 1024 && Pow2(13) == 8192 && Pow2(16) == 65536;
    assert Pow2(19) == 524288 && Pow2(22) == 4194304;
  }

  // ----- code lengths

  lemma TwoBits()
    ensures Bits(2, 2) == [true, false] && Bits(3, 2) == [true, true] && Pow2(2) == 4
  {
    assert Bits(1, 1) == [true];
  }

  lemma DeltaMore(before: seq<bool>, curr: nat, l: nat)
    ensures curr < l ==> before + DeltaBits(curr, l) == before + [true, false] + DeltaBits(curr + 1, l)
    ensures curr > l ==> before + DeltaBits(curr, l) == before + [true, true] + DeltaBits(curr - 1, l)
    ensures curr == l ==> before + DeltaBits(curr, l) == before + [false]
  {
  }

  /** Moves curr to the length l, one step for every two bits. */
  method SendLength(w: Writer, curr0: nat, l: nat) returns (curr: nat)
    requires w.Valid()
    modifies w
    ensures w.Valid() && curr == l && w.Written() == old(w.Written()) + DeltaBits(curr0, l)
  {
    hide *;
    TwoBits();
    curr := curr0;
    ghost var goal := w.Written() + DeltaBits(curr, l);
    while curr < l
      invariant w.Valid() && w.Written() + DeltaBits(curr, l) == goal
      invariant curr0 >= l ==> curr == curr0
    {
      DeltaMore(w.Written(), curr, l);
      w.BsW(2, 2);
      curr := curr + 1;
    }
    while curr > l
      invariant w.Valid() && w.Written() + DeltaBits(curr, l) == goal && curr >= l
    {
      DeltaMore(w.Written(), curr, l);
      w.BsW(2, 3);
      curr := curr - 1;
    }
    DeltaMore(w.Written(), curr, l);
    SendFlag(w, false);
  }

  lemma LengthStep(before: seq<bool>, curr: nat, len: seq<byte>, i: nat)
    requires i < |len|
    ensures before + LengthBits(curr, len[i..]) == before + DeltaBits(curr, len[i]) + LengthBits(len[i], len[i + 1..])
  {
    hide DeltaBits;
    assert len[i..][1..] == len[i + 1..];
    LengthBitsCons(curr, len[i..]);
    hide LengthBits;
    Append(before, DeltaBits(curr, len[i]), LengthBits(len[i], len[i + 1..]));
  }

  /** Transmits one coding table. */
  method SendTable(w: Writer, len: seq<byte>)
    requires w.Valid() && len != [] && len[0] < 32
    modifies w
    ensures w.Valid() && w.Written() == old(w.Written()) + TableBits(len)
  {
    hide Bits, Pow2, LengthBits;
    Powers();
    ghost var start := w.Written();
    var curr: nat := len[0];
    w.BsW(5, curr);
    Append(start, Bits(curr, 5), LengthBits(curr, len));
    ghost var goal := w.Written() + LengthBits(curr, len);
    assert len[0..] == len;
    for i := 0 to |len|
      invariant w.Valid() && w.Written() + LengthBits(curr, len[i..]) == goal
    {
      LengthStep(w.Written(), curr, len, i);
      curr := SendLength(w, curr, len[i]);
    }
    NoLengths(w.Written(), curr, len);
  }

  lemma NoLengths(before: seq<bool>, curr: nat, len: seq<byte>)
    ensures before + LengthBits(curr, len[|len|..]) == before
  {
    assert len[|len|..] == [];
  }

  lemma TablesStep(before: seq<bool>, lens: seq<seq<byte>>, t: nat)
    requires t <= |lens| && forall t :: 0 <= t < |lens| ==> lens[t] != []
    ensures t < |lens| ==> before + TablesFrom(lens, t) == before + TableBits(lens[t]) + TablesFrom(lens, t + 1)
    ensures t == |lens| ==> before + TablesFrom(lens, t) == before
  {
    hide TableBits;
    if t < |lens| { Append(before, TableBits(lens[t]), TablesFrom(lens, t + 1)); }
  }

  /** Transmits the coding tables. */
  method SendTables(w: Writer, lens: seq<seq<byte>>)
    requires w.Valid() && forall t :: 0 <= t < |lens| ==> AllLengths(lens[t])
    modifies w
    ensures forall t :: 0 <= t < |lens| ==> lens[t] != []
    ensures w.Valid() && w.Written() == old(w.Written()) + TablesFrom(lens, 0)
  {
    assert forall t :: 0 <= t < |lens| ==> AllLengths(lens[t]) && lens[t] != [] && lens[t][0] < 32;
    hide *;
    ghost var goal := w.Written() + TablesFrom(lens, 0);
    for t := 0 to |lens|
      invariant w.Valid() && w.Written() + TablesFrom(lens, t) == goal
    {
      TablesStep(w.Written(), lens, t);
      SendTable(w, lens[t]);
    }
    TablesStep(w.Written(), lens, |lens|);
  }

  // ----- the data

  /** minLen and maxLen of a table. */
  method LengthRange(len: seq<byte>) returns (minLen: nat, maxLen: nat)
    requires len != [] && forall i :: 0 <= i < |len| ==> len[i] <= 32
    ensures minLen == MinLen(len) && maxLen == MaxLen(len)
  {
    minLen, maxLen := 32, 0;
    for i := 0 to |len|
      invariant forall k :: 0 <= k < i ==> minLen <= len[k] <= maxLen
      invariant i > 0 ==> minLen in len && maxLen in len
      invariant i == 0 ==> minLen == 32 && maxLen == 0
    {
      if len[i] > maxLen { maxLen := len[i]; }
      if len[i] < minLen { minLen := len[i]; }
      assert len[i] in len;
    }
  }

  ghost predicate IsCodes(code: seq<int>, len: seq<byte>) {
    |code| == |len| && len != [] && forall i :: 0 <= i < |len| ==> code[i] == CodeOf(len, MinLen(len), i)
  }

  /** Assigns actual codes for the tables; assertions 3004 and 3005 hold. */
  method AssignAll(lens: seq<seq<byte>>) returns (codes: seq<seq<int>>)
    requires forall t :: 0 <= t < |lens| ==> GoodTable(lens[t]) && ShortCode(lens[t])
    ensures |codes| == |lens| && forall t :: 0 <= t < |lens| ==> IsCodes(codes[t], lens[t])
  {
    codes := [];
    for t := 0 to |lens|
      invariant |codes| == t && forall u :: 0 <= u < t ==> IsCodes(codes[u], lens[u])
    {
      var code := AssignTable(lens[t]);
      codes := codes + [code];
    }
  }

  method AssignTable(len: seq<byte>) returns (code: seq<int>)
    requires GoodTable(len) && ShortCode(len)
    ensures IsCodes(code, len)
  {
    hide CodeOf;
    var minLen, maxLen := LengthRange(len);
    assert maxLen in len;
    assert !(maxLen > 17);
    assert !(minLen < 1);
    var a := AssignCodes(len, minLen, maxLen);
    code := a[..];
  }

  /** One symbol goes out with its table's code, which fits. */
  lemma SymbolCode(code: seq<int>, len: seq<byte>, s: nat)
    requires IsCodes(code, len) && GoodTable(len) && s < |len|
    ensures 0 <= code[s] < Pow2(len[s]) && len[s] <= 20 && Bits(code[s], len[s]) == SymbolBits(len, s)
  {
    CodeFits(len, MinLen(len), MaxLen(len), s);
  }

  lemma DataMore(before: seq<bool>, cod: Coding, alphaSize: nat, syms: seq<int>, k: nat)
    requires Codable(cod, alphaSize, |syms|) && k <= |syms|
    requires forall i :: 0 <= i < |syms| ==> 0 <= syms[i] < alphaSize
    ensures k < |syms| ==> GroupOf(k) < |cod.sel| && cod.sel[GroupOf(k)] < |cod.lens|
    ensures k < |syms| ==> |TableOf(cod, k)| == alphaSize && GoodTable(TableOf(cod, k))
    ensures k < |syms| ==> before + DataFrom(cod, alphaSize, syms, k)
                           == before + SymbolBits(TableOf(cod, k), syms[k]) + DataFrom(cod, alphaSize, syms, k + 1)
    ensures k == |syms| ==> before + DataFrom(cod, alphaSize, syms, k) == before
  {
    hide SymbolBits, GoodTable;
    if k < |syms| {
      DataCons(cod, alphaSize, syms, k);
      Append(before, SymbolBits(TableOf(cod, k), syms[k]), DataFrom(cod, alphaSize, syms, k + 1));
    }
  }

  method SendSymbol(w: Writer, mtfv_i: int, len: seq<byte>, code: seq<int>)
    requires w.Valid() && IsCodes(code, len) && GoodTable(len) && 0 <= mtfv_i < |len|
    modifies w
    ensures w.Valid() && w.Written() == old(w.Written()) + SymbolBits(len, mtfv_i)
  {
    assert |code| == |len|;
    hide *;
    SymbolCode(code, len, mtfv_i);
    w.BsW(len[mtfv_i], code[mtfv_i]);
  }

  lemma SameGroup(cod: Coding, alphaSize: nat, count: nat, gs: nat, i: nat, selCtr: nat)
    requires Codable(cod, alphaSize, count)
    requires gs == GROUP_SIZE * selCtr && gs <= i < gs + GROUP_SIZE && i < count
    ensures selCtr == GroupOf(i) < |cod.sel| && cod.sel[selCtr] < |cod.lens|
    ensures TableOf(cod, i) == cod.lens[cod.sel[selCtr]]
    ensures |TableOf(cod, i)| == alphaSize && GoodTable(TableOf(cod, i))
  {
    hide GoodTable;
    GroupExists(count, i, |cod.sel|);
  }

  /** Sends the symbols gs to ge of one group. */
  method SendGroup(w: Writer, cod: Coding, codes: seq<seq<int>>, ghost alphaSize: nat, mtfv: seq<int>, gs: nat,
                   ge: nat, selCtr: nat)
    requires w.Valid() && Codable(cod, alphaSize, |mtfv|) && |codes| == |cod.lens|
    requires forall i :: 0 <= i < |mtfv| ==> 0 <= mtfv[i] < alphaSize
    requires forall t :: 0 <= t < |codes| ==> IsCodes(codes[t], cod.lens[t])
    requires gs == GROUP_SIZE * selCtr && gs <= ge < gs + GROUP_SIZE && ge < |mtfv|
    modifies w
    ensures w.Valid() && w.Written() + DataFrom(cod, alphaSize, mtfv, ge + 1)
                         == old(w.Written()) + DataFrom(cod, alphaSize, mtfv, gs)
  {
    hide *;
    ghost var goal := w.Written() + DataFrom(cod, alphaSize, mtfv, gs);
    for i := gs to ge + 1
      invariant w.Valid() && w.Written() + DataFrom(cod, alphaSize, mtfv, i) == goal
    {
      DataMore(w.Written(), cod, alphaSize, mtfv, i);
      SameGroup(cod, alphaSize, |mtfv|, gs, i, selCtr);
      SendSymbol(w, mtfv[i], cod.lens[cod.sel[selCtr]], codes[cod.sel[selCtr]]);
    }
  }

  lemma Groups(count: nat, groups: nat, selCtr: nat)
    requires (count + GROUP_SIZE - 1) / GROUP_SIZE == groups && selCtr <= groups
    ensures GROUP_SIZE * selCtr < count <==> selCtr < groups
  {
  }

  lemma SelectorCount(cod: Coding, alphaSize: nat, count: nat)
    requires Codable(cod, alphaSize, count)
    ensures (count + GROUP_SIZE - 1) / GROUP_SIZE == |cod.sel|
  {
    hide GoodTable;
  }

  /** The block data proper. Assertion 3007 holds: the groups use up the selectors. */
  method SendData(w: Writer, cod: Coding, codes: seq<seq<int>>, ghost alphaSize: nat, mtfv: seq<int>)
    requires w.Valid() && Codable(cod, alphaSize, |mtfv|) && |codes| == |cod.lens|
    requires forall i :: 0 <= i < |mtfv| ==> 0 <= mtfv[i] < alphaSize
    requires forall t :: 0 <= t < |codes| ==> IsCodes(codes[t], cod.lens[t])
    modifies w
    ensures w.Valid() && w.Written() == old(w.Written()) + DataFrom(cod, alphaSize, mtfv, 0)
  {
    hide Codable, GoodTable, IsCodes, DataFrom, w.Valid, w.Written;
    SelectorCount(cod, alphaSize, |mtfv|);
    ghost var goal := w.Written() + DataFrom(cod, alphaSize, mtfv, 0);
    var selCtr, gs := 0, 0;
    while true
      invariant w.Valid() && gs <= |mtfv| && w.Written() + DataFrom(cod, alphaSize, mtfv, gs) == goal
      invariant selCtr <= |cod.sel| && if selCtr < |cod.sel| then gs == GROUP_SIZE * selCtr else gs == |mtfv|
      decreases |mtfv| - gs
    {
      Groups(|mtfv|, |cod.sel|, selCtr);
      if gs >= |mtfv| { break; }
      var ge := gs + GROUP_SIZE - 1;
      if ge >= |mtfv| { ge := |mtfv| - 1; }
      SendGroup(w, cod, codes, alphaSize, mtfv, gs, ge, selCtr);
      gs := ge + 1;
      selCtr := selCtr + 1;
      Groups(|mtfv|, |cod.sel|, selCtr);
    }
    assert selCtr == |cod.sel|;
    DataMore(w.Written(), cod, alphaSize, mtfv, |mtfv|);
  }

  // ----- everything

  /** All that sendMTFValues writes for a block. */
  function ValuesBits(inUse: seq<bool>, cod: Coding, alphaSize: nat, syms: seq<int>): seq<bool>
    requires |inUse| == 256 && Codable(cod, alphaSize, |syms|)
    requires forall i :: 0 <= i < |syms| ==> 0 <= syms[i] < alphaSize
  {
    Chosen(cod, alphaSize, |syms|);
    MapBits(inUse)
    + SelectorBits(|cod.lens|, SelectorMtf(InitialList(|cod.lens|), cod.sel))
    + TablesFrom(cod.lens, 0)
    + DataFrom(cod, alphaSize, syms, 0)
  }

  lemma Chosen(cod: Coding, alphaSize: nat, count: nat)
    requires Codable(cod, alphaSize, count)
    ensures 2 <= |cod.lens| <= 6 && AllIn(cod.sel, InitialList(|cod.lens|)) && |cod.sel| <= MAX_SELECTORS
    ensures forall t :: 0 <= t < |cod.lens| ==> cod.lens[t] != [] && AllLengths(cod.lens[t]) && GoodTable(cod.lens[t])
  {
    forall i | 0 <= i < |cod.sel| ensures cod.sel[i] in InitialList(|cod.lens|) {
      assert InitialList(|cod.lens|)[cod.sel[i]] == cod.sel[i];
    }
    forall t | 0 <= t < |cod.lens| ensures AllLengths(cod.lens[t]) {
      assert GoodTable(cod.lens[t]);
    }
  }

  lemma AllShort(cod: Coding)
    requires ShortCodes(cod)
    ensures forall t :: 0 <= t < |cod.lens| ==> ShortCode(cod.lens[t])
  {
  }

  /** The second half of sendMTFValues, for any tables and selectors. */
  method SendMtfValues(w: Writer, inUse: seq<bool>, cod: Coding, ghost alphaSize: nat, mtfv: seq<int>)
    requires w.Valid() && |inUse| == 256 && Codable(cod, alphaSize, |mtfv|) && ShortCodes(cod)
    requires forall i :: 0 <= i < |mtfv| ==> 0 <= mtfv[i] < alphaSize
    modifies w
    ensures w.Valid() && w.Written() == old(w.Written()) + ValuesBits(inUse, cod, alphaSize, mtfv)
  {
    hide *;
    Chosen(cod, alphaSize, |mtfv|);
    AllShort(cod);
    ghost var start := w.Written();
    var selectorMtf := SelectorsToMtf(cod.sel, |cod.lens|);
    var codes := AssignAll(cod.lens);
    SendMap(w, inUse);
    SendSelectors(w, |cod.lens|, selectorMtf);
    SendTables(w, cod.lens);
    SendData(w, cod, codes, alphaSize, mtfv);
    ValuesParts(start, inUse, cod, alphaSize, mtfv);
  }

  lemma ValuesParts(start: seq<bool>, inUse: seq<bool>, cod: Coding, alphaSize: nat, syms: seq<int>)
    requires |inUse| == 256 && Codable(cod, alphaSize, |syms|)
    requires forall i :: 0 <= i < |syms| ==> 0 <= syms[i] < alphaSize
    requires AllIn(cod.sel, InitialList(|cod.lens|)) && 2 <= |cod.lens| <= 6
    requires forall t :: 0 <= t < |cod.lens| ==> cod.lens[t] != []
    ensures start + ValuesBits(inUse, cod, alphaSize, syms)
            == start + MapBits(inUse) + SelectorBits(|cod.lens|, SelectorMtf(InitialList(|cod.lens|), cod.sel))
               + TablesFrom(cod.lens, 0) + DataFrom(cod, alphaSize, syms, 0)
  {
    hide MapBits, SelectorBits, SelectorMtf, TablesFrom, DataFrom, Codable;
    FourParts(start, MapBits(inUse), SelectorBits(|cod.lens|, SelectorMtf(InitialList(|cod.lens|), cod.sel)),
              TablesFrom(cod.lens, 0), DataFrom(cod, alphaSize, syms, 0));
  }

  lemma FourParts(s: seq<bool>, a: seq<bool>, b: seq<bool>, c: seq<bool>, d: seq<bool>)
    ensures s + (a + b + c + d) == s + a + b + c + d
  {
  }
}
