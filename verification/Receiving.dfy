/** BZ2_decompress reading the tables and symbols of a block: each part does what the
    parsing functions of module Tables say of the bits ahead, including what it
    rejects and where it waits for more input. */
module Receiving {
  import opened Counting
  import opened MoveToFront
  import opened MtfCoding
  import opened BitStream
  import opened Huffman
  import opened Tables
  import Sending

  /** Status, value and remaining bits are as the parse says. */
  ghost predicate Told<T>(goal: Parsed<T>, status: Status, value: T, rest: seq<bool>) {
    match goal
    case Got(v, r) => status == Complete && value == v && rest == r
    case Bad => status == Corrupt
    case Short => status == Starved
  }

  lemma ToldIs<T>(goal: Parsed<T>, status: Status, value: T, rest: seq<bool>)
    requires Told(goal, status, value, rest)
    ensures goal.Got? ==> status == Complete && value == goal.value && rest == goal.rest
    ensures status == Complete ==> goal == Got(value, rest)
    ensures (goal == Bad <==> status == Corrupt) && (goal == Short <==> status == Starved)
  {
  }

  /** GET_BIT m times. */
  method ReceiveFlags(r: Reader, m: nat) returns (ok: bool, flags: seq<bool>)
    requires r.Valid()
    modifies r
    ensures r.Valid() && (ok <==> m <= |old(r.Ahead())|)
    ensures ok ==> flags == old(r.Ahead())[..m] && r.Ahead() == old(r.Ahead())[m..]
  {
    hide *;
    ghost var bs := r.Ahead();
    flags := [];
    for i := 0 to m
      invariant r.Valid() && i <= |bs| && flags == bs[..i] && r.Ahead() == bs[i..]
    {
      var got, uc := r.GetBits(1);
      if !got { return false, flags; }
      FlagOf(uc, bs[i..]);
      flags := flags + [uc == 1];
      assert bs[i..][1..] == bs[i + 1..];
    }
    ok := true;
  }

  lemma FlagOf(uc: nat, bs: seq<bool>)
    requires 1 <= |bs| && Bits(uc, 1) == bs[..1] && uc < Pow2(1)
    ensures uc < 2 && (uc == 1) == bs[0]
  {
    assert Pow2(1) == 2;
    assert Bits(uc, 1)[0] == bs[0];
  }

  // ----- the map of used bytes

  lemma GroupsStep(used: seq<bool>, i: nat, acc: seq<bool>, bs: seq<bool>)
    requires |used| == 16 && i < 16
    ensures ParseGroups(used, i, acc, bs) ==
            if !used[i] then ParseGroups(used, i + 1, acc + Zeros(16), bs)
            else if |bs| < 16 then Short
            else ParseGroups(used, i + 1, acc + bs[..16], bs[16..])
  {
  }

  lemma MapStarts(bs: seq<bool>)
    ensures ParseMap(bs) == if |bs| < 16 then Short else ParseGroups(bs[..16], 0, [], bs[16..])
  {
    hide ParseGroups;
  }

  lemma GroupsEnd(used: seq<bool>, acc: seq<bool>, bs: seq<bool>)
    requires |used| == 16
    ensures ParseGroups(used, 16, acc, bs) == Got(acc, bs)
  {
  }

  /** Receives the mapping table. */
  method ReceiveMap(r: Reader) returns (status: Status, inUse: seq<bool>)
    requires r.Valid()
    modifies r
    ensures r.Valid() && Told(ParseMap(old(r.Ahead())), status, inUse, r.Ahead())
    ensures status == Complete ==> |inUse| == 256
  {
    hide ParseMap, ParseGroups, Zeros, r.Ahead, r.Valid;
    ghost var goal := ParseMap(r.Ahead());
    MapStarts(r.Ahead());
    inUse := [];
    var ok, used := ReceiveFlags(r, 16);
    if !ok { return Starved, inUse; }
    for i := 0 to 16
      invariant r.Valid() && |inUse| == 16 * i && |used| == 16
      invariant ParseGroups(used, i, inUse, r.Ahead()) == goal
    {
      GroupsStep(used, i, inUse, r.Ahead());
      if used[i] {
        var group;
        ok, group := ReceiveFlags(r, 16);
        if !ok { return Starved, inUse; }
        inUse := inUse + group;
      } else {
        inUse := inUse + Zeros(16);
      }
    }
    GroupsEnd(used, inUse, r.Ahead());
    status := Complete;
  }

  // ----- selectors

  lemma UnaryStep(j: nat, nGroups: nat, bs: seq<bool>)
    ensures ParseUnary(j, nGroups, bs) ==
            if bs == [] then Short
            else if !bs[0] then Got(j, bs[1..])
            else if j + 1 >= nGroups then Bad
            else ParseUnary(j + 1, nGroups, bs[1..])
  {
  }

  method ReceiveUnary(r: Reader, nGroups: nat) returns (status: Status, j: nat)
    requires r.Valid()
    modifies r
    ensures r.Valid() && Told(ParseUnary(0, nGroups, old(r.Ahead())), status, j, r.Ahead())
  {
    hide ParseUnary, r.Ahead, r.Valid, Bits, Pow2;
    ghost var goal := ParseUnary(0, nGroups, r.Ahead());
    j := 0;
    while true
      invariant r.Valid() && ParseUnary(j, nGroups, r.Ahead()) == goal
      decreases |r.Ahead()|
    {
      ghost var bs := r.Ahead();
      UnaryStep(j, nGroups, bs);
      var got, uc := r.GetBits(1);
      if !got { return Starved, j; }
      FlagOf(uc, bs);
      if uc == 0 { break; }
      j := j + 1;
      if j >= nGroups { return Corrupt, j; }
    }
    status := Complete;
  }

  lemma SelectorsEnd(nGroups: nat, acc: seq<nat>, bs: seq<bool>)
    ensures ParseSelectors(0, nGroups, acc, bs) == Got(acc, bs)
  {
  }

  /** Receives nSelectors selectors, of which those beyond the limit are dropped. */
  method ReceiveSelectors(r: Reader, nSelectors: nat, nGroups: nat) returns (status: Status, selectorMtf: seq<nat>)
    requires r.Valid()
    modifies r
    ensures r.Valid()
    ensures Told(ParseSelectors(nSelectors, nGroups, [], old(r.Ahead())), status, selectorMtf, r.Ahead())
  {
    hide ParseSelectors, ParseUnary, r.Ahead, r.Valid;
    ghost var goal := ParseSelectors(nSelectors, nGroups, [], r.Ahead());
    selectorMtf := [];
    for i := 0 to nSelectors
      invariant r.Valid() && ParseSelectors(nSelectors - i, nGroups, selectorMtf, r.Ahead()) == goal
      invariant |selectorMtf| == if i < MAX_SELECTORS then i else MAX_SELECTORS
    {
      ParseSelectorsStep(nSelectors - i, nGroups, selectorMtf, r.Ahead());
      var j;
      status, j := ReceiveUnary(r, nGroups);
      if status != Complete { return; }
      if i < MAX_SELECTORS { selectorMtf := selectorMtf + [j]; }
    }
    SelectorsEnd(nGroups, selectorMtf, r.Ahead());
    status := Complete;
  }

  lemma {:induction false} SelectorsBelow(n: nat, nGroups: nat, acc: seq<nat>, bs: seq<bool>)
    requires ParseSelectors(n, nGroups, acc, bs).Got? && forall i :: 0 <= i < |acc| ==> acc[i] < nGroups
    requires nGroups > 0
    ensures forall i :: 0 <= i < |ParseSelectors(n, nGroups, acc, bs).value| ==>
              ParseSelectors(n, nGroups, acc, bs).value[i] < nGroups
  {
    if n > 0 {
      var u := ParseUnary(0, nGroups, bs);
      UnaryBelow(0, nGroups, bs);
      SelectorsBelow(n - 1, nGroups, if |acc| < MAX_SELECTORS then acc + [u.value] else acc, u.rest);
    }
  }

  lemma {:induction false} UnaryBelow(j: nat, nGroups: nat, bs: seq<bool>)
    requires j < nGroups
    ensures ParseUnary(j, nGroups, bs).Got? ==> ParseUnary(j, nGroups, bs).value < nGroups
    decreases |bs|
  {
    if bs != [] && bs[0] && j + 1 < nGroups { UnaryBelow(j + 1, nGroups, bs[1..]); }
  }

  /** Places above v are moved down, then the value at place v goes to the front. */
  method MoveSelector(pos: array<byte>, v0: nat) returns (tmp: byte)
    requires v0 < pos.Length
    modifies pos
    ensures tmp == old(pos[..])[v0] && pos[..] == ToFront(old(pos[..]), v0)
  {
    ghost var p := pos[..];
    var v := v0;
    tmp := pos[v];
    while v > 0
      invariant v <= v0
      invariant forall k :: 0 <= k <= v ==> pos[k] == p[k]
      invariant forall k :: v < k <= v0 ==> pos[k] == p[k - 1]
      invariant forall k :: v0 < k < pos.Length ==> pos[k] == p[k]
    {
      pos[v] := pos[v - 1];
      v := v - 1;
    }
    pos[0] := tmp;
  }

  lemma UndoStep(pos: seq<byte>, places: seq<nat>, i: nat, done: seq<byte>)
    requires i < |places| && PlacesIn(places, |pos|)
    ensures done + UndoMtf(pos, places[i..])
            == done + [pos[places[i]]] + UndoMtf(ToFront(pos, places[i]), places[i + 1..])
  {
    var rest := places[i..];
    assert rest[0] == places[i] && rest[1..] == places[i + 1..];
    hide *;
    UndoCons(pos, rest);
    JoinBytes(done, [pos[places[i]]], UndoMtf(ToFront(pos, places[i]), places[i + 1..]));
  }

  lemma JoinBytes(a: seq<byte>, b: seq<byte>, c: seq<byte>)
    ensures a + (b + c) == a + b + c
  {
  }

  lemma UndoCons(pos: seq<byte>, places: seq<nat>)
    requires places != [] && PlacesIn(places, |pos|)
    ensures UndoMtf(pos, places) == [pos[places[0]]] + UndoMtf(ToFront(pos, places[0]), places[1..])
  {
    hide ToFront;
  }

  /** Undoes the MTF values for the selectors. */
  method UndoSelectors(selectorMtf: seq<nat>, nGroups: nat) returns (selector: seq<byte>)
    requires 1 <= nGroups <= 6 && PlacesIn(selectorMtf, nGroups)
    ensures selector == UndoMtf(InitialList(nGroups), selectorMtf)
  {
    var pos := new byte[nGroups](i requires 0 <= i < nGroups <= 6 => i);
    assert pos[..] == InitialList(nGroups);
    assert selectorMtf[0..] == selectorMtf;
    hide UndoMtf, ToFront, InitialList;
    ghost var goal := UndoMtf(pos[..], selectorMtf);
    selector := [];
    assert [] + goal == goal;
    for i := 0 to |selectorMtf|
      invariant pos.Length == nGroups && |pos[..]| == nGroups
      invariant selector + UndoMtf(pos[..], selectorMtf[i..]) == goal
    {
      UndoStep(pos[..], selectorMtf, i, selector);
      var tmp := MoveSelector(pos, selectorMtf[i]);
      selector := selector + [tmp];
    }
    UndoEnds(pos[..], selectorMtf, selector);
  }

  lemma UndoEnds(pos: seq<byte>, places: seq<nat>, done: seq<byte>)
    requires PlacesIn(places, |pos|)
    ensures done + UndoMtf(pos, places[|places|..]) == done
  {
    assert places[|places|..] == [];
  }

  lemma {:induction false} UndoneIn(pos: seq<byte>, places: seq<nat>, n: nat)
    requires PlacesIn(places, |pos|)
    requires forall k :: 0 <= k < |pos| ==> pos[k] < n
    ensures forall i :: 0 <= i < |places| ==> UndoMtf(pos, places)[i] < n
    decreases |places|
  {
    if places != [] { UndoneIn(ToFront(pos, places[0]), places[1..], n); }
  }

  // ----- code lengths

  lemma LengthStep(curr: int, bs: seq<bool>)
    ensures ParseLength(curr, bs) ==
            if curr < 1 || curr > 20 then Bad
            else if bs == [] then Short
            else if !bs[0] then Got(curr, bs[1..])
            else if |bs| == 1 then Short
            else ParseLength(if bs[1] then curr - 1 else curr + 1, bs[2..])
  {
  }

  /** One code length: curr is moved up or down until a zero comes, within 1 to 20. */
  method ReceiveLength(r: Reader, curr0: int) returns (status: Status, curr: int)
    requires r.Valid()
    modifies r
    ensures r.Valid() && status == Complete ==> 1 <= curr <= 20
    ensures r.Valid() && Told(ParseLength(curr0, old(r.Ahead())), status, if 0 <= curr < 256 then curr else 0,
            r.Ahead())
  {
    hide ParseLength, r.Ahead, r.Valid, Bits, Pow2;
    ghost var goal := ParseLength(curr0, r.Ahead());
    curr := curr0;
    while true
      invariant r.Valid() && ParseLength(curr, r.Ahead()) == goal
      decreases |r.Ahead()|
    {
      ghost var bs := r.Ahead();
      LengthStep(curr, bs);
      if curr < 1 || curr > 20 { return Corrupt, curr; }
      var got, uc := r.GetBits(1);
      if !got { return Starved, curr; }
      FlagOf(uc, bs);
      if uc == 0 { break; }
      got, uc := r.GetBits(1);
      if !got { return Starved, curr; }
      FlagOf(uc, bs[1..]);
      assert bs[1..][1..] == bs[2..];
      if uc == 0 { curr := curr + 1; } else { curr := curr - 1; }
    }
    status := Complete;
  }

  lemma TableStarts(alphaSize: nat, bs: seq<bool>)
    ensures ParseTable(alphaSize, bs)
            == if |bs| < 5 then Short else ParseLengths(alphaSize, Value(bs[..5]), [], bs[5..])
  {
    hide ParseLengths;
  }

  lemma ValueIs(v: nat, n: nat, bs: seq<bool>)
    requires v < Pow2(n) && Bits(v, n) == bs
    ensures v == Value(bs)
  {
    ValueOfBits(v, n);
  }

  lemma LengthsEnd(curr: int, acc: seq<byte>, bs: seq<bool>)
    ensures ParseLengths(0, curr, acc, bs) == Got(acc, bs)
  {
  }

  method ReceiveTable(r: Reader, alphaSize: nat) returns (status: Status, len: seq<byte>)
    requires r.Valid()
    modifies r
    ensures r.Valid() && Told(ParseTable(alphaSize, old(r.Ahead())), status, len, r.Ahead())
    ensures status == Complete ==> |len| == alphaSize && forall i :: 0 <= i < alphaSize ==> 1 <= len[i] <= 20
  {
    hide ParseTable, ParseLengths, ParseLength, r.Ahead, r.Valid, Bits, Pow2, Value;
    ghost var bs := r.Ahead();
    ghost var goal := ParseTable(alphaSize, bs);
    TableStarts(alphaSize, bs);
    len := [];
    var got, v := r.GetBits(5);
    if !got { return Starved, len; }
    ValueIs(v, 5, bs[..5]);
    var curr: int := v;
    for i := 0 to alphaSize
      invariant r.Valid() && ParseLengths(alphaSize - i, curr, len, r.Ahead()) == goal
      invariant |len| == i && forall k :: 0 <= k < i ==> 1 <= len[k] <= 20
    {
      ParseLengthsStep(alphaSize - i, curr, len, r.Ahead());
      status, curr := ReceiveLength(r, curr);
      if status != Complete { return; }
      len := len + [curr];
    }
    LengthsEnd(curr, len, r.Ahead());
    status := Complete;
  }

  lemma TablesStep(n: nat, alphaSize: nat, acc: seq<seq<byte>>, bs: seq<bool>)
    ensures ParseTables(n, alphaSize, acc, bs) ==
            if n == 0 then Got(acc, bs)
            else match ParseTable(alphaSize, bs)
              case Bad => Bad
              case Short => Short
              case Got(len, rest) => ParseTables(n - 1, alphaSize, acc + [len], rest)
  {
    hide ParseTable;
  }

  /** Receives the coding tables. */
  method ReceiveTables(r: Reader, nGroups: nat, alphaSize: nat) returns (status: Status, lens: seq<seq<byte>>)
    requires r.Valid() && alphaSize > 0
    modifies r
    ensures r.Valid() && Told(ParseTables(nGroups, alphaSize, [], old(r.Ahead())), status, lens, r.Ahead())
    ensures status == Complete ==> |lens| == nGroups && AlphabetOf(lens, alphaSize)
  {
    hide ParseTable, ParseTables, r.Ahead, r.Valid;
    ghost var goal := ParseTables(nGroups, alphaSize, [], r.Ahead());
    lens := [];
    for t := 0 to nGroups
      invariant r.Valid() && ParseTables(nGroups - t, alphaSize, lens, r.Ahead()) == goal
      invariant |lens| == t && AlphabetOf(lens, alphaSize)
    {
      TablesStep(nGroups - t, alphaSize, lens, r.Ahead());
      var len;
      status, len := ReceiveTable(r, alphaSize);
      if status != Complete { return; }
      lens := lens + [len];
    }
    TablesStep(0, alphaSize, lens, r.Ahead());
    status := Complete;
  }

  /** Creates the Huffman decoding tables. */
  method CreateTables(lens: seq<seq<byte>>, alphaSize: nat) returns (tabs: seq<Table>)
    requires AlphabetOf(lens, alphaSize) && alphaSize <= 258
    ensures TablesFor(tabs, lens)
  {
    tabs := [];
    for t := 0 to |lens|
      invariant |tabs| == t && forall u :: 0 <= u < t ==> TableFor(tabs[u], lens[u])
    {
      assert AllLengths(lens[t]);
      var tab := CreateTable(lens[t]);
      tabs := tabs + [tab];
    }
  }

  method CreateTable(len: seq<byte>) returns (tab: Table)
    requires AllLengths(len) && |len| <= 258
    ensures TableFor(tab, len)
  {
    hide DecodeTables;
    var minLen, maxLen := Sending.LengthRange(len);
    var limit, base, perm := CreateDecodeTables(len, minLen, maxLen);
    tab := Table(limit[..], base[..], perm[..], minLen);
    TableShape(len, minLen, maxLen, limit[..], base[..], perm[..]);
  }

  lemma TableShape(len: seq<byte>, lo: nat, hi: nat, limit: seq<int>, base: seq<int>, perm: seq<int>)
    requires DecodeTables(len, lo, hi, limit, base, perm)
    ensures |limit| == 23 && |base| == 23 && |perm| == 258
  {
  }

  // ----- the symbols

  ghost predicate TableShapes(tabs: seq<Table>) {
    forall t :: 0 <= t < |tabs| ==> OneShape(tabs[t])
  }

  ghost predicate OneShape(tab: Table) {
    |tab.limit| == |tab.base| == 23 && |tab.perm| == 258 && tab.minLen <= 20
  }

  lemma WalkStep(limit: seq<int>, base: seq<int>, perm: seq<int>, zn: nat, zvec: nat, bs: seq<bool>)
    requires |limit| == 23 && |base| == 23 && |perm| == 258
    ensures WalkCode(limit, base, perm, zn, zvec, bs) ==
            if zn > 20 then Bad
            else if zvec <= limit[zn] then
              if zvec - base[zn] < 0 || zvec - base[zn] >= 258 then Bad else Got(perm[zvec - base[zn]], bs)
            else if bs == [] then Short
            else WalkCode(limit, base, perm, zn + 1, 2 * zvec + (if bs[0] then 1 else 0), bs[1..])
  {
  }

  lemma ReadStarts(tab: Table, bs: seq<bool>)
    requires OneShape(tab)
    ensures ReadSymbol(tab.limit, tab.base, tab.perm, tab.minLen, bs) ==
            if |bs| < tab.minLen then Short
            else WalkCode(tab.limit, tab.base, tab.perm, tab.minLen, Value(bs[..tab.minLen]), bs[tab.minLen..])
  {
    hide WalkCode;
  }

  /** The part of GET_MTF_VAL that reads one code. */
  method ReceiveCode(r: Reader, tab: Table) returns (status: Status, sym: int)
    requires r.Valid() && OneShape(tab)
    modifies r
    ensures r.Valid()
    ensures Told(ReadSymbol(tab.limit, tab.base, tab.perm, tab.minLen, old(r.Ahead())), status, sym, r.Ahead())
  {
    hide ReadSymbol, WalkCode, r.Ahead, r.Valid, Bits, Pow2, Value;
    ghost var goal := ReadSymbol(tab.limit, tab.base, tab.perm, tab.minLen, r.Ahead());
    ghost var start := r.Ahead();
    ReadStarts(tab, start);
    sym := 0;
    var zn := tab.minLen;
    var got, v := r.GetBits(zn);
    if !got { return Starved, sym; }
    ValueIs(v, zn, start[..zn]);
    var zvec: nat := v;
    while true
      invariant r.Valid() && WalkCode(tab.limit, tab.base, tab.perm, zn, zvec, r.Ahead()) == goal
      decreases 21 - zn
    {
      ghost var bs := r.Ahead();
      WalkStep(tab.limit, tab.base, tab.perm, zn, zvec, bs);
      if zn > 20 { return Corrupt, sym; }
      if zvec <= tab.limit[zn] { break; }
      zn := zn + 1;
      var zj;
      got, zj := r.GetBits(1);
      if !got { return Starved, sym; }
      FlagOf(zj, bs);
      zvec := zvec * 2 + zj;
    }
    if zvec - tab.base[zn] < 0 || zvec - tab.base[zn] >= 258 { return Corrupt, sym; }
    return Complete, tab.perm[zvec - tab.base[zn]];
  }
}
