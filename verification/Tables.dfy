/** The format of what precedes and forms the data of a block: the map of used bytes,
    the selectors, the code lengths and the symbols; and that parsing gives it back. */
module Tables {
  import opened Counting
  import opened InverseBwt
  import opened MoveToFront
  import opened MtfCoding
  import opened BitStream
  import opened Huffman

  lemma Cut(a: seq<bool>, b: seq<bool>)
    ensures (a + b)[..|a|] == a && (a + b)[|a|..] == b
  {
  }

  lemma CutTwo(x: bool, y: bool, b: seq<bool>, rest: seq<bool>)
    ensures var bs := [x, y] + b + rest; |bs| >= 2 && bs[0] == x && bs[1] == y && bs[2..] == b + rest
  {
  }

  lemma CutOne(x: bool, rest: seq<bool>)
    ensures var bs := [x] + rest; bs[0] == x && bs[1..] == rest
  {
  }

  // ----- the map of used bytes

  /** The sixteen flags of group i. */
  function Group(inUse: seq<bool>, i: nat): (r: seq<bool>)
    requires |inUse| == 256 && i < 16
    ensures |r| == 16
  {
    inUse[16 * i..16 * i + 16]
  }

  function InUse16(inUse: seq<bool>): (r: seq<bool>)
    requires |inUse| == 256
    ensures |r| == 16 && forall i :: 0 <= i < 16 ==> (r[i] <==> true in Group(inUse, i))
  {
    seq(16, i requires 0 <= i < 16 => true in Group(inUse, i))
  }

  /** The flags of the used groups from group i on. */
  function GroupBits(inUse: seq<bool>, i: nat): seq<bool>
    requires |inUse| == 256 && i <= 16
    decreases 16 - i
  {
    if i == 16 then []
    else (if true in Group(inUse, i) then Group(inUse, i) else []) + GroupBits(inUse, i + 1)
  }

  function MapBits(inUse: seq<bool>): seq<bool>
    requires |inUse| == 256
  {
    InUse16(inUse) + GroupBits(inUse, 0)
  }

  /** Reads the groups from i on; acc are the flags of the earlier ones. */
  function ParseGroups(used: seq<bool>, i: nat, acc: seq<bool>, bs: seq<bool>): Parsed<seq<bool>>
    requires |used| == 16 && i <= 16
    decreases 16 - i
  {
    if i == 16 then Got(acc, bs)
    else if !used[i] then ParseGroups(used, i + 1, acc + Zeros(16), bs)
    else if |bs| < 16 then Short
    else ParseGroups(used, i + 1, acc + bs[..16], bs[16..])
  }

  function ParseMap(bs: seq<bool>): Parsed<seq<bool>> {
    if |bs| < 16 then Short else ParseGroups(bs[..16], 0, [], bs[16..])
  }

  lemma UnusedGroup(inUse: seq<bool>, i: nat)
    requires |inUse| == 256 && i < 16
    ensures inUse[..16 * i] + Group(inUse, i) == inUse[..16 * (i + 1)]
    ensures true !in Group(inUse, i) ==> Group(inUse, i) == Zeros(16)
  {
    var g := Group(inUse, i);
    if true !in g {
      forall k | 0 <= k < 16 ensures !g[k] { assert g[k] ==> true in g; }
    }
  }

  lemma {:induction false} GroupsBack(inUse: seq<bool>, i: nat, rest: seq<bool>)
    requires |inUse| == 256 && i <= 16
    ensures ParseGroups(InUse16(inUse), i, inUse[..16 * i], GroupBits(inUse, i) + rest) == Got(inUse, rest)
    decreases 16 - i
  {
    if i == 16 {
      assert inUse[..256] == inUse;
      assert GroupBits(inUse, 16) + rest == rest;
    } else {
      GroupsBack(inUse, i + 1, rest);
      UnusedGroup(inUse, i);
      var g, more := Group(inUse, i), GroupBits(inUse, i + 1);
      hide Group, Zeros;
      if true in g {
        JoinBits(g, more, rest);
        Cut(g, more + rest);
      } else {
        assert [] + more == more;
      }
    }
  }

  lemma MapBack(inUse: seq<bool>, rest: seq<bool>)
    requires |inUse| == 256
    ensures ParseMap(MapBits(inUse) + rest) == Got(inUse, rest)
  {
    var bs := MapBits(inUse) + rest;
    assert bs == InUse16(inUse) + (GroupBits(inUse, 0) + rest);
    assert bs[..16] == InUse16(inUse) && bs[16..] == GroupBits(inUse, 0) + rest;
    assert inUse[..0] == [];
    GroupsBack(inUse, 0, rest);
  }

  // ----- selectors

  const MAX_SELECTORS := 18002

  /** The places of the selectors in a move-to-front list. */
  function SelectorMtf(pos: seq<byte>, sel: seq<byte>): (r: seq<nat>)
    requires pos != [] && AllIn(sel, pos)
    ensures |r| == |sel| && forall i :: 0 <= i < |r| ==> r[i] < |pos|
    decreases |sel|
  {
    if sel == [] then []
    else
      var j := IndexOf(pos, sel[0]);
      AllInMoved(sel, pos, j);
      [j] + SelectorMtf(ToFront(pos, j), sel[1..])
  }

  /** Places on a list of n values. */
  ghost predicate PlacesIn(places: seq<nat>, n: nat) {
    forall i :: 0 <= i < |places| ==> places[i] < n
  }

  ghost function UndoMtf(pos: seq<byte>, places: seq<nat>): (r: seq<byte>)
    requires PlacesIn(places, |pos|)
    ensures |r| == |places|
    decreases |places|
  {
    if places == [] then [] else [pos[places[0]]] + UndoMtf(ToFront(pos, places[0]), places[1..])
  }

  lemma {:induction false} UndoBack(pos: seq<byte>, sel: seq<byte>)
    requires pos != [] && AllIn(sel, pos)
    ensures UndoMtf(pos, SelectorMtf(pos, sel)) == sel
    decreases |sel|
  {
    if sel != [] {
      var j := IndexOf(pos, sel[0]);
      AllInMoved(sel, pos, j);
      UndoBack(ToFront(pos, j), sel[1..]);
      assert SelectorMtf(pos, sel)[1..] == SelectorMtf(ToFront(pos, j), sel[1..]);
      assert [sel[0]] + sel[1..] == sel;
    }
  }

  function Unary(j: nat): (r: seq<bool>)
    ensures |r| == j + 1
  {
    if j == 0 then [false] else [true] + Unary(j - 1)
  }

  function UnaryAll(js: seq<nat>): seq<bool>
    decreases |js|
  {
    if js == [] then [] else Unary(js[0]) + UnaryAll(js[1..])
  }

  /** Counts ones up to a zero; nGroups of them are an error. */
  function ParseUnary(j: nat, nGroups: nat, bs: seq<bool>): Parsed<nat>
    decreases |bs|
  {
    if bs == [] then Short
    else if !bs[0] then Got(j, bs[1..])
    else if j + 1 >= nGroups then Bad
    else ParseUnary(j + 1, nGroups, bs[1..])
  }

  /** Reads n more selectors, of which only the first MAX_SELECTORS are kept. */
  function ParseSelectors(n: nat, nGroups: nat, acc: seq<nat>, bs: seq<bool>): Parsed<seq<nat>> {
    if n == 0 then Got(acc, bs)
    else match ParseUnary(0, nGroups, bs)
      case Bad => Bad
      case Short => Short
      case Got(j, rest) => ParseSelectors(n - 1, nGroups, if |acc| < MAX_SELECTORS then acc + [j] else acc, rest)
  }

  lemma {:induction false} UnaryBack(j: nat, k: nat, nGroups: nat, rest: seq<bool>)
    requires j + k < nGroups
    ensures ParseUnary(j, nGroups, Unary(k) + rest) == Got(j + k, rest)
    decreases k
  {
    if k == 0 {
      CutOne(false, rest);
    } else {
      UnaryBack(j + 1, k - 1, nGroups, rest);
      JoinBits([true], Unary(k - 1), rest);
      CutOne(true, Unary(k - 1) + rest);
    }
  }

  lemma ParseSelectorsStep(n: nat, nGroups: nat, acc: seq<nat>, bs: seq<bool>)
    requires n > 0
    ensures var u := ParseUnary(0, nGroups, bs);
            ParseSelectors(n, nGroups, acc, bs) == match u
              case Bad => Bad
              case Short => Short
              case Got(j, rest) => ParseSelectors(n - 1, nGroups, if |acc| < MAX_SELECTORS then acc + [j] else acc,
                rest)
  {
    hide ParseUnary;
  }

  lemma {:induction false} SelectorsBack(js: seq<nat>, nGroups: nat, acc: seq<nat>, rest: seq<bool>)
    requires |acc| + |js| <= MAX_SELECTORS && forall i :: 0 <= i < |js| ==> js[i] < nGroups
    ensures ParseSelectors(|js|, nGroups, acc, UnaryAll(js) + rest) == Got(acc + js, rest)
    decreases |js|
  {
    hide Unary, ParseUnary;
    if js == [] {
      assert UnaryAll(js) + rest == rest && acc + js == acc;
    } else {
      var more := UnaryAll(js[1..]) + rest;
      SelectorsBack(js[1..], nGroups, acc + [js[0]], rest);
      UnaryBack(0, js[0], nGroups, more);
      JoinBits(Unary(js[0]), UnaryAll(js[1..]), rest);
      assert acc + [js[0]] + js[1..] == acc + js;
      hide UnaryAll, ParseSelectors;
      ParseSelectorsStep(|js|, nGroups, acc, Unary(js[0]) + more);
      UnaryAllCons(js);
    }
  }

  lemma UnaryAllCons(js: seq<nat>)
    requires js != []
    ensures UnaryAll(js) == Unary(js[0]) + UnaryAll(js[1..])
  {
  }

  // ----- code lengths

  /** From curr to l in steps of one, then a zero. */
  function DeltaBits(curr: nat, l: nat): seq<bool>
    decreases if curr < l then l - curr else curr - l
  {
    if curr < l then [true, false] + DeltaBits(curr + 1, l)
    else if curr > l then [true, true] + DeltaBits(curr - 1, l)
    else [false]
  }

  function LengthBits(curr: nat, len: seq<byte>): seq<bool>
    decreases |len|
  {
    if len == [] then [] else DeltaBits(curr, len[0]) + LengthBits(len[0], len[1..])
  }

  function TableBits(len: seq<byte>): seq<bool>
    requires len != []
  {
    Bits(len[0], 5) + LengthBits(len[0], len)
  }

  /** The tables from number t on. */
  function TablesFrom(lens: seq<seq<byte>>, t: nat): seq<bool>
    requires t <= |lens| && forall t :: 0 <= t < |lens| ==> lens[t] != []
    decreases |lens| - t
  {
    if t == |lens| then [] else TableBits(lens[t]) + TablesFrom(lens, t + 1)
  }

  function ParseLength(curr: int, bs: seq<bool>): Parsed<byte>
    decreases |bs|
  {
    if curr < 1 || curr > 20 then Bad
    else if bs == [] then Short
    else if !bs[0] then Got(curr, bs[1..])
    else if |bs| == 1 then Short
    else ParseLength(if bs[1] then curr - 1 else curr + 1, bs[2..])
  }

  /** Reads n more lengths, starting from curr. */
  function ParseLengths(n: nat, curr: int, acc: seq<byte>, bs: seq<bool>): Parsed<seq<byte>> {
    if n == 0 then Got(acc, bs)
    else match ParseLength(curr, bs)
      case Bad => Bad
      case Short => Short
      case Got(l, rest) => ParseLengths(n - 1, l, acc + [l], rest)
  }

  function ParseTable(alphaSize: nat, bs: seq<bool>): Parsed<seq<byte>> {
    if |bs| < 5 then Short else ParseLengths(alphaSize, Value(bs[..5]), [], bs[5..])
  }

  /** Reads n more tables. */
  function ParseTables(n: nat, alphaSize: nat, acc: seq<seq<byte>>, bs: seq<bool>): Parsed<seq<seq<byte>>> {
    if n == 0 then Got(acc, bs)
    else match ParseTable(alphaSize, bs)
      case Bad => Bad
      case Short => Short
      case Got(len, rest) => ParseTables(n - 1, alphaSize, acc + [len], rest)
  }

  /** The current length never leaves 1 to 20, and arrives. */
  lemma {:induction false} DeltaBack(curr: nat, l: nat, rest: seq<bool>)
    requires 1 <= curr <= 20 && 1 <= l <= 20
    ensures ParseLength(curr, DeltaBits(curr, l) + rest) == Got(l, rest)
    decreases if curr < l then l - curr else curr - l
  {
    if curr < l {
      DeltaBack(curr + 1, l, rest);
      CutTwo(true, false, DeltaBits(curr + 1, l), rest);
    } else if curr > l {
      DeltaBack(curr - 1, l, rest);
      CutTwo(true, true, DeltaBits(curr - 1, l), rest);
    } else {
      CutOne(false, rest);
    }
  }

  lemma ParseLengthsStep(n: nat, curr: int, acc: seq<byte>, bs: seq<bool>)
    requires n > 0
    ensures ParseLengths(n, curr, acc, bs) == match ParseLength(curr, bs)
              case Bad => Bad
              case Short => Short
              case Got(l, rest) => ParseLengths(n - 1, l, acc + [l], rest)
  {
    hide ParseLength;
  }

  lemma LengthBitsCons(curr: nat, len: seq<byte>)
    requires len != []
    ensures LengthBits(curr, len) == DeltaBits(curr, len[0]) + LengthBits(len[0], len[1..])
  {
    hide DeltaBits;
  }

  lemma {:induction false} LengthsBack(curr: nat, len: seq<byte>, acc: seq<byte>, rest: seq<bool>)
    requires 1 <= curr <= 20 && forall i :: 0 <= i < |len| ==> 1 <= len[i] <= 20
    ensures ParseLengths(|len|, curr, acc, LengthBits(curr, len) + rest) == Got(acc + len, rest)
    decreases |len|
  {
    hide DeltaBits, ParseLength;
    if len == [] {
      assert LengthBits(curr, len) + rest == rest && acc + len == acc;
    } else {
      hide LengthBits, ParseLengths;
      var more := LengthBits(len[0], len[1..]) + rest;
      DeltaBack(curr, len[0], more);
      LengthsBack(len[0], len[1..], acc + [len[0]], rest);
      JoinBits(DeltaBits(curr, len[0]), LengthBits(len[0], len[1..]), rest);
      LengthBitsCons(curr, len);
      ParseLengthsStep(|len|, curr, acc, DeltaBits(curr, len[0]) + more);
      assert acc + [len[0]] + len[1..] == acc + len;
    }
  }

  lemma TableBack(len: seq<byte>, rest: seq<bool>)
    requires len != [] && forall i :: 0 <= i < |len| ==> 1 <= len[i] <= 20
    ensures ParseTable(|len|, TableBits(len) + rest) == Got(len, rest)
  {
    var l: nat := len[0];
    assert l < Pow2(5) by { assert Pow2(3) == 8; }
    hide Bits, Pow2, Value, LengthBits, ParseLengths;
    ValueOfBits(l, 5);
    LengthsBack(l, len, [], rest);
    JoinBits(Bits(l, 5), LengthBits(l, len), rest);
    Cut(Bits(l, 5), LengthBits(l, len) + rest);
    assert [] + len == len;
  }

  /** lens are code lengths for an alphabet of the given size. */
  ghost predicate AlphabetOf(lens: seq<seq<byte>>, alphaSize: nat) {
    forall t :: 0 <= t < |lens| ==> |lens[t]| == alphaSize && AllLengths(lens[t])
  }

  ghost predicate AllLengths(len: seq<byte>) {
    len != [] && forall i :: 0 <= i < |len| ==> 1 <= len[i] <= 20
  }

  lemma {:induction false} TablesBack(lens: seq<seq<byte>>, alphaSize: nat, t: nat, rest: seq<bool>)
    requires AlphabetOf(lens, alphaSize) && t <= |lens|
    ensures ParseTables(|lens| - t, alphaSize, lens[..t], TablesFrom(lens, t) + rest) == Got(lens, rest)
    decreases |lens| - t
  {
    hide ParseTable, TableBits;
    if t == |lens| {
      assert lens[..t] == lens && TablesFrom(lens, t) + rest == rest;
    } else {
      assert AllLengths(lens[t]);
      var more := TablesFrom(lens, t + 1) + rest;
      assert TablesFrom(lens, t) + rest == TableBits(lens[t]) + more;
      TableBack(lens[t], more);
      TablesBack(lens, alphaSize, t + 1, rest);
      assert lens[..t] + [lens[t]] == lens[..t + 1];
    }
  }

  // ----- the symbols

  const GROUP_SIZE := 50

  /** The group of symbol number k. */
  function GroupOf(k: nat): nat { k / GROUP_SIZE }

  /** How the symbols are coded: tables and the table chosen for each group of 50. */
  datatype Coding = Coding(lens: seq<seq<byte>>, sel: seq<byte>)

  function MinLen(len: seq<byte>): (m: nat)
    requires len != []
    ensures forall i :: 0 <= i < |len| ==> m <= len[i]
    ensures m in len
  {
    if |len| == 1 then len[0]
    else
      var m := MinLen(len[..|len| - 1]);
      if len[|len| - 1] < m then len[|len| - 1] else m
  }

  function MaxLen(len: seq<byte>): (m: nat)
    requires len != []
    ensures forall i :: 0 <= i < |len| ==> len[i] <= m
    ensures m in len
  {
    if |len| == 1 then len[0]
    else
      var m := MaxLen(len[..|len| - 1]);
      if len[|len| - 1] > m then len[|len| - 1] else m
  }

  /** The codes of a table fit: its lengths satisfy Kraft's inequality. */
  ghost predicate GoodTable(len: seq<byte>) {
    len != [] && Fits(len, MinLen(len), MaxLen(len))
  }

  /** There is a good table for every group. */
  ghost predicate Codable(cod: Coding, alphaSize: nat, count: nat) {
    && (forall t :: 0 <= t < |cod.lens| ==> |cod.lens[t]| == alphaSize && GoodTable(cod.lens[t]))
    && 2 <= |cod.lens| <= 6
    && (forall i :: 0 <= i < |cod.sel| ==> cod.sel[i] < |cod.lens|)
    && (count + GROUP_SIZE - 1) / GROUP_SIZE == |cod.sel| <= MAX_SELECTORS
  }

  /** The compressor uses no code longer than 17 bits, though the decompressor reads up to 20. */
  ghost predicate ShortCodes(cod: Coding) {
    forall t :: 0 <= t < |cod.lens| ==> ShortCode(cod.lens[t])
  }

  ghost predicate ShortCode(len: seq<byte>) {
    forall i :: 0 <= i < |len| ==> len[i] <= 17
  }

  /** The table for symbol number k. */
  function TableOf(cod: Coding, k: nat): (len: seq<byte>)
    requires GroupOf(k) < |cod.sel| && cod.sel[GroupOf(k)] < |cod.lens|
  {
    cod.lens[cod.sel[GroupOf(k)]]
  }

  function SymbolBits(len: seq<byte>, s: nat): seq<bool>
    requires s < |len|
  {
    Bits(CodeOf(len, MinLen(len), s), len[s])
  }

  /** The symbols from number k on. */
  function DataFrom(cod: Coding, alphaSize: nat, syms: seq<int>, k: nat): seq<bool>
    requires Codable(cod, alphaSize, |syms|) && k <= |syms|
    requires forall i :: 0 <= i < |syms| ==> 0 <= syms[i] < alphaSize
    decreases |syms| - k
  {
    if k == |syms| then []
    else SymbolBits(TableOf(cod, k), syms[k]) + DataFrom(cod, alphaSize, syms, k + 1)
  }

  /** A decoding table: the arrays and minLens entry for one set of lengths. */
  datatype Table = Table(limit: seq<int>, base: seq<int>, perm: seq<int>, minLen: nat)

  ghost predicate TableFor(tab: Table, len: seq<byte>) {
    && len != [] && |tab.limit| == |tab.base| == 23 && |tab.perm| == 258 && tab.minLen == MinLen(len)
    && DecodeTables(len, MinLen(len), MaxLen(len), tab.limit, tab.base, tab.perm)
  }

  ghost predicate TablesFor(tabs: seq<Table>, lens: seq<seq<byte>>) {
    |tabs| == |lens| && forall t :: 0 <= t < |lens| ==> TableFor(tabs[t], lens[t])
  }

  /** Reads symbols up to the end mark, the k-th with the table of group k / 50; there
      must be a selector for it. */
  function ParseData(tabs: seq<Table>, sel: seq<byte>, eob: int, k: nat, acc: seq<int>, bs: seq<bool>): Parsed<seq<int>>
    requires forall t :: 0 <= t < |tabs| ==> |tabs[t].limit| == |tabs[t].base| == 23 && |tabs[t].perm| == 258
    requires forall i :: 0 <= i < |sel| ==> sel[i] < |tabs|
    decreases GROUP_SIZE * |sel| - k
  {
    if GroupOf(k) >= |sel| then Bad
    else
      var tab := tabs[sel[GroupOf(k)]];
      match ReadSymbol(tab.limit, tab.base, tab.perm, tab.minLen, bs)
      case Bad => Bad
      case Short => Short
      case Got(s, rest) =>
        if s == eob then Got(acc + [s], rest) else ParseData(tabs, sel, eob, k + 1, acc + [s], rest)
  }

  /** The symbols that can be read, up to the end mark or the first that cannot. */
  function SymbolsFrom(tabs: seq<Table>, sel: seq<byte>, eob: int, k: nat, bs: seq<bool>): seq<int>
    requires forall t :: 0 <= t < |tabs| ==> |tabs[t].limit| == |tabs[t].base| == 23 && |tabs[t].perm| == 258
    requires forall i :: 0 <= i < |sel| ==> sel[i] < |tabs|
    decreases GROUP_SIZE * |sel| - k
  {
    if GroupOf(k) >= |sel| then []
    else
      var tab := tabs[sel[GroupOf(k)]];
      match ReadSymbol(tab.limit, tab.base, tab.perm, tab.minLen, bs)
      case Got(s, rest) => [s] + if s == eob then [] else SymbolsFrom(tabs, sel, eob, k + 1, rest)
      case _ => []
  }

  /** Whether the end mark is among them, with the bits behind it, or what stops the reading. */
  function EndFrom(tabs: seq<Table>, sel: seq<byte>, eob: int, k: nat, bs: seq<bool>): Parsed<int>
    requires forall t :: 0 <= t < |tabs| ==> |tabs[t].limit| == |tabs[t].base| == 23 && |tabs[t].perm| == 258
    requires forall i :: 0 <= i < |sel| ==> sel[i] < |tabs|
    decreases GROUP_SIZE * |sel| - k
  {
    if GroupOf(k) >= |sel| then Bad
    else
      var tab := tabs[sel[GroupOf(k)]];
      match ReadSymbol(tab.limit, tab.base, tab.perm, tab.minLen, bs)
      case Bad => Bad
      case Short => Short
      case Got(s, rest) => if s == eob then Got(s, rest) else EndFrom(tabs, sel, eob, k + 1, rest)
  }

  /** Together they are what ParseData finds. */
  lemma {:induction false} DataSplits(tabs: seq<Table>, sel: seq<byte>, eob: int, k: nat, acc: seq<int>, bs: seq<bool>)
    requires forall t :: 0 <= t < |tabs| ==> |tabs[t].limit| == |tabs[t].base| == 23 && |tabs[t].perm| == 258
    requires forall i :: 0 <= i < |sel| ==> sel[i] < |tabs|
    ensures ParseData(tabs, sel, eob, k, acc, bs) ==
            match EndFrom(tabs, sel, eob, k, bs)
            case Bad => Bad
            case Short => Short
            case Got(_, rest) => Got(acc + SymbolsFrom(tabs, sel, eob, k, bs), rest)
    decreases GROUP_SIZE * |sel| - k
  {
    hide ReadSymbol;
    if GroupOf(k) < |sel| {
      var tab := tabs[sel[GroupOf(k)]];
      var p := ReadSymbol(tab.limit, tab.base, tab.perm, tab.minLen, bs);
      if p.Got? { assert [p.value] + [] == [p.value]; }
      if p.Got? && p.value != eob {
        DataSplits(tabs, sel, eob, k + 1, acc + [p.value], p.rest);
        var more := SymbolsFrom(tabs, sel, eob, k + 1, p.rest);
        assert acc + [p.value] + more == acc + ([p.value] + more);
      }
    }
  }

  lemma {:induction false} EndIsMark(tabs: seq<Table>, sel: seq<byte>, eob: int, k: nat, bs: seq<bool>)
    requires forall t :: 0 <= t < |tabs| ==> |tabs[t].limit| == |tabs[t].base| == 23 && |tabs[t].perm| == 258
    requires forall i :: 0 <= i < |sel| ==> sel[i] < |tabs|
    ensures var end := EndFrom(tabs, sel, eob, k, bs); end.Got? ==> end.value == eob
    decreases GROUP_SIZE * |sel| - k
  {
    hide ReadSymbol;
    if GroupOf(k) < |sel| {
      var tab := tabs[sel[GroupOf(k)]];
      var p := ReadSymbol(tab.limit, tab.base, tab.perm, tab.minLen, bs);
      if p.Got? && p.value != eob { EndIsMark(tabs, sel, eob, k + 1, p.rest); }
    }
  }

  /** Symbols that end with their only end mark. */
  ghost predicate Ended(syms: seq<int>, alphaSize: nat) {
    && syms != [] && syms[|syms| - 1] == alphaSize - 1
    && forall i :: 0 <= i < |syms| ==> 0 <= syms[i] < alphaSize && (i < |syms| - 1 ==> syms[i] != alphaSize - 1)
  }

  /** The group of a symbol has a selector; one past the last group has none. */
  lemma GroupExists(count: nat, k: nat, groups: nat)
    requires (count + GROUP_SIZE - 1) / GROUP_SIZE == groups
    ensures k < count ==> GroupOf(k) < groups
    ensures k >= GROUP_SIZE * groups ==> k >= count
  {
  }

  lemma SymbolBack(tab: Table, len: seq<byte>, s: nat, rest: seq<bool>)
    requires TableFor(tab, len) && GoodTable(len) && s < |len|
    ensures ReadSymbol(tab.limit, tab.base, tab.perm, tab.minLen, SymbolBits(len, s) + rest) == Got(s, rest)
  {
    ReadInvertsCode(len, MinLen(len), MaxLen(len), tab.limit, tab.base, tab.perm, s, rest);
  }

  lemma TablesShape(tabs: seq<Table>, lens: seq<seq<byte>>)
    requires TablesFor(tabs, lens)
    ensures forall t :: 0 <= t < |tabs| ==> |tabs[t].limit| == |tabs[t].base| == 23 && |tabs[t].perm| == 258
  {
    forall t | 0 <= t < |tabs| ensures |tabs[t].limit| == |tabs[t].base| == 23 && |tabs[t].perm| == 258 {
      assert TableFor(tabs[t], lens[t]);
    }
  }

  lemma DataCons(cod: Coding, alphaSize: nat, syms: seq<int>, k: nat)
    requires Codable(cod, alphaSize, |syms|) && k < |syms|
    requires forall i :: 0 <= i < |syms| ==> 0 <= syms[i] < alphaSize
    ensures GroupOf(k) < |cod.sel| && cod.sel[GroupOf(k)] < |cod.lens|
    ensures |TableOf(cod, k)| == alphaSize && GoodTable(TableOf(cod, k))
    ensures DataFrom(cod, alphaSize, syms, k)
            == SymbolBits(TableOf(cod, k), syms[k]) + DataFrom(cod, alphaSize, syms, k + 1)
    ensures DataFrom(cod, alphaSize, syms, |syms|) == []
  {
    hide SymbolBits, GoodTable;
    GroupExists(|syms|, k, |cod.sel|);
  }

  lemma ParseDataStep(tabs: seq<Table>, sel: seq<byte>, eob: int, k: nat, acc: seq<int>, bs: seq<bool>, s: int,
                      rest: seq<bool>)
    requires forall t :: 0 <= t < |tabs| ==> |tabs[t].limit| == |tabs[t].base| == 23 && |tabs[t].perm| == 258
    requires forall i :: 0 <= i < |sel| ==> sel[i] < |tabs|
    requires GroupOf(k) < |sel|
    requires var tab := tabs[sel[GroupOf(k)]];
             ReadSymbol(tab.limit, tab.base, tab.perm, tab.minLen, bs) == Got(s, rest)
    ensures ParseData(tabs, sel, eob, k, acc, bs)
            == if s == eob then Got(acc + [s], rest) else ParseData(tabs, sel, eob, k + 1, acc + [s], rest)
  {
    hide ReadSymbol;
  }

  lemma TableAt(cod: Coding, tabs: seq<Table>, k: nat)
    requires TablesFor(tabs, cod.lens) && GroupOf(k) < |cod.sel| && cod.sel[GroupOf(k)] < |cod.lens|
    ensures cod.sel[GroupOf(k)] < |tabs| && TableFor(tabs[cod.sel[GroupOf(k)]], TableOf(cod, k))
  {
    hide TableFor;
  }

  lemma EndedFacts(syms: seq<int>, alphaSize: nat, k: nat)
    requires Ended(syms, alphaSize) && k < |syms|
    ensures forall i :: 0 <= i < |syms| ==> 0 <= syms[i] < alphaSize
    ensures syms[k] == alphaSize - 1 <==> k + 1 == |syms|
    ensures syms[..k] + [syms[k]] == syms[..k + 1]
  {
  }

  lemma DataStep(cod: Coding, alphaSize: nat, tabs: seq<Table>, syms: seq<int>, k: nat, rest: seq<bool>)
    requires Codable(cod, alphaSize, |syms|) && TablesFor(tabs, cod.lens)
    requires Ended(syms, alphaSize) && k < |syms|
    requires forall t :: 0 <= t < |tabs| ==> |tabs[t].limit| == |tabs[t].base| == 23 && |tabs[t].perm| == 258
    requires forall i :: 0 <= i < |cod.sel| ==> cod.sel[i] < |tabs|
    requires forall i :: 0 <= i < |syms| ==> 0 <= syms[i] < alphaSize
    ensures ParseData(tabs, cod.sel, alphaSize - 1, k, syms[..k], DataFrom(cod, alphaSize, syms, k) + rest)
            == if k + 1 == |syms| then Got(syms[..k + 1], DataFrom(cod, alphaSize, syms, k + 1) + rest)
               else ParseData(tabs, cod.sel, alphaSize - 1, k + 1, syms[..k + 1],
                              DataFrom(cod, alphaSize, syms, k + 1) + rest)
  {
    hide *;
    DataCons(cod, alphaSize, syms, k);
    TableAt(cod, tabs, k);
    EndedFacts(syms, alphaSize, k);
    var len, t := TableOf(cod, k), cod.sel[GroupOf(k)];
    var more := DataFrom(cod, alphaSize, syms, k + 1) + rest;
    SymbolBack(tabs[t], len, syms[k], more);
    JoinBits(SymbolBits(len, syms[k]), DataFrom(cod, alphaSize, syms, k + 1), rest);
    ParseDataStep(tabs, cod.sel, alphaSize - 1, k, syms[..k], SymbolBits(len, syms[k]) + more, syms[k], more);
  }

  /** Every symbol is read back with the table it was coded with, and the selectors
      last exactly as long as the symbols. */
  lemma {:induction false} DataBack(cod: Coding, alphaSize: nat, tabs: seq<Table>, syms: seq<int>, k: nat,
                                    rest: seq<bool>)
    requires Codable(cod, alphaSize, |syms|) && TablesFor(tabs, cod.lens)
    requires Ended(syms, alphaSize) && k < |syms|
    ensures forall t :: 0 <= t < |tabs| ==> |tabs[t].limit| == |tabs[t].base| == 23 && |tabs[t].perm| == 258
    ensures ParseData(tabs, cod.sel, alphaSize - 1, k, syms[..k], DataFrom(cod, alphaSize, syms, k) + rest)
            == Got(syms, rest)
    decreases |syms| - k
  {
    TablesShape(tabs, cod.lens);
    hide DataFrom, ParseData, TableFor, GoodTable;
    DataStep(cod, alphaSize, tabs, syms, k, rest);
    if k + 1 < |syms| {
      DataBack(cod, alphaSize, tabs, syms, k + 1, rest);
    } else {
      DataCons(cod, alphaSize, syms, k);
      assert syms[..k + 1] == syms && [] + rest == rest;
    }
  }

  // ----- reading only takes bits away

  lemma {:induction false} GroupsShorter(used: seq<bool>, i: nat, acc: seq<bool>, bs: seq<bool>)
    requires |used| == 16 && i <= 16
    ensures var p := ParseGroups(used, i, acc, bs); p.Got? ==> |p.rest| <= |bs|
    decreases 16 - i
  {
    if i < 16 {
      if !used[i] { GroupsShorter(used, i + 1, acc + Zeros(16), bs); }
      else if |bs| >= 16 { GroupsShorter(used, i + 1, acc + bs[..16], bs[16..]); }
    }
  }

  lemma {:induction false} UnaryShorter(j: nat, nGroups: nat, bs: seq<bool>)
    ensures var p := ParseUnary(j, nGroups, bs); p.Got? ==> |p.rest| <= |bs|
    decreases |bs|
  {
    if bs != [] && bs[0] && j + 1 < nGroups { UnaryShorter(j + 1, nGroups, bs[1..]); }
  }

  lemma {:induction false} SelectorsShorter(n: nat, nGroups: nat, acc: seq<nat>, bs: seq<bool>)
    ensures var p := ParseSelectors(n, nGroups, acc, bs); p.Got? ==> |p.rest| <= |bs|
  {
    hide ParseUnary;
    if n > 0 {
      UnaryShorter(0, nGroups, bs);
      var u := ParseUnary(0, nGroups, bs);
      if u.Got? { SelectorsShorter(n - 1, nGroups, if |acc| < MAX_SELECTORS then acc + [u.value] else acc, u.rest); }
    }
  }

  lemma {:induction false} LengthShorter(curr: int, bs: seq<bool>)
    ensures var p := ParseLength(curr, bs); p.Got? ==> |p.rest| <= |bs|
    decreases |bs|
  {
    if |bs| > 1 && bs[0] { LengthShorter(if bs[1] then curr - 1 else curr + 1, bs[2..]); }
  }

  lemma {:induction false} LengthsShorter(n: nat, curr: int, acc: seq<byte>, bs: seq<bool>)
    ensures var p := ParseLengths(n, curr, acc, bs); p.Got? ==> |p.rest| <= |bs|
  {
    hide ParseLength;
    if n > 0 {
      LengthShorter(curr, bs);
      var l := ParseLength(curr, bs);
      if l.Got? { LengthsShorter(n - 1, l.value, acc + [l.value], l.rest); }
    }
  }

  lemma {:induction false} TablesShorter(n: nat, alphaSize: nat, acc: seq<seq<byte>>, bs: seq<bool>)
    ensures var p := ParseTables(n, alphaSize, acc, bs); p.Got? ==> |p.rest| <= |bs|
  {
    hide ParseLengths, Value;
    if n > 0 {
      if |bs| >= 5 { LengthsShorter(alphaSize, Value(bs[..5]), [], bs[5..]); }
      var t := ParseTable(alphaSize, bs);
      hide ParseTable;
      if t.Got? { TablesShorter(n - 1, alphaSize, acc + [t.value], t.rest); }
    }
  }

  lemma {:induction false} WalkShorter(limit: seq<int>, base: seq<int>, perm: seq<int>, zn: nat, zvec: nat,
                                       bs: seq<bool>)
    requires |limit| == 23 && |base| == 23 && |perm| == 258
    ensures var p := WalkCode(limit, base, perm, zn, zvec, bs); p.Got? ==> |p.rest| <= |bs|
    decreases |bs|
  {
    if zn <= 20 && zvec > limit[zn] && bs != [] {
      WalkShorter(limit, base, perm, zn + 1, 2 * zvec + (if bs[0] then 1 else 0), bs[1..]);
    }
  }

  lemma SymbolShorter(tab: Table, bs: seq<bool>)
    requires |tab.limit| == |tab.base| == 23 && |tab.perm| == 258
    ensures var p := ReadSymbol(tab.limit, tab.base, tab.perm, tab.minLen, bs); p.Got? ==> |p.rest| <= |bs|
  {
    if tab.minLen <= |bs| {
      WalkShorter(tab.limit, tab.base, tab.perm, tab.minLen, Value(bs[..tab.minLen]), bs[tab.minLen..]);
    }
  }

  lemma {:induction false} DataShorter(tabs: seq<Table>, sel: seq<byte>, eob: int, k: nat, acc: seq<int>, bs: seq<bool>)
    requires forall t :: 0 <= t < |tabs| ==> |tabs[t].limit| == |tabs[t].base| == 23 && |tabs[t].perm| == 258
    requires forall i :: 0 <= i < |sel| ==> sel[i] < |tabs|
    ensures var p := ParseData(tabs, sel, eob, k, acc, bs); p.Got? ==> |p.rest| <= |bs|
    decreases GROUP_SIZE * |sel| - k
  {
    hide ReadSymbol;
    if GroupOf(k) < |sel| {
      var tab := tabs[sel[GroupOf(k)]];
      SymbolShorter(tab, bs);
      var p := ReadSymbol(tab.limit, tab.base, tab.perm, tab.minLen, bs);
      if p.Got? && p.value != eob { DataShorter(tabs, sel, eob, k + 1, acc + [p.value], p.rest); }
    }
  }
}
