/** A whole block: what the compressor writes for it, and that the decompressor,
    reading this, ends up delivering the block. */
module Block {
  import opened Counting
  import opened Rotations
  import opened InverseBwt
  import opened MoveToFront
  import opened MtfCoding
  import opened ByteMaps
  import opened BitStream
  import opened Huffman
  import opened Tables
  import opened Symbols
  import opened MtfDecoder
  import opened BwtDecode
  import opened SmallDecode
  import MtfEncoder
  import Sending
  import Receiving
  import UnRle

  // ----- what is sent

  /** A block with everything the compressor derives or chooses: the sorted rotations,
      the map of used bytes, and the coding tables with their selectors. */
  datatype Sent = Sent(block: seq<byte>, f: seq<int>, origPtr: nat, inUse: seq<bool>, cod: Coding)

  /** The symbols for the block. */
  function SymbolsOf(x: Sent): seq<int>
    requires 0 < |x.block| && IsPerm(x.f, |x.block|) && |x.inUse| == 256
    requires forall i :: 0 <= i < |x.block| ==> x.inUse[x.block[i]]
  {
    var ls := Ranks(x.inUse, LastColumn(x.block, x.f));
    RanksListed(x.inUse, LastColumn(x.block, x.f));
    Encode(InitialList(NInUse(x.inUse)), 0, ls)
  }

  lemma RanksListed(inUse: seq<bool>, l: seq<byte>)
    requires |inUse| == 256 && l != [] && forall i :: 0 <= i < |l| ==> inUse[l[i]]
    ensures 1 <= NInUse(inUse) <= 256 && AllIn(Ranks(inUse, l), InitialList(NInUse(inUse)))
  {
    RankFinds(inUse, l[0]);
    forall i | 0 <= i < |l| ensures Ranks(inUse, l)[i] in InitialList(NInUse(inUse)) {
      RankFinds(inUse, l[i]);
      assert InitialList(NInUse(inUse))[Rank(inUse, l[i])] == Rank(inUse, l[i]);
    }
  }

  lemma {:induction false} EncodeEnded(yy: seq<byte>, z: nat, ls: seq<byte>)
    requires yy != [] && AllIn(ls, yy)
    ensures Ended(Encode(yy, z, ls), |yy| + 2)
    decreases |ls|
  {
    hide Encode, AllIn, ToFront, IndexOf, RunDigits, Digits;
    EncodeStay(yy, z, ls);
    if ls == [] {
      JustEnd(RunDigits(z), |yy| + 2);
    } else if ls[0] == yy[0] {
      EncodeEnded(yy, z + 1, ls[1..]);
    } else {
      HeadIn(ls, yy);
      EncodeMove(yy, z, ls);
      var k := IndexOf(yy, ls[0]);
      EncodeEnded(ToFront(yy, k), 0, ls[1..]);
      EndedAfter(RunDigits(z) + [k + 1], Encode(ToFront(yy, k), 0, ls[1..]), |yy| + 2);
    }
  }

  lemma JustEnd(a: seq<int>, alphaSize: nat)
    requires alphaSize > 0 && forall i :: 0 <= i < |a| ==> 0 <= a[i] < alphaSize - 1
    ensures Ended(a + [alphaSize - 1], alphaSize)
  {
  }

  lemma EndedAfter(a: seq<int>, b: seq<int>, alphaSize: nat)
    requires Ended(b, alphaSize) && forall i :: 0 <= i < |a| ==> 0 <= a[i] < alphaSize - 1
    ensures Ended(a + b, alphaSize)
  {
  }

  /** A block as the compressor sends it, with max the capacity of the decompressor. */
  ghost predicate SentOk(x: Sent, max: nat) {
    && 0 < |x.block| <= max <= 900000 && IsRotationSort(x.block, x.f)
    && x.origPtr < |x.block| && x.f[x.origPtr] == 0
    && |x.inUse| == 256 && (forall i :: 0 <= i < |x.block| ==> x.inUse[x.block[i]])
    && Codable(x.cod, NInUse(x.inUse) + 2, |SymbolsOf(x)|)
  }

  lemma SymbolsEnded(x: Sent)
    requires 0 < |x.block| && IsPerm(x.f, |x.block|) && |x.inUse| == 256
    requires forall i :: 0 <= i < |x.block| ==> x.inUse[x.block[i]]
    ensures 1 <= NInUse(x.inUse) <= 256 && Ended(SymbolsOf(x), NInUse(x.inUse) + 2)
  {
    RanksListed(x.inUse, LastColumn(x.block, x.f));
    EncodeEnded(InitialList(NInUse(x.inUse)), 0, Ranks(x.inUse, LastColumn(x.block, x.f)));
  }

  /** The bits after the block header: tables and symbols. */
  function BodyBits(x: Sent, max: nat): seq<bool>
    requires SentOk(x, max)
  {
    SymbolsEnded(x);
    Sending.ValuesBits(x.inUse, x.cod, NInUse(x.inUse) + 2, SymbolsOf(x))
  }

  // ----- receiving tables and symbols

  ghost predicate Arrives(bs: seq<bool>, x: Sent, max: nat, rest: seq<bool>) {
    SentOk(x, max) && bs == BodyBits(x, max) + rest
  }

  function SelectorPart(x: Sent, max: nat): seq<bool>
    requires SentOk(x, max)
  {
    SentChosen(x, max);
    Sending.SelectorBits(|x.cod.lens|, SelectorMtf(InitialList(|x.cod.lens|), x.cod.sel))
  }

  function TablePart(x: Sent, max: nat): seq<bool>
    requires SentOk(x, max)
  {
    SentChosen(x, max);
    TablesFrom(x.cod.lens, 0)
  }

  function DataPart(x: Sent, max: nat): seq<bool>
    requires SentOk(x, max)
  {
    SymbolsEnded(x);
    DataFrom(x.cod, NInUse(x.inUse) + 2, SymbolsOf(x), 0)
  }

  lemma SentChosen(x: Sent, max: nat)
    requires SentOk(x, max)
    ensures |x.inUse| == 256 && 1 <= NInUse(x.inUse) <= 256
    ensures 2 <= |x.cod.lens| <= 6 && AllIn(x.cod.sel, InitialList(|x.cod.lens|)) && |x.cod.sel| <= MAX_SELECTORS
    ensures forall t :: 0 <= t < |x.cod.lens| ==> x.cod.lens[t] != [] && AllLengths(x.cod.lens[t])
                                                  && GoodTable(x.cod.lens[t])
  {
    SymbolsEnded(x);
    hide SymbolsOf, Codable, GoodTable, AllLengths;
    Sending.Chosen(x.cod, NInUse(x.inUse) + 2, |SymbolsOf(x)|);
  }

  lemma BodyIs(x: Sent, max: nat)
    requires SentOk(x, max)
    ensures |x.inUse| == 256
    ensures BodyBits(x, max) == MapBits(x.inUse) + SelectorPart(x, max) + TablePart(x, max) + DataPart(x, max)
  {
    hide SymbolsOf, MapBits, Sending.SelectorBits, SelectorMtf, TablesFrom, DataFrom, Codable;
  }

  /** The remaining bits when the map, the selectors, the tables have been read. */
  function AfterMap(x: Sent, max: nat, rest: seq<bool>): seq<bool>
    requires SentOk(x, max)
  {
    SelectorPart(x, max) + AfterSelectors(x, max, rest)
  }

  function AfterSelectors(x: Sent, max: nat, rest: seq<bool>): seq<bool>
    requires SentOk(x, max)
  {
    TablePart(x, max) + AfterTables(x, max, rest)
  }

  function AfterTables(x: Sent, max: nat, rest: seq<bool>): seq<bool>
    requires SentOk(x, max)
  {
    DataPart(x, max) + rest
  }

  lemma BodyParts(x: Sent, max: nat, rest: seq<bool>)
    requires SentOk(x, max)
    ensures |x.inUse| == 256
    ensures BodyBits(x, max) + rest == MapBits(x.inUse) + AfterMap(x, max, rest)
  {
    hide MapBits, BodyBits, SelectorPart, TablePart, DataPart, SentOk;
    BodyIs(x, max);
    Regroup(MapBits(x.inUse), SelectorPart(x, max), TablePart(x, max), DataPart(x, max), rest);
  }

  lemma Regroup(a: seq<bool>, b: seq<bool>, c: seq<bool>, d: seq<bool>, e: seq<bool>)
    ensures a + b + c + d + e == a + (b + (c + (d + e)))
  {
  }

  /** The map is read back. */
  lemma MapArrives(bs: seq<bool>, x: Sent, max: nat, rest: seq<bool>)
    requires Arrives(bs, x, max, rest)
    ensures SentOk(x, max) && ParseMap(bs) == Got(x.inUse, AfterMap(x, max, rest))
  {
    hide SentOk, BodyBits, AfterMap, MapBits, ParseMap;
    BodyParts(x, max, rest);
    MapBack(x.inUse, AfterMap(x, max, rest));
  }

  lemma TwoNumbers(a: nat, b: nat, more: seq<bool>)
    requires a < Pow2(3) && b < Pow2(15)
    ensures var bs := Bits(a, 3) + Bits(b, 15) + more;
            && |bs| >= 18 && Value(bs[..3]) == a && Value(bs[3..][..15]) == b && bs[3..][15..] == more
  {
    hide *;
    ValueOfBits(a, 3);
    ValueOfBits(b, 15);
    JoinBits(Bits(a, 3), Bits(b, 15), more);
    Cut(Bits(a, 3), Bits(b, 15) + more);
    Cut(Bits(b, 15), more);
  }

  lemma SelectorNumbers(n: nat, js: seq<nat>, more: seq<bool>, bs: seq<bool>)
    requires n <= 6 && |js| <= MAX_SELECTORS && bs == Bits(n, 3) + Bits(|js|, 15) + UnaryAll(js) + more
    ensures |bs| >= 18 && Value(bs[..3]) == n && Value(bs[3..][..15]) == |js| && bs[3..][15..] == UnaryAll(js) + more
  {
    hide *;
    Sending.SelectorBitsParts([], n, js);
    JoinBits(Bits(n, 3) + Bits(|js|, 15), UnaryAll(js), more);
    TwoNumbers(n, |js|, UnaryAll(js) + more);
  }

  lemma SelectorPlaces(x: Sent, max: nat)
    requires SentOk(x, max)
    ensures 2 <= |x.cod.lens| <= 6 && AllIn(x.cod.sel, InitialList(|x.cod.lens|)) && 1 <= |x.cod.sel| <= MAX_SELECTORS
    ensures PlacesIn(SelectorMtf(InitialList(|x.cod.lens|), x.cod.sel), |x.cod.lens|)
    ensures |InitialList(|x.cod.lens|)| == |x.cod.lens|
  {
    SentChosen(x, max);
    SomeGroup(x, max);
    hide SentOk, AllIn;
    MakePlaces(SelectorMtf(InitialList(|x.cod.lens|), x.cod.sel), |x.cod.lens|);
  }

  /** The selectors are read back. */
  lemma SelectorsArrive(x: Sent, max: nat, rest: seq<bool>, bs: seq<bool>)
    requires SentOk(x, max) && bs == AfterMap(x, max, rest)
    ensures 2 <= |x.cod.lens| <= 6 && AllIn(x.cod.sel, InitialList(|x.cod.lens|)) && |x.cod.sel| >= 1
    ensures |bs| >= 18 && Value(bs[..3]) == |x.cod.lens| && Value(bs[3..][..15]) == |x.cod.sel|
    ensures var js := SelectorMtf(InitialList(|x.cod.lens|), x.cod.sel);
            && ParseSelectors(|x.cod.sel|, |x.cod.lens|, [], bs[3..][15..]) == Got(js, AfterSelectors(x, max, rest))
            && PlacesIn(js, |x.cod.lens|) && |InitialList(|x.cod.lens|)| == |x.cod.lens|
            && UndoMtf(InitialList(|x.cod.lens|), js) == x.cod.sel
  {
    hide *;
    SelectorPlaces(x, max);
    AfterMapIs(x, max, rest);
    var n := |x.cod.lens|;
    var js := SelectorMtf(InitialList(n), x.cod.sel);
    var more := AfterSelectors(x, max, rest);
    SelectorNumbers(n, js, more, bs);
    MakePlaces(js, n);
    SelectorsBack(js, n, [], more);
    assert [] + js == js;
    UndoBack(InitialList(n), x.cod.sel);
  }

  lemma AfterMapIs(x: Sent, max: nat, rest: seq<bool>)
    requires SentOk(x, max) && AllIn(x.cod.sel, InitialList(|x.cod.lens|)) && 2 <= |x.cod.lens| <= 6
    ensures var js := SelectorMtf(InitialList(|x.cod.lens|), x.cod.sel);
            AfterMap(x, max, rest)
            == Bits(|x.cod.lens|, 3) + Bits(|js|, 15) + UnaryAll(js) + AfterSelectors(x, max, rest)
  {
    hide SentOk, AfterSelectors, AllIn, SelectorMtf, Bits, UnaryAll;
  }

  lemma SomeGroup(x: Sent, max: nat)
    requires SentOk(x, max)
    ensures |x.cod.sel| >= 1
  {
    SymbolsEnded(x);
    hide SymbolsOf, GoodTable;
    assert |SymbolsOf(x)| >= 1;
  }

  lemma AfterSelectorsIs(x: Sent, max: nat, rest: seq<bool>)
    requires SentOk(x, max) && forall t :: 0 <= t < |x.cod.lens| ==> x.cod.lens[t] != []
    ensures AfterSelectors(x, max, rest) == TablesFrom(x.cod.lens, 0) + AfterTables(x, max, rest)
  {
    hide SentOk, TablesFrom, AfterTables;
  }

  lemma SentAlphabet(x: Sent, max: nat)
    requires SentOk(x, max)
    ensures |x.inUse| == 256 && AlphabetOf(x.cod.lens, NInUse(x.inUse) + 2)
    ensures forall t :: 0 <= t < |x.cod.lens| ==> x.cod.lens[t] != []
  {
    SentChosen(x, max);
    SentSizes(x, max);
    hide SentOk, AllLengths, GoodTable;
  }

  /** The tables are read back. */
  lemma TablesArrive(x: Sent, max: nat, rest: seq<bool>)
    requires SentOk(x, max)
    ensures ParseTables(|x.cod.lens|, NInUse(x.inUse) + 2, [], AfterSelectors(x, max, rest))
            == Got(x.cod.lens, AfterTables(x, max, rest))
  {
    hide *;
    SentAlphabet(x, max);
    AfterSelectorsIs(x, max, rest);
    assert x.cod.lens[..0] == [];
    TablesBack(x.cod.lens, NInUse(x.inUse) + 2, 0, AfterTables(x, max, rest));
  }

  lemma SentSizes(x: Sent, max: nat)
    requires SentOk(x, max)
    ensures forall t :: 0 <= t < |x.cod.lens| ==> |x.cod.lens[t]| == NInUse(x.inUse) + 2
    ensures forall i :: 0 <= i < |x.cod.sel| ==> x.cod.sel[i] < |x.cod.lens|
  {
    hide SymbolsOf, GoodTable;
  }

  /** The symbols are read back. */
  lemma DataArrives(x: Sent, max: nat, rest: seq<bool>, tabs: seq<Table>)
    requires SentOk(x, max) && TablesFor(tabs, x.cod.lens)
    ensures forall t :: 0 <= t < |tabs| ==> |tabs[t].limit| == |tabs[t].base| == 23 && |tabs[t].perm| == 258
    ensures forall i :: 0 <= i < |x.cod.sel| ==> x.cod.sel[i] < |tabs|
    ensures ParseData(tabs, x.cod.sel, NInUse(x.inUse) + 1, 0, [], AfterTables(x, max, rest)) == Got(SymbolsOf(x), rest)
  {
    hide *;
    SentData(x, max, rest);
    SentSizes(x, max);
    SameLength(tabs, x.cod.lens);
    TablesShape(tabs, x.cod.lens);
    var syms := SymbolsOf(x);
    assert syms[..0] == [];
    DataBack(x.cod, NInUse(x.inUse) + 2, tabs, syms, 0, rest);
  }

  lemma SameLength(tabs: seq<Table>, lens: seq<seq<byte>>)
    requires TablesFor(tabs, lens)
    ensures |tabs| == |lens|
  {
  }

  lemma SentData(x: Sent, max: nat, rest: seq<bool>)
    requires SentOk(x, max)
    ensures 0 < |x.block| && IsPerm(x.f, |x.block|) && |x.inUse| == 256
    ensures forall i :: 0 <= i < |x.block| ==> x.inUse[x.block[i]]
    ensures 1 <= NInUse(x.inUse) && |SymbolsOf(x)| > 0
    ensures Codable(x.cod, NInUse(x.inUse) + 2, |SymbolsOf(x)|) && Ended(SymbolsOf(x), NInUse(x.inUse) + 2)
    ensures forall i :: 0 <= i < |SymbolsOf(x)| ==> 0 <= SymbolsOf(x)[i] < NInUse(x.inUse) + 2
    ensures AfterTables(x, max, rest) == DataFrom(x.cod, NInUse(x.inUse) + 2, SymbolsOf(x), 0) + rest
  {
    SymbolsEnded(x);
    hide SymbolsOf, DataFrom, Codable, UsedBelow;
  }

  /** What stands before the symbols of a block. */
  datatype Body = Body(inUse: seq<bool>, nGroups: nat, places: seq<nat>, lens: seq<seq<byte>>)

  datatype Groups = Groups(n: nat, places: seq<nat>)

  /** The number of tables, that of selectors, and the selectors. */
  function ParseGroupings(bs: seq<bool>): Parsed<Groups> {
    if |bs| < 3 then Short
    else
      var n := Value(bs[..3]);
      if n < 2 || n > 6 then Bad
      else if |bs| < 18 then Short
      else
        var k := Value(bs[3..][..15]);
        if k < 1 then Bad
        else
          match ParseSelectors(k, n, [], bs[3..][15..])
          case Bad => Bad
          case Short => Short
          case Got(places, rest) => Got(Groups(n, places), rest)
  }

  /** Everything before the symbols. */
  function ParseBody(bs: seq<bool>): Parsed<Body> {
    match ParseMap(bs)
    case Bad => Bad
    case Short => Short
    case Got(inUse, b1) =>
      if |inUse| != 256 || NInUse(inUse) == 0 then Bad
      else
        match ParseGroupings(b1)
        case Bad => Bad
        case Short => Short
        case Got(g, b2) =>
          match ParseTables(g.n, NInUse(inUse) + 2, [], b2)
          case Bad => Bad
          case Short => Short
          case Got(lens, b3) => Got(Body(inUse, g.n, g.places, lens), b3)
  }

  /** src reads symbols coded as the body says. */
  ghost predicate ReadsBody(src: SymbolSource, body: Body, nInUse: nat, unseq: seq<byte>)
    reads src
  {
    && |body.inUse| == 256 && nInUse == NInUse(body.inUse) && UsedBelow(body.inUse, 256) <= unseq
    && TablesFor(src.tabs, body.lens) && body.nGroups <= 6 && |InitialList(body.nGroups)| == body.nGroups
    && PlacesIn(body.places, body.nGroups) && src.sel == UndoMtf(InitialList(body.nGroups), body.places)
    && AlphabetOf(body.lens, nInUse + 2) && src.k == 0
  }

  lemma MakeReadsBody(src: SymbolSource, body: Body, nInUse: nat, unseq: seq<byte>)
    requires |body.inUse| == 256 && nInUse == NInUse(body.inUse) && UsedBelow(body.inUse, 256) <= unseq
    requires TablesFor(src.tabs, body.lens) && body.nGroups <= 6 && |InitialList(body.nGroups)| == body.nGroups
    requires PlacesIn(body.places, body.nGroups) && src.sel == UndoMtf(InitialList(body.nGroups), body.places)
    requires AlphabetOf(body.lens, nInUse + 2) && src.k == 0
    ensures ReadsBody(src, body, nInUse, unseq)
  {
  }

  /** The status and the place reached are those of the parse. */
  ghost predicate BodyTold(goal: Parsed<Body>, status: Status, src: SymbolSource?, nInUse: nat, unseq: seq<byte>,
                           rest: seq<bool>)
    reads if src == null then {} else {src}
  {
    match goal
    case Got(body, b) => status == Complete && src != null && rest == b && ReadsBody(src, body, nInUse, unseq)
    case Bad => status == Corrupt
    case Short => status == Starved
  }

  lemma BodyOfMap(bs: seq<bool>, status: Status, inUse: seq<bool>, rest: seq<bool>)
    requires Receiving.Told(ParseMap(bs), status, inUse, rest)
    ensures status == Corrupt ==> ParseBody(bs) == Bad
    ensures status == Starved ==> ParseBody(bs) == Short
    ensures status == Complete && |inUse| == 256 && NInUse(inUse) == 0 ==> ParseBody(bs) == Bad
    ensures status == Complete && |inUse| == 256 && NInUse(inUse) > 0 ==> ParseBody(bs) == BodyFrom(inUse, rest)
  {
    hide ParseMap, ParseGroupings, ParseTables;
  }

  /** The part after the map. */
  function BodyFrom(inUse: seq<bool>, b1: seq<bool>): Parsed<Body>
    requires |inUse| == 256
  {
    match ParseGroupings(b1)
    case Bad => Bad
    case Short => Short
    case Got(g, b2) =>
      match ParseTables(g.n, NInUse(inUse) + 2, [], b2)
      case Bad => Bad
      case Short => Short
      case Got(lens, b3) => Got(Body(inUse, g.n, g.places, lens), b3)
  }

  lemma BodyOfGroups(inUse: seq<bool>, b1: seq<bool>, status: Status, g: Groups, b2: seq<bool>)
    requires |inUse| == 256 && Receiving.Told(ParseGroupings(b1), status, g, b2)
    ensures status == Corrupt ==> BodyFrom(inUse, b1) == Bad
    ensures status == Starved ==> BodyFrom(inUse, b1) == Short
    ensures status == Complete ==>
              BodyFrom(inUse, b1) == match ParseTables(g.n, NInUse(inUse) + 2, [], b2)
                                     case Bad => Bad
                                     case Short => Short
                                     case Got(lens, b3) => Got(Body(inUse, g.n, g.places, lens), b3)
  {
    hide ParseGroupings, ParseTables;
  }

  /** Map, selectors and tables of a block are received, and the symbols can be read. Whatever
      the input, these are in range; and what was sent arrives. */
  method ReceiveBody(r: Reader, ghost x: Sent, ghost max: nat, ghost rest: seq<bool>)
    returns (status: Status, nInUse: nat, seqToUnseq: seq<byte>, src: SymbolSource?)
    requires r.Valid()
    modifies r
    ensures r.Valid() && (status == Complete <==> src != null)
    ensures src != null ==> fresh(src) && |r.Ahead()| <= |old(r.Ahead())| && 1 <= nInUse <= 256 && |seqToUnseq| == 256
                            && CanRead(src, r, nInUse)
    ensures BodyTold(ParseBody(old(r.Ahead())), status, src, nInUse, seqToUnseq, r.Ahead())
    ensures Arrives(old(r.Ahead()), x, max, rest) ==>
              && src != null && SentOk(x, max) && src.Coming() == SymbolsOf(x)
              && src.End() == Got(nInUse + 1, rest)
              && nInUse == NInUse(x.inUse) && UsedBelow(x.inUse, 256) <= seqToUnseq
  {
    hide *;
    ghost var sent := Arrives(r.Ahead(), x, max, rest);
    nInUse, seqToUnseq, src := 0, [], null;
    var inUse;
    if sent { MapArrives(r.Ahead(), x, max, rest); }
    ghost var bs := r.Ahead();
    status, inUse := Receiving.ReceiveMap(r);
    ToldFacts(ParseMap(bs), status, inUse, r.Ahead());
    BodyOfMap(bs, status, inUse, r.Ahead());
    MakeBodyTold(ParseBody(bs), status, seqToUnseq, r.Ahead());
    if status != Complete { return; }
    MapShorter(bs);
    var n, tab := MakeMapsD(inUse);
    nInUse, seqToUnseq := n, tab[..];
    if nInUse == 0 {
      if sent { SentChosen(x, max); }
      status := Corrupt;
      MakeBodyTold(ParseBody(bs), status, seqToUnseq, r.Ahead());
      return;
    }
    AtMost256(inUse);
    status, src := ReceiveCoded(r, nInUse, inUse, seqToUnseq, x, max, rest, sent);
  }

  lemma MakeBodyTold(goal: Parsed<Body>, status: Status, unseq: seq<byte>, rest: seq<bool>)
    requires status != Complete ==> goal == if status == Corrupt then Bad else Short
    ensures status != Complete ==> BodyTold(goal, status, null, 0, unseq, rest)
    ensures status != Complete ==> forall n: nat :: BodyTold(goal, status, null, n, unseq, rest)
  {
  }

  /** The symbols that come are in range, and reading them takes bits. */
  ghost predicate CanRead(src: SymbolSource, r: Reader, nInUse: nat)
    reads src, src.r
  {
    && src.r == r && src.Valid() && src.eob == nInUse + 1 && SymbolsUpTo(src.Coming(), nInUse + 1)
    && (src.End().Got? ==> |src.End().rest| <= |r.Ahead()|)
  }

  lemma MapShorter(bs: seq<bool>)
    ensures var p := ParseMap(bs); p.Got? ==> |p.rest| <= |bs|
  {
    if |bs| >= 16 { GroupsShorter(bs[..16], 0, [], bs[16..]); }
  }

  lemma AtMost256(inUse: seq<bool>)
    requires |inUse| == 256
    ensures NInUse(inUse) <= 256
  {
  }

  lemma ToldFacts<T>(goal: Parsed<T>, status: Status, value: T, rest: seq<bool>)
    requires Receiving.Told(goal, status, value, rest)
    ensures goal.Got? ==> status == Complete && value == goal.value && rest == goal.rest
    ensures status == Complete ==> goal == Got(value, rest)
  {
    Receiving.ToldIs(goal, status, value, rest);
  }

  /** The part after the map. */
  method ReceiveCoded(r: Reader, nInUse: nat, ghost inUse: seq<bool>, ghost unseq: seq<byte>, ghost x: Sent,
                      ghost max: nat, ghost rest: seq<bool>, ghost sent: bool)
    returns (status: Status, src: SymbolSource?)
    requires r.Valid() && 1 <= nInUse <= 256
    requires |inUse| == 256 && nInUse == NInUse(inUse) && UsedBelow(inUse, 256) <= unseq
    requires sent ==> SentOk(x, max) && nInUse == NInUse(x.inUse) && r.Ahead() == AfterMap(x, max, rest)
    modifies r
    ensures r.Valid() && (status == Complete <==> src != null)
    ensures src != null ==> fresh(src) && |r.Ahead()| <= |old(r.Ahead())| && CanRead(src, r, nInUse)
    ensures BodyTold(BodyFrom(inUse, old(r.Ahead())), status, src, nInUse, unseq, r.Ahead())
    ensures sent ==> src != null && SentOk(x, max) && src.Coming() == SymbolsOf(x) && src.End() == Got(nInUse + 1, rest)
  {
    hide *;
    src := null;
    if sent { SelectorsArrive(x, max, rest, r.Ahead()); }
    ghost var start, places := r.Ahead(), [];
    ghost var goal := BodyFrom(inUse, start);
    var nGroups, sel;
    status, nGroups, sel, places := ReceiveGroups(r, x, max, rest, sent);
    BodyOfGroups(inUse, start, status, Groups(nGroups, places), r.Ahead());
    MakeBodyTold(goal, status, unseq, r.Ahead());
    if status != Complete { return; }
    if sent { TablesArrive(x, max, rest); }
    ghost var bs := r.Ahead();
    var lens;
    status, lens := Receiving.ReceiveTables(r, nGroups, nInUse + 2);
    Receiving.ToldIs(ParseTables(nGroups, nInUse + 2, [], bs), status, lens, r.Ahead());
    MakeBodyTold(goal, status, unseq, r.Ahead());
    if status != Complete { return; }
    TablesShorter(nGroups, nInUse + 2, [], bs);
    var tabs := Receiving.CreateTables(lens, nInUse + 2);
    MadeTables(tabs, lens, nInUse + 2);
    SameLength(tabs, lens);
    if sent { DataArrives(x, max, rest, tabs); }
    bs := r.Ahead();
    src := new SymbolSource(r, tabs, sel, nInUse + 1);
    src.Facts();
    DataShorter(tabs, sel, nInUse + 1, 0, [], bs);
    DataSplits(tabs, sel, nInUse + 1, 0, [], bs);
    EndIsMark(tabs, sel, nInUse + 1, 0, bs);
    NoneBefore(SymbolsFrom(tabs, sel, nInUse + 1, 0, bs));
    MakeCanRead(src, r, nInUse);
    MakeReadsBody(src, Body(inUse, nGroups, places, lens), nInUse, unseq);
    BodyComes(goal, src, nInUse, unseq, r.Ahead());
  }

  lemma BodyComes(goal: Parsed<Body>, src: SymbolSource, nInUse: nat, unseq: seq<byte>, rest: seq<bool>)
    requires goal.Got? && rest == goal.rest && ReadsBody(src, goal.value, nInUse, unseq)
    ensures BodyTold(goal, Complete, src, nInUse, unseq, rest)
  {
  }

  lemma NoneBefore(syms: seq<int>)
    ensures [] + syms == syms
  {
  }

  lemma MakeCanRead(src: SymbolSource, r: Reader, nInUse: nat)
    requires src.r == r && src.Valid() && src.Sound() && src.eob == nInUse + 1
    requires SymbolsUpTo(src.Coming(), nInUse + 1) && (src.End().Got? ==> |src.End().rest| <= |r.Ahead()|)
    ensures CanRead(src, r, nInUse)
  {
  }

  /** The number of groups and the selectors. */
  method ReceiveGroups(r: Reader, ghost x: Sent, ghost max: nat, ghost rest: seq<bool>, ghost sent: bool)
    returns (status: Status, nGroups: nat, sel: seq<byte>, ghost places: seq<nat>)
    requires r.Valid()
    requires sent ==> SentOk(x, max) && r.Ahead() == AfterMap(x, max, rest)
    modifies r
    ensures r.Valid() && (status == Complete ==> |r.Ahead()| <= |old(r.Ahead())|)
    ensures Receiving.Told(ParseGroupings(old(r.Ahead())), status, Groups(nGroups, places), r.Ahead())
    ensures status == Complete ==> 2 <= nGroups <= 6 && forall i :: 0 <= i < |sel| ==> sel[i] < nGroups
    ensures status == Complete ==> |InitialList(nGroups)| == nGroups && PlacesIn(places, nGroups)
                                   && sel == UndoMtf(InitialList(nGroups), places)
    ensures sent ==> status == Complete && nGroups == |x.cod.lens| && sel == x.cod.sel
                     && SentOk(x, max) && r.Ahead() == AfterSelectors(x, max, rest)
  {
    hide *;
    ghost var bs := r.Ahead();
    if sent { SelectorsArrive(x, max, rest, bs); }
    sel, nGroups, places := [], 0, [];
    var ok, v := r.GetBits(3);
    GroupingsStart(bs);
    if !ok { return Starved, nGroups, sel, places; }
    Receiving.ValueIs(v, 3, bs[..3]);
    nGroups := v;
    if nGroups < 2 || nGroups > 6 { return Corrupt, nGroups, sel, places; }
    ok, v := r.GetBits(15);
    if !ok { return Starved, nGroups, sel, places; }
    Receiving.ValueIs(v, 15, bs[3..][..15]);
    var nSelectors := v;
    if nSelectors < 1 { return Corrupt, nGroups, sel, places; }
    var selectorMtf;
    ghost var more := r.Ahead();
    status, selectorMtf := Receiving.ReceiveSelectors(r, nSelectors, nGroups);
    places := selectorMtf;
    Receiving.ToldIs(ParseSelectors(nSelectors, nGroups, [], more), status, selectorMtf, r.Ahead());
    GroupingsEnd(bs, status, places, r.Ahead());
    if status != Complete { return; }
    SelectorsShorter(nSelectors, nGroups, [], more);
    Receiving.SelectorsBelow(nSelectors, nGroups, [], more);
    MakePlaces(selectorMtf, nGroups);
    sel := Receiving.UndoSelectors(selectorMtf, nGroups);
    SelectorsUndone(selectorMtf, nGroups);
  }

  lemma GroupingsStart(bs: seq<bool>)
    ensures forall g, rest ::
      && (|bs| < 3 ==> Receiving.Told(ParseGroupings(bs), Starved, g, rest))
      && (|bs| >= 3 && (Value(bs[..3]) < 2 || Value(bs[..3]) > 6) ==>
            Receiving.Told(ParseGroupings(bs), Corrupt, g, rest))
      && (3 <= |bs| < 18 && 2 <= Value(bs[..3]) <= 6 ==> Receiving.Told(ParseGroupings(bs), Starved, g, rest))
      && (|bs| >= 18 && 2 <= Value(bs[..3]) <= 6 && Value(bs[3..][..15]) < 1 ==>
            Receiving.Told(ParseGroupings(bs), Corrupt, g, rest))
  {
    hide Value, ParseSelectors;
  }

  lemma GroupingsEnd(bs: seq<bool>, status: Status, places: seq<nat>, rest: seq<bool>)
    requires |bs| >= 18 && 2 <= Value(bs[..3]) <= 6 && Value(bs[3..][..15]) >= 1
    requires Receiving.Told(ParseSelectors(Value(bs[3..][..15]), Value(bs[..3]), [], bs[3..][15..]), status, places,
                            rest)
    ensures Receiving.Told(ParseGroupings(bs), status, Groups(Value(bs[..3]), places), rest)
  {
    hide Value, ParseSelectors;
  }

  lemma MakePlaces(places: seq<nat>, n: nat)
    ensures (forall i :: 0 <= i < |places| ==> places[i] < n) <==> PlacesIn(places, n)
  {
  }

  lemma SelectorsUndone(places: seq<nat>, n: nat)
    requires PlacesIn(places, n) && n <= 6
    ensures |InitialList(n)| == n
    ensures forall i :: 0 <= i < |places| ==> UndoMtf(InitialList(n), places)[i] < n
    ensures |UndoMtf(InitialList(n), places)| == |places|
  {
    Receiving.UndoneIn(InitialList(n), places, n);
  }

  // ----- from the symbols to the block

  lemma PrefixOfInitial(n: nat)
    requires n <= 256
    ensures InitialList(256)[..n] == InitialList(n) && |InitialList(n)| == n
  {
  }

  /** Decoding the symbols of a block gives its last column. */
  lemma SymbolsDecode(x: Sent, max: nat, unseq: seq<byte>)
    requires SentOk(x, max) && |x.inUse| == 256 && |unseq| == 256 && UsedBelow(x.inUse, 256) <= unseq
    requires SymbolsUpTo(SymbolsOf(x), NInUse(x.inUse) + 1) && 1 <= NInUse(x.inUse) <= 256
    requires |LastColumn(x.block, x.f)| == |x.block|
    ensures Decode(unseq, NInUse(x.inUse) + 1, max, InitialList(256), [], -1, 1, SymbolsOf(x))
            == Done(LastColumn(x.block, x.f), [])
  {
    var n, l := NInUse(x.inUse), LastColumn(x.block, x.f);
    RanksListed(x.inUse, l);
    var ls := Ranks(x.inUse, l);
    MapsInverse(x.inUse, unseq, l);
    PrefixOfInitial(n);
    var c := InitialList(256);
    DecodeEncode(unseq, n, max, c, [], 0, ls, []);
    hide Decode, Encode, Ranks, LastColumn, InitialList;
    assert SymbolsOf(x) + [] == SymbolsOf(x);
    NothingBefore(unseq[c[0]], Mapped(unseq, ls));
  }

  lemma NothingBefore(x: byte, l: seq<byte>)
    ensures [] + Repeat(x, 0) + l == l
  {
  }

  /** What stands in tt after decoding the symbols of a block. */
  lemma DecodedBlock(x: Sent, max: nat, unseq: seq<byte>, end: Parsed<int>, tt: seq<int>, unzftab: seq<int>,
                     nblock: nat, status: Status)
    requires SentOk(x, max) && |unseq| == 256 && |x.inUse| == 256 && UsedBelow(x.inUse, 256) <= unseq
    requires SymbolsUpTo(SymbolsOf(x), NInUse(x.inUse) + 1) && 1 <= NInUse(x.inUse) <= 256
    requires Outcome(Decode(unseq, NInUse(x.inUse) + 1, max, InitialList(256), [], -1, 1, SymbolsOf(x)),
                     end, status, tt, unzftab, nblock)
    ensures IsPerm(x.f, |x.block|) && |LastColumn(x.block, x.f)| == |x.block|
    ensures status == Complete && nblock == |x.block|
    ensures HoldsOut(tt, LastColumn(x.block, x.f))
  {
    assert IsPerm(x.f, |x.block|);
    hide SentOk;
    SymbolsDecode(x, max, unseq);
  }

  lemma OutcomeFacts(goal: Decoded, end: Parsed<int>, status: Status, tt: seq<int>, unzftab: seq<int>, nblock: nat)
    requires Outcome(goal, end, status, tt, unzftab, nblock)
    ensures status == Complete ==> goal.Done? && nblock == |goal.out| <= |tt| && tt[..nblock] == goal.out
    ensures status == Complete ==> CountsOf(unzftab, goal.out)
  {
  }

  /** What the output state reads for last column l and starting place p. */
  ghost predicate Reads(l: seq<byte>, p: int, s: seq<byte>) {
    exists t :: IsLinks(l, t) && FollowsLinks(l, t, p, s)
  }

  ghost predicate FollowsLinks(l: seq<byte>, t: seq<int>, p: int, s: seq<byte>) {
    && |t| == |l| && 0 <= p < |l| && (forall j :: 0 <= j < |t| ==> 0 <= t[j] < |t|)
    && s == Walked(l, t, p, |l| + 2)
  }

  /** From the last column to the output state, in the fast layout: the checks on the
      counts pass, the links are built, and the first byte is read. */
  method FinishBlock(tt: array<int>, nblock: nat, unzftab: seq<int>, origPtr: nat, max: nat, availOut: nat,
                     ghost l: seq<byte>)
    returns (o: UnRle.BlockOutput?, ghost s: seq<byte>, ghost pos: seq<int>)
    requires tt.Length <= max && nblock == |l| <= tt.Length && tt[..nblock] == l && CountsOf(unzftab, l)
    modifies tt
    ensures o != null <==> origPtr < nblock
    ensures o != null ==> fresh(o) && Reads(l, origPtr, s) && FastReads(tt[..], s, pos) && o.Fits(s, pos)
                          && o.saveNblock == nblock && o.limit == max && o.delivered == [] && !o.Finished()
                          && o.availOut == availOut
  {
    s, pos := [], [];
    if origPtr >= nblock { return null, s, pos; }
    CountsAccepted(unzftab, l);
    assert |unzftab| == 256;
    hide *;
    var ok, cftab := BuildCftab(unzftab, nblock);
    BuildLinks(tt, cftab, nblock, l);
    FastDelivers(l, tt[..], origPtr, nblock + 2);
    ghost var t := Links(tt[..], nblock);
    s, pos := Walked(l, t, origPtr, nblock + 2), Trail(t, t[origPtr], nblock + 3);
    var tPos := tt[origPtr] / 256;
    ghost var first := tPos;
    StartsAt(t, t[origPtr], nblock + 3);
    LinksAt(tt[..], nblock, origPtr);
    var bad, k0;
    bad, k0, tPos := UnRle.GetFast(tt[..], tPos, max, s, pos, 0);
    o := new UnRle.BlockOutput(nblock, max, k0, tPos, availOut, s, pos);
    MakeReads(l, t, origPtr, s);
  }

  /** From the last column to the output state, in the small layout: ll16 holds the last
      column; the pointers are packed and turned round, and the first byte is read. */
  method FinishSmallBlock(ll16: array<int>, ll4: array<int>, nblock: nat, unzftab: seq<int>, origPtr: nat, max: nat,
                          availOut: nat, ghost l: seq<byte>)
    returns (o: UnRle.BlockOutput?, cftab: seq<int>, ghost s: seq<byte>, ghost pos: seq<int>)
    requires ll16 != ll4 && ll16.Length <= max <= 900000 && ll16.Length <= 2 * ll4.Length
    requires nblock == |l| <= ll16.Length && ll16[..nblock] == l && CountsOf(unzftab, l)
    requires forall i :: 0 <= i < ll4.Length ==> 0 <= ll4[i] < 0x100
    modifies ll16, ll4
    ensures o != null <==> origPtr < nblock
    ensures forall i :: 0 <= i < ll4.Length ==> 0 <= ll4[i] < 0x100
    ensures o != null ==> fresh(o) && Reads(l, origPtr, s) && o.SmallTables(ll16[..], ll4[..], cftab, s, pos)
                          && o.Fits(s, pos)
                          && o.saveNblock == nblock && o.limit == max && o.delivered == [] && !o.Finished()
                          && o.availOut == availOut
  {
    cftab, s, pos := [], [], [];
    if origPtr >= nblock { return null, cftab, s, pos; }
    CountsAccepted(unzftab, l);
    assert |unzftab| == 256;
    ghost var t := LinksExist(l);
    LinksInRange(l, t);
    assert |t| == |l|;
    SlotsPerm(l);
    hide *;
    var ok, counts := BuildCftab(unzftab, nblock);
    cftab := counts[..];
    BuildT(ll16, ll4, cftab, nblock, l);
    ghost var cyc := ReversePointers(ll16, ll4, origPtr, nblock, Slots(l));
    SmallDelivers(l, t, Pointers(ll16[..nblock], ll4[..]), cftab, origPtr, cyc, nblock + 2);
    s, pos := Walked(l, t, origPtr, nblock + 2), Trail(t, origPtr, nblock + 3);
    StartsAt(t, origPtr, nblock + 3);
    PackedNibbles(ll16[..nblock], ll4[..]);
    assert ll16[..][..nblock] == ll16[..nblock];
    var bad, k0, tPos;
    bad, k0, tPos := UnRle.GetSmall(ll16[..], ll4[..], cftab, origPtr, max, nblock, s, pos, 0);
    o := new UnRle.BlockOutput(nblock, max, k0, tPos, availOut, s, pos);
    MakeSmallTables(o, ll16[..], ll4[..], cftab, s, pos);
    MakeReads(l, t, origPtr, s);
  }

  lemma PackedNibbles(lo: seq<int>, hi: seq<int>)
    requires Packed(lo, hi)
    ensures forall i :: 0 <= i < |hi| ==> 0 <= hi[i] < 0x100
  {
  }

  lemma MakeSmallTables(o: UnRle.BlockOutput, ll16: seq<int>, ll4: seq<int>, cftab: seq<int>, s: seq<byte>,
                        pos: seq<int>)
    requires o.saveNblock <= |ll16| && o.saveNblock <= 2 * |ll4| && o.saveNblock <= o.limit
    requires SmallReads(Pointers(ll16[..o.saveNblock], ll4), cftab, s, pos)
    ensures o.SmallTables(ll16, ll4, cftab, s, pos)
  {
  }

  /** The tables of the layout deliver the reads. In the small layout cells is ll16. */
  ghost predicate Delivers(o: UnRle.BlockOutput, small: bool, cells: seq<int>, ll4: seq<int>, cftab: seq<int>,
                           s: seq<byte>, pos: seq<int>)
    reads o
  {
    o.Fits(s, pos)
    && if small then o.SmallTables(cells, ll4, cftab, s, pos) else FastReads(cells, s, pos) && |cells| <= o.limit
  }

  /** The end of BZ2_decompress for either layout. */
  method Finish(small: bool, cells: array<int>, ll4: array<int>, nblock: nat, unzftab: seq<int>, origPtr: nat,
                max: nat, availOut: nat, ghost l: seq<byte>)
    returns (o: UnRle.BlockOutput?, cftab: seq<int>, ghost s: seq<byte>, ghost pos: seq<int>)
    requires cells != ll4 && cells.Length <= max <= 900000 && cells.Length <= 2 * ll4.Length
    requires nblock == |l| <= cells.Length && cells[..nblock] == l && CountsOf(unzftab, l)
    requires forall i :: 0 <= i < ll4.Length ==> 0 <= ll4[i] < 0x100
    modifies cells, ll4
    ensures forall i :: 0 <= i < ll4.Length ==> 0 <= ll4[i] < 0x100
    ensures o != null <==> origPtr < nblock
    ensures o != null ==> fresh(o) && Reads(l, origPtr, s) && Delivers(o, small, cells[..], ll4[..], cftab, s, pos)
                          && o.saveNblock == nblock && o.limit == max && o.delivered == [] && !o.Finished()
                          && o.availOut == availOut
  {
    hide *;
    cftab := [];
    if small {
      o, cftab, s, pos := FinishSmallBlock(cells, ll4, nblock, unzftab, origPtr, max, availOut, l);
    } else {
      o, s, pos := FinishBlock(cells, nblock, unzftab, origPtr, max, availOut, l);
    }
    if o != null { MakeDelivers(o, small, cells[..], ll4[..], cftab, s, pos); }
  }

  lemma MakeDelivers(o: UnRle.BlockOutput, small: bool, cells: seq<int>, ll4: seq<int>, cftab: seq<int>, s: seq<byte>,
                     pos: seq<int>)
    requires o.Fits(s, pos)
             && if small then o.SmallTables(cells, ll4, cftab, s, pos)
                else FastReads(cells, s, pos) && |cells| <= o.limit
    ensures Delivers(o, small, cells, ll4, cftab, s, pos)
  {
  }

  /** What is read is determined by the last column and the starting place: both layouts
      read the same. */
  lemma ReadsSame(l: seq<byte>, p: int, s: seq<byte>, s': seq<byte>)
    requires Reads(l, p, s) && Reads(l, p, s')
    ensures s == s'
  {
    var t :| IsLinks(l, t) && FollowsLinks(l, t, p, s);
    var u :| IsLinks(l, u) && FollowsLinks(l, u, p, s');
    LinksUnique(l, t, u);
  }

  lemma LinksAt(tt: seq<int>, n: nat, j: nat)
    requires j < n <= |tt|
    ensures |Links(tt, n)| == n && Links(tt, n)[j] == tt[j] / 256
  {
  }

  lemma StartsAt(t: seq<int>, p: int, m: nat)
    requires 0 <= p < |t| && m > 0 && forall i :: 0 <= i < |t| ==> 0 <= t[i] < |t|
    ensures |Trail(t, p, m)| == m && Trail(t, p, m)[0] == p
  {
  }

  lemma MakeReads(l: seq<byte>, t: seq<int>, p: int, s: seq<byte>)
    requires IsLinks(l, t) && |t| == |l| && 0 <= p < |l| && forall j :: 0 <= j < |t| ==> 0 <= t[j] < |t|
    requires s == Walked(l, t, p, |l| + 2)
    ensures Reads(l, p, s)
  {
    assert FollowsLinks(l, t, p, s);
  }

  /** Reading the last column of a sent block from its origPtr gives the block. */
  lemma ReadsBlock(x: Sent, max: nat, s: seq<byte>)
    requires SentOk(x, max) && IsPerm(x.f, |x.block|) && Reads(LastColumn(x.block, x.f), x.origPtr, s)
    ensures |s| == |x.block| + 2 && s[..|x.block|] == x.block
  {
    var l := LastColumn(x.block, x.f);
    var t :| IsLinks(l, t) && FollowsLinks(l, t, x.origPtr, s);
    hide IsLinks, LastColumn, IsRotationSort, SymbolsOf, Codable;
    assert IsRotationSort(x.block, x.f) && x.f[x.origPtr] == 0;
    WalkedIsBlock(x.block, x.f, t, x.origPtr, 2);
  }
}
