/** Whole blocks and whole streams: sending and receiving them, and the theorem that
    decompression of what compression produced gives back the input. */
module Stream {
  import opened Counting
  import opened Rotations
  import opened InverseBwt
  import opened MoveToFront
  import opened MtfCoding
  import opened ByteMaps
  import opened BitStream
  import opened Huffman
  import opened Tables
  import opened Symbols
  import opened TableChoice
  import opened MtfDecoder
  import opened BwtDecode
  import opened Block
  import opened Headers
  import opened RunLength
  import Crc
  import MtfEncoder
  import Sending
  import Receiving
  import UnRle

  // ----- the format of a block

  /** 0x314159265359 */
  function BlockMark(): (m: seq<byte>)
    ensures |m| == 6
  {
    [0x31, 0x41, 0x59, 0x26, 0x53, 0x59]
  }

  /** 0x177245385090 */
  function EndMark(): (m: seq<byte>)
    ensures |m| == 6
  {
    [0x17, 0x72, 0x45, 0x38, 0x50, 0x90]
  }

  /** After the marker: check, the bit that says "not randomised", origPtr, body. */
  function BlockHeader(x: Sent, max: nat, crc: nat): seq<bool>
    requires SentOk(x, max)
  {
    Bits(crc, 32) + ([false] + (Bits(x.origPtr, 24) + BodyBits(x, max)))
  }

  function BlockBits(x: Sent, max: nat, crc: nat): seq<bool>
    requires SentOk(x, max)
  {
    BytesBits(BlockMark()) + BlockHeader(x, max, crc)
  }

  // ----- sending a block

  /** The sorted block as it is about to be sent. */
  ghost predicate Sortable(block: seq<byte>, f: seq<int>, origPtr: nat, inUse: seq<bool>, max: nat) {
    && 0 < |block| <= max <= 900000 && IsRotationSort(block, f) && origPtr < |block| && f[origPtr] == 0
    && |inUse| == 256 && forall i :: 0 <= i < |block| ==> inUse[block[i]]
  }

  lemma SortableFacts(block: seq<byte>, f: seq<int>, origPtr: nat, inUse: seq<bool>, max: nat)
    requires Sortable(block, f, origPtr, inUse, max)
    ensures block != [] && IsPerm(f, |block|) && |inUse| == 256 && origPtr < 900000
    ensures forall i :: 0 <= i < |block| ==> inUse[block[i]]
  {
    hide SortedTo;
  }

  /** A sorted block with a good choice of tables is fit to be sent. */
  lemma MakeSent(block: seq<byte>, f: seq<int>, origPtr: nat, inUse: seq<bool>, max: nat, cod: Coding, nMTF: nat)
    requires Sortable(block, f, origPtr, inUse, max) && block != [] && IsPerm(f, |block|) && |inUse| == 256
    requires forall i :: 0 <= i < |block| ==> inUse[block[i]]
    requires var syms := SymbolsOf(Sent(block, f, origPtr, inUse, cod));
             nMTF == |syms| && (Codable(cod, NInUse(inUse) + 2, nMTF))
    ensures SentOk(Sent(block, f, origPtr, inUse, cod), max)
  {
    hide IsRotationSort, SymbolsOf, Codable;
  }

  lemma SymbolsFit(block: seq<byte>, f: seq<int>, origPtr: nat, inUse: seq<bool>, max: nat, cod: Coding, nMTF: nat)
    requires block != [] && IsPerm(f, |block|) && |inUse| == 256
    requires forall i :: 0 <= i < |block| ==> inUse[block[i]]
    requires |block| <= 900000 && nMTF <= |block| + 1
    requires nMTF == |SymbolsOf(Sent(block, f, origPtr, inUse, cod))|
    ensures 1 <= NInUse(inUse) <= 256
    ensures 1 <= nMTF <= 900001
    ensures forall i :: 0 <= i < nMTF ==>
              0 <= SymbolsOf(Sent(block, f, origPtr, inUse, cod))[i] < NInUse(inUse) + 2
  {
    SymbolsEnded(Sent(block, f, origPtr, inUse, cod));
    hide SymbolsOf;
  }

  lemma SymbolsAre(block: seq<byte>, f: seq<int>, origPtr: nat, inUse: seq<bool>, cod: Coding, ls: seq<byte>)
    requires block != [] && IsPerm(f, |block|) && |inUse| == 256
    requires forall i :: 0 <= i < |block| ==> inUse[block[i]]
    requires ls == Ranks(inUse, LastColumn(block, f)) && 1 <= NInUse(inUse) <= 256
    requires AllIn(ls, InitialList(NInUse(inUse)))
    ensures SymbolsOf(Sent(block, f, origPtr, inUse, cod)) == Encode(InitialList(NInUse(inUse)), 0, ls)
  {
    hide Ranks, Encode, LastColumn, AllIn, InitialList;
  }

  lemma WrittenFront(h: seq<int>, freq: seq<int>, wr: nat, syms: seq<int>)
    requires MtfEncoder.Written(h, freq, wr, syms)
    ensures wr == |syms| <= |h| && h[..wr] == syms
  {
  }

  lemma BodyIsValues(x: Sent, max: nat, alphaSize: nat, syms: seq<int>)
    requires SentOk(x, max) && |x.inUse| == 256 && alphaSize == NInUse(x.inUse) + 2
    requires 0 < |x.block| && IsPerm(x.f, |x.block|) && (forall i :: 0 <= i < |x.block| ==> x.inUse[x.block[i]])
    requires syms == SymbolsOf(x) && Codable(x.cod, alphaSize, |syms|)
    requires forall i :: 0 <= i < |syms| ==> 0 <= syms[i] < alphaSize
    ensures BodyBits(x, max) == Sending.ValuesBits(x.inUse, x.cod, alphaSize, syms)
  {
    hide SentOk, SymbolsOf, Codable, UsedBelow, NInUse, Ended, IsPerm, Sending.ValuesBits;
  }

  /** generateMTFValues and sendMTFValues. */
  method SendBody(w: Writer, arr1: array<int>, block: seq<byte>, inUse: seq<bool>, ghost origPtr: nat, ghost max: nat,
                  ghost f: seq<int>)
    returns (ghost x: Sent)
    requires w.Valid() && Sortable(block, f, origPtr, inUse, max)
    requires MtfEncoder.HoldsFrom(arr1[..], f, 0)
    modifies w, arr1
    ensures w.Valid() && SentOk(x, max) && x.block == block && x.f == f && x.origPtr == origPtr && x.inUse == inUse
    ensures WellCoded(x, max)
    ensures w.Written() == old(w.Written()) + BodyBits(x, max)
  {
    hide *;
    SortableFacts(block, f, origPtr, inUse, max);
    SmallBlock(block, f, origPtr, inUse, max);
    ghost var start := w.Written();
    var nMTF, mtfFreq, ls := MtfEncoder.GenerateMtfValues(arr1, block, inUse, f);
    ghost var syms := Encode(InitialList(NInUse(inUse)), 0, ls);
    WrittenFront(arr1[..], mtfFreq[..], nMTF, syms);
    var mtfv := arr1[..nMTF];
    assert mtfv == syms;
    var alphaSize := NInUse(inUse) + 2;
    ghost var any := Sent(block, f, origPtr, inUse, Coding([], []));
    SymbolsAre(block, f, origPtr, inUse, any.cod, ls);
    SymbolsFit(block, f, origPtr, inUse, max, any.cod, nMTF);
    FrequenciesAre(arr1[..], mtfFreq[..], nMTF, syms, alphaSize);
    var cod, rounds, starts := ChooseTables(mtfv, mtfFreq[..alphaSize], alphaSize);
    ChoiceCodable(cod, rounds, starts, mtfv, alphaSize);
    x := Sent(block, f, origPtr, inUse, cod);
    SymbolsAre(block, f, origPtr, inUse, cod, ls);
    MakeSent(block, f, origPtr, inUse, max, cod, nMTF);
    Sending.SendMtfValues(w, inUse, cod, alphaSize, mtfv);
    BodyIsValues(x, max, alphaSize, mtfv);
    MakeChosen(x, max, alphaSize, mtfv, rounds, starts);
  }

  /** The tables of the block are those chosen for its symbols. */
  ghost predicate WellCoded(x: Sent, max: nat) {
    SentOk(x, max) && ChoiceOf(SymbolsOf(x), NInUse(x.inUse) + 2, x.cod)
  }

  lemma MakeChosen(x: Sent, max: nat, alphaSize: nat, syms: seq<int>, rounds: seq<Round>, starts: seq<int>)
    requires SentOk(x, max) && |x.inUse| == 256 && alphaSize == NInUse(x.inUse) + 2
    requires 0 < |x.block| && IsPerm(x.f, |x.block|) && (forall i :: 0 <= i < |x.block| ==> x.inUse[x.block[i]])
    requires syms == SymbolsOf(x) && MadeBy(syms, alphaSize, x.cod, rounds, starts)
    ensures WellCoded(x, max)
  {
    hide SentOk, SymbolsOf, MadeBy, IsPerm;
  }

  lemma FrequenciesAre(h: seq<int>, freq: seq<int>, wr: nat, syms: seq<int>, a: nat)
    requires MtfEncoder.Written(h, freq, wr, syms) && a <= 258
    ensures |freq| == 258 && (forall v :: 0 <= v < 258 ==> freq[v] >= 0) && freq[..a] == Counts(syms, a)
  {
  }

  lemma SmallBlock(block: seq<byte>, f: seq<int>, origPtr: nat, inUse: seq<bool>, max: nat)
    requires Sortable(block, f, origPtr, inUse, max)
    ensures |block| <= 900000
  {
  }

  /** BZ2_compressBlock for a block with data: marker, check, the bit, origPtr, body. */
  method SendBlock(w: Writer, arr1: array<int>, block: seq<byte>, inUse: seq<bool>, origPtr: nat, blockCRC: nat,
                   ghost max: nat, ghost f: seq<int>)
    returns (ghost x: Sent)
    requires w.Valid() && Sortable(block, f, origPtr, inUse, max)
    requires MtfEncoder.HoldsFrom(arr1[..], f, 0) && blockCRC < 0x1_0000_0000
    modifies w, arr1
    ensures w.Valid() && SentOk(x, max) && x.block == block && x.inUse == inUse && WellCoded(x, max)
    ensures w.Written() == old(w.Written()) + BlockBits(x, max, blockCRC)
  {
    hide *;
    SortableFacts(block, f, origPtr, inUse, max);
    ghost var start := w.Written();
    PutBytes(w, BlockMark());
    PutUInt32(w, blockCRC);
    Sending.SendFlag(w, false);
    Power32();
    w.BsW(24, origPtr);
    x := SendBody(w, arr1, block, inUse, origPtr, max, f);
    BlockParts(start, x, max, blockCRC);
  }

  lemma BlockParts(start: seq<bool>, x: Sent, max: nat, crc: nat)
    requires SentOk(x, max)
    ensures start + BytesBits(BlockMark()) + Bits(crc, 32) + [false] + Bits(x.origPtr, 24) + BodyBits(x, max)
            == start + BlockBits(x, max, crc)
  {
    hide SentOk, BodyBits, Bits, BytesBits, BlockMark;
    FiveParts(start, BytesBits(BlockMark()), Bits(crc, 32), [false], Bits(x.origPtr, 24), BodyBits(x, max));
  }

  lemma FiveParts(s: seq<bool>, a: seq<bool>, b: seq<bool>, c: seq<bool>, d: seq<bool>, e: seq<bool>)
    ensures s + a + b + c + d + e == s + (a + (b + (c + (d + e))))
  {
  }

  // ----- receiving a block

  /** A 32-bit word as the number that is sent: that with its bits. */
  function WordOf(w: bv32): (n: nat)
    ensures n < 0x1_0000_0000 && Bits(n, 32) == Crc.Coefficients(w, 32)
  {
    Power32();
    BitsOfValue(Crc.Coefficients(w, 32));
    Value(Crc.Coefficients(w, 32))
  }

  /** The check of a block. */
  function CrcOf(x: Sent): (n: nat)
    ensures n < 0x1_0000_0000
  {
    WordOf(Crc.Check(Expand(x.block)))
  }

  lemma HeaderArrives(x: Sent, max: nat, crc: nat, rest: seq<bool>, bs: seq<bool>)
    requires SentOk(x, max) && crc < 0x1_0000_0000 && bs == BlockHeader(x, max, crc) + rest
    ensures 57 <= |bs| && Value(bs[..32]) == crc && !bs[32..][0] && Value(bs[32..][1..][..24]) == x.origPtr
    ensures bs[32..][1..][24..] == BodyBits(x, max) + rest
  {
    SmallOrigPtr(x, max);
    hide *;
    Power32();
    HeaderIs(x, max, crc, rest);
    var more := BodyBits(x, max) + rest;
    NumberArrives(crc, 32, [false] + (Bits(x.origPtr, 24) + more));
    CutOne(false, Bits(x.origPtr, 24) + more);
    NumberArrives(x.origPtr, 24, more);
  }

  lemma SmallOrigPtr(x: Sent, max: nat)
    requires SentOk(x, max)
    ensures x.origPtr < 900000 && x.origPtr < max
  {
  }

  lemma HeaderIs(x: Sent, max: nat, crc: nat, rest: seq<bool>)
    requires SentOk(x, max)
    ensures BlockHeader(x, max, crc) + rest
            == Bits(crc, 32) + ([false] + (Bits(x.origPtr, 24) + (BodyBits(x, max) + rest)))
  {
    hide SentOk, BodyBits, Bits;
    ThreeParts(Bits(crc, 32), [false], Bits(x.origPtr, 24), BodyBits(x, max), rest);
  }

  lemma ThreeParts(a: seq<bool>, b: seq<bool>, c: seq<bool>, d: seq<bool>, e: seq<bool>)
    ensures a + (b + (c + d)) + e == a + (b + (c + (d + e)))
  {
  }

  /** The check of the block, the randomisation bit and origPtr. */
  datatype Header = Header(crc: nat, randomised: bool, origPtr: nat)

  function ParseHeader(bs: seq<bool>, max: nat): Parsed<Header> {
    if |bs| < 57 then Short
    else if Value(bs[33..57]) > 10 + max then Bad
    else Got(Header(Value(bs[..32]), bs[32], Value(bs[33..57])), bs[57..])
  }

  lemma HeaderPieces(bs: seq<bool>, max: nat)
    ensures |bs| >= 33 ==> bs[32..][..1] == [bs[32]] && bs[32..][1..] == bs[33..]
    ensures |bs| >= 57 ==> bs[33..][..24] == bs[33..57] && bs[33..][24..] == bs[57..]
    ensures forall h, rest :: |bs| < 57 ==> Receiving.Told(ParseHeader(bs, max), Starved, h, rest)
    ensures forall h, rest ::
              |bs| >= 57 && Value(bs[33..57]) > 10 + max ==> Receiving.Told(ParseHeader(bs, max), Corrupt, h, rest)
  {
    hide Value;
  }

  lemma HeaderEnds(bs: seq<bool>, max: nat, crc: nat, randomised: bool, origPtr: nat, rest: seq<bool>)
    requires |bs| >= 57 && crc == Value(bs[..32]) && randomised == bs[32] && origPtr == Value(bs[33..57]) <= 10 + max
    requires rest == bs[57..]
    ensures Receiving.Told(ParseHeader(bs, max), Complete, Header(crc, randomised, origPtr), rest)
  {
    hide Value;
  }

  /** What was sent as a header is one. */
  lemma HeaderSent(x: Sent, max: nat, crc: nat, rest: seq<bool>, bs: seq<bool>)
    requires SentOk(x, max) && crc < 0x1_0000_0000 && bs == BlockHeader(x, max, crc) + rest
    ensures ParseHeader(bs, max) == Got(Header(crc, false, x.origPtr), BodyBits(x, max) + rest)
  {
    hide *;
    HeaderArrives(x, max, crc, rest, bs);
    SmallOrigPtr(x, max);
    HeaderPieces(bs, max);
    assert bs[33..][24..] == bs[57..];
    HeaderEnds(bs, max, crc, false, x.origPtr, BodyBits(x, max) + rest);
    Receiving.ToldIs(ParseHeader(bs, max), Complete, Header(crc, false, x.origPtr), BodyBits(x, max) + rest);
  }

  /** The check, the randomisation bit and origPtr, on any bits. */
  method ReceiveHeader(r: Reader, max: nat) returns (status: Status, storedCRC: nat, randomised: bool, origPtr: nat)
    requires r.Valid()
    modifies r
    ensures r.Valid() && (status == Complete ==> |r.Ahead()| <= |old(r.Ahead())|)
    ensures Receiving.Told(ParseHeader(old(r.Ahead()), max), status, Header(storedCRC, randomised, origPtr), r.Ahead())
  {
    hide *;
    ghost var bs := r.Ahead();
    HeaderPieces(bs, max);
    storedCRC, randomised, origPtr := 0, false, 0;
    var ok, v := ReceiveNumber(r, 4);
    if !ok { return Starved, storedCRC, randomised, origPtr; }
    storedCRC := v;
    ok, v := r.GetBits(1);
    if !ok { return Starved, storedCRC, randomised, origPtr; }
    Receiving.FlagOf(v, bs[32..]);
    randomised := v == 1;
    ok, v := ReceiveNumber(r, 3);
    if !ok { return Starved, storedCRC, randomised, origPtr; }
    origPtr := v;
    if origPtr > 10 + max { return Corrupt, storedCRC, randomised, origPtr; }
    HeaderEnds(bs, max, storedCRC, randomised, origPtr, r.Ahead());
    status := Complete;
  }

  // ----- what any bits come to as a block

  /** The last column, if the symbols and what stops them give one. */
  function ColumnOf(d: Decoded, end: Parsed<int>): Parsed<seq<byte>> {
    match d
    case Done(l, _) => if end.Got? then Got(l, end.rest) else Bad
    case BadData => Bad
    case MoreInput => if end == Short then Short else Bad
  }

  /** Read with the tables for the lengths of the body, the bits behind it come to the column p. */
  ghost predicate DecodesTo(body: Body, tabs: seq<Table>, unseq: seq<byte>, bs: seq<bool>, max: nat,
                            p: Parsed<seq<byte>>) {
    && TablesFor(tabs, body.lens) && |unseq| == 256 && |body.inUse| == 256 && UsedBelow(body.inUse, 256) <= unseq
    && body.nGroups <= 6 && |InitialList(body.nGroups)| == body.nGroups && PlacesIn(body.places, body.nGroups)
    && (forall t :: 0 <= t < |tabs| ==> |tabs[t].limit| == |tabs[t].base| == 23 && |tabs[t].perm| == 258)
    && 1 <= NInUse(body.inUse) <= 256 && AlphabetOf(body.lens, NInUse(body.inUse) + 2)
    && var sel, eob := UndoMtf(InitialList(body.nGroups), body.places), NInUse(body.inUse) + 1;
    && (forall i :: 0 <= i < |sel| ==> sel[i] < |tabs|) && SymbolsUpTo(SymbolsFrom(tabs, sel, eob, 0, bs), eob)
    && p == ColumnOf(Decode(unseq, eob, max, InitialList(256), [], -1, 1, SymbolsFrom(tabs, sel, eob, 0, bs)),
                     EndFrom(tabs, sel, eob, 0, bs))
  }

  ghost predicate ColumnIs(body: Body, bs: seq<bool>, max: nat, p: Parsed<seq<byte>>) {
    exists tabs, unseq :: DecodesTo(body, tabs, unseq, bs, max, p)
  }

  /** A block is ready for output, or is rejected, or needs more input, or is one of the
      randomised blocks of old versions. */
  datatype BlockStatus = ReadyBlock | Rejected | Waiting | Randomised

  /** With the last column p, the block is ready if origPtr lies in it; then what is read is
      that of the links from there. */
  ghost predicate ColumnTold(h: Header, p: Parsed<seq<byte>>, status: BlockStatus, storedCRC: nat, s: seq<byte>, n: nat,
                             rest: seq<bool>) {
    match p
    case Bad => status == Rejected
    case Short => status == Waiting
    case Got(l, b) =>
      if h.origPtr >= |l| then status == Rejected
      else status == ReadyBlock && storedCRC == h.crc && Reads(l, h.origPtr, s) && n == |l| && rest == b
  }

  ghost predicate CodedTold(h: Header, body: Parsed<Body>, max: nat, status: BlockStatus, storedCRC: nat, s: seq<byte>,
                            n: nat, rest: seq<bool>) {
    match body
    case Bad => status == Rejected
    case Short => status == Waiting
    case Got(y, b) =>
      exists p :: ColumnIs(y, b, max, p) && ColumnTold(h, p, status, storedCRC, s, n, rest)
  }

  /** What becomes of any bits as a block, from its check on. */
  ghost predicate BlockTold(bs: seq<bool>, max: nat, status: BlockStatus, storedCRC: nat, s: seq<byte>, n: nat,
                            rest: seq<bool>) {
    match ParseHeader(bs, max)
    case Bad => status == Rejected
    case Short => status == Waiting
    case Got(h, b) =>
      if h.randomised then status == Randomised
      else CodedTold(h, ParseBody(b), max, status, storedCRC, s, n, rest)
  }

  lemma HeaderTold(bs: seq<bool>, max: nat, st: Status, h: Header, b: seq<bool>)
    requires Receiving.Told(ParseHeader(bs, max), st, h, b)
    ensures forall crc: nat, s, n: nat, rest ::
              && (st != Complete ==> BlockTold(bs, max, WhyNot(st), crc, s, n, rest))
              && (st == Complete && h.randomised ==> BlockTold(bs, max, Randomised, crc, s, n, rest))
    ensures forall status, crc: nat, s, n: nat, rest ::
              st == Complete && !h.randomised && CodedTold(h, ParseBody(b), max, status, crc, s, n, rest) ==>
                BlockTold(bs, max, status, crc, s, n, rest)
  {
    hide ParseHeader, ParseBody, CodedTold;
  }

  lemma BodyFails(h: Header, b: seq<bool>, max: nat, st: Status, src: SymbolSource?, nInUse: nat, unseq: seq<byte>,
                  more: seq<bool>)
    requires BodyTold(ParseBody(b), st, src, nInUse, unseq, more) && st != Complete
    ensures forall crc: nat, s, n: nat, rest :: CodedTold(h, ParseBody(b), max, WhyNot(st), crc, s, n, rest)
  {
    hide ParseBody;
  }

  /** The source reads the column that the body says. */
  lemma BodyReads(h: Header, b: seq<bool>, max: nat, st: Status, src: SymbolSource, nInUse: nat, unseq: seq<byte>,
                  goal: Decoded, more: seq<bool>)
    requires BodyTold(ParseBody(b), st, src, nInUse, unseq, more) && st == Complete
    requires CanRead(src, src.r, nInUse) && src.r.Ahead() == more && 1 <= nInUse <= 256 && |unseq| == 256
    requires SymbolsUpTo(src.Coming(), nInUse + 1)
    requires goal == Decode(unseq, nInUse + 1, max, InitialList(256), [], -1, 1, src.Coming())
    ensures forall status, crc: nat, s, n: nat, rest ::
              ColumnTold(h, ColumnOf(goal, src.End()), status, crc, s, n, rest) ==>
                CodedTold(h, ParseBody(b), max, status, crc, s, n, rest)
  {
    hide ParseBody, Decode, SymbolsFrom, EndFrom, UndoMtf, InitialList, UsedBelow, ColumnTold, TableFor, InStep,
         ReadsUpTo, Receiving.TableShapes, ColumnOf;
    var body := ParseBody(b).value;
    assert ReadsBody(src, body, nInUse, unseq);
    assert DecodesTo(body, src.tabs, unseq, more, max, ColumnOf(goal, src.End()));
    assert ColumnIs(body, more, max, ColumnOf(goal, src.End()));
  }

  lemma ColumnFails(h: Header, goal: Decoded, end: Parsed<int>, st: Status, tt: seq<int>, unzftab: seq<int>,
                    nblock: nat)
    requires MtfDecoder.Outcome(goal, end, st, tt, unzftab, nblock)
    ensures forall crc: nat, s, n: nat, rest ::
              st != Complete ==> ColumnTold(h, ColumnOf(goal, end), WhyNot(st), crc, s, n, rest)
    ensures forall crc: nat, s, n: nat, rest ::
              st == Complete && end.Got? && h.origPtr >= nblock ==>
                ColumnTold(h, ColumnOf(goal, end), Rejected, crc, s, n, rest)
    ensures forall s ::
              st == Complete && end.Got? && h.origPtr < nblock && Reads(goal.out, h.origPtr, s) ==>
                ColumnTold(h, ColumnOf(goal, end), ReadyBlock, h.crc, s, nblock, end.rest)
  {
    hide Reads, CountsOut, HoldsOut;
  }

  /** One block, from its check to the output state. For any input the outcome is that of the
      bits, and the state fits what the links of the received last column spell; a block that
      was sent arrives. */
  method ReceiveBlock(r: Reader, small: bool, tt: array<int>, ll4: array<int>, max: nat, room: nat, ghost x: Sent,
                      ghost crc: nat, ghost rest: seq<bool>, ghost sent: bool)
    returns (status: BlockStatus, storedCRC: nat, o: UnRle.BlockOutput?, cftab: seq<int>, ghost s: seq<byte>,
      ghost pos: seq<int>)
    requires r.Valid() && tt.Length == max <= 900000 && crc < 0x1_0000_0000
    requires tt != ll4 && max <= 2 * ll4.Length && NibbleCells(ll4[..])
    requires sent ==> SentOk(x, max) && r.Ahead() == BlockHeader(x, max, crc) + rest
    modifies r, tt, ll4
    ensures r.Valid() && (status == ReadyBlock ==> |r.Ahead()| <= |old(r.Ahead())|) && NibbleCells(ll4[..])
    ensures status == ReadyBlock ==> o != null && fresh(o) && Delivers(o, small, tt[..], ll4[..], cftab, s, pos)
                                     && o.limit == max && o.delivered == [] && o.availOut == room && !o.Finished()
    ensures status != ReadyBlock ==> o == null
    ensures BlockTold(old(r.Ahead()), max, status, storedCRC, s, if o == null then 0 else o.saveNblock, r.Ahead())
    ensures sent ==> status == ReadyBlock && storedCRC == crc && r.Ahead() == rest
                     && o.saveNblock == |x.block| && |s| == |x.block| + 2 && s[..|x.block|] == x.block
  {
    hide *;
    o, cftab, s, pos := null, [], [], [];
    ghost var bs := r.Ahead();
    if sent { HeaderSent(x, max, crc, rest, bs); }
    var st, randomised, origPtr, nInUse, seqToUnseq, src;
    st, storedCRC, randomised, origPtr := ReceiveHeader(r, max);
    ghost var h, body := Header(storedCRC, randomised, origPtr), r.Ahead();
    Receiving.ToldIs(ParseHeader(bs, max), st, h, body);
    HeaderTold(bs, max, st, h, body);
    if st != Complete { status := WhyNot(st); return; }
    if randomised { status := Randomised; return; }
    if sent { MakeArrives(body, x, max, rest); }
    st, nInUse, seqToUnseq, src := ReceiveBody(r, x, max, rest);
    if src == null {
      BodyFails(h, body, max, st, src, nInUse, seqToUnseq, r.Ahead());
      status := WhyNot(st);
      return;
    }
    CanReadFacts(src, r, nInUse);
    ghost var syms, end := src.Coming(), src.End();
    InRange(syms, nInUse + 1);
    ghost var goal := Decode(seqToUnseq, nInUse + 1, max, InitialList(256), [], -1, 1, syms);
    BodyReads(h, body, max, st, src, nInUse, seqToUnseq, goal, r.Ahead());
    var nblock, unzftab;
    st, nblock, unzftab := DecodeMtfValues(src, seqToUnseq, max, tt);
    OutcomeFacts(goal, end, st, tt[..], unzftab[..], nblock);
    ColumnFails(h, goal, end, st, tt[..], unzftab[..], nblock);
    if sent {
      SentSmall(x, max);
      DecodedBlock(x, max, seqToUnseq, end, tt[..], unzftab[..], nblock, st);
      DecodedIs(x, max, seqToUnseq, syms);
    }
    if st != Complete { status := WhyNot(st); return; }
    assert tt[..nblock] == tt[..][..nblock];
    NibbleCellsAt(ll4[..]);
    o, cftab, s, pos := Finish(small, tt, ll4, nblock, unzftab[..], origPtr, max, room, goal.out);
    NibbleCellsAt(ll4[..]);
    if o == null { status := Rejected; return; }
    if sent { ReadsBlock(x, max, s); }
    status := ReadyBlock;
  }

  /** ll4 is an array of bytes, with anything in it at first. */
  ghost predicate NibbleCells(ll4: seq<int>) {
    forall i :: 0 <= i < |ll4| ==> 0 <= ll4[i] < 0x100
  }

  lemma NibbleCellsAt(ll4: seq<int>)
    ensures NibbleCells(ll4) <==> forall i :: 0 <= i < |ll4| ==> 0 <= ll4[i] < 0x100
  {
  }

  lemma InRange(syms: seq<int>, eob: int)
    ensures SymbolsUpTo(syms, eob) <==> forall i :: 0 <= i < |syms| ==> 0 <= syms[i] <= eob
  {
  }

  function WhyNot(st: Status): (b: BlockStatus)
    requires st != Complete
    ensures b == if st == Starved then Waiting else Rejected
  {
    if st == Starved then Waiting else Rejected
  }

  lemma CanReadFacts(src: SymbolSource, r: Reader, nInUse: nat)
    requires CanRead(src, r, nInUse)
    ensures src.r == r && src.Valid() && src.Sound() && src.eob == nInUse + 1
    ensures SymbolsUpTo(src.Coming(), nInUse + 1) && (src.End().Got? ==> |src.End().rest| <= |r.Ahead()|)
  {
  }

  lemma MakeArrives(bs: seq<bool>, x: Sent, max: nat, rest: seq<bool>)
    requires SentOk(x, max) && bs == BodyBits(x, max) + rest
    ensures Arrives(bs, x, max, rest)
  {
  }

  lemma SentSmall(x: Sent, max: nat)
    requires SentOk(x, max)
    ensures x.origPtr < |x.block| && IsPerm(x.f, |x.block|) && |x.inUse| == 256 && 1 <= NInUse(x.inUse) <= 256
  {
    SymbolsEnded(x);
    hide SymbolsOf, Codable;
  }

  lemma DecodedIs(x: Sent, max: nat, unseq: seq<byte>, syms: seq<int>)
    requires SentOk(x, max) && |unseq| == 256 && |x.inUse| == 256 && UsedBelow(x.inUse, 256) <= unseq
    requires 1 <= NInUse(x.inUse) <= 256 && SymbolsUpTo(SymbolsOf(x), NInUse(x.inUse) + 1) && syms == SymbolsOf(x)
    requires IsPerm(x.f, |x.block|) && |LastColumn(x.block, x.f)| == |x.block|
    ensures SymbolsUpTo(syms, NInUse(x.inUse) + 1)
    ensures Decode(unseq, NInUse(x.inUse) + 1, max, InitialList(256), [], -1, 1, syms)
            == Done(LastColumn(x.block, x.f), [])
  {
    hide *;
    SymbolsDecode(x, max, unseq);
  }
}
