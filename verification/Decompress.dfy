/** BZ2_bzDecompress over a whole stream, and the theorem that decompression gives back
    what BZ2_bzCompress consumed. */
module Decompress {
  import opened Counting
  import opened BitStream
  import opened MtfCoding
  import opened Block
  import opened Headers
  import opened Stream
  import opened RunLength
  import opened BwtDecode
  import opened BackEnd
  import Compressor
  import Crc
  import UnRle

  // ----- decompression

  /** The return codes; BZ_OK is told apart by what the call ran out of. Unmodelled is a stop
      at a block that is not followed here. */
  datatype Result = StreamEnd | DataErrorMagic | DataError | NeedInput | NeedRoom | SequenceError | Unmodelled

  /** When the stream was sent: i blocks are done, and the bits ahead are the rest. */
  ghost predicate Behind(bs: seq<bool>, xs: seq<Sent>, max: nat, i: nat, rest: seq<bool>, combined: bv32,
                         out: seq<byte>) {
    && i <= |xs| && BlocksOk(xs, max)
    && bs == BlocksFrom(xs, max, i) + (Trailer(xs) + rest)
    && combined == CombinedOf(xs, i) && out == ExpandAll(xs, i)
  }

  lemma BehindBlock(bs: seq<bool>, xs: seq<Sent>, max: nat, i: nat, rest: seq<bool>, combined: bv32, out: seq<byte>)
    requires Behind(bs, xs, max, i, rest, combined, out) && i < |xs|
    ensures SentOk(xs[i], max) && BlocksOk(xs, max) && Whole(xs[i].block)
    ensures bs == BytesBits(BlockMark())
                  + (BlockHeader(xs[i], max, CrcOf(xs[i])) + (BlocksFrom(xs, max, i + 1) + (Trailer(xs) + rest)))
  {
    hide SentOk, Whole, BlockHeader, Trailer, BytesBits, CombinedOf, ExpandAll, CrcOf;
    ThreeJoin(BytesBits(BlockMark()), BlockHeader(xs[i], max, CrcOf(xs[i])), BlocksFrom(xs, max, i + 1),
      Trailer(xs) + rest);
  }

  lemma ThreeJoin(a: seq<bool>, b: seq<bool>, c: seq<bool>, d: seq<bool>)
    ensures a + b + c + d == a + (b + (c + d))
  {
  }

  lemma BehindEnd(bs: seq<bool>, xs: seq<Sent>, max: nat, rest: seq<bool>, combined: bv32, out: seq<byte>)
    requires Behind(bs, xs, max, |xs|, rest, combined, out)
    ensures bs == BytesBits(EndMark()) + (Bits(WordOf(combined), 32) + rest)
    ensures out == ExpandAll(xs, |xs|)
  {
    hide BytesBits, Bits, CombinedOf, ExpandAll, BlocksOk, WordOf;
    assert [] + (Trailer(xs) + rest) == Trailer(xs) + rest;
    JoinBits(BytesBits(EndMark()), Bits(WordOf(combined), 32), rest);
  }

  datatype Kind = ABlock | TheEnd | Wrong | NoMore

  /** What the first six bytes of some bits are: the marker of a block, that of the trailer,
      neither, or not all there yet. */
  ghost predicate IsKind(bs: seq<bool>, kind: Kind) {
    && (kind == ABlock <==> Begins([0x31, 0x41, 0x59, 0x26, 0x53, 0x59], bs))
    && (kind == TheEnd <==> Begins([0x17, 0x72, 0x45, 0x38, 0x50, 0x90], bs))
    && (kind == Wrong <==>
          Differs([0x31, 0x41, 0x59, 0x26, 0x53, 0x59], bs) && Differs([0x17, 0x72, 0x45, 0x38, 0x50, 0x90], bs))
  }

  lemma KindShort(bs: seq<bool>)
    requires |bs| < 8
    ensures IsKind(bs, NoMore)
  {
    MarkParts(bs);
    hide Begins, Differs;
  }

  lemma MarkParts(bs: seq<bool>)
    ensures Begins([0x31, 0x41, 0x59, 0x26, 0x53, 0x59], bs) <==>
              |bs| >= 8 && bs[..8] == Bits(0x31, 8) && Begins(BlockMark()[1..], bs[8..])
    ensures Differs([0x31, 0x41, 0x59, 0x26, 0x53, 0x59], bs) <==>
              |bs| >= 8 && (bs[..8] != Bits(0x31, 8) || Differs(BlockMark()[1..], bs[8..]))
    ensures Begins([0x17, 0x72, 0x45, 0x38, 0x50, 0x90], bs) <==>
              |bs| >= 8 && bs[..8] == Bits(0x17, 8) && Begins(EndMark()[1..], bs[8..])
    ensures Differs([0x17, 0x72, 0x45, 0x38, 0x50, 0x90], bs) <==>
              |bs| >= 8 && (bs[..8] != Bits(0x17, 8) || Differs(EndMark()[1..], bs[8..]))
  {
    var b: seq<byte>, e: seq<byte> := [0x31, 0x41, 0x59, 0x26, 0x53, 0x59], [0x17, 0x72, 0x45, 0x38, 0x50, 0x90];
    assert b == BlockMark() && e == EndMark();
    hide Begins, Differs, Bits;
    BeginsFirst(b, bs);
    DiffersFirst(b, bs);
    BeginsFirst(e, bs);
    DiffersFirst(e, bs);
  }

  /** A byte is the one expected if and only if its bits are. */
  lemma ByteIs(uc: nat, x: byte, bs: seq<bool>)
    requires |bs| >= 8 && Bits(uc, 8) == bs[..8] && uc < 256
    ensures uc == x <==> bs[..8] == Bits(x, 8)
  {
    if Bits(uc, 8) == Bits(x, 8) { SameByte(uc, x); }
  }

  lemma KindIs(bs: seq<bool>, uc: nat, status: Status, kind: Kind)
    requires |bs| >= 8 && Bits(uc, 8) == bs[..8] && uc < 256
    requires uc == 0x17 ==> (status == Complete <==> Begins(EndMark()[1..], bs[8..]))
                            && (status == Corrupt <==> Differs(EndMark()[1..], bs[8..]))
    requires uc == 0x31 ==> (status == Complete <==> Begins(BlockMark()[1..], bs[8..]))
                            && (status == Corrupt <==> Differs(BlockMark()[1..], bs[8..]))
    requires kind == if uc != 0x17 && uc != 0x31 then Wrong
                     else if status == Complete then if uc == 0x17 then TheEnd else ABlock
                     else if status == Corrupt then Wrong else NoMore
    ensures IsKind(bs, kind)
  {
    hide *;
    MarkParts(bs);
    ByteIs(uc, 0x31, bs);
    ByteIs(uc, 0x17, bs);
    OtherByte(bs);
    MakeKind(bs, kind);
  }

  lemma OtherByte(bs: seq<bool>)
    requires |bs| >= 8
    ensures bs[..8] == Bits(0x31, 8) ==> bs[..8] != Bits(0x17, 8)
  {
    if Bits(0x31, 8) == Bits(0x17, 8) { SameByte(0x31, 0x17); }
  }

  lemma MakeKind(bs: seq<bool>, kind: Kind)
    requires kind == ABlock <==> Begins([0x31, 0x41, 0x59, 0x26, 0x53, 0x59], bs)
    requires kind == TheEnd <==> Begins([0x17, 0x72, 0x45, 0x38, 0x50, 0x90], bs)
    requires kind == Wrong <==>
               Differs([0x31, 0x41, 0x59, 0x26, 0x53, 0x59], bs) && Differs([0x17, 0x72, 0x45, 0x38, 0x50, 0x90], bs)
    ensures IsKind(bs, kind)
  {
    hide Begins, Differs;
  }

  /** Receives the six bytes that begin a block or the trailer; on any bits. */
  method ReceiveKind(r: Reader) returns (kind: Kind)
    requires r.Valid()
    modifies r
    ensures r.Valid() && IsKind(old(r.Ahead()), kind)
    ensures kind == ABlock || kind == TheEnd ==> 48 <= |old(r.Ahead())| && r.Ahead() == old(r.Ahead())[48..]
  {
    hide *;
    ghost var bs := r.Ahead();
    TailSizes(bs);
    var got, uc := r.GetBits(8);
    if !got {
      KindShort(bs);
      return NoMore;
    }
    OneByte(uc, bs);
    var status := Starved;
    if uc == 0x17 {
      status := ReceiveMarker(r, EndMark()[1..]);
      kind := if status == Complete then TheEnd else if status == Corrupt then Wrong else NoMore;
    } else if uc != 0x31 {
      kind := Wrong;
    } else {
      status := ReceiveMarker(r, BlockMark()[1..]);
      kind := if status == Complete then ABlock else if status == Corrupt then Wrong else NoMore;
    }
    KindIs(bs, uc, status, kind);
  }

  lemma TailSizes(bs: seq<bool>)
    ensures |BlockMark()[1..]| == |EndMark()[1..]| == 5
    ensures |bs| >= 48 ==> bs[8..][40..] == bs[48..]
  {
  }

  /** Bits have one kind. */
  lemma OneKind(bs: seq<bool>, kind: Kind)
    requires IsKind(bs, kind)
    ensures Begins(BlockMark(), bs) ==> kind == ABlock
    ensures Begins(EndMark(), bs) ==> kind == TheEnd
  {
    hide Begins, Differs;
  }

  function ResultOf(status: BlockStatus): (result: Result)
    ensures result == NeedRoom <==> status == ReadyBlock
    ensures result == NeedInput <==> status == Waiting
    ensures result == DataError <==> status == Rejected
    ensures result == Unmodelled <==> status == Randomised
  {
    match status
    case Rejected => DataError
    case Waiting => NeedInput
    case Randomised => Unmodelled
    case ReadyBlock => NeedRoom
  }

  /** What any bits come to where a block or the trailer must begin. */
  ghost predicate NextTold(bs: seq<bool>, max: nat, combined: bv32, result: Result, storedCRC: nat, s: seq<byte>,
                           n: nat, rest: seq<bool>) {
    exists kind :: IsKind(bs, kind) && KindTold(bs, kind, max, combined, result, storedCRC, s, n, rest)
  }

  ghost predicate KindTold(bs: seq<bool>, kind: Kind, max: nat, combined: bv32, result: Result, storedCRC: nat,
                           s: seq<byte>, n: nat, rest: seq<bool>) {
    match kind
    case ABlock =>
      |bs| >= 48 && exists status ::
        BlockTold(bs[48..], max, status, storedCRC, s, n, rest) && result == ResultOf(status)
    case TheEnd =>
      && |bs| >= 48
      && result == if |bs| < 80 then NeedInput
                   else if bs[48..80] == Bits(WordOf(combined), 32) then StreamEnd else DataError
    case Wrong => result == DataError
    case NoMore => result == NeedInput
  }

  lemma BlockNext(bs: seq<bool>, max: nat, combined: bv32, status: BlockStatus, storedCRC: nat, s: seq<byte>, n: nat,
                  rest: seq<bool>)
    requires |bs| >= 48 && IsKind(bs, ABlock) && BlockTold(bs[48..], max, status, storedCRC, s, n, rest)
    ensures NextTold(bs, max, combined, ResultOf(status), storedCRC, s, n, rest)
  {
    hide IsKind, BlockTold, ResultOf;
    assert KindTold(bs, ABlock, max, combined, ResultOf(status), storedCRC, s, n, rest);
  }

  lemma TrailerNext(bs: seq<bool>, max: nat, combined: bv32, result: Result, storedCRC: nat, s: seq<byte>, n: nat,
                    rest: seq<bool>)
    requires |bs| >= 48 && IsKind(bs, TheEnd)
    requires |bs[48..]| < 32 ==> result == NeedInput
    requires |bs[48..]| >= 32 ==>
               result == if bs[48..][..32] == Bits(WordOf(combined), 32) then StreamEnd else DataError
    ensures NextTold(bs, max, combined, result, storedCRC, s, n, rest)
  {
    hide IsKind, WordOf, Bits;
    if |bs| >= 80 { assert bs[48..][..32] == bs[48..80]; }
    assert KindTold(bs, TheEnd, max, combined, result, storedCRC, s, n, rest);
  }

  lemma OtherNext(bs: seq<bool>, max: nat, combined: bv32, kind: Kind, storedCRC: nat, s: seq<byte>, n: nat,
                  rest: seq<bool>)
    requires IsKind(bs, kind) && (kind == Wrong || kind == NoMore)
    ensures NextTold(bs, max, combined, if kind == NoMore then NeedInput else DataError, storedCRC, s, n, rest)
  {
    hide IsKind;
    assert KindTold(bs, kind, max, combined, if kind == NoMore then NeedInput else DataError, storedCRC, s, n, rest);
  }

  /** The next block of a stream that was sent. */
  lemma BlockComes(bs: seq<bool>, xs: seq<Sent>, max: nat, i: nat, rest: seq<bool>, combined: bv32, out: seq<byte>)
    requires Behind(bs, xs, max, i, rest, combined, out) && i < |xs|
    ensures SentOk(xs[i], max) && Begins(BlockMark(), bs) && 48 <= |bs|
    ensures bs[48..] == BlockHeader(xs[i], max, CrcOf(xs[i])) + (BlocksFrom(xs, max, i + 1) + (Trailer(xs) + rest))
  {
    hide *;
    BehindBlock(bs, xs, max, i, rest, combined, out);
    MarkerComes(BlockMark(),
      BlockHeader(xs[i], max, CrcOf(xs[i])) + (BlocksFrom(xs, max, i + 1) + (Trailer(xs) + rest)));
  }

  lemma EndComes(bs: seq<bool>, xs: seq<Sent>, max: nat, rest: seq<bool>, combined: bv32, out: seq<byte>)
    requires Behind(bs, xs, max, |xs|, rest, combined, out)
    ensures Begins(EndMark(), bs) && 48 <= |bs| && bs[48..] == Bits(WordOf(combined), 32) + rest
    ensures out == ExpandAll(xs, |xs|)
  {
    hide *;
    BehindEnd(bs, xs, max, rest, combined, out);
    MarkerComes(EndMark(), Bits(WordOf(combined), 32) + rest);
  }

  lemma GoalIs(s: seq<byte>, n: nat)
    requires n < |s|
    ensures Whole(s[..n]) ==> UnRle.Goal(s, n) == Expand(s[..n])
  {
  }

  lemma CheckIs(msg: seq<byte>)
    ensures Crc.Final(Crc.UpdateAll(Crc.INITIAL, msg)) == Crc.Check(msg)
  {
  }

  lemma BehindSize(bs: seq<bool>, xs: seq<Sent>, max: nat, i: nat, rest: seq<bool>, combined: bv32, out: seq<byte>)
    requires Behind(bs, xs, max, i, rest, combined, out)
    ensures i <= |xs| && BlocksOk(xs, max) && out == ExpandAll(xs, i)
  {
  }

  lemma ExpandAllMore(xs: seq<Sent>, i: nat)
    requires i < |xs|
    ensures ExpandAll(xs, i + 1) == ExpandAll(xs, i) + Expand(xs[i].block)
  {
    hide Expand;
  }

  lemma CrcIs(x: Sent)
    ensures CrcOf(x) == WordOf(Crc.Check(Expand(x.block)))
  {
    hide WordOf, Crc.Check, Expand;
  }

  /** The stored combined check must be the one computed, on any bits. */
  method ReceiveTrailer(r: Reader, combined: bv32, ghost rest: seq<bool>, ghost sent: bool) returns (result: Result)
    requires r.Valid() && (sent ==> r.Ahead() == Bits(WordOf(combined), 32) + rest)
    modifies r
    ensures r.Valid() && (sent ==> result == StreamEnd && r.Ahead() == rest)
    ensures |old(r.Ahead())| < 32 ==> result == NeedInput
    ensures |old(r.Ahead())| >= 32 ==>
              result == (if old(r.Ahead())[..32] == Bits(WordOf(combined), 32) then StreamEnd else DataError)
  {
    hide *;
    Power32();
    if sent { NumberArrives(WordOf(combined), 32, rest); }
    ghost var bs := r.Ahead();
    if |bs| >= 32 {
      ValueOfBits(WordOf(combined), 32);
      BitsOfValue(bs[..32]);
    }
    var ok, storedCombinedCRC := ReceiveNumber(r, 4);
    if !ok { return NeedInput; }
    if WordOf(combined) != storedCombinedCRC { return DataError; }
    result := StreamEnd;
  }

  /** What is left to come while block i of a stream that was sent is being output. */
  ghost predicate Within(bs: seq<bool>, xs: seq<Sent>, max: nat, i: nat, rest: seq<bool>, combined: bv32,
                         done: seq<byte>) {
    && i < |xs| && BlocksOk(xs, max)
    && bs == BlocksFrom(xs, max, i + 1) + (Trailer(xs) + rest)
    && combined == CombinedOf(xs, i) && done == ExpandAll(xs, i)
  }

  lemma WithinIs(bs: seq<bool>, xs: seq<Sent>, max: nat, i: nat, rest: seq<bool>, combined: bv32, done: seq<byte>)
    requires Within(bs, xs, max, i, rest, combined, done)
    ensures i < |xs| && BlocksOk(xs, max) && done == ExpandAll(xs, i)
  {
    hide CombinedOf, BlocksFrom, Trailer, BlocksOk, ExpandAll;
  }

  lemma WithinFacts(bs: seq<bool>, xs: seq<Sent>, max: nat, i: nat, rest: seq<bool>, combined: bv32, done: seq<byte>)
    requires Within(bs, xs, max, i, rest, combined, done)
    ensures i < |xs| && BlocksOk(xs, max) && done == ExpandAll(xs, i)
    ensures ExpandAll(xs, i + 1) == done + Expand(xs[i].block)
    ensures CrcOf(xs[i]) == WordOf(Crc.Check(Expand(xs[i].block)))
    ensures |ExpandAll(xs, i + 1)| <= |ExpandAll(xs, |xs|)|
    ensures ExpandAll(xs, i + 1) == ExpandAll(xs, |xs|)[..|ExpandAll(xs, i + 1)|]
  {
    hide *;
    WithinIs(bs, xs, max, i, rest, combined, done);
    CrcIs(xs[i]);
    ExpandAllMore(xs, i);
    ExpandPart(xs, i + 1, |xs|);
  }

  lemma BehindWithin(bs: seq<bool>, xs: seq<Sent>, max: nat, i: nat, rest: seq<bool>, combined: bv32, done: seq<byte>,
                     bs': seq<bool>)
    requires Behind(bs, xs, max, i, rest, combined, done) && i < |xs|
    requires bs' == BlocksFrom(xs, max, i + 1) + (Trailer(xs) + rest)
    ensures Within(bs', xs, max, i, rest, combined, done)
  {
    hide BlocksOk, Trailer, Expand, BlocksFrom;
  }

  lemma WithinNext(bs: seq<bool>, xs: seq<Sent>, max: nat, i: nat, rest: seq<bool>, combined: bv32, done: seq<byte>)
    requires Within(bs, xs, max, i, rest, combined, done)
    ensures Behind(bs, xs, max, i + 1, rest, Crc.Mix(combined, Crc.Check(Expand(xs[i].block))),
                   done + Expand(xs[i].block))
  {
    hide BlocksOk, Trailer, Expand, Crc.Check, Crc.Mix, BlocksFrom;
  }

  /** What the first blocks stand for begins what all blocks stand for. */
  lemma {:induction false} ExpandPart(xs: seq<Sent>, i: nat, j: nat)
    requires i <= j <= |xs|
    ensures |ExpandAll(xs, i)| <= |ExpandAll(xs, j)| && ExpandAll(xs, i) == ExpandAll(xs, j)[..|ExpandAll(xs, i)|]
    decreases j
  {
    hide Expand;
    if i < j { ExpandPart(xs, i, j - 1); }
  }

  /** Part of one block's output after that of the blocks before. */
  lemma PartOfAll(all: seq<byte>, done: seq<byte>, e: seq<byte>, d: seq<byte>)
    requires |done + e| <= |all| && done + e == all[..|done + e|] && |d| <= |e| && d == e[..|d|]
    ensures |done + d| <= |all| && done + d == all[..|done + d|] && (|d| < |e| ==> |done + d| < |all|)
  {
    assert (done + e)[..|done + d|] == done + d;
    assert all[..|done + e|][..|done + d|] == all[..|done + d|];
  }

  /** The output state delivers block x, some of it already. */
  ghost predicate OutputOf(o: UnRle.BlockOutput, s: seq<byte>, x: Sent)
    reads o
  {
    && |s| == |x.block| + 2 && s[..|x.block|] == x.block && o.saveNblock == |x.block| && Whole(x.block)
    && |o.delivered| < |Expand(x.block)| && o.delivered == Expand(x.block)[..|o.delivered|]
  }

  // ----- what any bits come to as a whole

  /** From the beginning of a block or the trailer on, with room for everything, the bits come
      to these bytes and this result. */
  ghost predicate Gives(bs: seq<bool>, max: nat, combined: bv32, out: seq<byte>, result: Result)
    decreases |bs|, 0
  {
    exists next, crc, s, n: nat, rest :: NextTold(bs, max, combined, next, crc, s, n, rest) &&
      if next != NeedRoom then out == [] && result == next
      else |rest| < |bs| && BlockGives(rest, max, combined, crc, s, n, out, result)
  }

  /** The same from the end of a block on that reads s: it must lack no count, and its check must
      be the one stored. */
  ghost predicate BlockGives(bs: seq<bool>, max: nat, combined: bv32, crc: nat, s: seq<byte>, n: nat, out: seq<byte>,
                             result: Result)
    decreases |bs|, 1
  {
    n < |s| &&
    var e := Expand(s[..n]);
    if !Whole(s[..n]) then out <= UnRle.Goal(s, n) && result == DataError
    else if WordOf(Crc.Check(e)) != crc then out <= e && result == DataError
    else e <= out && Gives(bs, max, Crc.Mix(combined, Crc.Check(e)), out[|e|..], result)
  }

  /** What the bits ahead come to, behind the bytes done, is what the bits of the stream do. */
  ghost predicate Leads(start: seq<bool>, bs: seq<bool>, max: nat, combined: bv32, done: seq<byte>) {
    forall more, result :: Gives(bs, max, combined, more, result) ==> Gives(start, max, 0, done + more, result)
  }

  ghost predicate LeadsIn(start: seq<bool>, bs: seq<bool>, max: nat, combined: bv32, crc: nat, s: seq<byte>, n: nat,
                          done: seq<byte>) {
    forall more, result ::
      BlockGives(bs, max, combined, crc, s, n, more, result) ==> Gives(start, max, 0, done + more, result)
  }

  lemma LeadsStarts(start: seq<bool>, max: nat)
    ensures Leads(start, start, max, 0, [])
  {
    hide Gives;
    forall more: seq<byte> ensures [] + more == more {}
  }

  lemma LeadsBlock(start: seq<bool>, bs: seq<bool>, max: nat, combined: bv32, done: seq<byte>, crc: nat, s: seq<byte>,
                   n: nat, rest: seq<bool>)
    requires Leads(start, bs, max, combined, done)
    requires NextTold(bs, max, combined, NeedRoom, crc, s, n, rest) && |rest| < |bs|
    ensures LeadsIn(start, rest, max, combined, crc, s, n, done)
  {
    hide NextTold, BlockGives;
    forall more, result | BlockGives(rest, max, combined, crc, s, n, more, result)
      ensures Gives(start, max, 0, done + more, result)
    {
      assert Gives(bs, max, combined, more, result);
    }
  }

  lemma LeadsEnd(start: seq<bool>, bs: seq<bool>, max: nat, combined: bv32, done: seq<byte>, result: Result, crc: nat,
                 s: seq<byte>, n: nat, rest: seq<bool>)
    requires Leads(start, bs, max, combined, done) && result != NeedRoom
    requires NextTold(bs, max, combined, result, crc, s, n, rest)
    ensures Gives(start, max, 0, done, result)
  {
    hide NextTold, BlockGives;
    assert Gives(bs, max, combined, [], result);
    assert done + [] == done;
  }

  lemma LeadsOn(start: seq<bool>, bs: seq<bool>, max: nat, combined: bv32, crc: nat, s: seq<byte>, n: nat,
                done: seq<byte>)
    requires LeadsIn(start, bs, max, combined, crc, s, n, done)
    requires n < |s| && Whole(s[..n]) && WordOf(Crc.Check(Expand(s[..n]))) == crc
    ensures Leads(start, bs, max, Crc.Mix(combined, Crc.Check(Expand(s[..n]))), done + Expand(s[..n]))
  {
    hide Gives, Expand, Whole, WordOf, Crc.Check, Crc.Mix;
    var e := Expand(s[..n]);
    forall more, result | Gives(bs, max, Crc.Mix(combined, Crc.Check(e)), more, result)
      ensures Gives(start, max, 0, done + e + more, result)
    {
      assert (e + more)[|e|..] == more;
      assert BlockGives(bs, max, combined, crc, s, n, e + more, result);
      assert done + (e + more) == done + e + more;
    }
  }

  lemma LeadsBad(start: seq<bool>, bs: seq<bool>, max: nat, combined: bv32, crc: nat, s: seq<byte>, n: nat,
                 done: seq<byte>, d: seq<byte>)
    requires LeadsIn(start, bs, max, combined, crc, s, n, done) && n < |s|
    requires (!Whole(s[..n]) && d <= UnRle.Goal(s, n))
             || (Whole(s[..n]) && WordOf(Crc.Check(Expand(s[..n]))) != crc && d <= Expand(s[..n]))
    ensures Gives(start, max, 0, done + d, DataError)
  {
    hide Gives, Expand, Whole, WordOf, Crc.Check, Crc.Mix, UnRle.Goal;
    assert BlockGives(bs, max, combined, crc, s, n, d, DataError);
  }

  /** The decompressor between two calls. starved says that no call brings the input that is
      missing; then there is nothing more to come. With sent, its input is the stream of the blocks xs,
      followed by the bits rest. */
  class Decompressor {
    const r: Reader
    const small: bool
    const max: nat
    const tt: array<int>
    const ll4: array<int>
    var o: UnRle.BlockOutput?
    var storedCRC: nat
    var cftab: seq<int>
    var combined: bv32
    var idle: bool
    var starved: bool
    var done: seq<byte>
    ghost const sent: bool
    ghost const xs: seq<Sent>
    ghost const rest: seq<bool>
    ghost const start: seq<bool>
    ghost var i: nat
    ghost var s: seq<byte>
    ghost var pos: seq<int>

    /** The tables, and the block that is being output. */
    ghost predicate TablesOk()
      reads this, r, tt, ll4, if o == null then {} else {o}
    {
      && r.Valid() && tt.Length == max <= 900000 && tt != ll4 && max <= 2 * ll4.Length && NibbleCells(ll4[..])
      && (o != null ==> Delivers(o, small, tt[..], ll4[..], cftab, s, pos) && o.limit == max && !o.Finished())
    }

    /** Where a stream that was sent is. */
    ghost predicate InStream()
      reads this, r, if o == null then {} else {o}
    {
      r.Valid() && !starved &&
      if idle then o == null && done == ExpandAll(xs, |xs|) && r.Ahead() == rest
      else if o == null then Behind(r.Ahead(), xs, max, i, rest, combined, done)
      else Within(r.Ahead(), xs, max, i, rest, combined, done) && storedCRC == CrcOf(xs[i]) && OutputOf(o, s, xs[i])
    }

    /** What the bits of the stream come to, whatever they are, is what is done and what the rest
        comes to. */
    ghost predicate Traced()
      reads this, r, if o == null then {} else {o}
    {
      r.Valid() &&
      if idle then true
      else if starved then o == null && Gives(start, max, 0, done, NeedInput)
      else if o == null then Leads(start, r.Ahead(), max, combined, done)
      else LeadsIn(start, r.Ahead(), max, combined, storedCRC, s, o.saveNblock, done)
    }

    ghost predicate Valid()
      reads this, r, tt, ll4, if o == null then {} else {o}
    {
      TablesOk() && Traced() && (sent ==> InStream())
    }

    lemma TracedFacts()
      requires r.Valid() && Traced() && !idle
      ensures starved ==> o == null && Gives(start, max, 0, done, NeedInput)
      ensures !starved && o == null ==> Leads(start, r.Ahead(), max, combined, done)
      ensures !starved && o != null ==> LeadsIn(start, r.Ahead(), max, combined, storedCRC, s, o.saveNblock, done)
    {
    }

    lemma MakeTraced()
      requires r.Valid()
      requires idle || if starved then o == null && Gives(start, max, 0, done, NeedInput)
                       else if o == null then Leads(start, r.Ahead(), max, combined, done)
                       else LeadsIn(start, r.Ahead(), max, combined, storedCRC, s, o.saveNblock, done)
      ensures Traced()
    {
    }

    /** All bytes delivered so far. */
    function Delivered(): seq<byte>
      reads this, if o == null then {} else {o}
    {
      if o == null then done else done + o.delivered
    }

    constructor (r: Reader, small: bool, max: nat, ghost xs: seq<Sent>, ghost rest: seq<bool>, ghost sent: bool)
      requires r.Valid() && max <= 900000 && (sent ==> Behind(r.Ahead(), xs, max, 0, rest, 0, []))
      ensures Valid() && Delivered() == [] && !idle && this.r == r && this.xs == xs && this.sent == sent
      ensures this.rest == rest && fresh(tt) && fresh(ll4) && o == null && !starved && this.small == small
      ensures this.max == max && combined == 0 && start == r.Ahead() && ll4.Length == (1 + max) / 2
    {
      this.r, this.small, this.max, this.xs, this.rest, this.sent := r, small, max, xs, rest, sent;
      start := r.Ahead();
      tt := new int[max];
      ll4 := new int[(1 + max) / 2](_ => 0);
      o, storedCRC, cftab, combined, idle, starved, done, i, s, pos := null, 0, [], 0, false, false, [], 0, [], [];
      new;
      hide *;
      NibbleCellsAt(ll4[..]);
      LeadsStarts(start, max);
      MakeTables();
      MakeTraced();
      if sent { MakeStream(); }
      MakeValid();
      DeliveredIs();
    }

    lemma TablesFacts()
      requires TablesOk()
      ensures r.Valid() && tt.Length == max <= 900000 && tt != ll4 && max <= 2 * ll4.Length && NibbleCells(ll4[..])
      ensures o != null ==> Delivers(o, small, tt[..], ll4[..], cftab, s, pos) && o.limit == max && !o.Finished()
    {
    }

    lemma MakeTables()
      requires r.Valid() && tt.Length == max <= 900000 && tt != ll4 && max <= 2 * ll4.Length && NibbleCells(ll4[..])
      requires o != null ==> Delivers(o, small, tt[..], ll4[..], cftab, s, pos) && o.limit == max && !o.Finished()
      ensures TablesOk()
    {
    }

    lemma StreamFacts()
      requires r.Valid() && InStream()
      ensures !starved
      ensures idle ==> o == null && done == ExpandAll(xs, |xs|) && r.Ahead() == rest
      ensures !idle && o == null ==> Behind(r.Ahead(), xs, max, i, rest, combined, done)
      ensures !idle && o != null ==> Within(r.Ahead(), xs, max, i, rest, combined, done) && i < |xs|
                                     && storedCRC == CrcOf(xs[i]) && OutputOf(o, s, xs[i])
    {
      hide ExpandAll, Behind, OutputOf, CrcOf, BlocksFrom, Trailer, BlocksOk, CombinedOf;
    }

    lemma MakeStream()
      requires r.Valid() && !starved
      requires if idle then o == null && done == ExpandAll(xs, |xs|) && r.Ahead() == rest
               else if o == null then Behind(r.Ahead(), xs, max, i, rest, combined, done)
               else Within(r.Ahead(), xs, max, i, rest, combined, done) && i < |xs| && storedCRC == CrcOf(xs[i])
                    && OutputOf(o, s, xs[i])
      ensures InStream()
    {
      hide ExpandAll, Behind, Within, OutputOf, CrcOf;
    }

    /** BZ2_decompress from the end of a block: the next one, or the trailer. On any bits the
        result is what they come to. */
    method NextBlock(room: nat) returns (result: Result)
      requires TablesOk() && Traced() && (sent ==> InStream()) && !idle && !starved && o == null
      modifies this`o, this`storedCRC, this`cftab, this`idle, this`starved, this`s, this`pos, r, tt, ll4
      ensures TablesOk() && done == old(done) && (o != null ==> fresh(o) && o.delivered == [] && o.availOut == room)
      ensures o != null ==> |r.Ahead()| < old(|r.Ahead()|) && !idle && !starved && result == NeedRoom
      ensures o == null ==> result != NeedRoom && result != SequenceError && (starved <==> result == NeedInput)
      ensures result != DataErrorMagic
      ensures result == StreamEnd ==> idle
      ensures NextTold(old(r.Ahead()), max, combined, result, storedCRC, s, if o == null then 0 else o.saveNblock,
                       r.Ahead())
      ensures o == null ==> Gives(start, max, 0, done, result)
      ensures result != DataError && result != Unmodelled ==> Traced()
      ensures sent ==> InStream() && (o == null ==> result == StreamEnd && idle)
    {
      hide *;
      TablesFacts();
      TracedFacts();
      if sent { StreamFacts(); }
      ghost var isBlock, isEnd := sent && i < |xs|, sent && i == |xs|;
      if sent { BehindSize(r.Ahead(), xs, max, i, rest, combined, done); }
      ghost var x, crc, after := AnySent(), 0, [];
      ghost var bs := r.Ahead();
      if isBlock {
        x, crc, after := xs[i], CrcOf(xs[i]), BlocksFrom(xs, max, i + 1) + (Trailer(xs) + rest);
        BlockComes(bs, xs, max, i, rest, combined, done);
      }
      if isEnd { EndComes(bs, xs, max, rest, combined, done); }
      var kind := ReceiveKind(r);
      OneKind(bs, kind);
      if kind == ABlock {
        ghost var status;
        result, status := BlockArrives(room, x, crc, after, isBlock, bs);
        if sent { SentArrives(bs); }
        BlockNext(bs, max, combined, status, storedCRC, s, if o == null then 0 else o.saveNblock, r.Ahead());
      } else if kind == TheEnd {
        result := ReceiveTrailer(r, combined, rest, isEnd);
        idle, starved := result != NeedInput, result == NeedInput;
        TrailerNext(bs, max, combined, result, storedCRC, s, 0, r.Ahead());
        MakeTables();
        if sent { MakeStream(); }
      } else {
        result := if kind == NoMore then NeedInput else DataError;
        starved := kind == NoMore;
        OtherNext(bs, max, combined, kind, storedCRC, s, 0, r.Ahead());
        MakeTables();
      }
      Followed(bs, result);
    }

    lemma Followed(bs: seq<bool>, result: Result)
      requires r.Valid() && Leads(start, bs, max, combined, done)
      requires NextTold(bs, max, combined, result, storedCRC, s, if o == null then 0 else o.saveNblock, r.Ahead())
      requires (o != null <==> result == NeedRoom) && (starved <==> result == NeedInput)
      requires o != null ==> |r.Ahead()| < |bs| && !idle && !starved
      requires result == StreamEnd ==> idle
      ensures o == null ==> Gives(start, max, 0, done, result)
      ensures result != DataError && result != Unmodelled && result != SequenceError && result != DataErrorMagic ==>
                Traced()
    {
      hide *;
      if o == null {
        LeadsEnd(start, bs, max, combined, done, result, storedCRC, s, 0, r.Ahead());
        if idle || starved { MakeTraced(); }
      } else {
        LeadsBlock(start, bs, max, combined, done, storedCRC, s, o.saveNblock, r.Ahead());
        MakeTraced();
      }
    }

    /** A block, up to the point where its output can begin. */
    method BlockArrives(room: nat, ghost x: Sent, ghost crc: nat, ghost after: seq<bool>, ghost isBlock: bool,
                        ghost bs: seq<bool>) returns (result: Result, ghost status: BlockStatus)
      requires r.Valid() && tt.Length == max <= 900000 && tt != ll4 && max <= 2 * ll4.Length && NibbleCells(ll4[..])
      requires !idle && !starved && o == null && crc < 0x1_0000_0000 && |r.Ahead()| < |bs|
      requires isBlock ==> SentOk(x, max) && r.Ahead() == BlockHeader(x, max, crc) + after
      modifies this`o, this`storedCRC, this`cftab, this`starved, this`s, this`pos, r, tt, ll4
      ensures r.Valid() && TablesOk()
      ensures o != null ==> fresh(o) && o.delivered == [] && o.availOut == room && result == NeedRoom
      ensures o == null ==> result == DataError || result == NeedInput || result == Unmodelled
      ensures starved <==> result == NeedInput
      ensures o != null ==> |r.Ahead()| < |bs|
      ensures result == ResultOf(status)
      ensures BlockTold(old(r.Ahead()), max, status, storedCRC, s, if o == null then 0 else o.saveNblock, r.Ahead())
      ensures isBlock ==> o != null && storedCRC == crc && r.Ahead() == after && o.saveNblock == |x.block|
                          && |s| == |x.block| + 2 && s[..|x.block|] == x.block
    {
      hide *;
      var became, crc', o', cftab', s', pos' := ReceiveBlock(r, small, tt, ll4, max, room, x, crc, after, isBlock);
      status := became;
      storedCRC, o, cftab, s, pos := crc', o', cftab', s', pos';
      result := ResultOf(became);
      starved := became == Waiting;
      MakeTables();
    }

    /** A block that was sent has arrived. */
    lemma SentArrives(bs: seq<bool>)
      requires r.Valid() && !idle && !starved && o != null && o.delivered == []
      requires Behind(bs, xs, max, i, rest, combined, done) && i < |xs| && storedCRC == CrcOf(xs[i])
      requires r.Ahead() == BlocksFrom(xs, max, i + 1) + (Trailer(xs) + rest)
      requires o.saveNblock == |xs[i].block| && |s| == |xs[i].block| + 2 && s[..|xs[i].block|] == xs[i].block
      requires BlocksOk(xs, max)
      ensures InStream()
    {
      hide *;
      BehindWithin(bs, xs, max, i, rest, combined, done, r.Ahead());
      WholeSent(bs, xs, max, i, rest, combined, done);
      NothingOut(o, s, xs[i]);
      MakeStream();
    }

    /** The output part of BZ2_bzDecompress: as much of the block as there is room for, and if
        it is complete, the comparison of its check. For any block read, s, the outcome is that
        of its bytes. */
    method Output(room: nat) returns (result: Result, left: nat)
      requires TablesOk() && Traced() && (sent ==> InStream()) && !idle && !starved && o != null
      modifies this`o, this`combined, this`done, this`i, o
      ensures r.Ahead() == old(r.Ahead()) && (o == null || o == old(o))
      ensures result == StreamEnd || result == DataError || result == NeedRoom
      ensures result == StreamEnd <==> o == null
      ensures result != DataError ==> TablesOk() && Traced() && |Delivered()| + left == |old(Delivered())| + room
      ensures sent ==> InStream() && result != DataError
      ensures result == NeedRoom ==> left == 0
      ensures old(Delivered()) <= Delivered() && |Delivered()| <= |old(Delivered())| + room
      ensures result == StreamEnd ==> |old(done)| <= |done| && WordOf(Crc.Check(done[|old(done)|..])) == storedCRC
      ensures result == DataError ==> Gives(start, max, 0, Delivered(), DataError)
    {
      hide *;
      DeliveredIs();
      TablesFacts();
      TracedFacts();
      if sent {
        StreamFacts();
        OutputFacts(o, s, xs[i]);
      }
      var corrupt := DeliverSome(o, small, tt[..], ll4[..], cftab, room, s, pos);
      result, left := DataError, 0;
      DeliveredIs();
      ghost var out := o.delivered;
      assert (done + out)[|done|..] == out;
      if corrupt {
        LeadsBad(start, r.Ahead(), max, combined, storedCRC, s, o.saveNblock, done, out);
        return;
      }
      DeliversFits(o, small, tt[..], ll4[..], cftab, s, pos);
      DeliveredIs();
      if !o.Finished() {
        result := NeedRoom;
        MakeTables();
        MakeTraced();
        if sent {
          MakeOutput(o, s, xs[i]);
          MakeStream();
        }
        return;
      }
      var crc := Crc.Final(o.calculatedBlockCRC);
      CheckIs(o.delivered);
      if sent { WithinFacts(r.Ahead(), xs, max, i, rest, combined, done); }
      if WordOf(crc) != storedCRC {
        LeadsBad(start, r.Ahead(), max, combined, storedCRC, s, o.saveNblock, done, out);
        return;
      }
      if sent { WithinNext(r.Ahead(), xs, max, i, rest, combined, done); }
      LeadsOn(start, r.Ahead(), max, combined, storedCRC, s, o.saveNblock, done);
      result, left := StreamEnd, o.availOut;
      combined := Crc.Mix(combined, crc);
      done := done + o.delivered;
      o, i := null, i + 1;
      DeliveredIs();
      MakeTables();
      MakeTraced();
      if sent { MakeStream(); }
    }

    lemma DeliveredIs()
      ensures Delivered() == if o == null then done else done + o.delivered
    {
    }

    /** What has been delivered begins what the blocks stand for. */
    lemma DeliveredPart()
      requires r.Valid() && InStream()
      ensures var all := ExpandAll(xs, |xs|);
              && |Delivered()| <= |all| && Delivered() == all[..|Delivered()|]
              && (idle ==> Delivered() == all) && (o != null ==> |Delivered()| < |all|)
    {
      hide *;
      DeliveredIs();
      StreamFacts();
      var all := ExpandAll(xs, |xs|);
      if idle {
        assert all[..|all|] == all;
      } else if o == null {
        BehindSize(r.Ahead(), xs, max, i, rest, combined, done);
        ExpandPart(xs, i, |xs|);
      } else {
        WithinFacts(r.Ahead(), xs, max, i, rest, combined, done);
        OutputFacts(o, s, xs[i]);
        PartOfAll(all, done, Expand(xs[i].block), o.delivered);
      }
    }

    /** BZ2_bzDecompress, with room for that many bytes. Of a stream that was sent it delivers
        the next bytes, all that fit, and returns BZ_OK until everything is out. */
    method BzDecompress(room: nat) returns (result: Result)
      requires Valid()
      modifies this`o, this`storedCRC, this`cftab, this`combined, this`idle, this`starved, this`done, this`i, this`s,
               this`pos, r, tt, ll4, o
      ensures o == null || o == old(o) || fresh(o)
      ensures old(Delivered()) <= Delivered() && |Delivered()| <= |old(Delivered())| + room
      ensures result == NeedRoom || result == NeedInput || result == StreamEnd || result == SequenceError ==> Valid()
      ensures result == NeedRoom ==> |Delivered()| == |old(Delivered())| + room
      ensures (result == SequenceError <==> old(idle)) && (result == StreamEnd ==> idle)
      ensures old(starved) && !old(idle) ==> result == NeedInput && Delivered() == old(Delivered())
      ensures result != NeedRoom && !old(idle) ==> Gives(start, max, 0, Delivered(), result)
      ensures sent ==> Valid() && |Delivered()| <= |ExpandAll(xs, |xs|)|
      ensures sent ==> Delivered() == ExpandAll(xs, |xs|)[..|Delivered()|]
      ensures sent && old(idle) ==> result == SequenceError && idle && Delivered() == old(Delivered())
      ensures sent && !old(idle) && result == NeedRoom ==>
                !idle && |Delivered()| == |old(Delivered())| + room && |Delivered()| < |ExpandAll(xs, |xs|)|
      ensures sent && !old(idle) && result != NeedRoom ==>
                result == StreamEnd && idle && Delivered() == ExpandAll(xs, |xs|) && r.Ahead() == rest
                && |Delivered()| <= |old(Delivered())| + room
    {
      hide *;
      ValidIs();
      var left := room;
      while true
        invariant o == null || o == old(o) || fresh(o)
        invariant r.Valid() && TablesOk() && Traced() && (sent ==> InStream())
        invariant old(idle) || old(starved) ==> Delivered() == old(Delivered()) && starved == old(starved)
        invariant starved ==> old(starved)
        invariant old(Delivered()) <= Delivered() && |Delivered()| + left == |old(Delivered())| + room
        invariant idle == old(idle)
        decreases |r.Ahead()|, if o == null then 0 else 1
      {
        if idle {
          if sent { Closed(); }
          if !sent { MakeValid(); }
          return SequenceError;
        }
        if starved {
          if sent { StreamFacts(); }
          TracedFacts();
          DeliveredIs();
          MakeValid();
          return NeedInput;
        }
        if o != null {
          result, left := Output(left);
          if result == DataError { return; }
          if result == NeedRoom {
            if sent { Closed(); } else { MakeValid(); }
            return;
          }
        }
        DeliveredIs();
        TablesAre();
        result := NextBlock(left);
        TablesAre();
        DeliveredIs();
        if o == null {
          if sent { Closed(); } else if result != DataError && result != Unmodelled { MakeValid(); }
          return;
        }
      }
    }

    lemma ValidIs()
      requires Valid()
      ensures r.Valid() && TablesOk() && Traced() && (sent ==> InStream())
    {
    }

    lemma MakeValid()
      requires TablesOk() && Traced() && (sent ==> InStream())
      ensures Valid()
    {
    }

    lemma TablesAre()
      requires TablesOk()
      ensures r.Valid()
    {
    }

    lemma Closed()
      requires TablesOk() && Traced() && InStream()
      ensures Valid() && r.Valid() && |Delivered()| <= |ExpandAll(xs, |xs|)|
      ensures Delivered() == ExpandAll(xs, |xs|)[..|Delivered()|]
      ensures idle ==> Delivered() == ExpandAll(xs, |xs|) && r.Ahead() == rest
      ensures o != null ==> |Delivered()| < |ExpandAll(xs, |xs|)|
    {
      hide ExpandAll, Delivers, NibbleCells, Behind, Within;
      DeliveredPart();
    }
  }

  lemma OutputFacts(o: UnRle.BlockOutput, s: seq<byte>, x: Sent)
    requires OutputOf(o, s, x)
    ensures |s| == |x.block| + 2 && s[..|x.block|] == x.block && o.saveNblock == |x.block| && Whole(x.block)
    ensures |o.delivered| < |Expand(x.block)| && o.delivered == Expand(x.block)[..|o.delivered|]
  {
    hide Expand, Whole;
  }

  lemma MakeOutput(o: UnRle.BlockOutput, s: seq<byte>, x: Sent)
    requires |s| == |x.block| + 2 && s[..|x.block|] == x.block && o.saveNblock == |x.block| && Whole(x.block)
    requires |o.delivered| <= |Expand(x.block)| && o.delivered == Expand(x.block)[..|o.delivered|]
    requires o.delivered != Expand(x.block)
    ensures OutputOf(o, s, x)
  {
    hide Expand, Whole;
    assert Expand(x.block)[..|Expand(x.block)|] == Expand(x.block);
  }

  lemma DeliversFits(o: UnRle.BlockOutput, small: bool, tt: seq<int>, ll4: seq<int>, cftab: seq<int>, s: seq<byte>,
                     pos: seq<int>)
    requires Delivers(o, small, tt, ll4, cftab, s, pos)
    ensures o.Fits(s, pos) && o.saveNblock < |s| && o.calculatedBlockCRC == Crc.UpdateAll(Crc.INITIAL, o.delivered)
    ensures if small then o.SmallTables(tt, ll4, cftab, s, pos) else FastReads(tt, s, pos) && |tt| <= o.limit
  {
    o.FitsFacts(s, pos);
  }

  /** The run expansion in the layout at hand. */
  method DeliverSome(o: UnRle.BlockOutput, small: bool, tt: seq<int>, ll4: seq<int>, cftab: seq<int>, room: nat,
                     ghost s: seq<byte>, ghost pos: seq<int>)
    returns (corrupt: bool)
    requires Delivers(o, small, tt, ll4, cftab, s, pos)
    modifies o
    ensures o.saveNblock < |s|
    ensures corrupt ==> !Whole(s[..o.saveNblock])
    ensures o.delivered <= UnRle.Goal(s, o.saveNblock)
    ensures !corrupt && o.Finished() ==> Whole(s[..o.saveNblock]) && o.delivered == Expand(s[..o.saveNblock])
    ensures !corrupt ==> Delivers(o, small, tt, ll4, cftab, s, pos)
                         && |o.delivered| + o.availOut == |old(o.delivered)| + room
                         && (o.Finished() || o.availOut == 0)
    ensures old(o.delivered) <= o.delivered && |o.delivered| <= |old(o.delivered)| + room
    ensures Whole(s[..o.saveNblock]) ==>
              var e := Expand(s[..o.saveNblock]);
              && !corrupt && |o.delivered| <= |e| && o.delivered == e[..|o.delivered|]
              && (o.Finished() <==> o.delivered == e)
  {
    hide *;
    DeliversFits(o, small, tt, ll4, cftab, s, pos);
    GoalIs(s, o.saveNblock);
    o.DeliveredPart(s, pos);
    ghost var before := o.delivered;
    o.SetRoom(room, s, pos);
    if small { corrupt := o.Small(tt, ll4, cftab, s, pos); } else { corrupt := o.Fast(tt, s, pos); }
    LongerPart(UnRle.Goal(s, o.saveNblock), before, o.delivered);
    if !corrupt { MakeDelivers(o, small, tt, ll4, cftab, s, pos); }
  }

  lemma LongerPart(goal: seq<byte>, a: seq<byte>, b: seq<byte>)
    requires |a| <= |goal| && a == goal[..|a|]
    ensures |a| <= |b| <= |goal| && b == goal[..|b|] ==> a <= b
  {
  }

  lemma WholeSent(bs: seq<bool>, xs: seq<Sent>, max: nat, i: nat, rest: seq<bool>, combined: bv32, done: seq<byte>)
    requires Behind(bs, xs, max, i, rest, combined, done) && i < |xs|
    ensures Whole(xs[i].block) && Expand(xs[i].block) != []
  {
    hide *;
    BehindBlock(bs, xs, max, i, rest, combined, done);
    SentFilled(xs[i], max);
    SomeExpanded(xs[i].block);
  }

  lemma SentFilled(x: Sent, max: nat)
    requires SentOk(x, max)
    ensures x.block != []
  {
    hide SymbolsOf;
  }

  /** A block with bytes and no count missing stands for some bytes. */
  lemma SomeExpanded(b: seq<byte>)
    requires b != []
    ensures Expand(b) != []
  {
    ExpandPrefix(b, 1, |b|);
    assert b[..|b|] == b && b[..1] == [b[0]];
    UnpackNext(b, 0);
    assert b[..0] == [];
    hide Repeat;
  }

  lemma NothingOut(o: UnRle.BlockOutput, s: seq<byte>, x: Sent)
    requires o.delivered == [] && |s| == |x.block| + 2 && s[..|x.block|] == x.block && o.saveNblock == |x.block|
    requires Whole(x.block) && Expand(x.block) != []
    ensures OutputOf(o, s, x)
  {
    hide Expand, Whole;
  }

  ghost function AnySent(): Sent {
    Sent([], [], 0, [], Tables.Coding([], []))
  }

  lemma StreamParts(level: nat, xs: seq<Sent>, rest: seq<bool>)
    requires 1 <= level <= 9 && BlocksOk(xs, 100000 * level)
    ensures StreamBits(level, xs) + rest
            == BytesBits(Bzh()) + (Bits(0x30 + level, 8) + (BlocksFrom(xs, 100000 * level, 0) + (Trailer(xs) + rest)))
    ensures 0x30 + level < Pow2(8)
    ensures Behind(BlocksFrom(xs, 100000 * level, 0) + (Trailer(xs) + rest), xs, 100000 * level, 0, rest, 0, [])
  {
    hide *;
    MagicParts(level);
    FourJoin(BytesBits(Bzh()), Bits(0x30 + level, 8), BlocksFrom(xs, 100000 * level, 0), Trailer(xs), rest);
    StreamIs(level, xs);
    BehindStarts(xs, 100000 * level, rest);
  }

  lemma MagicParts(level: nat)
    requires 1 <= level <= 9
    ensures 0x30 + level == Digit(level) < Pow2(8)
    ensures BytesBits(Bzh() + [Digit(level)]) == BytesBits(Bzh()) + Bits(0x30 + level, 8)
  {
    hide BytesBits, Bits, Pow2, Bzh;
    BytesBitsMore(Bzh(), Digit(level));
    ByteFits(Digit(level));
  }

  lemma StreamIs(level: nat, xs: seq<Sent>)
    requires 1 <= level <= 9 && BlocksOk(xs, 100000 * level)
    ensures StreamBits(level, xs)
            == BytesBits(Bzh() + [Digit(level)]) + (BlocksFrom(xs, 100000 * level, 0) + Trailer(xs))
  {
    hide BytesBits, BlocksFrom, Trailer, BlocksOk, Bzh;
  }

  lemma BehindStarts(xs: seq<Sent>, max: nat, rest: seq<bool>)
    requires BlocksOk(xs, max)
    ensures Behind(BlocksFrom(xs, max, 0) + (Trailer(xs) + rest), xs, max, 0, rest, 0, [])
  {
    hide BlocksOk, BlocksFrom, Trailer, Crc.Mix, Expand;
  }

  lemma FourJoin(a: seq<bool>, b: seq<bool>, c: seq<bool>, d: seq<bool>, e: seq<bool>)
    ensures (a + b) + (c + d) + e == a + (b + (c + (d + e)))
  {
  }

  lemma LevelArrives(level: nat, more: seq<bool>)
    requires 1 <= level <= 9 && 0x30 + level < Pow2(8)
    ensures var bs := Bits(0x30 + level, 8) + more; |bs| >= 8 && Value(bs[..8]) == 0x30 + level && bs[8..] == more
  {
    NumberArrives(0x30 + level, 8, more);
  }

  /** What any bits come to as the beginning of a stream: the magic number is wrong as soon as one
      byte differs, the level must be a digit from 1 to 9. */
  ghost predicate StartTold(bs: seq<bool>, result: Result, max: nat, rest: seq<bool>) {
    && (result == DataErrorMagic <==>
          Differs([0x42, 0x5a, 0x68], bs)
          || (Begins([0x42, 0x5a, 0x68], bs) && |bs| >= 32 && !(0x31 <= Value(bs[24..32]) <= 0x39)))
    && (result == NeedRoom <==>
          Begins([0x42, 0x5a, 0x68], bs) && |bs| >= 32 && 0x31 <= Value(bs[24..32]) <= 0x39)
    && (result == NeedInput || result == DataErrorMagic || result == NeedRoom)
    && (result == NeedRoom ==> max == 100000 * (Value(bs[24..32]) - 0x30) && rest == bs[32..])
  }

  lemma StartFails(bs: seq<bool>, status: Status)
    requires status == Complete <==> Begins(Bzh(), bs)
    requires status == Corrupt <==> Differs(Bzh(), bs)
    ensures status == Starved ==> forall max: nat, rest :: StartTold(bs, NeedInput, max, rest)
    ensures status == Corrupt ==> forall max: nat, rest :: StartTold(bs, DataErrorMagic, max, rest)
  {
    BzhIs();
    hide Begins, Differs, Bzh, Value;
    if status == Corrupt && Begins([0x42, 0x5a, 0x68], bs) { NeverDiffers([0x42, 0x5a, 0x68], bs); }
  }

  lemma BzhIs()
    ensures Bzh() == [0x42, 0x5a, 0x68]
  {
  }

  lemma StartGoesOn(bs: seq<bool>, got: bool, v: nat)
    requires Begins(Bzh(), bs) && 24 <= |bs| && (got <==> 8 <= |bs[24..]|) && (got ==> v == Value(bs[24..][..8]))
    ensures var result := if !got then NeedInput else if v < 0x31 || v > 0x39 then DataErrorMagic else NeedRoom;
            forall max: nat, rest ::
              (result == NeedRoom ==> max == 100000 * (v - 0x30) && rest == bs[24..][8..]) ==>
                StartTold(bs, result, max, rest)
  {
    BzhIs();
    hide Begins, Differs, Bzh, Value;
    NeverDiffers([0x42, 0x5a, 0x68], bs);
    if got { assert bs[24..][..8] == bs[24..32] && bs[24..][8..] == bs[32..]; }
  }

  /** A stream begins: magic number and level, as BZ2_decompress reads them first; on any bits. */
  method StartStream(r: Reader, small: bool, ghost level: nat, ghost xs: seq<Sent>, ghost rest: seq<bool>,
                     ghost sent: bool)
    returns (result: Result, d: Decompressor?)
    requires r.Valid()
    requires sent ==> 1 <= level <= 9 && BlocksOk(xs, 100000 * level) && r.Ahead() == StreamBits(level, xs) + rest
    modifies r
    ensures r.Valid()
    ensures d != null ==> d.Valid() && fresh(d) && fresh(d.tt) && fresh(d.ll4) && d.r == r && d.o == null && !d.idle
                          && d.Delivered() == [] && d.xs == xs && d.sent == sent && d.rest == rest
    ensures (d != null <==> result == NeedRoom) && (d != null ==> d.small == small && !d.starved && d.combined == 0)
    ensures StartTold(old(r.Ahead()), result, if d == null then 0 else d.max, r.Ahead())
    ensures sent ==> d != null
  {
    hide *;
    ghost var bs, max := r.Ahead(), 100000 * level;
    if sent {
      StreamParts(level, xs, rest);
      ghost var more := BlocksFrom(xs, max, 0) + (Trailer(xs) + rest);
      MarkerComes(Bzh(), Bits(0x30 + level, 8) + more);
      LevelArrives(level, more);
    }
    d := null;
    var status := ReceiveMarker(r, Bzh());
    StartFails(bs, status);
    if status == Starved { return NeedInput, null; }
    if status == Corrupt { return DataErrorMagic, null; }
    ghost var after := r.Ahead();
    var got, v := r.GetBits(8);
    if got { OneByte(v, after); }
    StartGoesOn(bs, got, v);
    if !got { return NeedInput, null; }
    if v < 0x31 || v > 0x39 { return DataErrorMagic, null; }
    result := NeedRoom;
    d := new Decompressor(r, small, 100000 * (v - 0x30), xs, rest, sent);
  }

  function Sum(rooms: seq<nat>): nat {
    if rooms == [] then 0 else Sum(rooms[..|rooms| - 1]) + rooms[|rooms| - 1]
  }

  // ----- with the compressor

  /** Decompressing a finished compression gives back everything that was compressed: for any
      input, taken and delivered in any portions, in the fast and the small layout, for any
      portions in which the compressed bytes are handed over, empty ones too, and for any
      portions of room in which the decompressed bytes are fetched. */
  method Restore(c: Compressor.Compressor, small: bool, portions: seq<seq<byte>>, rooms: seq<nat>)
    returns (ended: bool, out: seq<byte>)
    requires c.Finished() && Concat(portions) == c.delivered
    ensures |out| <= |c.consumed| && out == c.consumed[..|out|]
    ensures ended ==> out == c.consumed
    ensures rooms != [] && Sum(rooms) >= |c.consumed| ==> ended
    ensures !ended ==> |out| == Sum(rooms)
  {
    hide *;
    FinishedFacts(c);
    var r := new Reader(portions);
    var result, d := StartStream(r, small, c.level, c.xs, Zeros(-c.w.bsLive), true);
    ended, out := false, [];
    SumSteps(rooms, 0);
    for k := 0 to |rooms|
      invariant !ended && d.Valid() && !d.idle && fresh(d) && fresh(d.r) && fresh(d.tt) && fresh(d.ll4)
      invariant d.o == null || fresh(d.o)
      invariant d.xs == c.xs && d.sent && out == d.Delivered() && |out| == Sum(rooms[..k])
      invariant |out| <= |c.consumed| && out == c.consumed[..|out|] && (k > 0 ==> |out| < |c.consumed|)
    {
      result := d.BzDecompress(rooms[k]);
      out := d.Delivered();
      SumSteps(rooms, k);
      if result != NeedRoom {
        ended := true;
        return;
      }
    }
    SumSteps(rooms, |rooms|);
  }

  lemma SumSteps(rooms: seq<nat>, k: nat)
    requires k <= |rooms|
    ensures Sum(rooms[..0]) == 0
    ensures k < |rooms| ==> Sum(rooms[..k + 1]) == Sum(rooms[..k]) + rooms[k]
    ensures k == |rooms| ==> Sum(rooms[..k]) == Sum(rooms)
  {
    if k < |rooms| {
      assert rooms[..k + 1][..k] == rooms[..k];
    } else {
      assert rooms[..k] == rooms;
    }
  }

  lemma FinishedFacts(c: Compressor.Compressor)
    requires c.Finished()
    ensures 1 <= c.level <= 9 && BlocksOk(c.xs, 100000 * c.level) && c.consumed == ExpandAll(c.xs, |c.xs|)
    ensures c.w.bsLive <= 0 && BytesBits(c.delivered) == StreamBits(c.level, c.xs) + Zeros(-c.w.bsLive)
  {
    hide BlocksOk, StreamBits;
  }
}
