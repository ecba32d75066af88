/** The format of a whole stream, and the compressor's back end: sorting a block and
    writing its bits. */
module BackEnd {
  import opened Counting
  import opened Rotations
  import opened InverseBwt
  import opened BitStream
  import opened Block
  import opened BwtDecode
  import opened Headers
  import opened RunLength
  import opened Stream
  import Crc
  import FallbackSort
  import HeaderBits
  import MainCompare
  import MainSort
  import MtfEncoder
  import Tables

  // ----- the format of a stream

  /** Blocks that a stream of the given level can hold. */
  ghost predicate BlocksOk(xs: seq<Sent>, max: nat) {
    forall i :: 0 <= i < |xs| ==> SentOk(xs[i], max) && Whole(xs[i].block)
  }

  /** The block as the compressor makes it: the map marks the bytes that occur, and the tables are
      those chosen for the symbols. */
  ghost predicate Made(x: Sent, max: nat) {
    WellCoded(x, max) && |x.inUse| == 256 && forall c: byte :: x.inUse[c] <==> c in x.block
  }

  ghost predicate AllMade(xs: seq<Sent>, max: nat) {
    forall i :: 0 <= i < |xs| ==> Made(xs[i], max)
  }

  lemma AllMadeMore(xs: seq<Sent>, ys: seq<Sent>, max: nat)
    requires AllMade(xs, max)
    requires ys == xs || (|ys| == |xs| + 1 && ys[..|xs|] == xs && Made(ys[|xs|], max))
    ensures AllMade(ys, max)
  {
    hide Made;
    forall i | 0 <= i < |ys| ensures Made(ys[i], max) {
      if i < |xs| { assert ys[i] == ys[..|xs|][i]; }
    }
  }

  /** The blocks from number i on. */
  function BlocksFrom(xs: seq<Sent>, max: nat, i: nat): seq<bool>
    requires BlocksOk(xs, max) && i <= |xs|
    decreases |xs| - i
  {
    if i == |xs| then [] else BlockBits(xs[i], max, CrcOf(xs[i])) + BlocksFrom(xs, max, i + 1)
  }

  /** The combined check after the first i blocks. */
  function CombinedOf(xs: seq<Sent>, i: nat): bv32
    requires i <= |xs|
  {
    if i == 0 then 0
    else Crc.Mix(CombinedOf(xs, i - 1), Crc.Check(Expand(xs[i - 1].block)))
  }

  function Checks(xs: seq<Sent>, i: nat): (r: seq<bv32>)
    requires i <= |xs|
    ensures |r| == i && forall k :: 0 <= k < i ==> r[k] == Crc.Check(Expand(xs[k].block))
  {
    seq(i, k requires 0 <= k < i => Crc.Check(Expand(xs[k].block)))
  }

  lemma {:induction false} CombinedIsMix(xs: seq<Sent>, i: nat)
    requires i <= |xs|
    ensures CombinedOf(xs, i) == Crc.MixAll(Checks(xs, i))
  {
    hide Crc.Mix, Crc.Check, Expand;
    if i > 0 {
      CombinedIsMix(xs, i - 1);
      assert Checks(xs, i)[..i - 1] == Checks(xs, i - 1);
    }
  }

  /** Bit j, from the lowest, of the check of what a block stands for. */
  predicate CheckBit(x: Sent, j: nat)
    requires j < 32
  {
    Crc.CheckBits(Expand(x.block))[31 - j]
  }

  /** The check that is sent with a block has the bits of the remainder. */
  lemma BlockCheckSent(x: Sent)
    ensures Bits(CrcOf(x), 32) == Crc.CheckBits(Expand(x.block))
  {
    Crc.CheckIsRemainder(Expand(x.block));
    hide Crc.CheckBits, Crc.Coefficients, Crc.Check, Expand, Bits;
  }

  function BlockBitsAt(xs: seq<Sent>, i: nat, j: int): (r: seq<bool>)
    requires i <= |xs|
    ensures |r| == i && forall k :: 0 <= k < i ==> r[k] == CheckBit(xs[k], (j - (i - 1 - k)) % 32)
  {
    seq(i, k requires 0 <= k < i => CheckBit(xs[k], (j - (i - 1 - k)) % 32))
  }

  /** Bit j of the combined check that is sent after i blocks is the exclusive or of the bits
      j - (i - 1 - k) of the checks of the blocks k, counted round the word. */
  lemma CombinedBit(xs: seq<Sent>, i: nat, j: nat)
    requires i <= |xs| && j < 32
    ensures Bits(WordOf(CombinedOf(xs, i)), 32)[31 - j] <==> Crc.Parity(BlockBitsAt(xs, i, j))
  {
    hide *;
    CombinedIsMix(xs, i);
    Crc.MixedBit(Checks(xs, i), j);
    WordBit(CombinedOf(xs, i), j);
    SameBitsAt(xs, i, j);
  }

  lemma WordBit(w: bv32, j: nat)
    requires j < 32
    ensures |Bits(WordOf(w), 32)| == 32 && Bits(WordOf(w), 32)[31 - j] == Crc.BitOf(w, j)
  {
    hide Crc.Coefficients, Bits;
  }

  lemma SameBitsAt(xs: seq<Sent>, i: nat, j: nat)
    requires i <= |xs| && j < 32
    ensures Crc.Contributions(Checks(xs, i), j) == BlockBitsAt(xs, i, j)
  {
    hide Crc.CheckBits, Crc.Coefficients, Crc.Check, Expand;
    forall k | 0 <= k < i ensures Crc.Contributions(Checks(xs, i), j)[k] == BlockBitsAt(xs, i, j)[k] {
      Crc.CheckIsRemainder(Expand(xs[k].block));
    }
  }

  /** What the first i blocks stand for. */
  function ExpandAll(xs: seq<Sent>, i: nat): seq<byte>
    requires i <= |xs|
  {
    if i == 0 then [] else ExpandAll(xs, i - 1) + Expand(xs[i - 1].block)
  }

  function Trailer(xs: seq<Sent>): seq<bool> {
    BytesBits(EndMark()) + Bits(WordOf(CombinedOf(xs, |xs|)), 32)
  }

  /** "BZh" */
  function Bzh(): (m: seq<byte>)
    ensures |m| == 3
  {
    [0x42, 0x5a, 0x68]
  }

  /** The digit for the level. */
  function Digit(level: nat): byte
    requires level <= 9
  {
    0x30 + level
  }

  function StreamBits(level: nat, xs: seq<Sent>): seq<bool>
    requires 1 <= level <= 9 && BlocksOk(xs, 100000 * level)
  {
    BytesBits(Bzh() + [Digit(level)]) + (BlocksFrom(xs, 100000 * level, 0) + Trailer(xs))
  }

  /** The first i blocks. */
  function BlocksUpTo(xs: seq<Sent>, max: nat, i: nat): seq<bool>
    requires BlocksOk(xs, max) && i <= |xs|
  {
    if i == 0 then [] else BlocksUpTo(xs, max, i - 1) + BlockBits(xs[i - 1], max, CrcOf(xs[i - 1]))
  }

  lemma {:induction false} UpToAndFrom(xs: seq<Sent>, max: nat, i: nat)
    requires BlocksOk(xs, max) && i <= |xs|
    ensures BlocksUpTo(xs, max, i) + BlocksFrom(xs, max, i) == BlocksFrom(xs, max, 0)
  {
    hide BlockBits, CrcOf, SentOk, Whole;
    if i == 0 {
      assert [] + BlocksFrom(xs, max, 0) == BlocksFrom(xs, max, 0);
    } else {
      UpToAndFrom(xs, max, i - 1);
      JoinBits(BlocksUpTo(xs, max, i - 1), BlockBits(xs[i - 1], max, CrcOf(xs[i - 1])), BlocksFrom(xs, max, i));
    }
  }

  lemma {:induction false} UpToPrefix(xs: seq<Sent>, x: Sent, max: nat, i: nat)
    requires BlocksOk(xs, max) && BlocksOk(xs + [x], max) && i <= |xs|
    ensures BlocksUpTo(xs + [x], max, i) == BlocksUpTo(xs, max, i)
  {
    hide BlockBits, CrcOf, SentOk, Whole;
    if i > 0 { UpToPrefix(xs, x, max, i - 1); }
  }

  /** The bits written once the header is out and the blocks xs are sent. */
  function SoFar(level: nat, xs: seq<Sent>): seq<bool>
    requires 1 <= level <= 9 && BlocksOk(xs, 100000 * level)
  {
    BytesBits(Bzh() + [Digit(level)]) + BlocksUpTo(xs, 100000 * level, |xs|)
  }

  lemma SoFarMore(level: nat, xs: seq<Sent>, x: Sent)
    requires 1 <= level <= 9 && BlocksOk(xs, 100000 * level) && SentOk(x, 100000 * level) && Whole(x.block)
    ensures BlocksOk(xs + [x], 100000 * level)
    ensures SoFar(level, xs + [x]) == SoFar(level, xs) + BlockBits(x, 100000 * level, CrcOf(x))
  {
    hide BlockBits, CrcOf, SentOk, Whole, BytesBits;
    UpToPrefix(xs, x, 100000 * level, |xs|);
    JoinBits(BytesBits(Bzh() + [Digit(level)]), BlocksUpTo(xs, 100000 * level, |xs|),
      BlockBits(x, 100000 * level, CrcOf(x)));
  }

  /** With the trailer the stream is complete. */
  lemma SoFarEnds(level: nat, xs: seq<Sent>)
    requires 1 <= level <= 9 && BlocksOk(xs, 100000 * level)
    ensures SoFar(level, xs) + Trailer(xs) == StreamBits(level, xs)
  {
    hide BytesBits, Trailer, BlocksOk, Bzh;
    UpToAndFrom(xs, 100000 * level, |xs|);
    assert BlocksUpTo(xs, 100000 * level, |xs|) + [] == BlocksUpTo(xs, 100000 * level, |xs|);
    JoinBits(BytesBits(Bzh() + [Digit(level)]), BlocksFrom(xs, 100000 * level, 0), Trailer(xs));
  }

  // ----- sorting

  /** fallbackSort on a copy of the block. */
  method SortByFallback(ptr: array<int>, block: seq<byte>)
    requires 0 < |block| <= 900000 && ptr.Length == |block|
    modifies ptr
    ensures IsRotationSort(block, ptr[..])
  {
    var n := |block|;
    var eclass8 := CopyBlock(block, n);
    assert eclass8[..] == eclass8[..n];
    var bhtab: array<HeaderBits.Word> := new HeaderBits.Word[3 + n / 32](_ => seq(32, _ => false));
    hide *;
    FallbackSort.FallbackSort(ptr, eclass8, bhtab);
  }

  /** The share of work mainSort may spend on every byte. */
  function WorkShare(workFactor: int): (r: int)
    ensures 0 <= r <= 33
  {
    var wfact := if workFactor < 1 then 1 else if workFactor > 100 then 100 else workFactor;
    (wfact - 1) / 3
  }

  /** The sorting of BZ2_blockSort: short blocks, and those on which mainSort uses up its
      budget, go to fallbackSort. */
  method SortRotations(ptr: array<int>, block: seq<byte>, workFactor: int)
    requires 0 < |block| <= 900000 && ptr.Length == |block|
    modifies ptr
    ensures IsRotationSort(block, ptr[..])
  {
    var n := |block|;
    hide *;
    if n < 10000 {
      SortByFallback(ptr, block);
    } else {
      MainSort.OvershootIs();
      var arr2 := CopyBlock(block, n + MainCompare.OVERSHOOT);
      var quadrant := new int[n + MainCompare.OVERSHOOT];
      var ftab := new int[65537];
      var budget := MainSort.MainSort(ptr, arr2, quadrant, ftab, n, n * WorkShare(workFactor));
      if budget < 0 { SortByFallback(ptr, arr2[..n]); }
    }
  }

  /** BZ2_blockSort: the sorted pointers, as the halfwords that the next stage sees, and the
      place of the unrotated block. */
  method BlockSort(block: seq<byte>, workFactor: int) returns (arr1: array<int>, origPtr: nat, ghost f: seq<int>)
    requires 0 < |block| <= 900000
    ensures fresh(arr1) && IsRotationSort(block, f) && MtfEncoder.HoldsFrom(arr1[..], f, 0)
    ensures origPtr < |block| && |f| == |block| && f[origPtr] == 0
  {
    hide *;
    var ptr := new int[|block|];
    SortRotations(ptr, block, workFactor);
    f := ptr[..];
    SortedIsPerm(block, f);
    origPtr := FindOrigPtr(ptr[..]);
    arr1 := Halfwords(ptr);
  }

  lemma SortedIsPerm(block: seq<byte>, f: seq<int>)
    requires IsRotationSort(block, f)
    ensures IsPerm(f, |f|) && |f| == |block|
  {
    hide SortedTo;
  }

  /** The block at the beginning of a larger array. */
  method CopyBlock(block: seq<byte>, size: nat) returns (a: array<byte>)
    requires |block| <= size
    ensures fresh(a) && a.Length == size && a[..|block|] == block
  {
    a := new byte[size];
    for i := 0 to |block|
      invariant a[..i] == block[..i]
    {
      a[i] := block[i];
    }
  }

  /** The pointer array as its halfwords. */
  method Halfwords(ptr: array<int>) returns (arr1: array<int>)
    ensures fresh(arr1) && MtfEncoder.HoldsFrom(arr1[..], ptr[..], 0)
  {
    arr1 := new int[2 * ptr.Length];
    for i := 0 to ptr.Length
      invariant forall k :: 0 <= k < i ==> MtfEncoder.Pointer(arr1[..], k) == ptr[k]
    {
      arr1[2 * i] := ptr[i] % 0x10000;
      arr1[2 * i + 1] := ptr[i] / 0x10000;
    }
  }

  // ----- writing

  /** What the compressor hands over: a whole block within the limits, the map of its
      bytes and its check. */
  ghost predicate Handed(block: seq<byte>, inUse: seq<bool>, crc: bv32, level: nat) {
    && 1 <= level <= 9 && |block| + 10 <= 100000 * level && Whole(block) && |inUse| == 256
    && (forall c: byte :: inUse[c] <==> c in block)
    && (block != [] ==> crc == Crc.Check(Expand(block)))
  }

  lemma HandedFacts(block: seq<byte>, inUse: seq<bool>, crc: bv32, level: nat)
    requires Handed(block, inUse, crc, level)
    ensures 1 <= level <= 9 && |block| <= 100000 * level <= 900000 && Whole(block)
    ensures block != [] ==> crc == Crc.Check(Expand(block))
    ensures |inUse| == 256 && forall c: byte :: inUse[c] <==> c in block
  {
    hide Whole, Expand, Crc.Check;
  }

  lemma HandedSortable(block: seq<byte>, inUse: seq<bool>, crc: bv32, level: nat, f: seq<int>, origPtr: nat)
    requires Handed(block, inUse, crc, level) && block != [] && IsRotationSort(block, f)
    requires origPtr < |block| && |f| == |block| && f[origPtr] == 0
    ensures Sortable(block, f, origPtr, inUse, 100000 * level)
  {
    hide Whole, Expand, Crc.Check, IsRotationSort;
  }

  /** The part of BZ2_compressBlock for a block with data. */
  method WriteData(w: Writer, level: nat, workFactor: int, block: seq<byte>, inUse: seq<bool>, blockCRC: bv32,
                   ghost xs: seq<Sent>, ghost pre: seq<bool>)
    returns (ghost xs': seq<Sent>)
    requires w.Valid() && Handed(block, inUse, blockCRC, level) && block != []
    requires 1 <= level <= 9 && BlocksOk(xs, 100000 * level) && pre + w.Written() == SoFar(level, xs)
    modifies w
    ensures w.Valid() && |xs'| == |xs| + 1 && xs'[..|xs|] == xs && xs'[|xs|].block == block
    ensures Made(xs'[|xs|], 100000 * level)
    ensures BlocksOk(xs', 100000 * level) && pre + w.Written() == SoFar(level, xs')
  {
    hide *;
    HandedFacts(block, inUse, blockCRC, level);
    ghost var before := w.Written();
    var arr1, origPtr, f := BlockSort(block, workFactor);
    HandedSortable(block, inUse, blockCRC, level, f, origPtr);
    var x := SendBlock(w, arr1, block, inUse, origPtr, WordOf(blockCRC), 100000 * level, f);
    CrcOfSent(x);
    MakeMade(x, 100000 * level);
    xs' := xs + [x];
    SoFarMore(level, xs, x);
    JoinBits(pre, before, BlockBits(x, 100000 * level, CrcOf(x)));
  }

  lemma MakeMade(x: Sent, max: nat)
    requires WellCoded(x, max) && |x.inUse| == 256 && forall c: byte :: x.inUse[c] <==> c in x.block
    ensures Made(x, max)
  {
    hide WellCoded;
  }

  lemma CrcOfSent(x: Sent)
    ensures CrcOf(x) == WordOf(Crc.Check(Expand(x.block)))
  {
    hide WordOf, Crc.Check, Expand;
  }

  /** The trailer, and the rest of the last byte. */
  method WriteTrailer(w: Writer, level: nat, combinedCRC: bv32, ghost xs: seq<Sent>, ghost pre: seq<bool>)
    requires w.Valid() && 1 <= level <= 9 && BlocksOk(xs, 100000 * level) && pre + w.Written() == SoFar(level, xs)
    requires combinedCRC == CombinedOf(xs, |xs|)
    modifies w
    ensures -8 < w.bsLive <= 0 && pre + BytesBits(w.zbits) == StreamBits(level, xs) + Zeros(-w.bsLive)
  {
    hide *;
    ghost var before := w.Written();
    PutBytes(w, EndMark());
    PutUInt32(w, WordOf(combinedCRC));
    TrailerIs(before, xs);
    w.BsFinishWrite();
    SoFarEnds(level, xs);
    JoinBits(pre, before, Trailer(xs));
    JoinBits(pre, before + Trailer(xs), Zeros(-w.bsLive));
  }

  lemma TrailerIs(before: seq<bool>, xs: seq<Sent>)
    ensures before + BytesBits(EndMark()) + Bits(WordOf(CombinedOf(xs, |xs|)), 32) == before + Trailer(xs)
  {
    hide BytesBits, Bits, WordOf, CombinedOf, EndMark;
    JoinBits(before, BytesBits(EndMark()), Bits(WordOf(CombinedOf(xs, |xs|)), 32));
  }

  lemma NoBlocks(level: nat)
    requires 1 <= level <= 9
    ensures BlocksOk([], 100000 * level) && SoFar(level, []) == BytesBits(Bzh() + [Digit(level)])
  {
    hide BytesBits;
    assert BytesBits(Bzh() + [Digit(level)]) + [] == BytesBits(Bzh() + [Digit(level)]);
  }

  /** What precedes a block in the stream: nothing before the first. */
  ghost predicate Precedes(level: nat, blockNo: nat, xs: seq<Sent>, written: seq<bool>) {
    && 1 <= level <= 9 && BlocksOk(xs, 100000 * level)
    && if blockNo == 1 then xs == [] && written == [] else written == SoFar(level, xs)
  }

  lemma PrecedesFacts(level: nat, blockNo: nat, xs: seq<Sent>, written: seq<bool>)
    requires Precedes(level, blockNo, xs, written)
    ensures 1 <= level <= 9 && BlocksOk(xs, 100000 * level)
    ensures if blockNo == 1 then xs == [] && written == [] else written == SoFar(level, xs)
  {
    hide BlocksOk, SoFar;
  }

  /** The combined check takes in the block. */
  ghost predicate CombinedWith(combined: bv32, xs: seq<Sent>, block: seq<byte>, crc: bv32) {
    combined == if block == [] then CombinedOf(xs, |xs|) else Crc.Mix(CombinedOf(xs, |xs|), crc)
  }

  lemma {:induction false} CombinedPrefix(xs: seq<Sent>, ys: seq<Sent>, i: nat)
    requires i <= |xs| <= |ys| && ys[..|xs|] == xs
    ensures CombinedOf(ys, i) == CombinedOf(xs, i)
  {
    hide Expand, Crc.Check, Crc.Mix;
    if i > 0 {
      CombinedPrefix(xs, ys, i - 1);
      assert ys[i - 1] == ys[..|xs|][i - 1];
    }
  }

  lemma CombinedMore(xs: seq<Sent>, ys: seq<Sent>, block: seq<byte>, crc: bv32, combined: bv32)
    requires CombinedWith(combined, xs, block, crc)
    requires if block == [] then ys == xs
             else |ys| == |xs| + 1 && ys[..|xs|] == xs && ys[|xs|].block == block && crc == Crc.Check(Expand(block))
    ensures combined == CombinedOf(ys, |ys|)
  {
    if block != [] { CombinedPrefix(xs, ys, |xs|); }
  }

  /** BZ2_compressBlock, after the checks have been combined: header for the first block,
      the block if it has data, the trailer after the last. */
  method CompressBits(w: Writer, blockNo: nat, level: nat, workFactor: int, block: seq<byte>, inUse: seq<bool>,
                      blockCRC: bv32, combinedCRC: bv32, isLastBlock: bool,
                      ghost xs: seq<Sent>, ghost pre: seq<bool>)
    returns (ghost xs': seq<Sent>)
    requires w.Valid() && Handed(block, inUse, blockCRC, level)
    requires Precedes(level, blockNo, xs, pre + w.Written())
    requires CombinedWith(combinedCRC, xs, block, blockCRC)
    modifies w
    ensures 1 <= level <= 9 && BlocksOk(xs', 100000 * level)
    ensures if block == [] then xs' == xs
            else |xs'| == |xs| + 1 && xs'[..|xs|] == xs && xs'[|xs|].block == block && Made(xs'[|xs|], 100000 * level)
    ensures !isLastBlock ==> w.Valid() && pre + w.Written() == SoFar(level, xs')
    ensures isLastBlock ==> -8 < w.bsLive <= 0
                            && pre + BytesBits(w.zbits) == StreamBits(level, xs') + Zeros(-w.bsLive)
  {
    hide *;
    HandedFacts(block, inUse, blockCRC, level);
    PrecedesFacts(level, blockNo, xs, pre + w.Written());
    NoBlocks(level);
    if blockNo == 1 {
      ghost var before := w.Written();
      PutBytes(w, Bzh() + [Digit(level)]);
      Onto(pre, before, BytesBits(Bzh() + [Digit(level)]));
    }
    xs' := xs;
    if |block| > 0 {
      xs' := WriteData(w, level, workFactor, block, inUse, blockCRC, xs, pre);
    }
    CombinedMore(xs, xs', block, blockCRC, combinedCRC);
    if isLastBlock {
      WriteTrailer(w, level, combinedCRC, xs', pre);
    }
  }

  lemma Onto(pre: seq<bool>, before: seq<bool>, more: seq<bool>)
    requires pre + before == []
    ensures pre + (before + more) == more
  {
  }
}
