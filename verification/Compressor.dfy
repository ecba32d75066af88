/** The compression stream: collecting runs into blocks, handing full blocks to the
    back end, delivering its output, and the modes of BZ2_bzCompress. */
module Compressor {
  import opened Counting
  import opened RunLength
  import opened BitStream
  import opened Block
  import opened Stream
  import opened BackEnd
  import Crc
  import Tables

  // ----- one block being filled

  /** The block, its map of used bytes and its running check agree. */
  ghost predicate BlockOk(b: seq<byte>, used: seq<bool>, crc: bv32) {
    && Whole(b) && |used| == 256
    && (forall c: byte :: used[c] <==> c in b)
    && crc == Crc.UpdateAll(Crc.INITIAL, Expand(b))
  }

  /** The pending run: none when ch is 256. */
  ghost predicate RunShape(ch: int, len: nat) {
    if ch == 256 then len == 0 else 0 <= ch < 256 && 1 <= len <= 255
  }

  function Pending(ch: int, len: nat): seq<byte> {
    if 0 <= ch < 256 then Repeat(ch, len) else []
  }

  /** The pending run can follow what is in the block; only an empty block has none. */
  ghost predicate Follows(b: seq<byte>, ch: int) {
    if 0 <= ch < 256 then Ready(b, ch) else b == []
  }

  lemma CrcMore(crc: bv32, m: seq<byte>, ch: byte, n: nat)
    ensures Crc.UpdateAll(crc, m + Repeat(ch, n + 1)) == Crc.Update(Crc.UpdateAll(crc, m + Repeat(ch, n)), ch)
    ensures m + Repeat(ch, 0) == m
  {
    hide Crc.Update, Crc.UpdateAll;
    RepeatMore(ch, n, 1);
    Joined(m, Repeat(ch, n), [ch]);
    Crc.UpdateOneMore(crc, m + Repeat(ch, n), ch);
  }

  lemma UsedMore(b: seq<byte>, used: seq<bool>, ch: byte, len: nat)
    requires |used| == 256 && 1 <= len <= 255 && forall c: byte :: used[c] <==> c in b
    ensures var u := used[ch := true]; var u' := if len < 4 then u else u[len - 4 := true];
            forall c: byte :: u'[c] <==> c in b + Pair(ch, len)
  {
    var p := Pair(ch, len);
    assert p[0] == ch && (len >= 4 ==> p[4] == len - 4);
    forall c: byte | c in p ensures c == ch || (len >= 4 && c == len - 4) { }
  }

  /** Adding a pair keeps the block in order. */
  lemma BlockOkPair(b: seq<byte>, used: seq<bool>, crc: bv32, used': seq<bool>, crc': bv32, ch: byte, len: nat)
    requires BlockOk(b, used, crc) && Ready(b, ch) && 1 <= len <= 255
    requires used' == if len < 4 then used[ch := true] else used[ch := true][len - 4 := true]
    requires crc' == Crc.UpdateAll(Crc.INITIAL, Expand(b) + Repeat(ch, len))
    ensures BlockOk(b + Pair(ch, len), used', crc')
    ensures Expand(b + Pair(ch, len)) == Expand(b) + Repeat(ch, len)
    ensures forall d: byte :: d != ch || len >= 4 ==> Ready(b + Pair(ch, len), d)
  {
    UsedMore(b, used, ch, len);
    hide Pair, Repeat, Unpack, Ready;
    ExpandPair(b, ch, len);
  }

  lemma EmptyBlock(used: seq<bool>, ch: int)
    requires |used| == 256 && forall c :: 0 <= c < 256 ==> !used[c]
    ensures BlockOk([], used, Crc.INITIAL) && Follows([], ch) && Expand([]) == []
  {
  }

  // ----- what has been handed to the back end

  /** A block with its runs, and whether it was handed over because it was full. */
  datatype Emission = Emission(block: seq<byte>, crc: bv32, last: bool, combined: bv32, runs: seq<Copies>, full: bool)

  /** The input that the emitted blocks stand for. */
  function Covered(log: seq<Emission>): seq<byte> {
    if log == [] then [] else Covered(log[..|log| - 1]) + Expand(log[|log| - 1].block)
  }

  /** The combined check after the emitted blocks. */
  function Combined(log: seq<Emission>): bv32 {
    if log == [] then 0 else CombineCrc(Combined(log[..|log| - 1]), log[|log| - 1])
  }

  function CombineCrc(combined: bv32, e: Emission): bv32 {
    if e.block == [] then combined else Crc.Mix(combined, e.crc)
  }

  /** Every emitted block is complete, small enough and carries the check of the input
      it stands for; only the newest can be marked last. */
  ghost predicate LogOk(log: seq<Emission>, size: nat) {
    && (forall i :: 0 <= i < |log| ==> EntryOk(log, size, i))
    && (forall i :: 0 <= i < |log| - 1 ==> !log[i].last)
  }

  ghost predicate EntryOk(log: seq<Emission>, size: nat, i: nat)
    requires i < |log|
  {
    var e := log[i];
    && Whole(e.block) && |e.block| + 10 <= size
    && (e.block != [] ==> e.crc == Crc.Check(Expand(e.block)))
    && e.combined == Combined(log[..i + 1])
  }

  // ----- how the blocks are coded

  /** The last run of a full block; the next block begins behind it. */
  function Lead(log: seq<Emission>): seq<Copies> {
    if log == [] || !log[|log| - 1].full || log[|log| - 1].runs == [] then []
    else [log[|log| - 1].runs[|log[|log| - 1].runs| - 1]]
  }

  /** Without its last n runs a block is not full. */
  ghost predicate Below(runs: seq<Copies>, n: nat, size: nat)
    requires Cut(runs)
  {
    |runs| >= n ==> (CutFront(runs, |runs| - n); |Pairs(runs[..|runs| - n])| < size - 19)
  }

  /** The block b is the coding of its runs, which go on from those of the block before; it is
      handed over as soon as it is full, or at a flush with the run that was pending. */
  ghost predicate Ripe(lead: seq<Copies>, runs: seq<Copies>, b: seq<byte>, full: bool, size: nat) {
    && Cut(runs) && b == Pairs(runs) && Cut(lead + runs) && (lead != [] ==> runs != [])
    && if full then size - 19 <= |b| && Below(runs, 1, size) else Below(runs, 2, size)
  }

  lemma MakeRipe(lead: seq<Copies>, runs: seq<Copies>, b: seq<byte>, full: bool, size: nat)
    requires Cut(runs) && b == Pairs(runs) && Cut(lead + runs) && (lead != [] ==> runs != [])
    requires if full then size - 19 <= |b| && Below(runs, 1, size) else Below(runs, 2, size)
    ensures Ripe(lead, runs, b, full, size)
  {
    hide Cut, Pairs, Below;
  }

  ghost predicate CodedAt(log: seq<Emission>, size: nat, i: nat)
    requires i < |log|
  {
    Ripe(Lead(log[..i]), log[i].runs, log[i].block, log[i].full, size)
  }

  ghost predicate CodedOk(log: seq<Emission>, size: nat) {
    forall i :: 0 <= i < |log| ==> CodedAt(log, size, i)
  }

  lemma CodedMore(log: seq<Emission>, size: nat, e: Emission)
    requires CodedOk(log, size) && Ripe(Lead(log), e.runs, e.block, e.full, size)
    ensures CodedOk(log + [e], size)
  {
    hide Ripe, Lead;
    var log' := log + [e];
    forall i | 0 <= i < |log'| ensures CodedAt(log', size, i) {
      assert log'[..i] == log[..i];
      if i < |log| {
        assert CodedAt(log, size, i) && log'[i] == log[i];
      } else {
        assert log[..i] == log && log'[i] == e;
      }
    }
  }

  /** The pending run as a run. */
  function PendingRun(ch: int, len: nat): seq<Copies> {
    if 0 <= ch < 256 then [Copies(ch, len)] else []
  }

  /** The block is the coding of its runs, and they and the pending run go on from the block before. */
  ghost predicate Coding(lead: seq<Copies>, runs: seq<Copies>, block: seq<byte>, ch: int, len: nat) {
    && Cut(runs) && block == Pairs(runs) && Cut(lead + runs + PendingRun(ch, len))
    && (!(0 <= ch < 256) ==> lead == [] && runs == [])
  }

  lemma NothingCoded()
    ensures Coding([], [], [], 256, 0) && Cut([]) && CodedOk([], 0)
  {
    assert [] + [] + PendingRun(256, 0) == [];
  }

  /** The pending run goes into the block. */
  lemma RunCoded(lead: seq<Copies>, runs: seq<Copies>, block: seq<byte>, ch: int, len: nat)
    requires Coding(lead, runs, block, ch, len) && 0 <= ch < 256
    ensures 1 <= len <= 255 && Cut(runs + [Copies(ch, len)]) && Cut(lead + (runs + [Copies(ch, len)]))
    ensures block + Pair(ch, len) == Pairs(runs + [Copies(ch, len)])
  {
    hide Pair, Pairs;
    var all := lead + runs + [Copies(ch, len)];
    assert all[|lead|..] == runs + [Copies(ch, len)] && all == lead + (runs + [Copies(ch, len)]);
    CutBack(all, |lead|);
    PairsMore(runs, Copies(ch, len));
  }

  /** Another run begins behind it. */
  lemma RunBegins(lead: seq<Copies>, runs: seq<Copies>, block: seq<byte>, ch: int, len: nat, zchh: byte)
    requires Coding(lead, runs, block, ch, len)
    requires zchh != ch || len == 255
    ensures 0 <= ch < 256 ==> 1 <= len <= 255 && Cut(runs + [Copies(ch, len)])
                              && Coding(lead, runs + [Copies(ch, len)], block + Pair(ch, len), zchh, 1)
    ensures !(0 <= ch < 256) ==> Coding(lead, runs, block, zchh, 1)
  {
    hide Pair, Pairs, Cut;
    if 0 <= ch < 256 {
      RunCoded(lead, runs, block, ch, len);
      var all := lead + (runs + [Copies(ch, len)]);
      assert all[|all| - 1] == Copies(ch, len);
      CutMore(all, Copies(zchh, 1));
    } else {
      CutMore([], Copies(zchh, 1));
      assert [] + [] + [Copies(zchh, 1)] == [] + [Copies(zchh, 1)];
      assert lead + runs + PendingRun(ch, len) == [];
    }
  }

  lemma RunGrows(lead: seq<Copies>, runs: seq<Copies>, block: seq<byte>, ch: int, len: nat)
    requires Coding(lead, runs, block, ch, len) && 0 <= ch < 256 && len < 255
    ensures Coding(lead, runs, block, ch, len + 1)
  {
    hide Pairs, Cut;
    CutGrows(lead + runs, ch, len);
  }

  /** After a full block the pending run begins the next one. */
  lemma FullLeads(lead: seq<Copies>, runs: seq<Copies>, block: seq<byte>, ch: int, len: nat)
    requires Coding(lead, runs, block, ch, len) && runs != [] && 0 <= ch < 256
    ensures Coding([runs[|runs| - 1]], [], [], ch, len) && Cut(lead + runs)
  {
    hide Pairs, Cut;
    var all := lead + runs + [Copies(ch, len)];
    CutBack(all, |all| - 2);
    assert all[|all| - 2..] == [runs[|runs| - 1]] + [] + [Copies(ch, len)];
    CutFront(all, |all| - 1);
    assert all[..|all| - 1] == lead + runs;
    EmptyCut();
  }

  lemma EmptyCut()
    ensures Cut([]) && Pairs([]) == []
  {
  }

  lemma NoRuns(lead: seq<Copies>, runs: seq<Copies>, block: seq<byte>, ch: int, len: nat)
    requires Coding(lead, runs, block, ch, len)
    ensures Cut(runs) && block == Pairs(runs) && (block != [] ==> runs != [])
    ensures !(0 <= ch < 256) ==> lead == [] && runs == []
  {
    EmptyCut();
    hide Cut;
  }

  /** One run more on a block that was not full. */
  lemma BelowMore(runs: seq<Copies>, r: Copies, size: nat)
    requires Cut(runs) && Cut(runs + [r])
    ensures |Pairs(runs)| < size - 19 ==> Below(runs + [r], 1, size)
    ensures Below(runs, 1, size) ==> Below(runs + [r], 2, size)
  {
    hide Pair, Cut, Pairs;
    assert (runs + [r])[..|runs|] == runs;
    if |runs| >= 1 { assert (runs + [r])[..|runs| - 1] == runs[..|runs| - 1]; }
  }

  lemma BelowLess(runs: seq<Copies>, size: nat)
    requires Cut(runs) && Below(runs, 1, size)
    ensures Below(runs, 2, size)
  {
    if |runs| >= 2 {
      CutFront(runs, |runs| - 1);
      CutFront(runs, |runs| - 2);
      var front := runs[..|runs| - 1];
      assert front[..|front| - 1] == runs[..|runs| - 2];
      assert Pairs(front) == Pairs(front[..|front| - 1]) + Pair(front[|front| - 1].ch, front[|front| - 1].len);
    }
  }

  lemma CoveredMore(log: seq<Emission>, e: Emission)
    ensures Covered(log + [e]) == Covered(log) + Expand(e.block)
    ensures Combined(log + [e]) == CombineCrc(Combined(log), e)
  {
    hide Unpack, CombineCrc;
    assert (log + [e])[..|log|] == log;
  }

  lemma EntryKept(log: seq<Emission>, size: nat, e: Emission, i: nat)
    requires i < |log| && EntryOk(log, size, i)
    ensures EntryOk(log + [e], size, i)
  {
    hide Unpack, Combined, Crc.Check;
    assert (log + [e])[..i + 1] == log[..i + 1];
  }

  lemma EntryNew(log: seq<Emission>, size: nat, e: Emission)
    requires Whole(e.block) && |e.block| + 10 <= size
    requires e.block != [] ==> e.crc == Crc.Check(Expand(e.block))
    requires e.combined == Combined(log + [e])
    ensures EntryOk(log + [e], size, |log|)
  {
    hide Unpack, Combined, Crc.Check;
    assert (log + [e])[..|log| + 1] == log + [e];
  }

  lemma LogGrows(log: seq<Emission>, size: nat, e: Emission)
    requires LogOk(log, size) && Whole(e.block) && |e.block| + 10 <= size
    requires e.block != [] ==> e.crc == Crc.Check(Expand(e.block))
    requires e.combined == Combined(log + [e])
    requires log != [] ==> !log[|log| - 1].last
    ensures LogOk(log + [e], size)
  {
    hide Unpack, Combined, EntryOk, Crc.Check;
    EntryNew(log, size, e);
    forall i | 0 <= i < |log| ensures EntryOk(log + [e], size, i) { EntryKept(log, size, e, i); }
  }

  /** The blocks with data among those handed to the back end, as they were sent. */
  ghost predicate Encodes(log: seq<Emission>, xs: seq<Sent>)
    decreases |log|
  {
    if log == [] then xs == []
    else
      var front, e := log[..|log| - 1], log[|log| - 1];
      if e.block == [] then Encodes(front, xs)
      else xs != [] && xs[|xs| - 1].block == e.block && Encodes(front, xs[..|xs| - 1])
  }

  lemma {:induction false} SumsPrefix(xs: seq<Sent>, ys: seq<Sent>, i: nat)
    requires i <= |xs| && i <= |ys| && xs[..i] == ys[..i]
    ensures ExpandAll(xs, i) == ExpandAll(ys, i) && CombinedOf(xs, i) == CombinedOf(ys, i)
  {
    hide Expand, Crc.Check, Crc.Mix;
    if i > 0 {
      assert xs[i - 1] == xs[..i][i - 1] == ys[i - 1];
      assert xs[..i - 1] == xs[..i][..i - 1] == ys[..i - 1];
      SumsPrefix(xs, ys, i - 1);
    }
  }

  /** The blocks sent stand for the input that the log covers, and encoder and decoder
      combine the same checks. */
  lemma {:induction false} SameSums(log: seq<Emission>, xs: seq<Sent>, size: nat)
    requires Encodes(log, xs) && (forall i :: 0 <= i < |log| ==> EntryOk(log, size, i))
    ensures Covered(log) == ExpandAll(xs, |xs|)
    ensures Combined(log) == CombinedOf(xs, |xs|)
    decreases |log|
  {
    hide *;
    if log == [] {
      NothingSent(log, xs);
    } else {
      var front, e := log[..|log| - 1], log[|log| - 1];
      forall i | 0 <= i < |front| ensures EntryOk(front, size, i) { EntryOfFront(log, size, i); }
      LastEntry(log, size, xs);
      if e.block == [] {
        SameSums(front, xs, size);
        EmptyExpands();
      } else {
        var ys := xs[..|xs| - 1];
        SameSums(front, ys, size);
        SumsPrefix(xs, ys, |ys|);
        SumsLast(xs);
      }
    }
  }

  lemma NothingSent(log: seq<Emission>, xs: seq<Sent>)
    requires Encodes(log, xs) && log == []
    ensures Covered(log) == ExpandAll(xs, |xs|) && Combined(log) == CombinedOf(xs, |xs|)
  {
  }

  lemma EntryOfFront(log: seq<Emission>, size: nat, i: nat)
    requires i < |log| - 1 && EntryOk(log, size, i)
    ensures EntryOk(log[..|log| - 1], size, i)
  {
    hide Unpack, Combined, Crc.Check;
    assert log[..|log| - 1][..i + 1] == log[..i + 1];
  }

  lemma LastEntry(log: seq<Emission>, size: nat, xs: seq<Sent>)
    requires log != [] && EntryOk(log, size, |log| - 1) && Encodes(log, xs)
    ensures var front, e := log[..|log| - 1], log[|log| - 1];
            && Covered(log) == Covered(front) + Expand(e.block)
            && (e.block == [] ==> Encodes(front, xs) && Combined(log) == Combined(front))
            && (e.block != [] ==>
                  && xs != [] && xs[|xs| - 1].block == e.block && Encodes(front, xs[..|xs| - 1])
                  && Combined(log)
                     == Crc.Mix(Combined(front), Crc.Check(Expand(e.block))))
  {
    hide Unpack, Crc.Check, Crc.Mix;
  }

  lemma SumsLast(xs: seq<Sent>)
    requires xs != []
    ensures var k, x := |xs| - 1, xs[|xs| - 1];
            && ExpandAll(xs, |xs|) == ExpandAll(xs, k) + Expand(x.block)
            && CombinedOf(xs, |xs|) == Crc.Mix(CombinedOf(xs, k), Crc.Check(Expand(x.block)))
  {
    hide Expand, Crc.Check, Crc.Mix;
  }

  lemma EmptyExpands()
    ensures Expand([]) == []
  {
  }

  lemma {:induction false} EncodesMore(log: seq<Emission>, xs: seq<Sent>, e: Emission, ys: seq<Sent>)
    requires Encodes(log, xs)
    requires if e.block == [] then ys == xs else |ys| == |xs| + 1 && ys[..|xs|] == xs && ys[|xs|].block == e.block
    ensures Encodes(log + [e], ys)
  {
    assert (log + [e])[..|log|] == log;
  }

  /** One block more in the log. */
  lemma EntryAdded(log: seq<Emission>, xs: seq<Sent>, e: Emission, ys: seq<Sent>, size: nat)
    requires LogOk(log, size) && CodedOk(log, size) && Encodes(log, xs) && AllMade(xs, size)
    requires Whole(e.block) && |e.block| + 10 <= size && e.combined == CombineCrc(Combined(log), e)
    requires e.block != [] ==> e.crc == Crc.Check(Expand(e.block))
    requires log != [] ==> !log[|log| - 1].last
    requires Ripe(Lead(log), e.runs, e.block, e.full, size)
    requires if e.block == [] then ys == xs
             else |ys| == |xs| + 1 && ys[..|xs|] == xs && ys[|xs|].block == e.block && Made(ys[|xs|], size)
    ensures LogOk(log + [e], size) && CodedOk(log + [e], size) && Encodes(log + [e], ys) && AllMade(ys, size)
    ensures Covered(log + [e]) == Covered(log) + Expand(e.block) && Combined(log + [e]) == e.combined
  {
    hide *;
    CoveredMore(log, e);
    LogGrows(log, size, e);
    CodedMore(log, size, e);
    EncodesMore(log, xs, e, ys);
    AllMadeMore(xs, ys, size);
  }

  // ----- the bits delivered

  /** The bits of all bytes made so far, and those still in the bit buffer, are the
      stream up to the last block; after the last one they are the whole stream. */
  ghost predicate BitsOk(level: nat, xs: seq<Sent>, log: seq<Emission>, made: seq<byte>, buff: Register, live: int) {
    && 1 <= level <= 9 && BlocksOk(xs, 100000 * level) && Encodes(log, xs) && AllMade(xs, 100000 * level)
    && if log != [] && log[|log| - 1].last
       then -8 < live <= 0 && BytesBits(made) == StreamBits(level, xs) + Zeros(-live)
       else && 0 <= live <= 32 && (forall i :: live <= i < 32 ==> !buff[i])
            && Precedes(level, |log| + 1, xs, BytesBits(made) + buff[..live])
  }

  lemma BitsFacts(level: nat, xs: seq<Sent>, log: seq<Emission>, made: seq<byte>, buff: Register, live: int)
    requires BitsOk(level, xs, log, made, buff, live) && (log != [] ==> !log[|log| - 1].last)
    ensures 1 <= level <= 9 && BlocksOk(xs, 100000 * level) && Encodes(log, xs) && AllMade(xs, 100000 * level)
    ensures 0 <= live <= 32 && forall i :: live <= i < 32 ==> !buff[i]
    ensures Precedes(level, |log| + 1, xs, BytesBits(made) + buff[..live])
  {
    hide BlocksOk, AllMade, Encodes, Precedes;
  }

  lemma LastBits(level: nat, xs: seq<Sent>, log: seq<Emission>, made: seq<byte>, buff: Register, live: int)
    requires BitsOk(level, xs, log, made, buff, live) && log != [] && log[|log| - 1].last
    ensures 1 <= level <= 9 && BlocksOk(xs, 100000 * level) && Encodes(log, xs) && AllMade(xs, 100000 * level)
    ensures live <= 0 && BytesBits(made) == StreamBits(level, xs) + Zeros(-live)
  {
    hide BlocksOk, AllMade, Encodes, StreamBits;
  }

  lemma MoreBits(level: nat, xs: seq<Sent>, log: seq<Emission>, made: seq<byte>, zb: seq<byte>, buff: Register,
                 live: int)
    requires 1 <= level <= 9 && BlocksOk(xs, 100000 * level) && Encodes(log, xs) && log != []
    requires AllMade(xs, 100000 * level)
    requires if log[|log| - 1].last
             then -8 < live <= 0 && BytesBits(made) + BytesBits(zb) == StreamBits(level, xs) + Zeros(-live)
             else 0 <= live <= 32 && (forall i :: live <= i < 32 ==> !buff[i])
                  && BytesBits(made) + (BytesBits(zb) + buff[..live]) == SoFar(level, xs)
    ensures BitsOk(level, xs, log, made + zb, buff, live)
  {
    hide BlocksOk, AllMade, Encodes, SoFar, StreamBits;
    BytesBitsJoin(made, zb);
    if !log[|log| - 1].last { JoinBits(BytesBits(made), BytesBits(zb), buff[..live]); }
  }

  lemma PairBytes(b: seq<byte>, ch: byte)
    ensures b + [ch] == b + Pair(ch, 1)
    ensures b + [ch] + [ch] == b + Pair(ch, 2)
    ensures b + [ch] + [ch] + [ch] == b + Pair(ch, 3)
    ensures forall len :: 4 <= len <= 255 ==>
              b + [ch] + [ch] + [ch] + [ch] + [len - 4] == b + Pair(ch, len)
  {
  }

  lemma PendingMore(held: seq<byte>, ch: byte, len: nat)
    ensures held + Pending(ch, len + 1) == held + Pending(ch, len) + [ch]
    ensures Pending(ch, 1) == [ch] && Pending(256, 0) == []
  {
    RepeatMore(ch, len, 1);
  }

  lemma PendingNone(held: seq<byte>)
    ensures held + Pending(256, 0) == held
  {
  }

  // ----- the stream object

  datatype Mode = Idle | Running | Flushing | Finishing
  datatype State = Output | Input
  datatype Action = Run | Flush | Finish | OtherAction
  datatype ReturnCode = RunOk | FlushOk | FinishOk | StreamEnd | SequenceError | ParamError

  class Compressor {
    const size: nat
    const nblockMAX: nat
    const block: array<byte>
    const inUse: array<bool>
    const level: nat
    const workFactor: int
    const w: Writer
    var mode: Mode
    var state: State
    var availInExpect: nat
    var stateInCh: int
    var stateInLen: nat
    var nblock: nat
    var blockNo: nat
    var blockCRC: bv32
    var combinedCRC: bv32
    var zbits: seq<byte>
    var stateOutPos: nat
    var nextIn: seq<byte>
    var availOut: nat
    var delivered: seq<byte>
    ghost var log: seq<Emission>
    ghost var runs: seq<Copies>
    ghost var xs: seq<Sent>
    ghost var consumed: seq<byte>

    ghost predicate Shape()
      reads this`nblock, this`stateInCh, this`stateInLen
    {
      && size >= 100000 && block.Length == size && nblockMAX == size - 19 && inUse.Length == 256
      && nblock <= size && RunShape(stateInCh, stateInLen)
    }

    ghost predicate BlockHolds()
      reads this`nblock, this`stateInCh, this`stateInLen, this`blockCRC, block, inUse
    {
      && Shape()
      && BlockOk(block[..nblock], inUse[..], blockCRC)
      && Follows(block[..nblock], stateInCh)
    }

    /** The block is the coding of runs, and they and the pending run go on from the block before. */
    ghost predicate Coded()
      reads this`nblock, this`stateInCh, this`stateInLen, this`runs, this`log, block
    {
      nblock <= block.Length && Coding(Lead(log), runs, block[..nblock], stateInCh, stateInLen)
    }

    lemma CodedIs()
      ensures Coded() <==> nblock <= block.Length && Coding(Lead(log), runs, block[..nblock], stateInCh, stateInLen)
    {
      hide Coding;
    }

    /** What the block and the pending run stand for. */
    ghost function Held(): seq<byte>
      reads this`nblock, this`stateInCh, this`stateInLen, block
      requires nblock <= block.Length
    {
      Expand(block[..nblock]) + Pending(stateInCh, stateInLen)
    }

    method PutByte(x: byte)
      requires nblock < block.Length
      modifies this`nblock, block
      ensures nblock == old(nblock) + 1 && block[..nblock] == old(block[..nblock]) + [x]
    {
      block[nblock] := x;
      nblock := nblock + 1;
    }

    /** The check takes in a run. */
    method CheckRun(ch: byte, len: nat, ghost m: seq<byte>)
      requires blockCRC == Crc.UpdateAll(Crc.INITIAL, m)
      modifies this`blockCRC
      ensures blockCRC == Crc.UpdateAll(Crc.INITIAL, m + Repeat(ch, len))
    {
      hide *;
      CrcMore(Crc.INITIAL, m, ch, 0);
      for i := 0 to len
        invariant blockCRC == Crc.UpdateAll(Crc.INITIAL, m + Repeat(ch, i))
      {
        CrcMore(Crc.INITIAL, m, ch, i);
        blockCRC := Crc.Update(blockCRC, ch);
      }
    }

    /** The bytes of a run go into the block. */
    method WritePair(ch: byte, len: nat)
      requires 1 <= len <= 255 && nblock + 5 <= block.Length && inUse.Length == 256
      modifies this`nblock, block, inUse
      ensures nblock <= old(nblock) + 5 && block[..nblock] == old(block[..nblock]) + Pair(ch, len)
      ensures var u := old(inUse[..])[ch := true];
              inUse[..] == if len < 4 then u else u[len - 4 := true]
    {
      hide *;
      ghost var b, used := block[..nblock], inUse[..];
      inUse[ch] := true;
      assert inUse[..] == used[ch := true];
      PairBytes(b, ch);
      match len {
        case 1 =>
          PutByte(ch);
        case 2 =>
          PutByte(ch); PutByte(ch);
        case 3 =>
          PutByte(ch); PutByte(ch); PutByte(ch);
        case _ =>
          inUse[len - 4] := true;
          assert inUse[..] == used[ch := true][len - 4 := true];
          PutByte(ch); PutByte(ch); PutByte(ch); PutByte(ch);
          PutByte(len - 4);
      }
    }

    lemma RunFacts()
      requires BlockHolds()
      ensures nblock <= block.Length == size && inUse.Length == 256 && |inUse[..]| == 256
      ensures BlockOk(block[..nblock], inUse[..], blockCRC)
      ensures blockCRC == Crc.UpdateAll(Crc.INITIAL, Expand(block[..nblock]))
      ensures 0 <= stateInCh < 256 ==> 1 <= stateInLen <= 255 && Ready(block[..nblock], stateInCh)
      ensures Held() == Expand(block[..nblock]) + Pending(stateInCh, stateInLen)
      ensures 0 <= stateInCh < 256 ==> Pending(stateInCh, stateInLen) == Repeat(stateInCh, stateInLen)
      ensures stateInCh == 256 ==> forall c: byte :: Ready(block[..nblock], c)
      ensures stateInCh == 256 ==> stateInLen == 0 && Held() == Expand(block[..nblock])
      ensures 0 <= stateInCh <= 256
    {
      hide Crc.UpdateAll;
      PendingNone(Expand(block[..nblock]));
    }

    /** add_pair_to_block */
    method AddPairToBlock()
      requires BlockHolds() && stateInCh < 256 && nblock + 5 <= size
      modifies this`nblock, this`blockCRC, block, inUse
      ensures nblock <= size && BlockOk(block[..nblock], inUse[..], blockCRC)
      ensures nblock <= old(nblock) + 5 && Expand(block[..nblock]) == old(Held())
      ensures 0 <= stateInCh && 1 <= stateInLen <= 255
      ensures block[..nblock] == old(block[..nblock]) + Pair(stateInCh, stateInLen)
      ensures forall d: byte :: d != stateInCh || stateInLen >= 4 ==> Ready(block[..nblock], d)
    {
      hide *;
      RunFacts();
      ghost var b, used, crc := block[..nblock], inUse[..], blockCRC;
      var ch: byte := stateInCh;
      CheckRun(ch, stateInLen, Expand(b));
      WritePair(ch, stateInLen);
      BlockOkPair(b, used, crc, inUse[..], blockCRC, ch, stateInLen);
    }

    lemma MakeHolds(zchh: int, len: nat)
      requires size >= 100000 && block.Length == size && nblockMAX == size - 19 && inUse.Length == 256
      requires nblock <= size && BlockOk(block[..nblock], inUse[..], blockCRC)
      requires stateInCh == zchh && stateInLen == len
      requires 0 <= zchh < 256 && 1 <= len <= 255 && Ready(block[..nblock], zchh)
      ensures BlockHolds()
      ensures Held() == Expand(block[..nblock]) + Pending(zchh, len)
    {
      hide BlockOk, Expand, Pending;
    }

    lemma ShapeFacts()
      requires BlockHolds()
      ensures size >= 100000 && block.Length == size && nblockMAX == size - 19 && inUse.Length == 256
    {
      hide BlockOk, Ready;
    }

    /** flush_RL: everything held is now in the block. */
    method FlushRL()
      requires BlockHolds() && nblock + 5 <= size && Coded() && Below(runs, 1, size)
      modifies this`nblock, this`blockCRC, this`stateInCh, this`stateInLen, this`runs, block, inUse
      ensures nblock <= size && BlockOk(block[..nblock], inUse[..], blockCRC)
      ensures Expand(block[..nblock]) == old(Held()) && stateInCh == 256 && stateInLen == 0
      ensures nblock <= old(nblock) + 5
      ensures Ripe(Lead(log), runs, block[..nblock], false, size)
    {
      hide *;
      ShapeFacts();
      RunFacts();
      CodedIs();
      ghost var lead, r := Lead(log), Copies(if 0 <= stateInCh < 256 then stateInCh else 0, stateInLen);
      NoRuns(lead, runs, block[..nblock], stateInCh, stateInLen);
      if stateInCh < 256 {
        RunCoded(lead, runs, block[..nblock], stateInCh, stateInLen);
        AddPairToBlock();
        BelowMore(runs, r, size);
        runs := runs + [r];
      } else {
        BelowLess(runs, size);
        NothingLeads(lead, runs);
      }
      stateInCh, stateInLen := 256, 0;
      MakeRipe(lead, runs, block[..nblock], false, size);
    }

    lemma NothingLeads(lead: seq<Copies>, runs: seq<Copies>)
      requires lead == [] && runs == []
      ensures Cut(lead + runs)
    {
    }

    /** The fast track of ADD_CHAR_TO_BLOCK: a run of one is over. */
    method AddSingle(zchh: byte)
      requires BlockHolds() && nblock + 5 <= size && zchh != stateInCh && stateInLen == 1 && Coded()
      modifies this`nblock, this`blockCRC, this`stateInCh, this`runs, block, inUse
      ensures BlockHolds() && Held() == old(Held()) + [zchh] && Coded() && OneMore(old(runs), runs)
      ensures nblock <= old(nblock) + 5 && stateInCh < 256
    {
      hide *;
      ShapeFacts();
      RunFacts();
      ghost var b, used, crc, held := block[..nblock], inUse[..], blockCRC, Held();
      var ch: byte := stateInCh;
      CodedIs();
      RunBegins(Lead(log), runs, b, ch, 1, zchh);
      CrcMore(Crc.INITIAL, Expand(b), ch, 0);
      blockCRC := Crc.Update(blockCRC, ch);
      inUse[stateInCh] := true;
      assert inUse[..] == used[ch := true];
      PairBytes(b, ch);
      PutByte(ch);
      BlockOkPair(b, used, crc, inUse[..], blockCRC, ch, 1);
      stateInCh := zchh;
      MakeHolds(zchh, 1);
      PendingMore(held, zchh, 0);
      ghost var before := runs;
      runs := runs + [Copies(ch, 1)];
      CodedIs();
      OneMoreIs(before, runs);
    }

    /** ADD_CHAR_TO_BLOCK: the block and the pending run stand for one byte more, and are still
        the coding of what they stand for: only a run of 255 is cut. */
    method AddCharToBlock(zchh: byte)
      requires BlockHolds() && nblock + 5 <= size && Coded()
      modifies this`nblock, this`blockCRC, this`stateInCh, this`stateInLen, this`runs, block, inUse
      ensures BlockHolds() && Held() == old(Held()) + [zchh] && Coded() && OneMore(old(runs), runs)
      ensures nblock <= old(nblock) + 5 && stateInCh < 256
    {
      hide *;
      ShapeFacts();
      RunFacts();
      ghost var held, before := Held(), runs;
      CodedIs();
      OneMoreIs(before, before);
      if zchh != stateInCh && stateInLen == 1 {
        AddSingle(zchh);
      } else if zchh != stateInCh || stateInLen == 255 {
        RunBegins(Lead(log), runs, block[..nblock], stateInCh, stateInLen, zchh);
        if stateInCh < 256 {
          AddPairToBlock();
          runs := runs + [Copies(stateInCh, stateInLen)];
          OneMoreIs(before, runs);
        }
        stateInCh, stateInLen := zchh, 1;
        MakeHolds(zchh, 1);
        PendingMore(held, zchh, 0);
        CodedIs();
      } else {
        RunGrows(Lead(log), runs, block[..nblock], stateInCh, stateInLen);
        PendingMore(Expand(block[..nblock]), zchh, stateInLen);
        stateInLen := stateInLen + 1;
        MakeHolds(zchh, stateInLen);
        CodedIs();
      }
    }

    lemma NotFull()
      requires Coded()
      ensures Cut(runs) && nblock <= block.Length && nblock == |Pairs(runs)|
    {
      hide Cut, Pairs, Lead;
    }

    // ----- input and output

    /** The log is in order, and output and bit buffer hold the stream for it. */
    ghost predicate OutputOk()
      reads this`log, this`xs, this`combinedCRC, this`zbits, this`stateOutPos, this`delivered, w
    {
      && LogOk(log, size) && CodedOk(log, size) && combinedCRC == Combined(log) && size == 100000 * level
      && stateOutPos <= |zbits| && BitsOk(level, xs, log, delivered + zbits[stateOutPos..], w.bsBuff, w.bsLive)
    }

    /** The body of both input loops. */
    method TakeByte()
      requires nextIn != [] && BlockHolds() && nblock < size - 19 && consumed == Covered(log) + Held() && Coded()
      modifies this`nblock, this`blockCRC, this`stateInCh, this`stateInLen, this`runs, this`nextIn, this`consumed,
               block, inUse
      ensures BlockHolds() && consumed == Covered(log) + Held() && stateInCh < 256
      ensures Coded() && Cut(runs) && (Below(old(runs), 1, size) ==> Below(runs, 1, size))
      ensures |nextIn| == |old(nextIn)| - 1 && consumed + nextIn == old(consumed) + old(nextIn)
      ensures nblock <= old(nblock) + 5
    {
      hide *;
      RunFacts();
      ghost var held := Held();
      var zchh := nextIn[0];
      NotFull();
      ghost var before := runs;
      AddCharToBlock(zchh);
      NotFull();
      StillBelow(before, runs, size);
      nextIn := nextIn[1..];
      Joined(Covered(log), held, [zchh]);
      assert [zchh] + nextIn == old(nextIn);
      Joined(consumed, [zchh], nextIn);
      consumed := consumed + [zchh];
    }

    /** copy_input_until_stop: takes input until the block is full, the input used up
        or the announced end reached. */
    method CopyInputUntilStop() returns (progress: bool)
      requires BlockHolds() && nblock <= nblockMAX + 4 && consumed == Covered(log) + Held()
      requires mode != Running ==> availInExpect == |nextIn|
      requires Coded() && Cut(runs) && Below(runs, 1, size)
      modifies this`nblock, this`blockCRC, this`stateInCh, this`stateInLen, this`runs, this`nextIn, this`consumed,
               this`availInExpect, block, inUse
      ensures BlockHolds() && nblock <= nblockMAX + 4 && consumed == Covered(log) + Held()
      ensures Coded() && Cut(runs) && Below(runs, 1, size)
      ensures mode != Running ==> availInExpect == |nextIn|
      ensures consumed + nextIn == old(consumed) + old(nextIn) && |nextIn| <= |old(nextIn)|
      ensures progress <==> |nextIn| < |old(nextIn)|
      ensures !progress ==> nblock == old(nblock)
      ensures nblock >= nblockMAX || nextIn == []
    {
      hide *;
      ShapeFacts();
      progress := false;
      if mode == Running {
        while true
          invariant BlockHolds() && nblock <= nblockMAX + 4 && consumed == Covered(log) + Held()
          invariant Coded() && Cut(runs) && Below(runs, 1, size)
          invariant consumed + nextIn == old(consumed) + old(nextIn) && |nextIn| <= |old(nextIn)|
          invariant progress <==> |nextIn| < |old(nextIn)|
          invariant !progress ==> nblock == old(nblock)
          decreases |nextIn|
        {
          if nblock >= nblockMAX { break; }
          if |nextIn| == 0 { break; }
          progress := true;
          TakeByte();
        }
      } else {
        while true
          invariant BlockHolds() && nblock <= nblockMAX + 4 && consumed == Covered(log) + Held()
          invariant Coded() && Cut(runs) && Below(runs, 1, size)
          invariant consumed + nextIn == old(consumed) + old(nextIn) && |nextIn| <= |old(nextIn)|
          invariant progress <==> |nextIn| < |old(nextIn)|
          invariant !progress ==> nblock == old(nblock)
          invariant availInExpect == |nextIn|
          decreases |nextIn|
        {
          if nblock >= nblockMAX { break; }
          if |nextIn| == 0 { break; }
          if availInExpect == 0 { break; }
          progress := true;
          TakeByte();
          availInExpect := availInExpect - 1;
        }
      }
    }

    /** copy_output_until_stop: delivers finished bytes until they or the space run out. */
    method CopyOutputUntilStop() returns (progress: bool)
      requires OutputOk()
      modifies this`availOut, this`delivered, this`stateOutPos
      ensures OutputOk() && delivered + zbits[stateOutPos..] == old(delivered + zbits[stateOutPos..])
      ensures stateOutPos <= |zbits| && (stateOutPos == |zbits| || availOut == 0)
      ensures old(delivered) <= delivered && |delivered| + availOut == |old(delivered)| + old(availOut)
      ensures progress <==> delivered != old(delivered)
    {
      hide LogOk, Combined, BitsOk;
      progress := false;
      while true
        invariant OutputOk() && delivered + zbits[stateOutPos..] == old(delivered + zbits[stateOutPos..])
        invariant old(delivered) <= delivered && |delivered| + availOut == |old(delivered)| + old(availOut)
        invariant progress <==> delivered != old(delivered)
        decreases |zbits| - stateOutPos
      {
        if availOut == 0 { break; }
        if stateOutPos >= |zbits| { break; }
        progress := true;
        Joined(delivered, [zbits[stateOutPos]], zbits[stateOutPos + 1..]);
        assert zbits[stateOutPos..] == [zbits[stateOutPos]] + zbits[stateOutPos + 1..];
        delivered := delivered + [zbits[stateOutPos]];
        stateOutPos := stateOutPos + 1;
        availOut := availOut - 1;
      }
    }

    // ----- blocks

    method ClearInUse()
      requires inUse.Length == 256
      modifies inUse
      ensures forall c :: 0 <= c < 256 ==> !inUse[c]
    {
      for i := 0 to 256
        invariant forall c :: 0 <= c < i ==> !inUse[c]
      {
        inUse[i] := false;
      }
    }

    /** prepare_new_block: all output is delivered, and an empty block begins. */
    method PrepareNewBlock()
      requires Shape() && OutputOk() && stateOutPos == |zbits|
      modifies this`nblock, this`zbits, this`stateOutPos, this`blockCRC, this`blockNo, inUse
      ensures Shape() && OutputOk() && zbits == [] && nblock == 0 && blockNo == old(blockNo) + 1
      ensures BlockOk([], inUse[..], blockCRC) && Follows([], stateInCh)
    {
      hide LogOk, CodedOk, Combined, BitsOk, Covered, BlockOk, Follows, Expand;
      nblock := 0;
      assert delivered + zbits[stateOutPos..] == delivered;
      zbits, stateOutPos := [], 0;
      blockCRC := Crc.INITIAL;
      ClearInUse();
      EmptyBlock(inUse[..], stateInCh);
      blockNo := blockNo + 1;
    }

    /** The block's check is complete and goes into the combined one. */
    method FinishCheck()
      requires nblock <= block.Length && Crc.Final(blockCRC) == Crc.Check(Expand(block[..nblock]))
      modifies this`blockCRC, this`combinedCRC
      ensures block[..nblock] != [] ==> blockCRC == Crc.Check(Expand(block[..nblock]))
      ensures combinedCRC == CombineCrc(old(combinedCRC), Emission(block[..nblock], blockCRC, false, 0, [], false))
    {
      hide *;
      ghost var c := combinedCRC;
      if nblock > 0 {
        blockCRC := Crc.Final(blockCRC);
        combinedCRC := Crc.Mix(combinedCRC, blockCRC);
      }
      CombineStep(c, Emission(block[..nblock], blockCRC, false, 0, [], false));
    }

    /** The block is sorted, coded and written to an empty output buffer. */
    method WriteOut(isLastBlock: bool) returns (ghost xs': seq<Sent>)
      requires w.Valid() && nblock <= block.Length
      requires Handed(block[..nblock], inUse[..], blockCRC, level)
      requires Precedes(level, blockNo, xs, BytesBits(delivered) + w.bsBuff[..w.bsLive])
      requires CombinedWith(combinedCRC, xs, block[..nblock], blockCRC)
      modifies this`zbits, w
      ensures zbits == w.zbits && 1 <= level <= 9 && BlocksOk(xs', 100000 * level)
      ensures if block[..nblock] == [] then xs' == xs
              else |xs'| == |xs| + 1 && xs'[..|xs|] == xs && xs'[|xs|].block == block[..nblock]
                   && Made(xs'[|xs|], 100000 * level)
      ensures !isLastBlock ==> w.Valid() && BytesBits(delivered) + w.Written() == SoFar(level, xs')
      ensures isLastBlock ==>
                -8 < w.bsLive <= 0
                && BytesBits(delivered) + BytesBits(w.zbits) == StreamBits(level, xs') + Zeros(-w.bsLive)
    {
      hide *;
      w.NewBuffer();
      xs' := CompressBits(w, blockNo, level, workFactor, block[..nblock], inUse[..], blockCRC, combinedCRC, isLastBlock,
                          xs, BytesBits(delivered));
      zbits := w.zbits;
    }

    /** BZ2_compressBlock: the finished check is combined with the others, and the block
        is sorted, coded and queued for output. */
    method CompressBlock(isLastBlock: bool, ghost full: bool)
      requires OutputOk() && zbits == [] && nblock + 10 <= size == block.Length && blockNo == |log| + 1
      requires BlockOk(block[..nblock], inUse[..], blockCRC)
      requires log != [] ==> !log[|log| - 1].last
      requires Ripe(Lead(log), runs, block[..nblock], full, size)
      modifies this`blockCRC, this`combinedCRC, this`zbits, this`log, this`runs, this`xs, w
      ensures OutputOk() && |log| == |old(log)| + 1 && runs == [] && log[..|old(log)|] == old(log)
      ensures var e := log[|log| - 1];
              e.last == isLastBlock && e.full == full && e.runs == old(runs) && e.block == block[..nblock]
      ensures Covered(log) == Covered(old(log)) + Expand(block[..nblock])
    {
      hide *;
      CompressFacts();
      FinishCheck();
      ghost var e := Emission(block[..nblock], blockCRC, isLastBlock, combinedCRC, runs, full);
      MakeWhole(e);
      var xs' := WriteOut(isLastBlock);
      EntryAdded(log, xs, e, xs', size);
      LogIs(log, e);
      log, xs, runs := log + [e], xs', [];
      MakeOutputOk();
    }

    /** What the back end needs of the block. */
    lemma MakeWhole(e: Emission)
      requires nblock <= block.Length && e.block == block[..nblock] && e.crc == blockCRC && e.combined == combinedCRC
      requires 1 <= level <= 9 && |e.block| + 10 <= 100000 * level && Whole(e.block) && inUse.Length == 256
      requires forall c: byte :: inUse[..][c] <==> c in e.block
      requires e.block != [] ==> e.crc == Crc.Check(Expand(e.block))
      requires Combined(log) == CombinedOf(xs, |xs|)
      requires combinedCRC == CombineCrc(Combined(log), Emission(e.block, blockCRC, false, 0, [], false))
      ensures Handed(block[..nblock], inUse[..], blockCRC, level)
      ensures CombinedWith(combinedCRC, xs, block[..nblock], blockCRC)
      ensures e.combined == CombineCrc(Combined(log), e)
    {
      hide *;
      SameCombine(Combined(log), e);
      MakeHanded(block[..nblock], inUse[..], blockCRC, level);
      MakeCombinedWith(combinedCRC, log, xs, e);
    }

    lemma CompressFacts()
      requires OutputOk() && zbits == [] && nblock + 10 <= size == block.Length && blockNo == |log| + 1
      requires BlockOk(block[..nblock], inUse[..], blockCRC) && (log != [] ==> !log[|log| - 1].last)
      ensures LogOk(log, size) && CodedOk(log, size) && combinedCRC == Combined(log) && stateOutPos == 0
      ensures 1 <= level <= 9 && size == 100000 * level && Encodes(log, xs) && w.Valid()
      ensures AllMade(xs, 100000 * level)
      ensures Precedes(level, blockNo, xs, BytesBits(delivered) + w.bsBuff[..w.bsLive])
      ensures Combined(log) == CombinedOf(xs, |xs|)
      ensures Whole(block[..nblock]) && Crc.Final(blockCRC) == Crc.Check(Expand(block[..nblock]))
      ensures |inUse[..]| == 256 && forall c: byte :: inUse[..][c] <==> c in block[..nblock]
    {
      assert delivered + zbits[stateOutPos..] == delivered;
      hide CodedOk, Combined, Expand, Whole, Crc.Final, Crc.UpdateAll, BitsOk, EntryOk;
      BitsFacts(level, xs, log, delivered, w.bsBuff, w.bsLive);
      SameSums(log, xs, size);
    }

    lemma MakeOutputOk()
      requires LogOk(log, size) && CodedOk(log, size) && combinedCRC == Combined(log) && stateOutPos == 0
      requires 1 <= level <= 9 && size == 100000 * level && AllMade(xs, 100000 * level)
      requires Encodes(log, xs) && BlocksOk(xs, 100000 * level) && log != [] && zbits == w.zbits
      requires !log[|log| - 1].last ==> w.Valid() && BytesBits(delivered) + w.Written() == SoFar(level, xs)
      requires log[|log| - 1].last ==>
                 -8 < w.bsLive <= 0
                 && BytesBits(delivered) + BytesBits(w.zbits) == StreamBits(level, xs) + Zeros(-w.bsLive)
      ensures OutputOk()
    {
      hide LogOk, CodedOk, AllMade, Combined, BitsOk, Encodes, BlocksOk, SoFar, StreamBits;
      MoreBits(level, xs, log, delivered, zbits, w.bsBuff, w.bsLive);
    }

    // ----- the state machine

    /** A block is being filled: log, block and pending run cover what was consumed. */
    ghost predicate InInput()
      reads this`state, this`mode, this`nblock, this`stateInCh, this`stateInLen, this`blockCRC, this`zbits, this`log,
            this`runs, this`consumed, this`blockNo, block, inUse
    {
      && state == Input && mode != Idle && BlockHolds() && nblock < nblockMAX && zbits == []
      && blockNo == |log| + 1
      && (log != [] ==> !log[|log| - 1].last)
      && consumed == Covered(log) + Held()
      && Coded() && Cut(runs) && Below(runs, 1, size)
    }

    /** A block is being output. The pending run, if any, goes to the next one; there is
        none only at the end of a flush or of the stream. */
    ghost predicate InOutput()
      reads this`state, this`mode, this`nblock, this`stateInCh, this`stateInLen, this`log, this`runs, this`consumed,
            this`availInExpect, this`blockNo
    {
      && state == Output && Shape() && nblock + 10 <= size && log != [] && blockNo == |log|
      && consumed == Covered(log) + Pending(stateInCh, stateInLen)
      && (stateInCh == 256 ==> availInExpect == 0 && mode != Running)
      && (log[|log| - 1].last <==> stateInCh == 256 && mode != Flushing)
      && runs == [] && Coding(Lead(log), [], [], stateInCh, stateInLen)
    }

    /** What every call finds and leaves. */
    ghost predicate Valid()
      reads this, block, inUse, w
    {
      && OutputOk() && (InInput() || InOutput())
      && (mode == Idle ==> stateOutPos == |zbits|)
    }

    predicate IsEmptyRL()
      reads this`stateInCh, this`stateInLen
    {
      !(stateInCh < 256 && stateInLen > 0)
    }

    /** The output of a block is complete, and another block begins. */
    method NextBlock()
      requires OutputOk() && InOutput() && stateOutPos == |zbits| && mode != Idle
      requires !(mode == Finishing && stateInCh == 256)
      modifies this`nblock, this`zbits, this`stateOutPos, this`blockCRC, this`blockNo, this`state, inUse
      ensures OutputOk() && InInput()
    {
      hide *;
      OutputFacts();
      PrepareNewBlock();
      state := Input;
      assert block[..nblock] == [];
      StartsInput();
    }

    lemma OutputFacts()
      requires InOutput()
      ensures state == Output && Shape() && nblock + 10 <= size && log != [] && RunShape(stateInCh, stateInLen)
      ensures consumed == Covered(log) + Pending(stateInCh, stateInLen)
      ensures stateInCh == 256 ==> availInExpect == 0 && mode != Running && stateInLen == 0
      ensures log[|log| - 1].last <==> stateInCh == 256 && mode != Flushing
      ensures (IsEmptyRL() <==> stateInCh == 256) && blockNo == |log|
      ensures runs == [] && Coding(Lead(log), [], [], stateInCh, stateInLen)
    {
      hide Coding, Lead;
    }

    lemma StartsInput()
      requires Shape() && state == Input && mode != Idle && nblock == 0 && zbits == [] && blockNo == |log| + 1
      requires BlockOk([], inUse[..], blockCRC) && Follows([], stateInCh) && block[..nblock] == []
      requires log != [] ==> !log[|log| - 1].last
      requires consumed == Covered(log) + Pending(stateInCh, stateInLen)
      requires runs == [] && Coding(Lead(log), [], [], stateInCh, stateInLen)
      ensures InInput()
    {
      assert Expand([]) == [];
      assert [] + Pending(stateInCh, stateInLen) == Pending(stateInCh, stateInLen);
      EmptyCut();
      hide BlockOk, Follows, Covered, Pending, Expand, Coding, Lead;
    }

    lemma InputFacts()
      requires InInput()
      ensures state == Input && BlockHolds() && nblock < nblockMAX == size - 19 && zbits == [] && size >= 100000
      ensures log != [] ==> !log[|log| - 1].last
      ensures consumed == Covered(log) + Held() && block.Length == size && blockNo == |log| + 1
      ensures Coded() && Cut(runs) && Below(runs, 1, size)
    {
      hide BlockOk, Follows, Covered, Pending, Expand, Coded, Below, Cut;
    }

    lemma MakeInput()
      requires state == Input && mode != Idle && BlockHolds() && nblock < nblockMAX && zbits == []
      requires log != [] ==> !log[|log| - 1].last
      requires consumed == Covered(log) + Held() && blockNo == |log| + 1
      requires Coded() && Cut(runs) && Below(runs, 1, size)
      ensures InInput()
    {
      hide Coded, Below, Cut, BlockHolds;
    }

    lemma WhichState()
      requires OutputOk() && (InInput() || InOutput())
      ensures if state == Output then InOutput() else InInput()
      ensures stateOutPos <= |zbits|
    {
      hide LogOk, BlockHolds, Combined, Covered, BitsOk;
    }

    lemma ValidFacts()
      requires Valid()
      ensures OutputOk() && (InInput() || InOutput())
      ensures mode == Idle ==> stateOutPos == |zbits|
    {
    }

    lemma MakeValid()
      requires OutputOk() && (InInput() || InOutput()) && (mode == Idle ==> stateOutPos == |zbits|)
      ensures Valid()
    {
    }

    /** A flush or the end: the pending run and the block are handed over. */
    method EmitAll()
      requires OutputOk() && BlockHolds() && nblock <= nblockMAX + 4 && zbits == [] && mode != Running && mode != Idle
      requires log != [] ==> !log[|log| - 1].last
      requires consumed == Covered(log) + Held() && availInExpect == 0 && blockNo == |log| + 1
      requires Coded() && Cut(runs) && Below(runs, 1, size)
      modifies this`nblock, this`blockCRC, this`stateInCh, this`stateInLen, this`combinedCRC, this`zbits,
               this`log, this`runs, this`xs, this`state, block, inUse, w
      ensures OutputOk() && InOutput() && stateInCh == 256 && state == Output
      ensures |log| == |old(log)| + 1 && !log[|log| - 1].full
    {
      hide *;
      ShapeFacts();
      FlushRL();
      CompressBlock(mode == Finishing, false);
      state := Output;
      PendingNone(Covered(log));
      FlushLeads(log, size);
      StartsOutput();
    }

    lemma StartsOutput()
      requires size >= 100000 && block.Length == size && nblockMAX == size - 19 && inUse.Length == 256
      requires state == Output && nblock + 10 <= size && RunShape(stateInCh, stateInLen) && log != []
               && blockNo == |log|
      requires consumed == Covered(log) + Pending(stateInCh, stateInLen)
      requires stateInCh == 256 ==> availInExpect == 0 && mode != Running
      requires log[|log| - 1].last <==> stateInCh == 256 && mode != Flushing
      requires runs == [] && Coding(Lead(log), [], [], stateInCh, stateInLen)
      ensures InOutput()
    {
      hide Coding, Lead;
    }

    /** The block is full: it is handed over, the pending run stays. */
    method EmitFull()
      requires OutputOk() && BlockHolds() && nblockMAX <= nblock <= nblockMAX + 4 && zbits == [] && mode != Idle
      requires log != [] ==> !log[|log| - 1].last
      requires consumed == Covered(log) + Held() && blockNo == |log| + 1
      requires Coded() && Cut(runs) && Below(runs, 1, size)
      modifies this`blockCRC, this`combinedCRC, this`zbits, this`log, this`runs, this`xs, this`state, w
      ensures OutputOk() && InOutput() && stateInCh < 256 && state == Output
      ensures |log| == |old(log)| + 1 && log[|log| - 1].full
    {
      hide *;
      ShapeFacts();
      RunFacts();
      FullHasRun();
      CodedIs();
      ghost var l := log;
      NoRuns(Lead(log), runs, block[..nblock], stateInCh, stateInLen);
      assert |block[..nblock]| > 0;
      FullLeads(Lead(log), runs, block[..nblock], stateInCh, stateInLen);
      MakeRipe(Lead(log), runs, block[..nblock], true, size);
      CompressBlock(false, true);
      FullLead(log);
      state := Output;
      Joined(Covered(l), Expand(block[..nblock]), Pending(stateInCh, stateInLen));
      StartsOutput();
    }

    lemma FullHasRun()
      requires BlockHolds() && nblock > 0
      ensures RunShape(stateInCh, stateInLen) && stateInCh < 256
    {
      assert |block[..nblock]| > 0;
    }

    /** The first half of the loop of handle_compress, in output state. */
    method OutputStep() returns (progress: bool, stop: bool)
      requires OutputOk() && InOutput() && mode != Idle && (mode != Running ==> availInExpect == |nextIn|)
      modifies this`availOut, this`delivered, this`stateOutPos, this`nblock, this`zbits, this`blockCRC, this`blockNo,
               this`state, inUse
      ensures OutputOk() && if state == Output then InOutput() else InInput()
      ensures !stop ==> state == Input && stateInCh < 256
      ensures stop && state == Output && stateOutPos < |zbits| ==> availOut == 0
      ensures stop && state == Output && stateOutPos >= |zbits| ==> mode == Finishing && stateInCh == 256
      ensures stop && state == Input ==> nextIn == [] && mode == Flushing && stateInCh == 256
      ensures stop ==> stateOutPos <= |zbits|
      ensures Added(old(delivered), delivered, old(availOut), availOut, progress)
    {
      hide *;
      OutputFacts();
      progress := CopyOutputUntilStop();
      AddedIs(old(delivered), delivered, old(availOut), availOut, progress);
      if stateOutPos < |zbits| { return progress, true; }
      if mode == Finishing && availInExpect == 0 && IsEmptyRL() { return progress, true; }
      ghost var ch, len := stateInCh, stateInLen;
      NextBlock();
      assert stateInCh == ch && stateInLen == len;
      StateOfInput();
      stop := mode == Flushing && availInExpect == 0 && IsEmptyRL();
    }

    lemma StateOfInput()
      requires InInput() && OutputOk()
      ensures state == Input && stateOutPos == |zbits| && (IsEmptyRL() <==> stateInCh == 256) && stateInCh <= 256
    {
      hide LogOk, Combined, Covered, BitsOk, Held, BlockOk, Follows;
    }

    /** The second half, in input state. */
    method InputStep() returns (progress: bool, stop: bool)
      requires OutputOk() && InInput() && mode != Idle && (mode != Running ==> availInExpect == |nextIn|)
      modifies this`nblock, this`blockCRC, this`stateInCh, this`stateInLen, this`nextIn, this`consumed,
               this`availInExpect, this`combinedCRC, this`zbits, this`log, this`runs, this`xs, this`state, block,
               inUse, w
      ensures OutputOk() && if state == Output then InOutput() else InInput()
      ensures mode != Running ==> availInExpect == |nextIn|
      ensures consumed + nextIn == old(consumed) + old(nextIn) && |nextIn| <= |old(nextIn)|
      ensures progress <==> |nextIn| < |old(nextIn)|
      ensures stop ==> state == Input && nextIn == [] && mode == Running && log == old(log)
      ensures !stop ==> |log| == |old(log)| + 1
                        && (log[|log| - 1].full <==> mode == Running || availInExpect > 0)
      ensures !stop ==> state == Output && (|nextIn| < |old(nextIn)| || stateInCh == 256)
    {
      hide *;
      InputFacts();
      progress := CopyInputUntilStop();
      if mode != Running && availInExpect == 0 {
        EmitAll();
        OutputFacts();
        stop := false;
      } else if nblock >= nblockMAX {
        EmitFull();
        stop := false;
      } else {
        stop := |nextIn| == 0;
        MakeInput();
      }
    }

    /** What one call does to what went before: it is added to, as far as there is room. */
    ghost predicate Grew(consumed0: seq<byte>, delivered0: seq<byte>, room: nat)
      reads this`consumed, this`delivered, this`availOut
    {
      consumed0 <= consumed && delivered0 <= delivered && |delivered| + availOut == |delivered0| + room
    }

    lemma MakeGrew(consumed0: seq<byte>, delivered0: seq<byte>, room: nat)
      requires consumed0 <= consumed && delivered0 <= delivered && |delivered| + availOut == |delivered0| + room
      ensures Grew(consumed0, delivered0, room)
    {
    }

    /** handle_compress: moves bytes until the input is used up, the space is, or a
        flush or the stream is complete. It terminates, loses nothing, and keeps the
        announced input in step with the real one. */
    method HandleCompress() returns (progress: bool)
      requires Valid() && mode != Idle && (mode != Running ==> availInExpect == |nextIn|)
      modifies this, block, inUse, w
      ensures Valid() && mode == old(mode) && (mode != Running ==> availInExpect == |nextIn|)
      ensures consumed + nextIn == old(consumed) + old(nextIn)
      ensures state == Output && stateOutPos < |zbits| ==> availOut == 0
      ensures state == Output && stateOutPos >= |zbits| ==> mode == Finishing && stateInCh == 256
      ensures state == Input ==> nextIn == [] && (mode != Running ==> mode == Flushing && stateInCh == 256)
      ensures Grew(old(consumed), old(delivered), old(availOut))
      ensures progress <==> consumed != old(consumed) || delivered != old(delivered)
    {
      hide *;
      ValidFacts();
      AddedIs(delivered, delivered, availOut, availOut, false);
      var progressIn, progressOut, p, stop := false, false, false, false;
      while true
        invariant OutputOk() && (InInput() || InOutput()) && mode == old(mode)
        invariant mode != Running ==> availInExpect == |nextIn|
        invariant consumed + nextIn == old(consumed) + old(nextIn) && |nextIn| <= |old(nextIn)|
        invariant Added(old(delivered), delivered, old(availOut), availOut, progressOut)
        invariant progressIn <==> |nextIn| < |old(nextIn)|
        decreases |nextIn|, if stateInCh < 256 then 1 else 0, if state == Input then 1 else 0
      {
        WhichState();
        if state == Output {
          ghost var before, room := delivered, availOut;
          p, stop := OutputStep();
          AddedMore(old(delivered), before, delivered, old(availOut), room, availOut, progressOut, p);
          progressOut := progressOut || p;
          if stop { break; }
        }
        if state == Input {
          p, stop := InputStep();
          progressIn := progressIn || p;
          if stop { break; }
        }
      }
      progress := progressIn || progressOut;
      Moved(consumed, nextIn, old(consumed), old(nextIn));
      AddedIs(old(delivered), delivered, old(availOut), availOut, progressOut);
      MakeGrew(old(consumed), old(delivered), old(availOut));
      MakeValid();
    }

    /** Nothing is held back: the blocks cover the input, and all bytes are delivered. */
    ghost predicate AllOut()
      reads this`consumed, this`log, this`stateOutPos, this`zbits
    {
      consumed == Covered(log) && stateOutPos == |zbits|
    }

    /** The bytes delivered are a whole stream for blocks that stand for the input. */
    ghost predicate Finished()
      reads this`consumed, this`delivered, this`xs, this`log, w
    {
      && 1 <= level <= 9 && BlocksOk(xs, 100000 * level) && consumed == ExpandAll(xs, |xs|)
      && Encodes(log, xs) && CodedOk(log, 100000 * level) && AllMade(xs, 100000 * level)
      && w.bsLive <= 0 && BytesBits(delivered) == StreamBits(level, xs) + Zeros(-w.bsLive)
    }

    /** Switches from running to flushing or finishing, announcing the input at hand. */
    method Announce(m: Mode)
      requires Valid() && mode == Running && (m == Flushing || m == Finishing)
      modifies this`mode, this`availInExpect
      ensures Valid() && mode == m && availInExpect == |nextIn|
    {
      hide OutputOk, Covered, BlockHolds, Held, Pending, Shape;
      availInExpect := |nextIn|;
      mode := m;
    }

    /** The flush or the stream is complete. */
    method SetMode(m: Mode)
      requires Valid() && ((mode == Flushing && m == Running && state == Input)
                           || (mode == Finishing && m == Idle && state == Output && stateOutPos == |zbits|))
      modifies this`mode
      ensures Valid() && mode == m
    {
      hide OutputOk, Covered, BlockHolds, Held, Pending;
      mode := m;
    }

    lemma FlushedAll()
      requires Valid() && state == Input && stateInCh == 256
      ensures AllOut() && stateOutPos == |zbits| && IsEmptyRL()
    {
      assert Follows(block[..nblock], stateInCh);
      hide Covered, BitsOk, LogOk, BlockOk, Combined;
      assert Held() == [];
      assert Covered(log) + [] == Covered(log);
    }

    lemma FinishedAll()
      requires Valid() && state == Output && stateOutPos >= |zbits| && stateInCh == 256 && mode == Finishing
      ensures AllOut() && Finished() && availInExpect == 0 && stateOutPos == |zbits| && IsEmptyRL()
    {
      hide *;
      ValidFacts();
      OutputIs();
      WhichState();
      OutputFacts();
      assert delivered + zbits[stateOutPos..] == delivered;
      LastBits(level, xs, log, delivered, w.bsBuff, w.bsLive);
      SameSums(log, xs, size);
      PendingNone(Covered(log));
      MakeFinished();
    }

    lemma OutputIs()
      requires OutputOk()
      ensures LogOk(log, size) && CodedOk(log, size) && combinedCRC == Combined(log) && size == 100000 * level
      ensures stateOutPos <= |zbits|
      ensures BitsOk(level, xs, log, delivered + zbits[stateOutPos..], w.bsBuff, w.bsLive)
      ensures forall i :: 0 <= i < |log| ==> EntryOk(log, size, i)
    {
      hide CodedOk, EntryOk, Combined, BitsOk;
    }

    lemma MakeFinished()
      requires 1 <= level <= 9 && BlocksOk(xs, 100000 * level) && consumed == ExpandAll(xs, |xs|)
      requires Encodes(log, xs) && CodedOk(log, 100000 * level) && AllMade(xs, 100000 * level)
      requires w.bsLive <= 0 && BytesBits(delivered) == StreamBits(level, xs) + Zeros(-w.bsLive)
      requires consumed == Covered(log) && stateOutPos == |zbits|
      ensures Finished() && AllOut()
    {
      hide BlocksOk, ExpandAll, Encodes, CodedOk, AllMade, StreamBits, Covered;
    }

    lemma NotAllOut()
      requires Valid()
      ensures state == Input || state == Output
      ensures stateOutPos <= |zbits|
      ensures state == Input ==> nblock < nblockMAX
    {
      hide Covered, BitsOk, LogOk, Combined, BlockHolds;
    }

    method GoOnFlushing() returns (r: ReturnCode)
      requires Valid() && mode == Flushing && availInExpect == |nextIn|
      modifies this, block, inUse, w
      ensures Valid() && consumed + nextIn == old(consumed) + old(nextIn)
      ensures Grew(old(consumed), old(delivered), old(availOut))
      ensures r == RunOk || r == FlushOk
      ensures r == RunOk ==> mode == Running && AllOut() && nextIn == []
      ensures r == FlushOk ==> mode == Flushing && availInExpect == |nextIn| && availOut == 0
    {
      hide *;
      var progress := HandleCompress();
      NotAllOut();
      if state == Input { FlushedAll(); }
      if availInExpect > 0 || !IsEmptyRL() || stateOutPos < |zbits| { return FlushOk; }
      SetMode(Running);
      return RunOk;
    }

    method GoOnFinishing() returns (r: ReturnCode)
      requires Valid() && mode == Finishing && availInExpect == |nextIn|
      modifies this, block, inUse, w
      ensures Valid() && consumed + nextIn == old(consumed) + old(nextIn)
      ensures Grew(old(consumed), old(delivered), old(availOut))
      ensures r == StreamEnd || r == FinishOk || r == SequenceError
      ensures r == SequenceError <==> consumed == old(consumed) && delivered == old(delivered)
      ensures r == StreamEnd ==> mode == Idle && Finished() && nextIn == []
      ensures r != StreamEnd ==> mode == Finishing && availInExpect == |nextIn|
      ensures r == FinishOk ==> availOut == 0
    {
      hide *;
      var progress := HandleCompress();
      if !progress { return SequenceError; }
      NotAllOut();
      if stateOutPos >= |zbits| { FinishedAll(); }
      if availInExpect > 0 || !IsEmptyRL() || stateOutPos < |zbits| { return FinishOk; }
      SetMode(Idle);
      return StreamEnd;
    }

    /** The action does not go on with what was begun, or the input was changed meanwhile. */
    predicate Refuses(action: Action)
      reads this`mode, this`availInExpect, this`nextIn
    {
      || mode == Idle
      || (mode == Flushing && (action != Flush || availInExpect != |nextIn|))
      || (mode == Finishing && (action != Finish || availInExpect != |nextIn|))
    }

    lemma RefusesIs(action: Action)
      ensures Refuses(action) <==> mode == Idle || (mode == Flushing && (action != Flush || availInExpect != |nextIn|))
                                   || (mode == Finishing && (action != Finish || availInExpect != |nextIn|))
      ensures Grew(consumed, delivered, availOut)
    {
    }

    /** BZ2_bzCompress. Every call keeps the books: input consumed so far is what the
        emitted blocks, the block being filled and the pending run stand for. */
    method BzCompress(action: Action) returns (r: ReturnCode)
      requires Valid()
      modifies this, block, inUse, w
      ensures Valid() && consumed + nextIn == old(consumed) + old(nextIn)
      ensures Grew(old(consumed), old(delivered), old(availOut))
      ensures old(Refuses(action)) ==> mode == old(mode) && log == old(log) && nextIn == old(nextIn)
                                       && delivered == old(delivered)
      ensures r == SequenceError <==>
                old(Refuses(action)) || (action == Finish && consumed == old(consumed) && delivered == old(delivered))
      ensures r == ParamError <==>
                old(mode) == Running && action != Flush && action != Finish
                && (action == OtherAction || (consumed == old(consumed) && delivered == old(delivered)))
      ensures r == StreamEnd ==> action == Finish && mode == Idle && Finished() && nextIn == []
      ensures r == RunOk && action == Flush ==> mode == Running && AllOut() && nextIn == []
      ensures r == FlushOk || r == FinishOk ==> availInExpect == |nextIn| && availOut == 0
      ensures r == RunOk && action == Run ==> mode == Running && (nextIn == [] || availOut == 0)
    {
      hide *;
      RefusesIs(action);
      match mode {
        case Idle => return SequenceError;
        case Running =>
          match action {
            case Run =>
              var progress := HandleCompress();
              return if progress then RunOk else ParamError;
            case Flush =>
              Announce(Flushing);
              r := GoOnFlushing();
            case Finish =>
              Announce(Finishing);
              r := GoOnFinishing();
            case OtherAction => return ParamError;
          }
        case Flushing =>
          if action != Flush { return SequenceError; }
          if availInExpect != |nextIn| { return SequenceError; }
          r := GoOnFlushing();
        case Finishing =>
          if action != Finish { return SequenceError; }
          if availInExpect != |nextIn| { return SequenceError; }
          r := GoOnFinishing();
      }
    }

    /** The caller's part between two calls: any input and any room for output. */
    method Supply(input: seq<byte>, room: nat)
      requires Valid()
      modifies this`nextIn, this`availOut
      ensures Valid() && nextIn == input && availOut == room
    {
      hide OutputOk, BlockHolds, Covered, Held, Pending;
      nextIn, availOut := input, room;
    }

    /** BZ2_bzCompressInit, for a block size of k times 100000. */
    constructor (k: nat, workFactor: int)
      requires 1 <= k <= 9 && 0 <= workFactor <= 250
      ensures Valid() && mode == Running && consumed == [] && log == [] && delivered == []
      ensures fresh(block) && fresh(inUse) && fresh(w) && level == k && size == 100000 * k
      ensures this.workFactor == (if workFactor == 0 then 30 else workFactor) && nblockMAX == 100000 * k - 19
    {
      size, nblockMAX, level := 100000 * k, 100000 * k - 19, k;
      this.workFactor := if workFactor == 0 then 30 else workFactor;
      block := new byte[100000 * k];
      inUse := new bool[256](_ => false);
      w := new Writer();
      mode, state, availInExpect, stateInCh, stateInLen := Running, Input, 0, 256, 0;
      nblock, blockNo, blockCRC, combinedCRC := 0, 1, Crc.INITIAL, 0;
      zbits, stateOutPos, nextIn, availOut, delivered, consumed, log, runs, xs := [], 0, [], 0, [], [], [], [], [];
      new;
      EmptyBlock(inUse[..], 256);
      NothingCoded();
      assert block[..nblock] == [];
      assert delivered + zbits[stateOutPos..] == [];
      assert Held() == [] && Covered(log) == [];
      NothingYet(level, w.bsBuff, w.bsLive);
      assert w.Written() == BytesBits(w.zbits) + w.bsBuff[..w.bsLive];
      hide BitsOk, Precedes, SoFar;
    }
  }

  /** Output d' is d with more, within the room; p says if there is more. */
  ghost predicate Added(d: seq<byte>, d': seq<byte>, room: nat, room': nat, p: bool) {
    d <= d' && |d'| + room' == |d| + room && (p <==> d' != d)
  }

  lemma AddedIs(d: seq<byte>, d': seq<byte>, room: nat, room': nat, p: bool)
    ensures Added(d, d', room, room', p) <==> d <= d' && |d'| + room' == |d| + room && (p <==> d' != d)
  {
  }

  lemma AddedMore(a: seq<byte>, b: seq<byte>, c: seq<byte>, i: nat, j: nat, k: nat, p: bool, q: bool)
    requires Added(a, b, i, j, p) && Added(b, c, j, k, q)
    ensures Added(a, c, i, k, p || q)
  {
    assert c[..|a|] == b[..|a|];
    assert |a| == |c| ==> |a| == |b| && |b| == |c|;
  }

  /** What has left the input is what has been added. */
  lemma Moved(a: seq<byte>, b: seq<byte>, c: seq<byte>, d: seq<byte>)
    requires a + b == c + d && |b| <= |d|
    ensures c <= a && (a != c <==> |b| < |d|)
  {
    assert a == (c + d)[..|a|] && (c + d)[..|c|] == c;
    assert |a| == |c| ==> b == d;
  }

  lemma NothingYet(level: nat, buff: Register, live: int)
    requires 1 <= level <= 9 && live == 0 && forall i :: 0 <= i < 32 ==> !buff[i]
    ensures BitsOk(level, [], [], [], buff, live)
  {
    assert BytesBits([]) + buff[..0] == [];
  }

  /** The runs are the same, or one more is there. */
  ghost predicate OneMore(before: seq<Copies>, runs: seq<Copies>) {
    runs == before || (|runs| == |before| + 1 && runs[..|before|] == before)
  }

  lemma OneMoreIs(before: seq<Copies>, runs: seq<Copies>)
    ensures OneMore(before, runs) <==> runs == before || (|runs| == |before| + 1 && runs[..|before|] == before)
  {
  }

  lemma StillBelow(before: seq<Copies>, runs: seq<Copies>, size: nat)
    requires Cut(before) && Cut(runs) && OneMore(before, runs) && |Pairs(before)| < size - 19
    ensures Below(before, 1, size) ==> Below(runs, 1, size)
  {
    hide Cut, Pairs, Below;
    if runs != before {
      assert runs == before + [runs[|before|]];
      BelowMore(before, runs[|before|], size);
    }
  }

  /** A block handed over at a flush leads nothing. */
  lemma FlushLeads(log: seq<Emission>, size: nat)
    requires log != [] && !log[|log| - 1].full
    ensures Coding(Lead(log), [], [], 256, 0) && RunShape(256, 0)
  {
    NothingCoded();
  }

  lemma FullLead(log: seq<Emission>)
    requires log != [] && log[|log| - 1].full && log[|log| - 1].runs != []
    ensures Lead(log) == [log[|log| - 1].runs[|log[|log| - 1].runs| - 1]]
  {
  }

  lemma LogIs(log: seq<Emission>, e: Emission)
    ensures |log + [e]| == |log| + 1 && (log + [e])[..|log|] == log && (log + [e])[|log|] == e && log + [e] != []
  {
  }

  lemma SameCombine(c: bv32, e: Emission)
    ensures CombineCrc(c, Emission(e.block, e.crc, false, 0, [], false)) == CombineCrc(c, e)
  {
    hide Crc.Mix;
  }

  lemma MakeHanded(b: seq<byte>, used: seq<bool>, crc: bv32, level: nat)
    requires 1 <= level <= 9 && |b| + 10 <= 100000 * level && Whole(b) && |used| == 256
    requires forall c: byte :: used[c] <==> c in b
    requires b != [] ==> crc == Crc.Check(Expand(b))
    ensures Handed(b, used, crc, level)
  {
  }

  lemma MakeCombinedWith(combined: bv32, log: seq<Emission>, xs: seq<Sent>, e: Emission)
    requires Combined(log) == CombinedOf(xs, |xs|) && combined == CombineCrc(Combined(log), e)
    ensures CombinedWith(combined, xs, e.block, e.crc)
  {
    hide Combined, CombinedOf, Crc.Mix;
  }

  lemma CombineStep(c: bv32, e: Emission)
    ensures e.block == [] ==> CombineCrc(c, e) == c
    ensures e.block != [] ==> CombineCrc(c, e) == Crc.Mix(c, e.crc)
  {
    hide Crc.Mix;
  }
}
