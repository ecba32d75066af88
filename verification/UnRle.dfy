/** Undoing the initial run-length coding while delivering output: the fast routine,
    which caches the state and jumps into the middle of its loop, and the small one.
    Both can stop after any byte and be called again. */
module UnRle {
  import opened Counting
  import opened RunLength
  import opened BwtDecode
  import opened SmallDecode
  import Crc

  // ----- what is delivered

  /** All a block of n bytes delivers. The reads s go two bytes beyond the block: when
      the count of the last run is missing, the byte read for it is used. */
  function Goal(s: seq<byte>, n: nat): seq<byte>
    requires n < |s|
  {
    Expand(if Unpack(s[..n]).copies < 4 then s[..n] else s[..n + 1])
  }

  ghost predicate Boundary(s: seq<byte>, n: nat, used: nat)
    requires 1 <= used <= n + 2 == |s|
  {
    && (used <= n ==> Ready(s[..used - 1], s[used - 1]))
    && (used == n + 1 ==> Whole(s[..n]))
    && (used == n + 2 ==> !Whole(s[..n]))
  }

  /** Between runs or within one: done is delivered, pend copies of ch are due, and
      the next run starts with byte number used - 1. */
  ghost predicate Between(s: seq<byte>, n: nat, used: nat, k0: byte, done: seq<byte>, ch: byte, pend: nat) {
    && 1 <= n && 1 <= used <= n + 2 == |s|
    && Boundary(s, n, used)
    && (used <= n ==> k0 == s[used - 1])
    && done + Repeat(ch, pend) == Expand(s[..used - 1])
  }

  lemma BetweenFacts(s: seq<byte>, n: nat, used: nat, k0: byte, done: seq<byte>, ch: byte, pend: nat)
    requires Between(s, n, used, k0, done, ch, pend)
    ensures 1 <= n && 1 <= used <= n + 2 == |s|
    ensures |done| + pend <= |Goal(s, n)| && done == Goal(s, n)[..|done|]
    ensures used <= n ==> k0 == s[used - 1] && |done| + pend < |Goal(s, n)|
    ensures used > n ==> |done| + pend == |Goal(s, n)|
    ensures used == n + 1 ==> Whole(s[..n])
    ensures used == n + 2 ==> !Whole(s[..n])
  {
    var g := if Whole(s[..n]) then n else n + 1;
    hide Repeat, Unpack;
    ExpandPrefix(s, used - 1, g);
    assert done + Repeat(ch, pend) <= Goal(s, n);
    if used <= n {
      UnpackNext(s, used - 1);
      ExpandPrefix(s, used, g);
    }
  }

  /** One byte of the run goes out. */
  lemma BetweenEmit(s: seq<byte>, n: nat, used: nat, k0: byte, done: seq<byte>, ch: byte, pend: nat)
    requires Between(s, n, used, k0, done, ch, pend) && pend > 0
    ensures Between(s, n, used, k0, done + [ch], ch, pend - 1)
  {
    RepeatMore(ch, 1, pend - 1);
    Joined(done, [ch], Repeat(ch, pend - 1));
  }

  lemma NoPending(s: seq<byte>, n: nat, used: nat, k0: byte, done: seq<byte>, ch: byte, ch': byte)
    requires Between(s, n, used, k0, done, ch, 0)
    ensures Between(s, n, used, k0, done, ch', 0)
    ensures done == Expand(s[..used - 1])
  {
    assert done + Repeat(ch, 0) == done == done + Repeat(ch', 0);
  }

  /** k bytes from number u - 1 on equal c. */
  ghost predicate Same(s: seq<byte>, u: nat, c: byte, k: nat) {
    1 <= u && u - 1 + k <= |s| && s[u - 1..u - 1 + k] == Repeat(c, k)
  }

  lemma SameMore(s: seq<byte>, u: nat, c: byte, k: nat)
    requires 1 <= u && u - 1 + k < |s| && (k == 0 || Same(s, u, c, k)) && s[u - 1 + k] == c
    ensures Same(s, u, c, k + 1)
  {
    RepeatMore(c, k, 1);
    assert s[u - 1..u + k] == s[u - 1..u - 1 + k] + [c];
  }

  /** A run of up to three bytes has been read. */
  lemma ShortRun(s: seq<byte>, n: nat, u: nat, c: byte, done: seq<byte>, ch: byte, k: nat, k0: byte)
    requires Between(s, n, u, c, done, ch, 0) && u <= n && 1 <= k <= 3 && u - 1 + k <= n
    requires Same(s, u, c, k)
    requires u - 1 + k == n || (s[u - 1 + k] == k0 && k0 != c)
    ensures Between(s, n, u + k, k0, done, c, k)
  {
    var b := s[..u - 1];
    NoPending(s, n, u, c, done, ch, c);
    hide Repeat, Unpack;
    AppendCopies(b, c, k);
    assert s[..u - 1 + k] == b + s[u - 1..u - 1 + k];
  }

  /** Four equal bytes and their count have been read. */
  lemma LongRun(s: seq<byte>, n: nat, u: nat, c: byte, done: seq<byte>, ch: byte)
    requires Between(s, n, u, c, done, ch, 0) && u + 3 <= n && Same(s, u, c, 4)
    ensures Between(s, n, u + 5, s[u + 4], done, c, s[u + 3] as int + 4)
  {
    var b := s[..u - 1];
    NoPending(s, n, u, c, done, ch, c);
    assert s[..u + 3] == b + s[u - 1..u + 3];
    hide Repeat, Unpack, UnpackByte;
    AppendCopies(b, c, 4);
    UnpackNext(s, u + 3);
    AddCount(Unpack(s[..u + 3]), s[u + 3]);
    RepeatMore(c, 4, s[u + 3]);
    Joined(done, Repeat(c, 4), Repeat(c, s[u + 3]));
  }

  // ----- reading one byte

  /** BZ_GET_FAST */
  method GetFast(tt: seq<int>, tPos: int, limit: nat, ghost s: seq<byte>, ghost pos: seq<int>, ghost k: nat)
    returns (bad: bool, c: byte, tPos': int)
    requires FastReads(tt, s, pos) && k < |s| && tPos == pos[k] && |tt| <= limit
    ensures !bad && c == s[k] && tPos' == pos[k + 1]
  {
    assert FastRead(tt, s, pos, k);
    bad := tPos >= limit;
    if bad { return; }
    c, tPos' := tt[tPos] % 256, tt[tPos] / 256;
  }

  /** BZ_GET_SMALL */
  method GetSmall(ll16: seq<int>, ll4: seq<int>, cftab: seq<int>, tPos: int, limit: nat, ghost n: nat,
                  ghost s: seq<byte>, ghost pos: seq<int>, ghost k: nat)
    returns (bad: bool, c: byte, tPos': int)
    requires n <= |ll16| && n <= 2 * |ll4| && n <= limit
    requires SmallReads(Pointers(ll16[..n], ll4), cftab, s, pos) && k < |s| && tPos == pos[k]
    ensures !bad && c == s[k] && tPos' == pos[k + 1]
  {
    assert SmallRead(Pointers(ll16[..n], ll4), cftab, s, pos, k);
    bad := tPos >= limit;
    if bad { return; }
    c := IndexIntoF(tPos, cftab);
    tPos' := GetLL(ll16, ll4, tPos);
  }

  // ----- the decompression state while a block is output

  class BlockOutput {
    const saveNblock: nat
    const limit: nat
    var tPos: int
    var k0: byte
    var stateOutCh: byte
    var stateOutLen: nat
    var nblockUsed: nat
    var calculatedBlockCRC: bv32
    var delivered: seq<byte>
    var availOut: nat

    /** The state fits the reads s, made at places pos. */
    ghost predicate Fits(s: seq<byte>, pos: seq<int>)
      reads this
    {
      && Between(s, saveNblock, nblockUsed, k0, delivered, stateOutCh, stateOutLen)
      && |pos| == |s| + 1 && tPos == pos[nblockUsed]
      && calculatedBlockCRC == Crc.UpdateAll(Crc.INITIAL, delivered)
    }

    /** The test of BZ2_bzDecompress for a finished block. */
    predicate Finished()
      reads this
    {
      nblockUsed == saveNblock + 1 && stateOutLen == 0
    }

    /** The end of BZ2_decompress: everything is ready to deliver the block, of which
        the first byte has been read. */
    constructor (n: nat, limit: nat, k0: byte, tPos: int, availOut: nat, ghost s: seq<byte>, ghost pos: seq<int>)
      requires 1 <= n && |s| == n + 2 && |pos| == n + 3 && k0 == s[0] && tPos == pos[1]
      ensures Fits(s, pos) && !Finished() && delivered == [] && saveNblock == n
      ensures this.limit == limit && this.availOut == availOut
    {
      this.saveNblock, this.limit, this.k0, this.tPos, this.availOut := n, limit, k0, tPos, availOut;
      stateOutLen, stateOutCh, nblockUsed, delivered := 0, 0, 1, [];
      calculatedBlockCRC := Crc.INITIAL;
    }

    /** The caller's part: room for more output. */
    method SetRoom(room: nat, ghost s: seq<byte>, ghost pos: seq<int>)
      requires Fits(s, pos)
      modifies this`availOut
      ensures Fits(s, pos) && availOut == room && Finished() == old(Finished())
    {
      availOut := room;
    }

    /** unRLE_obuf_to_output_FAST. Delivers the next bytes of the goal until it or the
        space runs out, and reports a block whose last count is missing as soon as
        all its bytes are out; then nothing is saved. */
    method Fast(tt: seq<int>, ghost s: seq<byte>, ghost pos: seq<int>) returns (corrupt: bool)
      requires Fits(s, pos) && FastReads(tt, s, pos) && |tt| <= limit
      modifies this
      ensures var goal := Goal(s, saveNblock); var total := |old(delivered)| + old(availOut);
              && (corrupt <==> !Whole(s[..saveNblock]) && |goal| <= total)
              && (corrupt ==> delivered == old(delivered) && availOut == old(availOut))
              && (!corrupt ==> Fits(s, pos) && availOut == total - |delivered|
                               && delivered == goal[..if |goal| <= total then |goal| else total]
                               && (Finished() <==> delivered == goal))
    {
      hide *;
      var n := saveNblock;
      ghost var total := |delivered| + availOut;
      FitsFacts(s, pos);
      var crc, ch, len, used, k, tPos, out, avail :=
        calculatedBlockCRC, stateOutCh, stateOutLen, nblockUsed, k0, tPos, delivered, availOut;
      var lenIsOne := false;
      while true
        invariant Between(s, n, used, k, out, ch, if lenIsOne then 1 else len)
        invariant |s| == n + 2 && |pos| == |s| + 1 && 1 <= used <= n + 2 && tPos == pos[used]
        invariant crc == Crc.UpdateAll(Crc.INITIAL, out)
        invariant |out| + avail == total
        invariant unchanged(this)
        decreases n + 2 - used, if len > 0 || lenIsOne then 1 else 0
      {
        BetweenFacts(s, n, used, k, out, ch, if lenIsOne then 1 else len);
        if len > 0 || lenIsOne {
          var full: bool;
          if !lenIsOne {
            full, crc, len, out, avail := FinishRun(s, n, used, k, crc, ch, len, out, avail);
            if full {
              BetweenFacts(s, n, used, k, out, ch, len);
              Save(s, pos, crc, ch, len, used, k, tPos, out, avail);
              return false;
            }
          }
          lenIsOne := false;
          if avail == 0 {
            len := 1;
            Save(s, pos, crc, ch, len, used, k, tPos, out, avail);
            return false;
          }
          BetweenEmit(s, n, used, k, out, ch, 1);
          Crc.UpdateOneMore(Crc.INITIAL, out, ch);
          crc := Crc.Update(crc, ch);
          out, avail := out + [ch], avail - 1;
        }
        BetweenFacts(s, n, used, k, out, ch, 0);
        if used > n + 1 { return true; }
        if used == n + 1 {
          len := 0;
          Save(s, pos, crc, ch, len, used, k, tPos, out, avail);
          return false;
        }
        len, lenIsOne, ch, used, k, tPos := StartRun(tt, s, pos, n, len, used, k, tPos, out, ch);
      }
    }

    lemma FitsFacts(s: seq<byte>, pos: seq<int>)
      requires Fits(s, pos)
      ensures Between(s, saveNblock, nblockUsed, k0, delivered, stateOutCh, stateOutLen)
      ensures 1 <= saveNblock && |s| == saveNblock + 2 && |pos| == |s| + 1
      ensures 1 <= nblockUsed <= saveNblock + 2 && tPos == pos[nblockUsed]
      ensures calculatedBlockCRC == Crc.UpdateAll(Crc.INITIAL, delivered)
    {
    }

    lemma DeliveredPart(s: seq<byte>, pos: seq<int>)
      requires Fits(s, pos)
      ensures saveNblock < |s| && |delivered| <= |Goal(s, saveNblock)|
      ensures delivered == Goal(s, saveNblock)[..|delivered|]
    {
      FitsFacts(s, pos);
      hide Goal, Between, Fits;
      BetweenFacts(s, saveNblock, nblockUsed, k0, delivered, stateOutCh, stateOutLen);
    }

    /** The state is written back from the local variables. */
    method Save(ghost s: seq<byte>, ghost pos: seq<int>, crc: bv32, ch: byte, len: nat, used: nat, k: byte, tPos: int,
                out: seq<byte>, avail: nat)
      requires Between(s, saveNblock, used, k, out, ch, len)
      requires |pos| == |s| + 1 && used < |pos| && tPos == pos[used]
      requires crc == Crc.UpdateAll(Crc.INITIAL, out)
      modifies this
      ensures Fits(s, pos) && delivered == out && availOut == avail
      ensures Finished() <==> used == saveNblock + 1 && len == 0
    {
      calculatedBlockCRC, stateOutCh, stateOutLen, nblockUsed := crc, ch, len, used;
      this.k0, this.tPos, delivered, availOut := k, tPos, out, avail;
    }

    /** The inner loop: writes the run except for its last byte. */
    static method FinishRun(ghost s: seq<byte>, ghost n: nat, ghost used: nat, ghost k: byte, crc0: bv32, ch: byte,
                            len0: nat, out0: seq<byte>, avail0: nat)
      returns (full: bool, crc: bv32, len: nat, out: seq<byte>, avail: nat)
      requires Between(s, n, used, k, out0, ch, len0) && len0 > 0 && crc0 == Crc.UpdateAll(Crc.INITIAL, out0)
      ensures Between(s, n, used, k, out, ch, len) && len > 0 && crc == Crc.UpdateAll(Crc.INITIAL, out)
      ensures |out| + avail == |out0| + avail0
      ensures full ==> avail == 0
      ensures !full ==> len == 1 && avail > 0
    {
      hide *;
      crc, len, out, avail := crc0, len0, out0, avail0;
      while true
        invariant Between(s, n, used, k, out, ch, len) && len > 0 && crc == Crc.UpdateAll(Crc.INITIAL, out)
        invariant |out| + avail == |out0| + avail0
        decreases len
      {
        if avail == 0 { return true, crc, len, out, avail; }
        if len == 1 { break; }
        BetweenEmit(s, n, used, k, out, ch, len);
        Crc.UpdateOneMore(Crc.INITIAL, out, ch);
        crc := Crc.Update(crc, ch);
        len, out, avail := len - 1, out + [ch], avail - 1;
      }
      full := false;
    }

    /** Reads the next run. lenIsOne stands for the jump to the code that writes one
        byte, with the length left as it is. */
    method StartRun(tt: seq<int>, ghost s: seq<byte>, ghost pos: seq<int>, n: nat, len0: nat, used0: nat, k: byte,
                    tPos0: int, ghost out: seq<byte>, ghost ch0: byte)
      returns (len: nat, lenIsOne: bool, ch: byte, used: nat, k': byte, tPos: int)
      requires FastReads(tt, s, pos) && |tt| <= limit && |pos| == |s| + 1
      requires Between(s, n, used0, k, out, ch0, 0) && used0 <= n && |s| == n + 2
      requires 1 <= used0 && k == s[used0 - 1] && tPos0 == pos[used0]
      ensures used0 < used <= n + 2 && tPos == pos[used]
      ensures Between(s, n, used, k', out, ch, if lenIsOne then 1 else len)
    {
      hide *;
      var bad, k1;
      len, lenIsOne, ch, used, k', tPos := len0, false, k, used0, k, tPos0;
      SameMore(s, used0, k, 0);
      bad, k1, tPos := GetFast(tt, tPos, limit, s, pos, used);
      used := used + 1;
      if k1 != k || used == n + 1 {
        if k1 != k { k' := k1; }
        lenIsOne := true;
        ShortRun(s, n, used0, k, out, ch0, 1, k');
        return;
      }
      SameMore(s, used0, k, 1);
      len := 2;
      bad, k1, tPos := GetFast(tt, tPos, limit, s, pos, used);
      used := used + 1;
      if used == n + 1 || k1 != k {
        if used != n + 1 { k' := k1; }
        ShortRun(s, n, used0, k, out, ch0, 2, k');
        return;
      }
      SameMore(s, used0, k, 2);
      len := 3;
      bad, k1, tPos := GetFast(tt, tPos, limit, s, pos, used);
      used := used + 1;
      if used == n + 1 || k1 != k {
        if used != n + 1 { k' := k1; }
        ShortRun(s, n, used0, k, out, ch0, 3, k');
        return;
      }
      SameMore(s, used0, k, 3);
      bad, k1, tPos := GetFast(tt, tPos, limit, s, pos, used);
      used := used + 1;
      len := k1 as int + 4;
      bad, k', tPos := GetFast(tt, tPos, limit, s, pos, used);
      used := used + 1;
      LongRun(s, n, used0, k, out, ch0);
    }

    /** What the small routine needs of its tables. */
    ghost predicate SmallTables(ll16: seq<int>, ll4: seq<int>, cftab: seq<int>, s: seq<byte>, pos: seq<int>) {
      && saveNblock <= |ll16| && saveNblock <= 2 * |ll4| && saveNblock <= limit
      && SmallReads(Pointers(ll16[..saveNblock], ll4), cftab, s, pos)
    }

    /** unRLE_obuf_to_output_SMALL. Delivers the same bytes; a missing count is only
        reported when there is room for a byte more. */
    method Small(ll16: seq<int>, ll4: seq<int>, cftab: seq<int>, ghost s: seq<byte>, ghost pos: seq<int>)
      returns (corrupt: bool)
      requires Fits(s, pos) && SmallTables(ll16, ll4, cftab, s, pos)
      modifies this
      ensures var goal := Goal(s, saveNblock); var total := |old(delivered)| + old(availOut);
              && (corrupt <==> !Whole(s[..saveNblock]) && |goal| < total)
              && Fits(s, pos) && availOut == total - |delivered|
              && delivered == goal[..if |goal| <= total then |goal| else total]
              && (Finished() <==> Whole(s[..saveNblock]) && delivered == goal)
    {
      hide *;
      ghost var total := |delivered| + availOut;
      FitsFacts(s, pos);
      while true
        invariant Fits(s, pos) && |delivered| + availOut == total
        decreases saveNblock + 2 - nblockUsed
      {
        FitsFacts(s, pos);
        var full := FinishRunSmall(s, pos);
        FitsFacts(s, pos);
        FinishedMeans();
        BetweenFacts(s, saveNblock, nblockUsed, k0, delivered, stateOutCh, stateOutLen);
        if full { return false; }
        if nblockUsed == saveNblock + 1 { return false; }
        if nblockUsed > saveNblock + 1 { return true; }
        StartRunSmall(ll16, ll4, cftab, s, pos);
        FitsFacts(s, pos);
      }
    }

    lemma FinishedMeans()
      ensures Finished() <==> nblockUsed == saveNblock + 1 && stateOutLen == 0
    {
    }

    /** Writes the whole run, or as much as fits. */
    method FinishRunSmall(ghost s: seq<byte>, ghost pos: seq<int>) returns (full: bool)
      requires Fits(s, pos)
      modifies this
      ensures Fits(s, pos) && |delivered| + availOut == |old(delivered)| + old(availOut)
      ensures nblockUsed == old(nblockUsed)
      ensures full ==> availOut == 0
      ensures !full ==> availOut > 0 && stateOutLen == 0
    {
      while true
        invariant Fits(s, pos) && |delivered| + availOut == |old(delivered)| + old(availOut)
        invariant nblockUsed == old(nblockUsed)
        decreases stateOutLen
      {
        if availOut == 0 { return true; }
        if stateOutLen == 0 { break; }
        EmitSmall(s, pos);
      }
      full := false;
    }

    method EmitSmall(ghost s: seq<byte>, ghost pos: seq<int>)
      requires Fits(s, pos) && availOut > 0 && stateOutLen > 0
      modifies this
      ensures Fits(s, pos) && nblockUsed == old(nblockUsed)
      ensures stateOutLen == old(stateOutLen) - 1 && availOut == old(availOut) - 1
      ensures |delivered| == |old(delivered)| + 1
    {
      hide *;
      FitsFacts(s, pos);
      BetweenEmit(s, saveNblock, nblockUsed, k0, delivered, stateOutCh, stateOutLen);
      Crc.UpdateOneMore(Crc.INITIAL, delivered, stateOutCh);
      delivered := delivered + [stateOutCh];
      calculatedBlockCRC := Crc.Update(calculatedBlockCRC, stateOutCh);
      stateOutLen, availOut := stateOutLen - 1, availOut - 1;
      MakeFits(s, pos);
    }

    lemma MakeFits(s: seq<byte>, pos: seq<int>)
      requires Between(s, saveNblock, nblockUsed, k0, delivered, stateOutCh, stateOutLen)
      requires |pos| == |s| + 1 && nblockUsed < |pos| && tPos == pos[nblockUsed]
      requires calculatedBlockCRC == Crc.UpdateAll(Crc.INITIAL, delivered)
      ensures Fits(s, pos)
    {
    }

    /** Reads the next run. */
    method StartRunSmall(ll16: seq<int>, ll4: seq<int>, cftab: seq<int>, ghost s: seq<byte>, ghost pos: seq<int>)
      requires Fits(s, pos) && SmallTables(ll16, ll4, cftab, s, pos)
      requires stateOutLen == 0 && nblockUsed <= saveNblock
      modifies this
      ensures Fits(s, pos) && delivered == old(delivered) && availOut == old(availOut)
      ensures nblockUsed > old(nblockUsed)
    {
      hide *;
      FitsFacts(s, pos);
      var n, k := saveNblock, k0;
      ghost var u, ch := nblockUsed, stateOutCh;
      BetweenFacts(s, n, u, k, delivered, ch, 0);
      SameMore(s, u, k, 0);
      var k1 := NextSmall(ll16, ll4, cftab, s, pos);
      stateOutLen, stateOutCh := 1, k;
      if nblockUsed == n + 1 || k1 != k {
        EndRunSmall(k1, s, pos, u, ch);
        return;
      }
      SameMore(s, u, k, 1);
      k1 := NextSmall(ll16, ll4, cftab, s, pos);
      stateOutLen := 2;
      if nblockUsed == n + 1 || k1 != k {
        EndRunSmall(k1, s, pos, u, ch);
        return;
      }
      SameMore(s, u, k, 2);
      k1 := NextSmall(ll16, ll4, cftab, s, pos);
      stateOutLen := 3;
      if nblockUsed == n + 1 || k1 != k {
        EndRunSmall(k1, s, pos, u, ch);
        return;
      }
      SameMore(s, u, k, 3);
      k1 := NextSmall(ll16, ll4, cftab, s, pos);
      stateOutLen := k1 as int + 4;
      k1 := NextSmall(ll16, ll4, cftab, s, pos);
      k0 := k1;
      LongRun(s, n, u, k, delivered, ch);
      MakeFits(s, pos);
    }

    /** A run of fewer than four bytes is over, k1 being the byte after it. */
    method EndRunSmall(k1: byte, ghost s: seq<byte>, ghost pos: seq<int>, ghost u: nat, ghost ch: byte)
      requires Between(s, saveNblock, u, stateOutCh, delivered, ch, 0) && 1 <= u <= saveNblock == |s| - 2
      requires Same(s, u, stateOutCh, stateOutLen) && 1 <= stateOutLen <= 3
      requires nblockUsed == u + stateOutLen <= saveNblock + 1 && k1 == s[nblockUsed - 1]
      requires nblockUsed == saveNblock + 1 || k1 != stateOutCh
      requires |pos| == |s| + 1 && tPos == pos[nblockUsed]
      requires calculatedBlockCRC == Crc.UpdateAll(Crc.INITIAL, delivered)
      modifies this`k0
      ensures Fits(s, pos)
    {
      hide *;
      if nblockUsed != saveNblock + 1 { k0 := k1; }
      ShortRun(s, saveNblock, u, stateOutCh, delivered, ch, stateOutLen, k0);
      MakeFits(s, pos);
    }

    /** BZ_GET_SMALL and the counting of the byte read. */
    method NextSmall(ll16: seq<int>, ll4: seq<int>, cftab: seq<int>, ghost s: seq<byte>, ghost pos: seq<int>)
      returns (k1: byte)
      requires SmallTables(ll16, ll4, cftab, s, pos)
      requires nblockUsed < |s| < |pos| && tPos == pos[nblockUsed]
      modifies this`tPos, this`nblockUsed
      ensures k1 == s[old(nblockUsed)] && nblockUsed == old(nblockUsed) + 1 && tPos == pos[nblockUsed]
    {
      var bad;
      bad, k1, tPos := GetSmall(ll16, ll4, cftab, tPos, limit, saveNblock, s, pos, nblockUsed);
      nblockUsed := nblockUsed + 1;
    }
  }
}
