/** Whatever the bits are, decoding them comes to one thing: neither the layout nor the portions of
    input and output can make a difference. */
module Verdict {
  import opened Counting
  import opened MoveToFront
  import opened MtfCoding
  import opened ByteMaps
  import opened BitStream
  import opened Huffman
  import opened Tables
  import opened Block
  import opened Headers
  import opened RunLength
  import opened Stream
  import opened Decompress
  import Crc
  import Receiving
  import SmallDecode
  import UnRle

  // ----- one symbol

  lemma {:induction false} WalkSame(len: seq<byte>, lo: nat, hi: nat, t: Table, u: Table, zn: nat, zvec: nat,
                                    bs: seq<bool>)
    requires Lengths(len, lo, hi) && lo in len
    requires DecodeTables(len, lo, hi, t.limit, t.base, t.perm) && DecodeTables(len, lo, hi, u.limit, u.base, u.perm)
    requires t.perm[..|len|] == u.perm[..|len|]
    requires lo <= zn && if zn <= hi then zvec >= FirstCode(len, lo, zn) else zvec >= 1
    ensures WalkCode(t.limit, t.base, t.perm, zn, zvec, bs) == WalkCode(u.limit, u.base, u.perm, zn, zvec, bs)
    decreases |bs|
  {
    if zn <= hi {
      assert t.limit[zn] == NextCode(len, lo, zn) - 1 && t.base[zn] == FirstCode(len, lo, zn) - CountLess(len, zn);
      assert u.limit[zn] == NextCode(len, lo, zn) - 1 && u.base[zn] == FirstCode(len, lo, zn) - CountLess(len, zn);
      if zvec <= t.limit[zn] {
        CountStep(len, zn);
        var k := zvec - t.base[zn];
        assert 0 <= k < |len| ==> t.perm[k] == t.perm[..|len|][k] == u.perm[..|len|][k] == u.perm[k];
      } else if bs != [] {
        LowestUsed(len, lo, zn);
        WalkSame(len, lo, hi, t, u, zn + 1, 2 * zvec + (if bs[0] then 1 else 0), bs[1..]);
      }
    } else if zn <= 20 {
      assert t.limit[zn] == 0 && u.limit[zn] == 0;
      if bs != [] { WalkSame(len, lo, hi, t, u, zn + 1, 2 * zvec + (if bs[0] then 1 else 0), bs[1..]); }
    }
  }

  /** Tables for the same lengths read the same symbols. */
  lemma ReadSame(t: Table, u: Table, len: seq<byte>, bs: seq<bool>)
    requires TableFor(t, len) && TableFor(u, len) && AllLengths(len)
    ensures |t.limit| == |t.base| == 23 && |t.perm| == 258 && |u.limit| == |u.base| == 23 && |u.perm| == 258
    ensures ReadSymbol(t.limit, t.base, t.perm, t.minLen, bs) == ReadSymbol(u.limit, u.base, u.perm, u.minLen, bs)
  {
    SmallDecode.LinksUnique(len, t.perm[..|len|], u.perm[..|len|]);
    if t.minLen <= |bs| {
      var lo := MinLen(len);
      WalkSame(len, lo, MaxLen(len), t, u, lo, Value(bs[..lo]), bs[lo..]);
    }
  }

  // ----- all symbols

  ghost predicate Shapes(tabs: seq<Table>) {
    forall t :: 0 <= t < |tabs| ==> |tabs[t].limit| == |tabs[t].base| == 23 && |tabs[t].perm| == 258
  }

  lemma ReadAtSame(tabs: seq<Table>, tabs': seq<Table>, lens: seq<seq<byte>>, a: nat, i: nat, bs: seq<bool>)
    requires TablesFor(tabs, lens) && TablesFor(tabs', lens) && AlphabetOf(lens, a) && i < |lens|
    requires Shapes(tabs) && Shapes(tabs')
    ensures |tabs| == |tabs'| == |lens|
    ensures ReadSymbol(tabs[i].limit, tabs[i].base, tabs[i].perm, tabs[i].minLen, bs)
            == ReadSymbol(tabs'[i].limit, tabs'[i].base, tabs'[i].perm, tabs'[i].minLen, bs)
  {
    hide TableFor, ReadSymbol;
    assert TableFor(tabs[i], lens[i]) && TableFor(tabs'[i], lens[i]) && AllLengths(lens[i]);
    ReadSame(tabs[i], tabs'[i], lens[i], bs);
  }

  lemma {:induction false} SymbolsSame(tabs: seq<Table>, tabs': seq<Table>, lens: seq<seq<byte>>, a: nat,
                                       sel: seq<byte>, eob: int, k: nat, bs: seq<bool>)
    requires TablesFor(tabs, lens) && TablesFor(tabs', lens) && AlphabetOf(lens, a)
    requires Shapes(tabs) && Shapes(tabs') && |tabs| == |tabs'| == |lens|
    requires forall i :: 0 <= i < |sel| ==> sel[i] < |lens|
    ensures SymbolsFrom(tabs, sel, eob, k, bs) == SymbolsFrom(tabs', sel, eob, k, bs)
    ensures EndFrom(tabs, sel, eob, k, bs) == EndFrom(tabs', sel, eob, k, bs)
    decreases GROUP_SIZE * |sel| - k
  {
    hide ReadSymbol, TablesFor, AlphabetOf;
    if GroupOf(k) < |sel| {
      var tab := tabs[sel[GroupOf(k)]];
      ReadAtSame(tabs, tabs', lens, a, sel[GroupOf(k)], bs);
      var p := ReadSymbol(tab.limit, tab.base, tab.perm, tab.minLen, bs);
      if p.Got? && p.value != eob { SymbolsSame(tabs, tabs', lens, a, sel, eob, k + 1, p.rest); }
    }
  }

  // ----- the column

  /** The first n places of the list hold numbers below n. */
  ghost predicate Low(c: seq<byte>, n: nat) {
    |c| == 256 && n <= 256 && forall i :: 0 <= i < n ==> c[i] < n
  }

  lemma LowFront(c: seq<byte>, n: nat, k: nat)
    requires Low(c, n) && k < n
    ensures Low(ToFront(c, k), n)
  {
  }

  /** Only the bytes in use matter. */
  lemma {:induction false} DecodeSame(unseq: seq<byte>, unseq': seq<byte>, n: nat, max: nat, c: seq<byte>,
                                      out: seq<byte>, es: int, w: nat, syms: seq<int>)
    requires |unseq| == |unseq'| == 256 && 1 <= n <= 256 && unseq[..n] == unseq'[..n] && Low(c, n) && es >= -1
    requires forall i :: 0 <= i < |syms| ==> 0 <= syms[i] <= n + 1
    ensures Decode(unseq, n + 1, max, c, out, es, w, syms) == Decode(unseq', n + 1, max, c, out, es, w, syms)
    decreases |syms|
  {
    hide ToFront, Repeat, Low;
    if syms != [] {
      var s := syms[0];
      LowAt(unseq, unseq', c, n, 0);
      if s == RUNA || s == RUNB {
        RunGrows(es, s, w);
        DecodeSame(unseq, unseq', n, max, c, out, es + (s + 1) * w, 2 * w, syms[1..]);
      } else if s != n + 1 {
        LowAt(unseq, unseq', c, n, s - 1);
        LowFront(c, n, s - 1);
        var out' := out + Repeat(unseq[c[0]], es + 1) + [unseq[c[s - 1]]];
        DecodeSame(unseq, unseq', n, max, ToFront(c, s - 1), out', -1, 1, syms[1..]);
      }
    }
  }

  lemma RunGrows(es: int, s: int, w: nat)
    requires es >= -1 && 0 <= s <= 1
    ensures es + (s + 1) * w >= -1
  {
  }

  lemma LowAt(unseq: seq<byte>, unseq': seq<byte>, c: seq<byte>, n: nat, k: nat)
    requires |unseq| == |unseq'| == 256 && k < n <= 256 && unseq[..n] == unseq'[..n] && Low(c, n)
    ensures |c| == 256 && unseq[c[k]] == unseq'[c[k]]
  {
    assert unseq[c[k]] == unseq[..n][c[k]] == unseq'[..n][c[k]];
  }

  lemma InitialLow(n: nat)
    requires n <= 256
    ensures Low(InitialList(256), n)
  {
  }

  lemma ColumnOnce(body: Body, bs: seq<bool>, max: nat, p: Huffman.Parsed<seq<byte>>, q: Huffman.Parsed<seq<byte>>)
    requires ColumnIs(body, bs, max, p) && ColumnIs(body, bs, max, q)
    ensures p == q
  {
    hide *;
    var tabs, unseq := ColumnFrom(body, bs, max, p);
    var tabs', unseq' := ColumnFrom(body, bs, max, q);
    DecodesParts(body, tabs, unseq, bs, max, p);
    DecodesParts(body, tabs', unseq', bs, max, q);
    var n := NInUse(body.inUse);
    var sel := UndoMtf(InitialList(body.nGroups), body.places);
    DecodesColumn(body, tabs, unseq, bs, max, p, sel, n);
    DecodesColumn(body, tabs', unseq', bs, max, q, sel, n);
    SymbolsSame(tabs, tabs', body.lens, n + 2, sel, n + 1, 0, bs);
    InitialLow(n);
    DecodeSame(unseq, unseq', n, max, InitialList(256), [], -1, 1, SymbolsFrom(tabs, sel, n + 1, 0, bs));
  }

  lemma ColumnFrom(body: Body, bs: seq<bool>, max: nat, p: Huffman.Parsed<seq<byte>>)
    returns (tabs: seq<Table>, unseq: seq<byte>)
    requires ColumnIs(body, bs, max, p)
    ensures DecodesTo(body, tabs, unseq, bs, max, p)
  {
    hide DecodesTo;
    tabs, unseq :| DecodesTo(body, tabs, unseq, bs, max, p);
  }

  lemma DecodesParts(body: Body, tabs: seq<Table>, unseq: seq<byte>, bs: seq<bool>, max: nat,
                     p: Huffman.Parsed<seq<byte>>)
    requires DecodesTo(body, tabs, unseq, bs, max, p)
    ensures TablesFor(tabs, body.lens) && |unseq| == 256 && |body.inUse| == 256 && |tabs| == |body.lens|
    ensures Shapes(tabs)
    ensures forall t :: 0 <= t < |tabs| ==> |tabs[t].limit| == |tabs[t].base| == 23 && |tabs[t].perm| == 258
    ensures body.nGroups <= 6 && |InitialList(body.nGroups)| == body.nGroups
    ensures PlacesIn(body.places, body.nGroups) && 1 <= NInUse(body.inUse) <= 256
    ensures AlphabetOf(body.lens, NInUse(body.inUse) + 2)
    ensures unseq[..NInUse(body.inUse)] == UsedBelow(body.inUse, 256)
    ensures forall i :: 0 <= i < |UndoMtf(InitialList(body.nGroups), body.places)| ==>
              UndoMtf(InitialList(body.nGroups), body.places)[i] < |body.lens|
  {
    hide TableFor, AlphabetOf, UndoMtf, InitialList, SymbolsFrom, EndFrom, Decode, ColumnOf, UsedBelow, PlacesIn,
         NInUse;
    UsedPrefix(body.inUse, unseq);
  }

  lemma DecodesColumn(body: Body, tabs: seq<Table>, unseq: seq<byte>, bs: seq<bool>, max: nat,
                      p: Huffman.Parsed<seq<byte>>, sel: seq<byte>, n: nat)
    requires DecodesTo(body, tabs, unseq, bs, max, p) && |unseq| == 256 && |body.inUse| == 256 && 1 <= n <= 256
    requires n == NInUse(body.inUse) && body.nGroups <= 6 && |InitialList(body.nGroups)| == body.nGroups
    requires PlacesIn(body.places, body.nGroups) && sel == UndoMtf(InitialList(body.nGroups), body.places)
    requires forall t :: 0 <= t < |tabs| ==> |tabs[t].limit| == |tabs[t].base| == 23 && |tabs[t].perm| == 258
    requires forall i :: 0 <= i < |sel| ==> sel[i] < |tabs|
    ensures var syms := SymbolsFrom(tabs, sel, n + 1, 0, bs);
            && (forall i :: 0 <= i < |syms| ==> 0 <= syms[i] <= n + 1)
            && p == ColumnOf(Decode(unseq, n + 1, max, InitialList(256), [], -1, 1, syms),
                             EndFrom(tabs, sel, n + 1, 0, bs))
  {
    hide TableFor, AlphabetOf, UndoMtf, InitialList, SymbolsFrom, EndFrom, Decode, ColumnOf, UsedBelow, PlacesIn,
         NInUse;
  }

  lemma UsedPrefix(inUse: seq<bool>, unseq: seq<byte>)
    requires |inUse| == 256 && UsedBelow(inUse, 256) <= unseq
    ensures NInUse(inUse) <= |unseq| && unseq[..NInUse(inUse)] == UsedBelow(inUse, 256)
  {
  }

  // ----- the block

  /** Both outcomes of a block are the same; if it is ready, so is all else. */
  ghost predicate SameBlock(st: BlockStatus, crc: nat, s: seq<byte>, n: nat, rest: seq<bool>,
                            st': BlockStatus, crc': nat, s': seq<byte>, n': nat, rest': seq<bool>) {
    st == st' && (st == ReadyBlock ==> crc == crc' && s == s' && n == n' && rest == rest')
  }

  lemma ColumnToldOnce(h: Header, p: Huffman.Parsed<seq<byte>>, st: BlockStatus, crc: nat, s: seq<byte>, n: nat,
                       rest: seq<bool>, st': BlockStatus, crc': nat, s': seq<byte>, n': nat, rest': seq<bool>)
    requires ColumnTold(h, p, st, crc, s, n, rest) && ColumnTold(h, p, st', crc', s', n', rest')
    ensures SameBlock(st, crc, s, n, rest, st', crc', s', n', rest')
  {
    hide Reads;
    if p.Got? && h.origPtr < |p.value| { ReadsSame(p.value, h.origPtr, s, s'); }
  }

  lemma BlockOnce(bs: seq<bool>, max: nat, st: BlockStatus, crc: nat, s: seq<byte>, n: nat, rest: seq<bool>,
                  st': BlockStatus, crc': nat, s': seq<byte>, n': nat, rest': seq<bool>)
    requires BlockTold(bs, max, st, crc, s, n, rest) && BlockTold(bs, max, st', crc', s', n', rest')
    ensures SameBlock(st, crc, s, n, rest, st', crc', s', n', rest')
  {
    hide ParseHeader, ParseBody, ColumnIs, ColumnTold;
    match ParseHeader(bs, max)
    case Got(h, b) =>
      if !h.randomised {
        match ParseBody(b)
        case Got(y, more) =>
          var p :| ColumnIs(y, more, max, p) && ColumnTold(h, p, st, crc, s, n, rest);
          var q :| ColumnIs(y, more, max, q) && ColumnTold(h, q, st', crc', s', n', rest');
          ColumnOnce(y, more, max, p, q);
          ColumnToldOnce(h, p, st, crc, s, n, rest, st', crc', s', n', rest');
        case _ =>
      }
    case _ =>
  }

  lemma NextOnce(bs: seq<bool>, max: nat, combined: bv32, r: Result, crc: nat, s: seq<byte>, n: nat, rest: seq<bool>,
                 r': Result, crc': nat, s': seq<byte>, n': nat, rest': seq<bool>)
    requires NextTold(bs, max, combined, r, crc, s, n, rest) && NextTold(bs, max, combined, r', crc', s', n', rest')
    ensures r == r' && (r == NeedRoom ==> crc == crc' && s == s' && n == n' && rest == rest')
  {
    hide BlockTold, Begins, Differs, WordOf, Bits;
    var k :| IsKind(bs, k) && KindTold(bs, k, max, combined, r, crc, s, n, rest);
    var k' :| IsKind(bs, k') && KindTold(bs, k', max, combined, r', crc', s', n', rest');
    assert k == k';
    if k == ABlock {
      var st :| BlockTold(bs[48..], max, st, crc, s, n, rest) && r == ResultOf(st);
      var st' :| BlockTold(bs[48..], max, st', crc', s', n', rest') && r' == ResultOf(st');
      BlockOnce(bs[48..], max, st, crc, s, n, rest, st', crc', s', n', rest');
    }
  }

  // ----- the stream

  /** Two outcomes are the same; of a stream found corrupt different parts may have been delivered. */
  ghost predicate Same(out: seq<byte>, r: Result, out': seq<byte>, r': Result) {
    r == r' && (if r == DataError then out <= out' || out' <= out else out == out')
  }

  /** The bits determine the result, and the bytes delivered before it. */
  lemma {:induction false} GivesOnce(bs: seq<bool>, max: nat, combined: bv32, out: seq<byte>, r: Result,
                                     out': seq<byte>, r': Result)
    requires Gives(bs, max, combined, out, r) && Gives(bs, max, combined, out', r')
    ensures Same(out, r, out', r')
    decreases |bs|, 0
  {
    hide NextTold, BlockGives;
    var next, crc, s, n: nat, rest :| NextTold(bs, max, combined, next, crc, s, n, rest) &&
      if next != NeedRoom then out == [] && r == next
      else |rest| < |bs| && BlockGives(rest, max, combined, crc, s, n, out, r);
    var next', crc', s', n': nat, rest' :| NextTold(bs, max, combined, next', crc', s', n', rest') &&
      if next' != NeedRoom then out' == [] && r' == next'
      else |rest'| < |bs| && BlockGives(rest', max, combined, crc', s', n', out', r');
    NextOnce(bs, max, combined, next, crc, s, n, rest, next', crc', s', n', rest');
    if next == NeedRoom { BlockGivesOnce(rest, max, combined, crc, s, n, out, r, out', r'); }
  }

  lemma {:induction false} BlockGivesOnce(bs: seq<bool>, max: nat, combined: bv32, crc: nat, s: seq<byte>, n: nat,
                                          out: seq<byte>, r: Result, out': seq<byte>, r': Result)
    requires BlockGives(bs, max, combined, crc, s, n, out, r) && BlockGives(bs, max, combined, crc, s, n, out', r')
    ensures Same(out, r, out', r')
    decreases |bs|, 1
  {
    hide Gives, Expand, Whole, WordOf, Crc.Check, Crc.Mix, UnRle.Goal;
    var e := Expand(s[..n]);
    if !Whole(s[..n]) {
      BothParts(UnRle.Goal(s, n), out, out');
    } else if WordOf(Crc.Check(e)) != crc {
      BothParts(e, out, out');
    } else {
      GivesOnce(bs, max, Crc.Mix(combined, Crc.Check(e)), out[|e|..], r, out'[|e|..], r');
      assert out == e + out[|e|..] && out' == e + out'[|e|..];
    }
  }

  lemma BothParts(goal: seq<byte>, a: seq<byte>, b: seq<byte>)
    requires a <= goal && b <= goal
    ensures a <= b || b <= a
  {
    assert a == goal[..|a|] && b == goal[..|b|];
  }
}
