/** The decoder's loop over the MTF values: run digits, moves in the sixteen
    windows, and the byte counts of the block. */
module MtfDecoder {
  import opened Counting
  import opened MoveToFront
  import opened MtfCoding
  import opened BitStream
  import opened Huffman
  import opened Symbols

  /** Decoding from here on gives goal. */
  ghost predicate Ahead(unseq: seq<byte>, eob: nat, max: nat, c: seq<byte>, out: seq<byte>, es: int, n: nat,
                        syms: seq<int>, goal: Decoded) {
    && |unseq| == 256 && |c| == 256 && 2 <= eob <= 257 && es >= -1 && SymbolsUpTo(syms, eob)
    && |out| <= max
    && Decode(unseq, eob, max, c, out, es, n, syms) == goal
  }

  /** tt holds the block so far, one byte per word. */
  ghost predicate HoldsOut(tt: seq<int>, out: seq<byte>) {
    |out| <= |tt| && forall i :: 0 <= i < |out| ==> tt[i] == out[i]
  }

  /** unzftab counts its bytes. */
  ghost predicate CountsOut(unzftab: seq<int>, out: seq<byte>) {
    |unzftab| == 256 && forall c :: 0 <= c < 256 ==> unzftab[c] == Occ(out, c)
  }

  lemma {:induction false} OccRepeat(out: seq<byte>, x: byte, k: nat, c: int)
    ensures Occ(out + Repeat(x, k), c) == Occ(out, c) + (if c == x then k else 0)
  {
    if k == 0 {
      assert out + Repeat(x, 0) == out;
    } else {
      OccRepeat(out, x, k - 1, c);
      var s := out + Repeat(x, k);
      assert s[..|s| - 1] == out + Repeat(x, k - 1);
    }
  }

  lemma CountsRun(unzftab: seq<int>, out: seq<byte>, x: byte, k: nat)
    requires CountsOut(unzftab, out)
    ensures CountsOut(unzftab[x := unzftab[x] + k], out + Repeat(x, k))
  {
    forall c | 0 <= c < 256 ensures unzftab[x := unzftab[x] + k][c] == Occ(out + Repeat(x, k), c) {
      OccRepeat(out, x, k, c);
    }
  }

  lemma RepeatStep(out: seq<byte>, x: byte, k: nat)
    ensures out + Repeat(x, k) + [x] == out + Repeat(x, k + 1)
    ensures out + Repeat(x, 0) == out
  {
  }

  lemma AheadFacts(unseq: seq<byte>, eob: nat, max: nat, c: seq<byte>, out: seq<byte>, es: int, n: nat,
                   syms: seq<int>, goal: Decoded)
    requires Ahead(unseq, eob, max, c, out, es, n, syms, goal)
    ensures |unseq| == 256 && |c| == 256 && 2 <= eob <= 257 && es >= -1 && |out| <= max
    ensures syms == [] ==> goal == MoreInput
    ensures syms != [] ==> 0 <= syms[0] <= eob
    ensures syms != [] && syms[0] == eob && es == -1 ==> goal == Done(out, syms[1..])
    ensures syms != [] && syms[0] <= 1 && n >= RUN_LIMIT ==> goal == BadData
    ensures syms != [] && syms[0] > 1 && |out| + es + 1 > max ==> goal == BadData
    ensures syms != [] && 1 < syms[0] < eob && es == -1 && |out| == max ==> goal == BadData
  {
    if syms != [] && es == -1 { assert out + Repeat(unseq[c[0]], 0) == out; }
  }

  /** One more digit of a run. */
  lemma AheadDigit(unseq: seq<byte>, eob: nat, max: nat, c: seq<byte>, out: seq<byte>, es: int, n: nat,
                   syms: seq<int>, goal: Decoded)
    requires Ahead(unseq, eob, max, c, out, es, n, syms, goal)
    requires syms != [] && syms[0] <= 1 && n < RUN_LIMIT
    ensures Ahead(unseq, eob, max, c, out, es + (syms[0] + 1) * n, 2 * n, syms[1..], goal)
  {
  }

  /** The run is over: its copies of the front byte are part of the block. */
  lemma AheadRunOver(unseq: seq<byte>, eob: nat, max: nat, c: seq<byte>, out: seq<byte>, es: int, n: nat,
                     syms: seq<int>, goal: Decoded)
    requires Ahead(unseq, eob, max, c, out, es, n, syms, goal)
    requires syms != [] && syms[0] > 1 && |out| + es + 1 <= max
    ensures Ahead(unseq, eob, max, c, out + Repeat(unseq[c[0]], es + 1), -1, 1, syms, goal)
  {
    var out' := out + Repeat(unseq[c[0]], es + 1);
    assert out' + Repeat(unseq[c[0]], 0) == out';
  }

  /** A move to the front. */
  lemma AheadMove(unseq: seq<byte>, eob: nat, max: nat, c: seq<byte>, out: seq<byte>, syms: seq<int>, goal: Decoded)
    requires Ahead(unseq, eob, max, c, out, -1, 1, syms, goal)
    requires syms != [] && 1 < syms[0] < eob && |out| < max
    ensures Ahead(unseq, eob, max, ToFront(c, syms[0] - 1), out + [unseq[c[syms[0] - 1]]], -1, 1, syms[1..], goal)
  {
    assert out + Repeat(unseq[c[0]], 0) == out;
  }

  /** The loop that stores es copies of x; false if the block would exceed nblockMAX. */
  method StoreRun(tt: array<int>, nblock0: nat, nblockMAX: nat, x: byte, es0: nat, ghost out: seq<byte>)
    returns (ok: bool, nblock: nat)
    requires HoldsOut(tt[..], out) && nblock0 == |out| <= nblockMAX <= tt.Length
    modifies tt
    ensures ok == (nblock0 + es0 <= nblockMAX)
    ensures ok ==> nblock == nblock0 + es0 && HoldsOut(tt[..], out + Repeat(x, es0))
  {
    nblock := nblock0;
    var es := es0;
    RepeatStep(out, x, 0);
    while es > 0
      invariant 0 <= es <= es0 && nblock == nblock0 + (es0 - es) <= nblockMAX
      invariant HoldsOut(tt[..], out + Repeat(x, es0 - es))
      decreases es
    {
      if nblock >= nblockMAX { return false, nblock; }
      RepeatStep(out, x, es0 - es);
      tt[nblock] := x;
      nblock := nblock + 1;
      es := es - 1;
    }
    ok := true;
  }

  /** Reads the digits of a run; the run is es + 1 long. The symbol after it is the
      last one read. */
  method ReadRun(src: SymbolSource, first: int, unseq: seq<byte>, ghost max: nat, ghost c: seq<byte>,
                 ghost out: seq<byte>, ghost goal: Decoded, ghost syms: seq<int>, ghost end: Parsed<int>)
    returns (status: Status, es: int, nextSym: int, ghost syms': seq<int>)
    requires (first == RUNA || first == RUNB) && src.Holds(first, syms, end) && src.eob >= 2
    requires Ahead(unseq, src.eob, max, c, out, -1, 1, syms, goal)
    modifies src`groupNo, src`groupPos, src`k, src.r
    ensures src.r.Valid()
    ensures status != Complete ==> Failed(goal, end, status)
    ensures status == Complete ==> es >= 0 && nextSym > 1 && src.Holds(nextSym, syms', end) && |syms'| < |syms|
    ensures status == Complete ==> exists n: nat :: Ahead(unseq, src.eob, max, c, out, es, n, syms', goal)
  {
    hide *;
    DigitSymbols(goal, end);
    nextSym, es, syms' := first, -1, syms;
    var n: nat := 1;
    while true
      invariant 0 <= nextSym <= 1 && n >= 1 && src.Holds(nextSym, syms', end)
      invariant |syms'| <= |syms| && es >= if |syms'| == |syms| then -1 else 0
      invariant Ahead(unseq, src.eob, max, c, out, es, n, syms', goal)
      decreases |syms'|
    {
      AheadFacts(unseq, src.eob, max, c, out, es, n, syms', goal);
      src.HoldsFacts(nextSym, syms', end);
      if n >= 2 * 1024 * 1024 { return Corrupt, es, nextSym, syms'; }
      AheadDigit(unseq, src.eob, max, c, out, es, n, syms', goal);
      if nextSym == 0 { es := es + (0 + 1) * n; } else { es := es + (1 + 1) * n; }
      n := n * 2;
      syms' := syms'[1..];
      AheadFacts(unseq, src.eob, max, c, out, es, n, syms', goal);
      status, nextSym := src.Next(syms', end);
      if status != Complete { return; }
      src.HoldsFacts(nextSym, syms', end);
      if !(nextSym == 0 || nextSym == 1) { break; }
    }
  }

  /** Decoding ends without a block: bad data, or no symbol can be read for the reason given
      by end. */
  ghost predicate Failed(goal: Decoded, end: Parsed<int>, status: Status) {
    || (goal == BadData && status == Corrupt)
    || (goal == MoreInput && ((end == Bad && status == Corrupt) || (end == Short && status == Starved)))
  }

  lemma DigitSymbols(goal: Decoded, end: Parsed<int>)
    ensures RUNA == 0 && RUNB == 1 && RUN_LIMIT == 2 * 1024 * 1024
    ensures goal == BadData ==> Failed(goal, end, Corrupt)
    ensures goal == MoreInput && end == Bad ==> Failed(goal, end, Corrupt)
    ensures goal == MoreInput && end == Short ==> Failed(goal, end, Starved)
  {
  }

  /** The byte counts and the block after the decoding loop, or what is reported: the first
      error in the order of the symbols. */
  ghost predicate Outcome(goal: Decoded, end: Parsed<int>, status: Status, tt: seq<int>, unzftab: seq<int>, nblock: nat)
  {
    match goal
    case Done(out, _) => status == Complete && nblock == |out| && HoldsOut(tt, out) && CountsOut(unzftab, out)
    case _ => Failed(goal, end, status)
  }

  /** The loop state: the windows hold the list, tt the block, unzftab its counts. */
  ghost predicate Looping(unseq: seq<byte>, eob: nat, max: nat, c: seq<byte>, out: seq<byte>, syms: seq<int>,
                          goal: Decoded, tt: seq<int>, unzftab: seq<int>) {
    && Ahead(unseq, eob, max, c, out, -1, 1, syms, goal)
    && HoldsOut(tt, out) && CountsOut(unzftab, out) && max <= |tt|
  }

  lemma LoopingFacts(unseq: seq<byte>, eob: nat, max: nat, c: seq<byte>, out: seq<byte>, syms: seq<int>,
                     goal: Decoded, tt: seq<int>, unzftab: seq<int>)
    requires Looping(unseq, eob, max, c, out, syms, goal, tt, unzftab)
    ensures Ahead(unseq, eob, max, c, out, -1, 1, syms, goal)
    ensures |unseq| == 256 && |c| == 256 && |unzftab| == 256 && |out| <= max <= |tt|
    ensures HoldsOut(tt, out) && CountsOut(unzftab, out)
    ensures syms != [] ==> 0 <= syms[0] <= eob <= 257
    ensures syms == [] ==> goal == MoreInput
    ensures forall end :: syms != [] && syms[0] == eob ==> Outcome(goal, end, Complete, tt, unzftab, |out|)
    ensures syms != [] && 1 < syms[0] < eob && |out| == max ==> goal == BadData
  {
    AheadFacts(unseq, eob, max, c, out, -1, 1, syms, goal);
  }

  lemma LoopingMove(unseq: seq<byte>, eob: nat, max: nat, c: seq<byte>, out: seq<byte>, syms: seq<int>, goal: Decoded,
                    tt: seq<int>, unzftab: seq<int>)
    requires Looping(unseq, eob, max, c, out, syms, goal, tt, unzftab)
    requires syms != [] && 1 < syms[0] < eob && |out| < max
    ensures |unseq| == 256 && |c| == 256 && |unzftab| == 256 && max <= |tt| && eob <= 257
    ensures var x := unseq[c[syms[0] - 1]];
            Looping(unseq, eob, max, ToFront(c, syms[0] - 1), out + [x], syms[1..], goal,
                    tt[|out| := x], unzftab[x := unzftab[x] + 1])
  {
    AheadMove(unseq, eob, max, c, out, syms, goal);
    var x := unseq[c[syms[0] - 1]];
    CountsRun(unzftab, out, x, 1);
    RepeatStep(out, x, 0);
    assert out + [x] == out + Repeat(x, 1);
  }

  lemma LoopingRun(unseq: seq<byte>, eob: nat, max: nat, c: seq<byte>, out: seq<byte>, es: int, n: nat,
                   syms: seq<int>, goal: Decoded, tt: seq<int>, unzftab: seq<int>)
    requires Ahead(unseq, eob, max, c, out, es, n, syms, goal) && es >= 0
    requires syms != [] && syms[0] > 1 && max <= |tt|
    requires CountsOut(unzftab, out)
    ensures |c| == 256 && |unseq| == 256
    ensures |out| + es + 1 > max ==> goal == BadData
    ensures var x := unseq[c[0]]; |out| + es + 1 <= max && HoldsOut(tt, out + Repeat(x, es + 1)) ==>
              Looping(unseq, eob, max, c, out + Repeat(x, es + 1), syms, goal,
                      tt, unzftab[x := unzftab[x] + (es + 1)])
  {
    AheadFacts(unseq, eob, max, c, out, es, n, syms, goal);
    var x := unseq[c[0]];
    CountsRun(unzftab, out, x, es + 1);
    if |out| + es + 1 <= max { AheadRunOver(unseq, eob, max, c, out, es, n, syms, goal); }
  }

  /** One run of the loop: reads it, counts it and stores it. */
  method DecodeOneRun(w: Windows, src: SymbolSource, first: int, unseq: seq<byte>, max: nat,
                      tt: array<int>, unzftab: array<int>, nblock0: nat, ghost out: seq<byte>, ghost goal: Decoded,
                      ghost syms: seq<int>, ghost end: Parsed<int>)
    returns (status: Status, nextSym: int, nblock: nat, ghost out': seq<byte>, ghost syms': seq<int>)
    requires w.Valid() && tt != unzftab && w.mtfbase != tt && w.mtfbase != unzftab
    requires w.mtfa as object != tt && w.mtfa as object != unzftab
    requires (first == RUNA || first == RUNB) && src.Holds(first, syms, end) && src.eob >= 2 && nblock0 == |out|
    requires Looping(unseq, src.eob, max, w.Contents(), out, syms, goal, tt[..], unzftab[..])
    modifies tt, unzftab, src`groupNo, src`groupPos, src`k, src.r
    ensures src.r.Valid()
    ensures status != Complete ==> Failed(goal, end, status)
    ensures status == Complete ==> nblock == |out'| && src.Holds(nextSym, syms', end) && |syms'| < |syms|
    ensures w.Valid() && w.Contents() == old(w.Contents())
    ensures status == Complete ==>
              Looping(unseq, src.eob, max, w.Contents(), out', syms', goal, tt[..], unzftab[..])
  {
    hide *;
    ghost var c := w.Contents();
    LoopingFacts(unseq, src.eob, max, c, out, syms, goal, tt[..], unzftab[..]);
    var es;
    nblock, out' := nblock0, out;
    status, es, nextSym, syms' := ReadRun(src, first, unseq, max, c, out, goal, syms, end);
    if status != Complete { return; }
    src.HoldsFacts(nextSym, syms', end);
    ghost var n: nat :| Ahead(unseq, src.eob, max, c, out, es, n, syms', goal);
    es := es + 1;
    var uc := FrontByte(w, unseq);
    ghost var t, u := tt[..], unzftab[..];
    unzftab[uc] := unzftab[uc] + es;
    assert unzftab[..] == u[uc := u[uc] + es];
    var ok;
    ok, nblock := StoreRun(tt, nblock0, max, uc, es, out);
    LoopingRun(unseq, src.eob, max, c, out, es - 1, n, syms', goal, tt[..], u);
    if !ok {
      status := Corrupt;
      DigitSymbols(goal, end);
    } else {
      out' := out + Repeat(uc, es);
    }
  }

  /** seqToUnseq[mtfa[mtfbase[0]]] */
  method FrontByte(w: Windows, unseq: seq<byte>) returns (uc: byte)
    requires w.Valid() && |unseq| == 256
    ensures uc == unseq[w.Contents()[0]]
  {
    FarReads(w.mtfa[..], w.mtfbase[..], w.Contents(), 0, 0);
    uc := unseq[w.mtfa[w.mtfbase[0]]];
  }

  /** The decoding loop of BZ2_decompress over the MTF values, which reads a symbol when it
      needs one. It stores exactly the block that Decode prescribes, with its byte counts, or
      reports the first error, be it in the bits or in the symbols. */
  method DecodeMtfValues(src: SymbolSource, unseq: seq<byte>, nblockMAX: nat, tt: array<int>)
    returns (status: Status, nblock: nat, unzftab: array<int>)
    requires src.Valid() && |unseq| == 256 && 2 <= src.eob <= 257 && nblockMAX <= tt.Length
             && SymbolsUpTo(src.Coming(), src.eob)
    modifies tt, src`groupNo, src`groupPos, src`k, src.r
    ensures src.r.Valid() && fresh(unzftab)
    ensures Outcome(Decode(unseq, src.eob, nblockMAX, InitialList(256), [], -1, 1, old(src.Coming())), old(src.End()),
                    status, tt[..], unzftab[..], nblock)
    ensures status == Complete ==> old(src.End()) == Got(src.eob, src.r.Ahead())
  {
    ghost var syms, end := src.Coming(), src.End();
    ghost var goal := Decode(unseq, src.eob, nblockMAX, InitialList(256), [], -1, 1, syms);
    hide *;
    var w := new Windows();
    unzftab := new int[256](_ => 0);
    ghost var out: seq<byte> := [];
    LoopingStarts(unseq, src.eob, nblockMAX, syms, tt[..], unzftab[..]);
    LoopingFacts(unseq, src.eob, nblockMAX, w.Contents(), out, syms, goal, tt[..], unzftab[..]);
    DigitSymbols(goal, end);
    nblock := 0;
    var nextSym;
    status, nextSym := src.Next(syms, end);
    if status != Complete {
      OutcomeOf(goal, end, status, tt[..], unzftab[..], nblock);
      return;
    }
    while true
      invariant w.Valid() && fresh(w.mtfa) && fresh(w.mtfbase) && w.mtfbase != unzftab
      invariant nblock == |out| && src.Holds(nextSym, syms, end)
      invariant Looping(unseq, src.eob, nblockMAX, w.Contents(), out, syms, goal, tt[..], unzftab[..])
      decreases |syms|
    {
      LoopingFacts(unseq, src.eob, nblockMAX, w.Contents(), out, syms, goal, tt[..], unzftab[..]);
      src.HoldsFacts(nextSym, syms, end);
      if nextSym == src.eob { return Complete, nblock, unzftab; }
      if nextSym == 0 || nextSym == 1 {
        status, nextSym, nblock, out, syms :=
          DecodeOneRun(w, src, nextSym, unseq, nblockMAX, tt, unzftab, nblock, out, goal, syms, end);
      } else {
        if nblock >= nblockMAX {
          OutcomeOf(goal, end, Corrupt, tt[..], unzftab[..], nblock);
          return Corrupt, nblock, unzftab;
        }
        out := DecodeOneMove(w, nextSym, unseq, src.eob, nblockMAX, tt, unzftab, nblock, out, goal, syms);
        nblock := nblock + 1;
        syms := syms[1..];
        LoopingFacts(unseq, src.eob, nblockMAX, w.Contents(), out, syms, goal, tt[..], unzftab[..]);
        status, nextSym := src.Next(syms, end);
      }
      if status != Complete {
        OutcomeOf(goal, end, status, tt[..], unzftab[..], nblock);
        return;
      }
    }
  }

  lemma OutcomeOf(goal: Decoded, end: Parsed<int>, status: Status, tt: seq<int>, unzftab: seq<int>, nblock: nat)
    requires Failed(goal, end, status)
    ensures Outcome(goal, end, status, tt, unzftab, nblock)
  {
  }

  lemma LoopingStarts(unseq: seq<byte>, eob: nat, max: nat, syms: seq<int>, tt: seq<int>, unzftab: seq<int>)
    requires |unseq| == 256 && 2 <= eob <= 257 && max <= |tt| && SymbolsUpTo(syms, eob)
    requires |unzftab| == 256 && forall c :: 0 <= c < 256 ==> unzftab[c] == 0
    ensures Looping(unseq, eob, max, InitialList(256), [], syms,
                    Decode(unseq, eob, max, InitialList(256), [], -1, 1, syms), tt, unzftab)
  {
  }

  /** One symbol of the loop that is not a run digit. */
  method DecodeOneMove(w: Windows, nextSym: int, unseq: seq<byte>, ghost eob: nat, ghost max: nat,
                       tt: array<int>, unzftab: array<int>, nblock: nat, ghost out: seq<byte>, ghost goal: Decoded,
                       ghost syms: seq<int>)
    returns (ghost out': seq<byte>)
    requires w.Valid() && tt != unzftab && w.mtfbase != tt && w.mtfbase != unzftab
    requires w.mtfa as object != tt && w.mtfa as object != unzftab
    requires syms != [] && 1 < nextSym == syms[0] < eob && nblock == |out| < max
    requires Looping(unseq, eob, max, w.Contents(), out, syms, goal, tt[..], unzftab[..])
    modifies tt, unzftab, w.mtfa, w.mtfbase
    ensures w.Valid() && |out'| == nblock + 1
    ensures Looping(unseq, eob, max, w.Contents(), out', syms[1..], goal, tt[..], unzftab[..])
  {
    hide *;
    ghost var c := w.Contents();
    LoopingMove(unseq, eob, max, c, out, syms, goal, tt[..], unzftab[..]);
    var uc := w.MoveToFront(nextSym - 1);
    out' := StoreOne(tt, unzftab, nblock, unseq[uc], out);
  }

  method StoreOne(tt: array<int>, unzftab: array<int>, nblock: nat, x: byte, ghost out: seq<byte>)
    returns (ghost out': seq<byte>)
    requires tt != unzftab && nblock == |out| < tt.Length && unzftab.Length == 256
    modifies tt, unzftab
    ensures out' == out + [x]
    ensures tt[..] == old(tt[..])[nblock := x]
    ensures unzftab[..] == old(unzftab[..])[x := old(unzftab[..])[x] + 1]
  {
    unzftab[x] := unzftab[x] + 1;
    tt[nblock] := x;
    out' := out + [x];
  }
}
