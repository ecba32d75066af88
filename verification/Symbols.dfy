/** The symbols of a block as they are read, one with each GET_MTF_VAL. */
module Symbols {
  import opened Counting
  import opened MtfCoding
  import opened BitStream
  import opened Huffman
  import opened Tables
  import opened Receiving

  /** groupNo and groupPos after k symbols. */
  ghost predicate InStep(groupNo: int, groupPos: nat, k: nat) {
    groupPos < GROUP_SIZE && GROUP_SIZE * (groupNo + 1) == k + groupPos
  }

  lemma InStepNext(groupNo: int, groupPos: nat, k: nat)
    requires InStep(groupNo, groupPos, k)
    ensures groupPos == 0 ==> groupNo + 1 == GroupOf(k) && InStep(groupNo + 1, GROUP_SIZE - 1, k + 1)
    ensures groupPos > 0 ==> groupNo == GroupOf(k) && InStep(groupNo, groupPos - 1, k + 1)
  {
  }

  /** Every symbol these tables can give is at most the end mark. */
  ghost predicate ReadsUpTo(tabs: seq<Table>, eob: int)
    requires forall t :: 0 <= t < |tabs| ==> |tabs[t].limit| == |tabs[t].base| == 23 && |tabs[t].perm| == 258
  {
    forall t, bs :: 0 <= t < |tabs| ==> ReadUpTo(tabs[t], eob, bs)
  }

  ghost predicate ReadUpTo(tab: Table, eob: int, bs: seq<bool>)
    requires |tab.limit| == |tab.base| == 23 && |tab.perm| == 258
  {
    var p := ReadSymbol(tab.limit, tab.base, tab.perm, tab.minLen, bs);
    p.Got? ==> 0 <= p.value <= eob
  }

  lemma ReadBelow(tabs: seq<Table>, eob: int, t: nat, bs: seq<bool>)
    requires forall t :: 0 <= t < |tabs| ==> |tabs[t].limit| == |tabs[t].base| == 23 && |tabs[t].perm| == 258
    requires ReadsUpTo(tabs, eob) && t < |tabs|
    ensures var p := ReadSymbol(tabs[t].limit, tabs[t].base, tabs[t].perm, tabs[t].minLen, bs);
            p.Got? ==> 0 <= p.value <= eob
  {
    hide ReadSymbol;
    assert ReadUpTo(tabs[t], eob, bs);
  }

  /** The tables made of received lengths are in order for any further input. */
  lemma MadeTables(tabs: seq<Table>, lens: seq<seq<byte>>, alphaSize: nat)
    requires TablesFor(tabs, lens) && AlphabetOf(lens, alphaSize) && alphaSize <= 258
    ensures TableShapes(tabs)
    ensures forall t :: 0 <= t < |tabs| ==> |tabs[t].limit| == |tabs[t].base| == 23 && |tabs[t].perm| == 258
    ensures ReadsUpTo(tabs, alphaSize - 1)
  {
    forall t | 0 <= t < |tabs| ensures OneShape(tabs[t]) {
      assert TableFor(tabs[t], lens[t]) && AllLengths(lens[t]);
    }
    var eob := alphaSize - 1;
    forall t, bs | 0 <= t < |tabs| ensures ReadUpTo(tabs[t], eob, bs) {
      MadeTable(tabs[t], lens[t], alphaSize, bs);
    }
  }

  lemma MadeTable(tab: Table, len: seq<byte>, alphaSize: nat, bs: seq<bool>)
    requires TableFor(tab, len) && AllLengths(len) && |len| == alphaSize <= 258
    ensures |tab.limit| == |tab.base| == 23 && |tab.perm| == 258
    ensures ReadUpTo(tab, alphaSize - 1, bs)
  {
    ReadInRange(len, MinLen(len), MaxLen(len), tab.limit, tab.base, tab.perm, bs);
  }

  lemma {:induction false} AllReadBelow(tabs: seq<Table>, sel: seq<byte>, eob: int, k: nat, bs: seq<bool>)
    requires forall t :: 0 <= t < |tabs| ==> |tabs[t].limit| == |tabs[t].base| == 23 && |tabs[t].perm| == 258
    requires ReadsUpTo(tabs, eob) && forall i :: 0 <= i < |sel| ==> sel[i] < |tabs|
    ensures SymbolsUpTo(SymbolsFrom(tabs, sel, eob, k, bs), eob)
    decreases GROUP_SIZE * |sel| - k
  {
    hide ReadSymbol, ReadsUpTo;
    if GroupOf(k) < |sel| {
      var tab := tabs[sel[GroupOf(k)]];
      ReadBelow(tabs, eob, sel[GroupOf(k)], bs);
      var p := ReadSymbol(tab.limit, tab.base, tab.perm, tab.minLen, bs);
      if p.Got? && p.value != eob { AllReadBelow(tabs, sel, eob, k + 1, p.rest); }
    }
  }

  /** The next symbol and the others. */
  lemma NextOne(tabs: seq<Table>, sel: seq<byte>, eob: int, k: nat, bs: seq<bool>)
    requires TableShapes(tabs)
    requires forall t :: 0 <= t < |tabs| ==> |tabs[t].limit| == |tabs[t].base| == 23 && |tabs[t].perm| == 258
    requires forall i :: 0 <= i < |sel| ==> sel[i] < |tabs|
    ensures GroupOf(k) >= |sel| ==> SymbolsFrom(tabs, sel, eob, k, bs) == [] && EndFrom(tabs, sel, eob, k, bs) == Bad
    ensures GroupOf(k) < |sel| ==>
      var tab, syms, end := tabs[sel[GroupOf(k)]], SymbolsFrom(tabs, sel, eob, k, bs), EndFrom(tabs, sel, eob, k, bs);
      OneShape(tab) &&
        match ReadSymbol(tab.limit, tab.base, tab.perm, tab.minLen, bs)
        case Bad => syms == [] && end == Bad
        case Short => syms == [] && end == Short
        case Got(s, rest) =>
          && syms != [] && syms[0] == s
          && if s == eob then syms == [s] && end == Got(s, rest)
             else syms[1..] == SymbolsFrom(tabs, sel, eob, k + 1, rest) && end == EndFrom(tabs, sel, eob, k + 1, rest)
  {
    hide ReadSymbol, GroupOf, OneShape;
  }

  /** What reading the symbols of a block has come to: the tables, the selectors and the
      place in the current group. */
  class SymbolSource {
    const r: Reader
    const tabs: seq<Table>
    const sel: seq<byte>
    const eob: int
    var groupNo: int
    var groupPos: nat
    ghost var k: nat

    ghost predicate Sound()
      reads this, r
    {
      && r.Valid() && TableShapes(tabs)
      && (forall t :: 0 <= t < |tabs| ==> |tabs[t].limit| == |tabs[t].base| == 23 && |tabs[t].perm| == 258)
      && (forall i :: 0 <= i < |sel| ==> sel[i] < |tabs|)
      && ReadsUpTo(tabs, eob)
    }

    ghost predicate Valid()
      reads this, r
    {
      Sound() && InStep(groupNo, groupPos, k) && (groupPos > 0 ==> 0 <= groupNo < |sel|)
    }

    /** The symbols still to be read. */
    ghost function Coming(): seq<int>
      reads this, r
      requires Sound()
    {
      SymbolsFrom(tabs, sel, eob, k, r.Ahead())
    }

    ghost function End(): Parsed<int>
      reads this, r
      requires Sound()
    {
      EndFrom(tabs, sel, eob, k, r.Ahead())
    }

    constructor (r: Reader, tabs: seq<Table>, sel: seq<byte>, eob: int)
      requires r.Valid() && TableShapes(tabs)
      requires forall t :: 0 <= t < |tabs| ==> |tabs[t].limit| == |tabs[t].base| == 23 && |tabs[t].perm| == 258
      requires forall i :: 0 <= i < |sel| ==> sel[i] < |tabs|
      requires ReadsUpTo(tabs, eob)
      ensures Valid() && this.r == r && this.eob == eob && SymbolsUpTo(Coming(), eob)
      ensures this.tabs == tabs && this.sel == sel && k == 0
      ensures Coming() == SymbolsFrom(tabs, sel, eob, 0, r.Ahead()) && End() == EndFrom(tabs, sel, eob, 0, r.Ahead())
    {
      this.r, this.tabs, this.sel, this.eob := r, tabs, sel, eob;
      groupNo, groupPos, k := -1, 0, 0;
      new;
      InStepStarts();
      AllReadBelow(tabs, sel, eob, 0, r.Ahead());
      hide SymbolsFrom, EndFrom, ReadsUpTo, TableShapes, InStep, SymbolsUpTo;
    }

    /** next has been read; it is the first of syms, and the others are still to come. */
    ghost predicate Holds(next: int, syms: seq<int>, end: Parsed<int>)
      reads this, r
    {
      && Sound() && syms != [] && syms[0] == next
      && if next == eob then syms == [next] && end == Got(next, r.Ahead())
         else Valid() && syms[1..] == Coming() && end == End()
    }

    lemma Facts()
      requires Valid()
      ensures Sound() && r.Valid() && TableShapes(tabs)
      ensures forall t :: 0 <= t < |tabs| ==> |tabs[t].limit| == |tabs[t].base| == 23 && |tabs[t].perm| == 258
      ensures forall i :: 0 <= i < |sel| ==> sel[i] < |tabs|
      ensures ReadsUpTo(tabs, eob) && InStep(groupNo, groupPos, k) && (groupPos > 0 ==> 0 <= groupNo < |sel|)
      ensures Coming() == SymbolsFrom(tabs, sel, eob, k, r.Ahead()) && End() == EndFrom(tabs, sel, eob, k, r.Ahead())
    {
    }

    lemma HoldsFacts(next: int, syms: seq<int>, end: Parsed<int>)
      requires Holds(next, syms, end)
      ensures r.Valid() && syms != [] && syms[0] == next
      ensures next == eob ==> end == Got(next, r.Ahead())
      ensures next != eob ==> Valid() && Sound() && syms[1..] == Coming() && end == End()
    {
    }

    lemma MakeHolds(next: int, syms: seq<int>, end: Parsed<int>)
      requires r.Valid() && TableShapes(tabs)
      requires forall t :: 0 <= t < |tabs| ==> |tabs[t].limit| == |tabs[t].base| == 23 && |tabs[t].perm| == 258
      requires forall i :: 0 <= i < |sel| ==> sel[i] < |tabs|
      requires ReadsUpTo(tabs, eob) && InStep(groupNo, groupPos, k) && (groupPos > 0 ==> 0 <= groupNo < |sel|)
      requires syms != [] && syms[0] == next
      requires if next == eob then syms == [next] && end == Got(next, r.Ahead())
               else syms[1..] == SymbolsFrom(tabs, sel, eob, k, r.Ahead())
                    && end == EndFrom(tabs, sel, eob, k, r.Ahead())
      ensures Holds(next, syms, end)
    {
    }

    /** GET_MTF_VAL, the table changing every fifty symbols. When no symbol can be read, the
        status says why. */
    method Next(ghost syms: seq<int>, ghost end: Parsed<int>) returns (status: Status, nextSym: int)
      requires Valid() && syms == Coming() && end == End()
      modifies this`groupNo, this`groupPos, this`k, r
      ensures r.Valid()
      ensures syms == [] ==> (status == Corrupt && end == Bad) || (status == Starved && end == Short)
      ensures syms != [] ==> status == Complete && Holds(nextSym, syms, end)
    {
      hide *;
      Facts();
      nextSym := 0;
      ghost var bs := r.Ahead();
      InStepNext(groupNo, groupPos, k);
      NextOne(tabs, sel, eob, k, bs);
      if groupPos == 0 {
        groupNo := groupNo + 1;
        if groupNo >= |sel| { return Corrupt, nextSym; }
        groupPos := GROUP_SIZE;
      }
      groupPos := groupPos - 1;
      k := k + 1;
      var tab := tabs[sel[groupNo]];
      status, nextSym := ReceiveCode(r, tab);
      ToldIs(ReadSymbol(tab.limit, tab.base, tab.perm, tab.minLen, bs), status, nextSym, r.Ahead());
      if status == Complete { MakeHolds(nextSym, syms, end); }
    }
  }

  lemma InStepStarts()
    ensures InStep(-1, 0, 0)
  {
  }
}
