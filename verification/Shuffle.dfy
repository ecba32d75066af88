/** The pass that writes the instructions of a function in random order and chains them
    with calls and jumps, and why the program does not notice it. */
module Shuffle {
  import opened Memory

  // ----- the emitted code

  /** Instructions are named by their place in the original function. C is the label every
      instruction has, R the one a call reaches, F the one past the stack fix. */
  datatype Label = C(j: nat) | R(j: nat) | F(j: nat)

  datatype Line = Define(l: Label) | LeaRsp(delta: int) | CallTo(l: Label) | JmpTo(l: Label) | Original(j: nat)

  const GAP := 0x2000

  function Before(j: nat, n: nat): seq<Line> {
    if n < 4 || j == 0 then [] else [JmpTo(F(j)), Define(R(j)), LeaRsp(GAP + 8), Define(F(j))]
  }

  function After(j: nat, n: nat): seq<Line> {
    if n < 4 || j + 2 >= n then [] else [LeaRsp(-GAP), CallTo(R(j + 1))]
  }

  function Block(j: nat, n: nat): seq<Line> {
    [Define(C(j))] + Before(j, n) + [Original(j)] + After(j, n)
  }

  function Code(order: seq<nat>, n: nat): seq<Line> {
    if order == [] then [] else Block(order[0], n) + Code(order[1..], n)
  }

  ghost predicate Distinct(s: seq<nat>) {
    forall p, q :: 0 <= p < q < |s| ==> s[p] != s[q]
  }

  /** Any order that the pass may leave the instructions of a function of n in. */
  ghost predicate IsShuffle(order: seq<nat>, n: nat) {
    && |order| == n > 0 && Distinct(order)
    && (forall j: nat :: j in order <==> j < n)
    && (n < 4 ==> forall p :: 0 <= p < n ==> order[p] == p)
    && (n >= 4 ==> order[0] == 0 && order[1] == 1 && order[n - 2] == n - 2 && order[n - 1] == n - 1)
  }

  // ----- the pass

  class InstructionWrapper {
    const address: nat
    var before: seq<seq<Line>>
    var after: seq<seq<Line>>

    constructor (address: nat)
      ensures this.address == address && before == [] && after == []
    {
      this.address, before, after := address, [], [];
    }

    /** An order of zero counts as none. */
    method InstrumentBefore(lines: seq<Line>, order: nat)
      modifies this`before
      ensures before == if order == 0 || order >= |old(before)| then old(before) + [lines]
                        else old(before)[..order] + [lines] + old(before)[order..]
    {
      if order != 0 {
        var at := if order < |before| then order else |before|;
        before := before[..at] + [lines] + before[at..];
      } else {
        before := before + [lines];
      }
    }

    method InstrumentAfter(lines: seq<Line>, order: nat)
      modifies this`after
      ensures after == if order == 0 || order >= |old(after)| then old(after) + [lines]
                       else old(after)[..order] + [lines] + old(after)[order..]
    {
      if order != 0 {
        var at := if order < |after| then order else |after|;
        after := after[..at] + [lines] + after[at..];
      } else {
        after := after + [lines];
      }
    }
  }

  function Flat(pieces: seq<seq<Line>>): seq<Line> {
    if pieces == [] then [] else pieces[0] + Flat(pieces[1..])
  }

  ghost function Wrappers(cache: array<InstructionWrapper>): set<InstructionWrapper>
    reads cache
  {
    set i | 0 <= i < cache.Length :: cache[i]
  }

  function Swapped<T>(s: seq<T>, i: nat, j: nat): (r: seq<T>)
    requires i < |s| && j < |s|
    ensures |r| == |s|
  {
    s[i := s[j]][j := s[i]]
  }

  /** The places below i, from the last one down, are each given an element from below or at the
      place; choices says which. */
  function Shuffled<T>(s: seq<T>, choices: seq<nat>, i: nat): (r: seq<T>)
    requires i <= |s|
    ensures |r| == |s|
    decreases i
  {
    if i <= 1 then s
    else Shuffled(Swapped(s, i - 1, if i - 1 < |choices| then choices[i - 1] % i else 0), choices, i - 1)
  }

  lemma SwappedSame<T>(s: seq<T>, i: nat, j: nat)
    requires i < |s| && j < |s|
    ensures forall x :: x in Swapped(s, i, j) <==> x in s
    ensures (forall p, q :: 0 <= p < q < |s| ==> s[p] != s[q])
            ==> forall p, q :: 0 <= p < q < |s| ==> Swapped(s, i, j)[p] != Swapped(s, i, j)[q]
  {
    var r := Swapped(s, i, j);
    assert r[j] == s[i] && r[i] == s[j] && forall k :: 0 <= k < |r| && k != i && k != j ==> r[k] == s[k];
  }

  /** A shuffle keeps the elements. */
  lemma {:induction false} ShuffledSame<T>(s: seq<T>, choices: seq<nat>, i: nat)
    requires i <= |s|
    ensures forall x :: x in Shuffled(s, choices, i) <==> x in s
    ensures (forall p, q :: 0 <= p < q < |s| ==> s[p] != s[q])
            ==> forall p, q :: 0 <= p < q < |s| ==> Shuffled(s, choices, i)[p] != Shuffled(s, choices, i)[q]
    decreases i
  {
    if i > 1 {
      var j := if i - 1 < |choices| then choices[i - 1] % i else 0;
      SwappedSame(s, i - 1, j);
      ShuffledSame(Swapped(s, i - 1, j), choices, i - 1);
    }
  }

  lemma {:induction false} ShuffledPrefix<T>(s: seq<T>, choices: seq<nat>, c: nat, i: nat)
    requires i <= |s| && i <= |choices|
    ensures Shuffled(s, choices + [c], i) == Shuffled(s, choices, i)
    decreases i
  {
    if i > 1 { ShuffledPrefix(Swapped(s, i - 1, choices[i - 1] % i), choices, c, i - 1); }
  }

  ghost function Bag<T>(s: seq<T>): multiset<T> { multiset(s) }

  /** Beyond the first i the elements are the same, and the first i are the same in some order. */
  ghost predicate Aligned<T>(s: seq<T>, t: seq<T>, i: nat) {
    i <= |s| == |t| && s[i..] == t[i..] && Bag(s[..i]) == Bag(t[..i])
  }

  /** Every arrangement comes from some choices. */
  lemma {:induction false} SomeChoices<T>(s: seq<T>, t: seq<T>, i: nat) returns (choices: seq<nat>)
    requires i <= |s| == |t| && Aligned(s, t, i)
    ensures |choices| == i && Shuffled(s, choices, i) == t
    decreases i
  {
    hide *;
    if i <= 1 {
      choices := seq(i, _ => 0);
      AlignedEnd(s, t, i);
      ShuffledEnd(s, choices, i);
    } else {
      var j := AlignedBack(s, t, i);
      var front := SomeChoices(Swapped(s, i - 1, j), t, i - 1);
      choices := front + [j];
      ShuffledStep(s, front, i, j);
    }
  }

  lemma ShuffledEnd<T>(s: seq<T>, choices: seq<nat>, i: nat)
    requires i <= |s| && i <= 1
    ensures Shuffled(s, choices, i) == s
  {
  }

  lemma ShuffledStep<T>(s: seq<T>, front: seq<nat>, i: nat, j: nat)
    requires 2 <= i <= |s| && |front| == i - 1 && j < i
    ensures Shuffled(s, front + [j], i) == Shuffled(Swapped(s, i - 1, j), front, i - 1)
  {
    hide *;
    ShuffledUnfolds(s, front + [j], i);
    SmallMod(j, i);
    ShuffledPrefix(Swapped(s, i - 1, j), front, j, i - 1);
  }

  lemma ShuffledUnfolds<T>(s: seq<T>, choices: seq<nat>, i: nat)
    requires 2 <= i <= |s| && |choices| == i
    ensures Shuffled(s, choices, i) == Shuffled(Swapped(s, i - 1, choices[i - 1] % i), choices, i - 1)
  {
    hide Swapped;
  }

  lemma SmallMod(j: nat, i: nat)
    requires j < i
    ensures j % i == j
  {
  }

  lemma AlignedEnd<T>(s: seq<T>, t: seq<T>, i: nat)
    requires Aligned(s, t, i) && i <= 1
    ensures s == t
  {
    if i == 1 {
      assert s[..1] == [s[0]] && t[..1] == [t[0]];
      assert s[0] in Bag(t[..1]);
    }
    assert s == s[..i] + s[i..] && t == t[..i] + t[i..];
  }

  lemma InBag<T>(s: seq<T>, x: T) returns (j: nat)
    requires x in Bag(s)
    ensures j < |s| && s[j] == x
  {
    j :| j < |s| && s[j] == x;
  }

  lemma AlignedBack<T>(s: seq<T>, t: seq<T>, i: nat) returns (j: nat)
    requires 1 <= i <= |s| == |t| && Aligned(s, t, i)
    ensures j < i && Aligned(Swapped(s, i - 1, j), t, i - 1)
  {
    hide *;
    AlignedIs(s, t, i);
    LastIn(t, i);
    j := InBag(s[..i], t[i - 1]);
    var r := Swapped(s, i - 1, j);
    SwappedParts(s, i, j);
    SwappedBag(s[..i], i - 1, j);
    BagFront(r[..i - 1], t[i - 1]);
    BagFront(t[..i - 1], t[i - 1]);
    AlignedIs(r, t, i - 1);
  }

  lemma AlignedIs<T>(s: seq<T>, t: seq<T>, i: nat)
    requires i <= |s| == |t|
    ensures Aligned(s, t, i) <==> s[i..] == t[i..] && Bag(s[..i]) == Bag(t[..i])
  {
    hide Bag;
  }

  lemma LastIn<T>(t: seq<T>, i: nat)
    requires 1 <= i <= |t|
    ensures t[i - 1] in Bag(t[..i]) && t[..i] == t[..i - 1] + [t[i - 1]] && t[i - 1..] == [t[i - 1]] + t[i..]
  {
    assert t[..i][i - 1] == t[i - 1];
  }

  lemma SwappedParts<T>(s: seq<T>, i: nat, j: nat)
    requires 1 <= i <= |s| && j < i
    ensures var r := Swapped(s, i - 1, j);
            r[i - 1..] == [s[j]] + s[i..] && r[..i - 1] + [s[j]] == Swapped(s[..i], i - 1, j)
  {
  }

  lemma SwappedBag<T>(s: seq<T>, i: nat, j: nat)
    requires i < |s| && j < |s|
    ensures Bag(Swapped(s, i, j)) == Bag(s)
  {
  }

  lemma BagFront<T>(s: seq<T>, x: T)
    ensures Bag(s) == Bag(s + [x]) - multiset{x}
  {
  }

  /** random.shuffle, with the random numbers as a parameter. */
  method RandomShuffle(list: seq<InstructionWrapper>, choices: seq<nat>) returns (r: seq<InstructionWrapper>)
    ensures r == Shuffled(list, choices, |list|)
  {
    r := list;
    var i := |list|;
    while i > 1
      invariant 0 <= i <= |r| == |list| && Shuffled(r, choices, i) == Shuffled(list, choices, |list|)
    {
      i := i - 1;
      var j := if i < |choices| then choices[i] % (i + 1) else 0;
      r := r[i := r[j]][j := r[i]];
    }
  }

  ghost function Order(list: seq<InstructionWrapper>): (r: seq<nat>)
    ensures |r| == |list|
  {
    seq(|list|, i requires 0 <= i < |list| => list[i].address)
  }

  /** What the pass adds to the lists of instruction j of n. */
  function BeforePieces(j: nat, n: nat): seq<seq<Line>> {
    if n < 4 || j == 0 then [] else [Before(j, n)]
  }

  function AfterPieces(j: nat, n: nat): seq<seq<Line>> {
    if n < 4 || j + 2 >= n then [] else [After(j, n)]
  }

  /** The first half of do_instrument: the call behind an instruction and the label that
      takes it, in front. What earlier passes left in the lists stays in front of both. */
  method Chain(cache: array<InstructionWrapper>)
    requires cache.Length >= 4 && forall i :: 0 <= i < cache.Length ==> cache[i].address == i
    modifies Wrappers(cache)
    ensures forall i :: 0 <= i < cache.Length ==>
              && cache[i].before == old(cache[i].before) + BeforePieces(i, cache.Length)
              && cache[i].after == old(cache[i].after) + AfterPieces(i, cache.Length)
  {
    var n := cache.Length;
    ghost var all := Wrappers(cache);
    for idx := 0 to n
      invariant forall i :: 0 <= i < idx ==> cache[i].before == old(cache[i].before) + BeforePieces(i, n)
                                             && cache[i].after == old(cache[i].after) + AfterPieces(i, n)
      invariant forall i :: idx <= i < n ==> cache[i].before == old(cache[i].before)
                                             && cache[i].after == old(cache[i].after)
    {
      var instruction := cache[idx];
      assert instruction in all;
      if idx < n - 2 {
        instruction.InstrumentAfter([LeaRsp(-GAP), CallTo(R(cache[idx + 1].address))], 0);
      }
      if idx > 0 {
        var a := instruction.address;
        instruction.InstrumentBefore([JmpTo(F(a)), Define(R(a)), LeaRsp(GAP + 8), Define(F(a))], 0);
      }
      forall i | 0 <= i < n && i != idx ensures cache[i] != instruction { assert cache[i].address == i; }
    }
  }

  /** The second half: everything but the first two and the last two instructions is put
      in random order. */
  method Randomize(cache: array<InstructionWrapper>, choices: seq<nat>)
    requires cache.Length >= 4 && forall i :: 0 <= i < cache.Length ==> cache[i].address == i
    modifies cache
    ensures cache[..] == Arranged(old(cache[..]), choices)
  {
    hide *;
    var n := cache.Length;
    ghost var start := cache[..];
    var instructions := RandomShuffle(cache[2..n - 2], choices);
    forall i | 2 <= i < n - 2 { cache[i] := instructions[i - 2]; }
    ArrangedIs(start, choices, cache[..]);
  }

  lemma ArrangedIs<T>(start: seq<T>, choices: seq<nat>, end: seq<T>)
    requires |end| == |start| >= 4
    requires var mid := Shuffled(start[2..|start| - 2], choices, |start| - 4);
             forall i :: 0 <= i < |end| ==> end[i] == if 2 <= i < |end| - 2 then mid[i - 2] else start[i]
    ensures end == Arranged(start, choices)
  {
    hide Shuffled;
  }

  /** Everything but the first two and the last two in the order that the choices give. */
  function Arranged<T>(start: seq<T>, choices: seq<nat>): (r: seq<T>)
    ensures |r| == |start|
  {
    if |start| < 4 then start
    else
      var n := |start|;
      start[..2] + Shuffled(start[2..n - 2], choices, n - 4) + start[n - 2..]
  }

  lemma MiddleShuffled(start: seq<InstructionWrapper>, mid: seq<InstructionWrapper>, end: seq<InstructionWrapper>)
    requires |start| == |end| >= 4 && |mid| == |start| - 4
    requires forall i :: 0 <= i < |start| ==> start[i].address == i
    requires forall i :: 0 <= i < |end| ==> end[i] == if 2 <= i < |end| - 2 then mid[i - 2] else start[i]
    requires forall x :: x in mid <==> x in start[2..|start| - 2]
    requires forall p, q :: 0 <= p < q < |mid| ==> mid[p] != mid[q]
    ensures IsShuffle(Order(end), |start|)
    ensures forall i :: 0 <= i < |end| ==> end[i] in start
  {
    var n, order := |start|, Order(end);
    forall i | 2 <= i < n - 2
      ensures end[i] in start && 2 <= order[i] < n - 2 && end[i] == start[order[i]]
    {
      assert mid[i - 2] in mid;
    }
    forall p, q | 0 <= p < q < n ensures order[p] != order[q] {
      assert 2 <= p && q < n - 2 ==> mid[p - 2] != mid[q - 2];
    }
    forall j: nat | j < n ensures j in order {
      if 2 <= j < n - 2 {
        assert start[2..n - 2][j - 2] == start[j];
        assert start[j] in mid;
        var k :| 0 <= k < |mid| && mid[k] == start[j];
        assert order[k + 2] == j;
      } else {
        assert order[j] == j;
      }
    }
  }

  lemma Unchanged(order: seq<nat>, n: nat)
    requires |order| == n > 0 && (forall p :: 0 <= p < n ==> order[p] == p)
    ensures IsShuffle(order, n)
  {
    forall j: nat | j < n ensures j in order { assert order[j] == j; }
  }

  /** Whatever the choices, the order is a shuffle of the same wrappers. */
  lemma ArrangedShuffles(start: seq<InstructionWrapper>, choices: seq<nat>)
    requires start != [] && forall i :: 0 <= i < |start| ==> start[i].address == i
    ensures IsShuffle(Order(Arranged(start, choices)), |start|)
    ensures forall i :: 0 <= i < |start| ==> Arranged(start, choices)[i] in start
  {
    var n := |start|;
    if n < 4 {
      Unchanged(Order(start), n);
    } else {
      var mid := start[2..n - 2];
      ShuffledSame(mid, choices, n - 4);
      hide Shuffled;
      MiddleShuffled(start, Shuffled(mid, choices, n - 4), Arranged(start, choices));
    }
  }

  ghost predicate Apart<T>(s: seq<T>) { forall p, q :: 0 <= p < q < |s| ==> s[p] != s[q] }

  lemma {:induction false} ApartCounts<T>(s: seq<T>, x: T)
    requires Apart(s)
    ensures Bag(s)[x] == if x in s then 1 else 0
  {
    if s != [] {
      var front, y := s[..|s| - 1], s[|s| - 1];
      ApartCounts(front, x);
      assert s == front + [y];
      assert x in s <==> x in front || x == y;
      assert y !in front;
    }
  }

  lemma ApartSame<T>(s: seq<T>, t: seq<T>)
    requires Apart(s) && Apart(t) && forall x :: x in s <==> x in t
    ensures Bag(s) == Bag(t)
  {
    hide Apart;
    forall x ensures Bag(s)[x] == Bag(t)[x] {
      ApartCounts(s, x);
      ApartCounts(t, x);
    }
  }

  /** The wrappers in a given order. */
  ghost function InOrder(start: seq<InstructionWrapper>, order: seq<nat>): (r: seq<InstructionWrapper>)
    requires forall p :: 0 <= p < |order| ==> order[p] < |start|
    ensures |r| == |order| && forall p :: 0 <= p < |r| ==> r[p] == start[order[p]]
  {
    seq(|order|, p requires 0 <= p < |order| => start[order[p]])
  }

  /** Every shuffle comes from some choices: no order is left out. */
  lemma EveryShuffle(start: seq<InstructionWrapper>, order: seq<nat>) returns (choices: seq<nat>)
    requires (forall i :: 0 <= i < |start| ==> start[i].address == i) && IsShuffle(order, |start|)
    ensures Order(Arranged(start, choices)) == order
  {
    hide *;
    var n := |start|;
    InOrderIs(start, order);
    var end := InOrder(start, order);
    choices := [];
    if n < 4 {
      FewArranged(start, choices);
    } else {
      var s, t := start[2..n - 2], end[2..n - 2];
      MiddleKept(start, order);
      ApartSame(s, t);
      MakeAligned(s, t);
      choices := SomeChoices(s, t, n - 4);
      ArrangedIs(start, choices, end);
    }
  }

  lemma FewArranged<T>(start: seq<T>, choices: seq<nat>)
    requires |start| < 4
    ensures Arranged(start, choices) == start
  {
  }

  lemma MakeAligned<T>(s: seq<T>, t: seq<T>)
    requires |s| == |t| && Bag(s) == Bag(t)
    ensures Aligned(s, t, |s|)
  {
    assert s[..|s|] == s && t[..|s|] == t;
  }

  lemma InOrderIs(start: seq<InstructionWrapper>, order: seq<nat>)
    requires (forall i :: 0 <= i < |start| ==> start[i].address == i) && IsShuffle(order, |start|)
    ensures forall p :: 0 <= p < |order| ==> order[p] < |start|
    ensures |order| == |start| && Order(InOrder(start, order)) == order
    ensures |start| < 4 ==> InOrder(start, order) == start
  {
    forall p | 0 <= p < |order| ensures order[p] < |start| { assert order[p] in order; }
  }

  lemma MiddleKept(start: seq<InstructionWrapper>, order: seq<nat>)
    requires forall i :: 0 <= i < |start| ==> start[i].address == i
    requires |start| >= 4 && IsShuffle(order, |start|) && forall p :: 0 <= p < |order| ==> order[p] < |start|
    ensures var n, end := |start|, InOrder(start, order);
            var s, t := start[2..n - 2], end[2..n - 2];
            && Apart(s) && Apart(t) && (forall x :: x in s <==> x in t)
            && forall i :: 0 <= i < n ==> end[i] == if 2 <= i < n - 2 then t[i - 2] else start[i]
  {
    var n, end := |start|, InOrder(start, order);
    var s, t := start[2..n - 2], end[2..n - 2];
    assert Apart(s) by {
      forall p, q | 0 <= p < q < |s| ensures s[p] != s[q] { assert s[p].address == p + 2 && s[q].address == q + 2; }
    }
    assert Apart(t) by {
      forall p, q | 0 <= p < q < |t| ensures t[p] != t[q] {
        assert t[p].address == order[p + 2] && t[q].address == order[q + 2];
      }
    }
    hide Apart;
    forall x | x in s ensures x in t { FoundIn(start, order, x); }
    forall x | x in t ensures x in s { FoundOut(start, order, x); }
  }

  lemma FoundIn(start: seq<InstructionWrapper>, order: seq<nat>, x: InstructionWrapper)
    requires forall i :: 0 <= i < |start| ==> start[i].address == i
    requires |start| >= 4 && IsShuffle(order, |start|) && forall p :: 0 <= p < |order| ==> order[p] < |start|
    requires x in start[2..|start| - 2]
    ensures x in InOrder(start, order)[2..|start| - 2]
  {
    var n, s, t := |start|, start[2..|start| - 2], InOrder(start, order)[2..|start| - 2];
    var k: nat :| 0 <= k < |s| && s[k] == x;
    assert k + 2 in order;
    var p :| 0 <= p < n && order[p] == k + 2;
    assert 2 <= p < n - 2;
    assert t[p - 2] == x;
  }

  lemma FoundOut(start: seq<InstructionWrapper>, order: seq<nat>, x: InstructionWrapper)
    requires forall i :: 0 <= i < |start| ==> start[i].address == i
    requires |start| >= 4 && IsShuffle(order, |start|) && forall p :: 0 <= p < |order| ==> order[p] < |start|
    requires x in InOrder(start, order)[2..|start| - 2]
    ensures x in start[2..|start| - 2]
  {
    var n, s, t := |start|, start[2..|start| - 2], InOrder(start, order)[2..|start| - 2];
    var k: nat :| 0 <= k < |t| && t[k] == x;
    var m := order[k + 2];
    assert order[0] == 0 && order[1] == 1 && order[n - 2] == n - 2 && order[n - 1] == n - 1;
    assert m != 0 && m != 1 && m != n - 2 && m != n - 1;
    assert s[m - 2] == x;
  }

  /** do_instrument for one function: each instruction gets its pieces behind what was in
      its lists, and the order becomes a shuffle. */
  method DoInstrument(cache: array<InstructionWrapper>, choices: seq<nat>)
    requires cache.Length > 0 && forall i :: 0 <= i < cache.Length ==> cache[i].address == i
    modifies cache, Wrappers(cache)
    ensures cache[..] == Arranged(old(cache[..]), choices)
    ensures IsShuffle(Order(cache[..]), cache.Length)
    ensures forall i :: 0 <= i < cache.Length ==> cache[i] in old(cache[..])
    ensures forall w :: w in old(cache[..]) ==>
              && w.before == old(w.before) + BeforePieces(w.address, cache.Length)
              && w.after == old(w.after) + AfterPieces(w.address, cache.Length)
  {
    ArrangedShuffles(cache[..], choices);
    hide Arranged;
    if cache.Length < 4 { return; }
    Chain(cache);
    assert forall i :: 0 <= i < cache.Length ==> cache[..][i].address == i;
    Randomize(cache, choices);
  }

  /** Without earlier pieces, these are the lines around an instruction. */
  lemma PiecesFlat(j: nat, n: nat)
    ensures Flat(BeforePieces(j, n)) == Before(j, n) && Flat(AfterPieces(j, n)) == After(j, n)
  {
    FlatOne(BeforePieces(j, n));
    FlatOne(AfterPieces(j, n));
  }

  lemma FlatOne(pieces: seq<seq<Line>>)
    ensures |pieces| == 1 ==> Flat(pieces) == pieces[0]
  {
    if |pieces| == 1 { assert pieces[1..] == []; }
  }

  lemma FlatFront(pieces: seq<seq<Line>>, k: nat)
    requires k < |pieces|
    ensures Flat(pieces[..k + 1]) == Flat(pieces[..k]) + pieces[k]
  {
    if k > 0 {
      FlatFront(pieces[1..], k - 1);
      assert pieces[..k + 1][1..] == pieces[1..][..k] && pieces[..k][1..] == pieces[1..][..k - 1];
    } else {
      FlatOne(pieces[..1]);
    }
  }

  method AppendAll(results: seq<Line>, pieces: seq<seq<Line>>) returns (r: seq<Line>)
    ensures r == results + Flat(pieces)
  {
    r := results;
    for k := 0 to |pieces|
      invariant r == results + Flat(pieces[..k])
    {
      FlatFront(pieces, k);
      r := r + pieces[k];
    }
    assert pieces[..|pieces|] == pieces;
  }

  /** What a wrapper holds. */
  datatype Wrapped = Wrapped(address: nat, before: seq<seq<Line>>, after: seq<seq<Line>>)

  ghost function Contents(w: InstructionWrapper): Wrapped
    reads w
  {
    Wrapped(w.address, w.before, w.after)
  }

  /** The contents of the first k wrappers. */
  ghost function Held(cache: array<InstructionWrapper>, k: nat): (r: seq<Wrapped>)
    requires k <= cache.Length
    reads cache, Wrappers(cache)
    ensures |r| == k && forall i :: 0 <= i < k ==> r[i] == Contents(cache[i])
  {
    if k == 0 then [] else Held(cache, k - 1) + [Contents(cache[k - 1])]
  }

  function TextOf(w: Wrapped): seq<Line> {
    [Define(C(w.address))] + Flat(w.before) + [Original(w.address)] + Flat(w.after)
  }

  /** For each instruction its label, what passes put before it, itself, and what they put
      behind it. */
  function Text(ws: seq<Wrapped>): seq<Line> {
    if ws == [] then [] else Text(ws[..|ws| - 1]) + TextOf(ws[|ws| - 1])
  }

  lemma TextMore(ws: seq<Wrapped>, w: Wrapped)
    ensures Text(ws + [w]) == Text(ws) + TextOf(w)
  {
    assert (ws + [w])[..|ws|] == ws;
  }

  method RenderOne(results: seq<Line>, w: InstructionWrapper) returns (r: seq<Line>)
    ensures r == results + TextOf(Contents(w))
  {
    hide Flat;
    r := results + [Define(C(w.address))];
    r := AppendAll(r, w.before);
    r := r + [Original(w.address)];
    r := AppendAll(r, w.after);
  }

  /** Function.__str__: the lines in the order of the cache. */
  method Render(cache: array<InstructionWrapper>) returns (results: seq<Line>)
    ensures results == Text(Held(cache, cache.Length))
  {
    hide TextOf;
    results := [];
    for k := 0 to cache.Length
      invariant results == Text(Held(cache, k))
    {
      ghost var before := Held(cache, k);
      results := RenderOne(results, cache[k]);
      assert before == Held(cache, k);
      assert results == Text(before) + TextOf(Contents(cache[k]));
      TextMore(Held(cache, k), Contents(cache[k]));
    }
  }

  /** The instruction has the pieces of this pass and no others. */
  ghost predicate OnlyChained(w: Wrapped, n: nat) {
    w.before == BeforePieces(w.address, n) && w.after == AfterPieces(w.address, n)
  }

  /** After this pass alone, Function.__str__ emits the code of the shuffle. */
  lemma {:induction false} TextIsCode(ws: seq<Wrapped>, order: seq<nat>, n: nat)
    requires |ws| == |order| && forall i :: 0 <= i < |ws| ==> ws[i].address == order[i] && OnlyChained(ws[i], n)
    ensures Text(ws) == Code(order, n)
    decreases |ws|
  {
    hide Block, TextOf;
    if ws != [] {
      var k := |ws| - 1;
      TextIsCode(ws[..k], order[..k], n);
      OneText(ws[k], n);
      CodeFront(order, k, n);
      assert order[..k + 1] == order;
    }
  }

  lemma OneText(w: Wrapped, n: nat)
    requires OnlyChained(w, n)
    ensures TextOf(w) == Block(w.address, n)
  {
    PiecesFlat(w.address, n);
    hide BeforePieces, AfterPieces, Before, After;
  }

  lemma {:induction false} CodeJoin(a: seq<nat>, b: seq<nat>, n: nat)
    ensures Code(a + b, n) == Code(a, n) + Code(b, n)
    decreases |a|
  {
    hide Block;
    if a == [] { assert a + b == b; }
    else {
      assert (a + b)[1..] == a[1..] + b;
      CodeJoin(a[1..], b, n);
    }
  }

  lemma CodeFront(order: seq<nat>, k: nat, n: nat)
    requires k < |order|
    ensures Code(order[..k + 1], n) == Code(order[..k], n) + Block(order[k], n)
  {
    hide Block;
    assert order[..k + 1] == order[..k] + [order[k]];
    CodeJoin(order[..k], [order[k]], n);
    assert Code([order[k]], n) == Block(order[k], n) + Code([], n);
  }

  // ----- labels

  /** The first line equal to l; the number of lines if there is none. */
  function Find(code: seq<Line>, l: Line): (r: nat)
    ensures r <= |code| && (l in code <==> r < |code|) && (r < |code| ==> code[r] == l)
  {
    if code == [] || code[0] == l then 0 else 1 + Find(code[1..], l)
  }

  /** The lines that only the block of instruction j has. */
  predicate Marks(l: Line, j: nat) {
    l == Original(j) || l == Define(C(j)) || l == Define(R(j)) || l == Define(F(j))
  }

  lemma {:induction false} FindPast(a: seq<Line>, b: seq<Line>, l: Line)
    requires l !in a
    ensures Find(a + b, l) == |a| + Find(b, l)
    decreases |a|
  {
    if a == [] { assert a + b == b; }
    else {
      assert (a + b)[1..] == a[1..] + b;
      FindPast(a[1..], b, l);
    }
  }

  lemma {:induction false} NotMarked(order: seq<nat>, n: nat, j: nat, l: Line)
    requires j !in order && Marks(l, j)
    ensures l !in Code(order, n)
  {
    if order != [] { NotMarked(order[1..], n, j, l); }
  }

  /** Where the block of the p-th instruction starts. */
  function Start(order: seq<nat>, n: nat, p: nat): nat
    requires p <= |order|
  {
    |Code(order[..p], n)|
  }

  lemma CodeAround(order: seq<nat>, n: nat, p: nat)
    requires p < |order|
    ensures Code(order, n) == Code(order[..p], n) + (Block(order[p], n) + Code(order[p + 1..], n))
    ensures Start(order, n, p + 1) == Start(order, n, p) + |Block(order[p], n)| <= |Code(order, n)|
    ensures Start(order, n, |order|) == |Code(order, n)|
  {
    hide Block, Code;
    CodeFront(order, p, n);
    assert order[..p + 1] + order[p + 1..] == order;
    assert order[..|order|] == order;
    CodeJoin(order[..p + 1], order[p + 1..], n);
    Grouped(Code(order[..p], n), Block(order[p], n), Code(order[p + 1..], n));
  }

  lemma Grouped(a: seq<Line>, b: seq<Line>, c: seq<Line>)
    ensures a + b + c == a + (b + c)
  {
  }

  /** The lines of the p-th block. */
  lemma LineAt(order: seq<nat>, n: nat, p: nat, d: nat)
    requires p < |order| && d < |Block(order[p], n)|
    ensures Start(order, n, p) + d < |Code(order, n)|
    ensures Code(order, n)[Start(order, n, p) + d] == Block(order[p], n)[d]
  {
    CodeAround(order, n, p);
    hide Block, Code;
  }

  /** A label leads into the block of its instruction. */
  lemma FindMark(order: seq<nat>, n: nat, p: nat, l: Line)
    requires p < |order| && Distinct(order) && Marks(l, order[p]) && l in Block(order[p], n)
    ensures Find(Code(order, n), l) == Start(order, n, p) + Find(Block(order[p], n), l)
  {
    CodeAround(order, n, p);
    assert order[p] !in order[..p];
    NotMarked(order[..p], n, order[p], l);
    var block, rest := Block(order[p], n), Code(order[p + 1..], n);
    hide Block, Code, Marks;
    FindPast(Code(order[..p], n), block + rest, l);
    FindEarly(block, rest, l);
  }

  lemma {:induction false} FindEarly(a: seq<Line>, b: seq<Line>, l: Line)
    requires l in a
    ensures Find(a + b, l) == Find(a, l)
    decreases |a|
  {
    if a[0] != l {
      assert (a + b)[1..] == a[1..] + b;
      FindEarly(a[1..], b, l);
    }
  }

  // ----- the machine

  datatype Going = Next | Goto(j: nat) | Leave(v: int)

  /** The state of the program: R stands for the flags and all registers but rsp. */
  datatype State<R> = State(regs: R, rsp: int, mem: int -> int)

  /** The instructions of a function of n: what each does with the state and where it goes,
      and which memory it uses and changes. An instruction that calls does so in one step. */
  datatype Program<!R> = Program(
    exec: (nat, State<R>) -> (State<R>, Going),
    uses: (nat, State<R>) -> iset<int>,
    changes: (nat, State<R>) -> iset<int>)

  ghost predicate SameButFor<R>(a: State<R>, b: State<R>, cells: iset<int>) {
    a.regs == b.regs && a.rsp == b.rsp && forall x :: x !in cells ==> a.mem(x) == b.mem(x)
  }

  /** What an instruction does depends on registers and on the memory it uses. */
  ghost predicate FramedAt<R(!new)>(prog: Program<R>, k: nat, a: State<R>, b: State<R>) {
    a.regs == b.regs && a.rsp == b.rsp && (forall x :: x in prog.uses(k, a) ==> a.mem(x) == b.mem(x)) ==>
      var (a', going) := prog.exec(k, a);
      var (b', going') := prog.exec(k, b);
      && going == going' && a'.regs == b'.regs && a'.rsp == b'.rsp
      && (forall x :: x in prog.changes(k, a) ==> a'.mem(x) == b'.mem(x))
      && (forall x :: x !in prog.changes(k, a) ==> a'.mem(x) == a.mem(x) && b'.mem(x) == b.mem(x))
  }

  ghost predicate Framed<R(!new)>(prog: Program<R>) {
    forall k, a, b :: FramedAt(prog, k, a, b)
  }

  datatype Exit = Left(v: int) | FellOff

  /** Either at instruction k of the original function, or out of it. */
  datatype Point = At(k: nat) | Out(exit: Exit)

  /** The original function. */
  function OriginalStep<R>(prog: Program<R>, n: nat, at: Point, s: State<R>): (Point, State<R>) {
    if at.Out? then (at, s)
    else
      var (s', going) := prog.exec(at.k, s);
      match going
      case Leave(v) => (Out(Left(v)), s')
      case Goto(j) => (if j < n then At(j) else Out(Left(j)), s')
      case Next => (if at.k + 1 < n then At(at.k + 1) else Out(FellOff), s')
  }

  function OriginalRun<R>(prog: Program<R>, n: nat, s: State<R>, t: nat): (Point, State<R>) {
    if t == 0 then (At(0), s)
    else
      var (at, s') := OriginalRun(prog, n, s, t - 1);
      OriginalStep(prog, n, at, s')
  }

  /** The machine on the emitted lines; a call pushes the address ret of the next line. */
  datatype Machine<R> = Running(pc: nat, s: State<R>) | Stopped(exit: Exit, s: State<R>)

  function Step<R>(prog: Program<R>, ret: nat -> int, n: nat, code: seq<Line>, m: Machine<R>): Machine<R> {
    if m.Stopped? then m
    else if m.pc >= |code| then Stopped(FellOff, m.s)
    else
      match code[m.pc]
      case Define(_) => Running(m.pc + 1, m.s)
      case LeaRsp(delta) => Running(m.pc + 1, m.s.(rsp := m.s.rsp + delta))
      case JmpTo(l) => Running(Find(code, Define(l)), m.s)
      case CallTo(l) =>
        Running(Find(code, Define(l)), m.s.(rsp := m.s.rsp - 8, mem := Store(m.s.mem, m.s.rsp - 8, ret(m.pc + 1))))
      case Original(k) =>
        var (s', going) := prog.exec(k, m.s);
        match going
        case Next => Running(m.pc + 1, s')
        case Goto(j) => if j < n then Running(Find(code, Define(C(j))), s') else Stopped(Left(j), s')
        case Leave(v) => Stopped(Left(v), s')
  }

  function Steps<R>(prog: Program<R>, ret: nat -> int, n: nat, code: seq<Line>, m: Machine<R>, count: nat): Machine<R> {
    if count == 0 then m else Step(prog, ret, n, code, Steps(prog, ret, n, code, m, count - 1))
  }

  lemma {:induction false} StepsJoin<R>(prog: Program<R>, ret: nat -> int, n: nat, code: seq<Line>, m: Machine<R>,
                                        a: nat, b: nat)
    ensures Steps(prog, ret, n, code, m, a + b) == Steps(prog, ret, n, code, Steps(prog, ret, n, code, m, a), b)
  {
    hide Step;
    if b > 0 { StepsJoin(prog, ret, n, code, m, a, b - 1); }
  }

  lemma ThreeSteps<R>(prog: Program<R>, ret: nat -> int, n: nat, code: seq<Line>, m: Machine<R>)
    ensures Steps(prog, ret, n, code, m, 1) == Step(prog, ret, n, code, m)
    ensures Steps(prog, ret, n, code, m, 2) == Step(prog, ret, n, code, Step(prog, ret, n, code, m))
    ensures Steps(prog, ret, n, code, m, 3)
            == Step(prog, ret, n, code, Step(prog, ret, n, code, Step(prog, ret, n, code, m)))
  {
    hide Step;
    assert Steps(prog, ret, n, code, m, 0) == m;
  }

  // ----- from one instruction to the next

  /** The line of instruction k. */
  function Line0(order: seq<nat>, n: nat, k: nat): nat {
    Find(Code(order, n), Original(k))
  }

  function OriginalAt(k: nat, n: nat): nat { 1 + |Before(k, n)| }

  lemma {:induction false} FirstAt(code: seq<Line>, i: nat)
    requires i < |code| && forall j :: 0 <= j < i ==> code[j] != code[i]
    ensures Find(code, code[i]) == i
  {
    if i > 0 { FirstAt(code[1..], i - 1); }
  }

  /** The layout of a block. */
  lemma BlockLines(k: nat, n: nat)
    ensures var b, o := Block(k, n), OriginalAt(k, n);
            && |b| == o + 1 + |After(k, n)| && b[0] == Define(C(k)) && b[o] == Original(k)
            && (if n >= 4 && k > 0 then
                  o == 5 && b[1] == JmpTo(F(k)) && b[2] == Define(R(k)) && b[3] == LeaRsp(GAP + 8)
                    && b[4] == Define(F(k))
                else o == 1)
            && (Calls(k, n) ==> b[o + 1] == LeaRsp(-GAP) && b[o + 2] == CallTo(R(k + 1)))
  {
  }

  lemma BlockMarks(k: nat, n: nat)
    ensures var b, o := Block(k, n), OriginalAt(k, n);
            && Find(b, Define(C(k))) == 0 && Find(b, Original(k)) == o
            && (n >= 4 && k > 0 ==> Find(b, Define(R(k))) == 2 && Find(b, Define(F(k))) == 4)
  {
    var b := Block(k, n);
    BlockLines(k, n);
    hide Block, Find;
    FirstAt(b, 0);
    FirstAt(b, OriginalAt(k, n));
    if n >= 4 && k > 0 {
      FirstAt(b, 2);
      FirstAt(b, 4);
    }
  }

  lemma Placed(order: seq<nat>, n: nat, k: nat) returns (p: nat)
    requires IsShuffle(order, n) && k < n
    ensures p < |order| && order[p] == k
    ensures Line0(order, n, k) == Start(order, n, p) + OriginalAt(k, n)
    ensures Find(Code(order, n), Define(C(k))) == Start(order, n, p)
    ensures n >= 4 && k > 0 ==> Find(Code(order, n), Define(R(k))) == Start(order, n, p) + 2
    ensures n >= 4 && k > 0 ==> Find(Code(order, n), Define(F(k))) == Start(order, n, p) + 4
  {
    assert k in order;
    p :| 0 <= p < |order| && order[p] == k;
    BlockLines(k, n);
    BlockMarks(k, n);
    hide Code, Block, Start;
    FindMark(order, n, p, Define(C(k)));
    FindMark(order, n, p, Original(k));
    if n >= 4 && k > 0 {
      FindMark(order, n, p, Define(R(k)));
      FindMark(order, n, p, Define(F(k)));
    }
  }

  /** Where the lines around instruction k stand: c is its label, o the instruction. */
  ghost predicate Laid(code: seq<Line>, n: nat, k: nat, c: nat, o: nat) {
    && o < |code| && c == Find(code, Define(C(k))) < o && o == Find(code, Original(k))
    && code[c] == Define(C(k)) && code[o] == Original(k)
    && (if n >= 4 && k > 0 then
          && o == c + 5 && code[c + 1] == JmpTo(F(k)) && code[c + 2] == Define(R(k)) && code[c + 3] == LeaRsp(GAP + 8)
          && code[c + 4] == Define(F(k)) && Find(code, Define(R(k))) == c + 2 && Find(code, Define(F(k))) == c + 4
        else o == c + 1)
    && (Calls(k, n) ==> o + 2 < |code| && code[o + 1] == LeaRsp(-GAP) && code[o + 2] == CallTo(R(k + 1)))
  }

  lemma Layout(order: seq<nat>, n: nat, k: nat) returns (c: nat)
    requires IsShuffle(order, n) && k < n
    ensures Laid(Code(order, n), n, k, c, Line0(order, n, k))
  {
    var p := Placed(order, n, k);
    c := Start(order, n, p);
    assert Line0(order, n, k) == Find(Code(order, n), Original(k));
    hide *;
    forall d | 0 <= d < |Block(k, n)| ensures InCode(Code(order, n), Block(k, n), c, d) { MakeInCode(order, n, p, d); }
    Laying(Code(order, n), Block(k, n), n, k, c);
  }

  predicate InCode(code: seq<Line>, block: seq<Line>, c: nat, d: nat)
    requires d < |block|
  {
    c + d < |code| && code[c + d] == block[d]
  }

  lemma MakeInCode(order: seq<nat>, n: nat, p: nat, d: nat)
    requires p < |order| && d < |Block(order[p], n)|
    ensures InCode(Code(order, n), Block(order[p], n), Start(order, n, p), d)
  {
    LineAt(order, n, p, d);
  }

  lemma Laying(code: seq<Line>, b: seq<Line>, n: nat, k: nat, c: nat)
    requires b == Block(k, n) && forall d :: 0 <= d < |b| ==> InCode(code, b, c, d)
    requires c == Find(code, Define(C(k))) && Find(code, Original(k)) == c + OriginalAt(k, n)
    requires n >= 4 && k > 0 ==> Find(code, Define(R(k))) == c + 2 && Find(code, Define(F(k))) == c + 4
    ensures Laid(code, n, k, c, Find(code, Original(k)))
  {
    BlockLines(k, n);
    var o := OriginalAt(k, n);
    hide Find, Block, OriginalAt, After;
    assert InCode(code, b, c, 0) && InCode(code, b, c, o);
    if n >= 4 && k > 0 {
      assert InCode(code, b, c, 1) && InCode(code, b, c, 2) && InCode(code, b, c, 3) && InCode(code, b, c, 4);
    }
    assert Calls(k, n) ==> |b| == o + 3 by { AfterSize(k, n); }
    assert Calls(k, n) ==> InCode(code, b, c, o + 1) && InCode(code, b, c, o + 2);
  }

  lemma AfterSize(k: nat, n: nat)
    ensures Calls(k, n) ==> |After(k, n)| == 2
  {
  }

  lemma StepDefine<R>(prog: Program<R>, ret: nat -> int, n: nat, code: seq<Line>, pc: nat, s: State<R>)
    requires pc < |code| && code[pc].Define?
    ensures Step(prog, ret, n, code, Running(pc, s)) == Running(pc + 1, s)
  {
  }

  lemma StepLea<R>(prog: Program<R>, ret: nat -> int, n: nat, code: seq<Line>, pc: nat, s: State<R>, delta: int)
    requires pc < |code| && code[pc] == LeaRsp(delta)
    ensures Step(prog, ret, n, code, Running(pc, s)) == Running(pc + 1, s.(rsp := s.rsp + delta))
  {
  }

  lemma StepJmp<R>(prog: Program<R>, ret: nat -> int, n: nat, code: seq<Line>, pc: nat, s: State<R>, l: Label)
    requires pc < |code| && code[pc] == JmpTo(l)
    ensures Step(prog, ret, n, code, Running(pc, s)) == Running(Find(code, Define(l)), s)
  {
  }

  lemma StepCall<R>(prog: Program<R>, ret: nat -> int, n: nat, code: seq<Line>, pc: nat, s: State<R>, l: Label)
    requires pc < |code| && code[pc] == CallTo(l)
    ensures Step(prog, ret, n, code, Running(pc, s))
            == Running(Find(code, Define(l)), s.(rsp := s.rsp - 8, mem := Store(s.mem, s.rsp - 8, ret(pc + 1))))
  {
  }

  lemma Front(code: seq<Line>, n: nat, k: nat, c: nat, o: nat)
    requires Laid(code, n, k, c, o)
    ensures c < o < |code| && code[c].Define? && c == Find(code, Define(C(k))) && o == Find(code, Original(k))
    ensures n >= 4 && k > 0 ==>
              && o == c + 5 && code[c + 1] == JmpTo(F(k)) && code[c + 2].Define? && code[c + 3] == LeaRsp(GAP + 8)
              && code[c + 4].Define? && Find(code, Define(R(k))) == c + 2 && Find(code, Define(F(k))) == c + 4
    ensures n < 4 || k == 0 ==> o == c + 1
  {
    hide Find;
  }

  lemma Rear(code: seq<Line>, n: nat, k: nat, c: nat, o: nat)
    requires Laid(code, n, k, c, o) && Calls(k, n)
    ensures o + 2 < |code| && code[o + 1] == LeaRsp(-GAP) && code[o + 2] == CallTo(R(k + 1))
  {
    hide Find;
  }

  /** Reached by a branch to its label, an instruction is run in the state at the branch. */
  lemma FromLabel<R>(prog: Program<R>, ret: nat -> int, order: seq<nat>, n: nat, k: nat, s: State<R>)
    returns (count: nat)
    requires IsShuffle(order, n) && k < n
    ensures var code := Code(order, n);
            Steps(prog, ret, n, code, Running(Find(code, Define(C(k))), s), count) == Running(Line0(order, n, k), s)
  {
    var at := Layout(order, n, k);
    var code, o := Code(order, n), Line0(order, n, k);
    assert o == Find(code, Original(k));
    hide *;
    Front(code, n, k, at, o);
    ThreeSteps(prog, ret, n, code, Running(at, s));
    StepDefine(prog, ret, n, code, at, s);
    count := if n >= 4 && k > 0 then 3 else 1;
    if n >= 4 && k > 0 {
      StepJmp(prog, ret, n, code, at + 1, s, F(k));
      StepDefine(prog, ret, n, code, at + 4, s);
    }
  }

  /** Reached by a call to its other label, after the stack fix. */
  lemma FromCall<R>(prog: Program<R>, ret: nat -> int, order: seq<nat>, n: nat, k: nat, s: State<R>)
    requires IsShuffle(order, n) && 0 < k < n && n >= 4
    ensures var code := Code(order, n);
            Steps(prog, ret, n, code, Running(Find(code, Define(R(k))), s), 3)
            == Running(Line0(order, n, k), s.(rsp := s.rsp + GAP + 8))
  {
    var at := Layout(order, n, k);
    var code, o := Code(order, n), Line0(order, n, k);
    hide *;
    Front(code, n, k, at, o);
    ThreeSteps(prog, ret, n, code, Running(at + 2, s));
    StepDefine(prog, ret, n, code, at + 2, s);
    StepLea(prog, ret, n, code, at + 3, s, GAP + 8);
    StepDefine(prog, ret, n, code, at + 4, s.(rsp := s.rsp + (GAP + 8)));
  }

  /** Whether instruction k hands over by a call. */
  predicate Calls(k: nat, n: nat) { n >= 4 && k + 2 < n }

  /** The address that the call behind instruction k leaves on the stack. */
  function Stale(ret: nat -> int, order: seq<nat>, n: nat, k: nat): int {
    ret(Line0(order, n, k) + 3)
  }

  /** What handing over leaves of the state: a return address below the stack. */
  function Passed<R>(ret: nat -> int, order: seq<nat>, n: nat, k: nat, s: State<R>): State<R> {
    if Calls(k, n) then s.(mem := Store(s.mem, s.rsp - GAP - 8, Stale(ret, order, n, k))) else s
  }

  /** The state in which the label of the next instruction is called. */
  function Called<R>(ret: nat -> int, order: seq<nat>, n: nat, k: nat, s: State<R>): State<R> {
    s.(rsp := s.rsp - GAP - 8, mem := Store(s.mem, s.rsp - GAP - 8, Stale(ret, order, n, k)))
  }

  lemma CallStep<R>(prog: Program<R>, ret: nat -> int, order: seq<nat>, n: nat, k: nat, s: State<R>, o: nat)
    requires IsShuffle(order, n) && Calls(k, n) && o == Line0(order, n, k)
    ensures var code := Code(order, n);
            && Step(prog, ret, n, code, Running(o + 1, s)) == Running(o + 2, s.(rsp := s.rsp - GAP))
            && Step(prog, ret, n, code, Running(o + 2, s.(rsp := s.rsp - GAP)))
               == Running(Find(code, Define(R(k + 1))), Called(ret, order, n, k, s))
  {
    var at := Layout(order, n, k);
    var code := Code(order, n);
    CalledFrom(ret, order, n, k, s, o);
    hide *;
    Rear(code, n, k, at, o);
    StepLea(prog, ret, n, code, o + 1, s, -GAP);
    StepCall(prog, ret, n, code, o + 2, s.(rsp := s.rsp - GAP), R(k + 1));
  }

  lemma CalledFrom<R>(ret: nat -> int, order: seq<nat>, n: nat, k: nat, s: State<R>, o: nat)
    requires o == Line0(order, n, k)
    ensures var low := s.(rsp := s.rsp - GAP);
            low.(rsp := low.rsp - 8, mem := Store(low.mem, low.rsp - 8, ret(o + 2 + 1))) == Called(ret, order, n, k, s)
  {
    hide Store, Line0;
  }

  lemma ToCall<R>(prog: Program<R>, ret: nat -> int, order: seq<nat>, n: nat, k: nat, s: State<R>)
    requires IsShuffle(order, n) && Calls(k, n)
    ensures Steps(prog, ret, n, Code(order, n), Running(Line0(order, n, k) + 1, s), 2)
            == Running(Find(Code(order, n), Define(R(k + 1))), Called(ret, order, n, k, s))
  {
    hide *;
    CallStep(prog, ret, order, n, k, s, Line0(order, n, k));
    ThreeSteps(prog, ret, n, Code(order, n), Running(Line0(order, n, k) + 1, s));
  }

  lemma ByCall<R>(prog: Program<R>, ret: nat -> int, order: seq<nat>, n: nat, k: nat, s: State<R>)
    requires IsShuffle(order, n) && Calls(k, n)
    ensures Steps(prog, ret, n, Code(order, n), Running(Line0(order, n, k) + 1, s), 5)
            == Running(Line0(order, n, k + 1), Passed(ret, order, n, k, s))
  {
    hide Code, Find, Steps, IsShuffle, Store, Line0, Stale;
    ToCall(prog, ret, order, n, k, s);
    FromCall(prog, ret, order, n, k + 1, Called(ret, order, n, k, s));
    StepsJoin(prog, ret, n, Code(order, n), Running(Line0(order, n, k) + 1, s), 2, 3);
    assert Called(ret, order, n, k, s).(rsp := s.rsp - GAP - 8 + GAP + 8) == Passed(ret, order, n, k, s);
  }

  lemma ByFalling<R>(prog: Program<R>, ret: nat -> int, order: seq<nat>, n: nat, k: nat, s: State<R>)
    returns (count: nat)
    requires IsShuffle(order, n) && k + 1 < n && !Calls(k, n)
    ensures Steps(prog, ret, n, Code(order, n), Running(Line0(order, n, k) + 1, s), count)
            == Running(Line0(order, n, k + 1), s)
  {
    Adjacent(order, n, k);
    hide *;
    count := FromLabel(prog, ret, order, n, k + 1, s);
  }

  /** Where no call is needed the next block follows. */
  lemma Adjacent(order: seq<nat>, n: nat, k: nat)
    requires IsShuffle(order, n) && k + 1 < n && !Calls(k, n)
    ensures Line0(order, n, k) + 1 == Find(Code(order, n), Define(C(k + 1)))
  {
    var p := Placed(order, n, k);
    var q := Placed(order, n, k + 1);
    NextPlace(order, n, k, p, q);
    BlockLines(k, n);
    NoAfter(k, n);
    CodeAround(order, n, p);
    hide *;
  }

  lemma NextPlace(order: seq<nat>, n: nat, k: nat, p: nat, q: nat)
    requires IsShuffle(order, n) && k + 1 < n && !Calls(k, n)
    requires p < n && q < n && order[p] == k && order[q] == k + 1
    ensures q == p + 1
  {
    assert n < 4 ==> order[k] == k && order[k + 1] == k + 1;
  }

  lemma NoAfter(k: nat, n: nat)
    requires !Calls(k, n)
    ensures After(k, n) == []
  {
  }

  lemma AtTheEnd<R>(prog: Program<R>, ret: nat -> int, order: seq<nat>, n: nat, s: State<R>)
    requires IsShuffle(order, n)
    ensures Steps(prog, ret, n, Code(order, n), Running(Line0(order, n, n - 1) + 1, s), 1) == Stopped(FellOff, s)
  {
    var p := Placed(order, n, n - 1);
    assert p == n - 1;
    BlockLines(n - 1, n);
    CodeAround(order, n, p);
    hide Code, Block, Start, Find, IsShuffle;
    ThreeSteps(prog, ret, n, Code(order, n), Running(Line0(order, n, n - 1) + 1, s));
  }

  // ----- the simulation

  /** The eight bytes a handing over writes when the stack pointer is at rsp. */
  ghost function Window(rsp: int): iset<int> {
    iset x | InWindow(x, rsp)
  }

  predicate InWindow(x: int, rsp: int) { rsp - GAP - 8 <= x < rsp - GAP }

  /** Memory in which stale return addresses stand after a step: what the instruction
      changes is fresh again, and a handing over adds one address. */
  ghost function NextDirty<R>(prog: Program<R>, n: nat, at: Point, o: State<R>, dirty: iset<int>): iset<int> {
    if at.Out? then dirty
    else
      var (o', going) := prog.exec(at.k, o);
      (dirty - prog.changes(at.k, o)) + if going.Next? && Calls(at.k, n) then Window(o'.rsp) else iset{}
  }

  ghost function Dirty<R>(prog: Program<R>, n: nat, s: State<R>, t: nat): iset<int> {
    if t == 0 then iset{}
    else
      var (at, o) := OriginalRun(prog, n, s, t - 1);
      NextDirty(prog, n, at, o, Dirty(prog, n, s, t - 1))
  }

  /** The next instruction uses no stale memory. */
  ghost predicate UsesFresh<R>(prog: Program<R>, at: Point, o: State<R>, dirty: iset<int>) {
    at.At? ==> prog.uses(at.k, o) !! dirty
  }

  /** In the first t steps of the original no instruction uses memory where a stale return
      address would stand. */
  ghost predicate NeverStale<R>(prog: Program<R>, n: nat, s: State<R>, t: nat) {
    t > 0 ==>
      var (at, o) := OriginalRun(prog, n, s, t - 1);
      UsesFresh(prog, at, o, Dirty(prog, n, s, t - 1)) && NeverStale(prog, n, s, t - 1)
  }

  /** All bytes of all return addresses are b. */
  ghost predicate AllBytes(ret: nat -> int, b: int) {
    forall pc, d: nat :: d < 8 ==> Shifted(ret(pc), d) % 256 == b
  }

  ghost predicate Filled<R>(s: State<R>, dirty: iset<int>, b: int) {
    forall x :: x in dirty ==> s.mem(x) == b
  }

  /** The machine is at the same instruction of the shuffled code, or out of it by the same
      exit, with the same registers and flags, the same stack pointer, and the same memory
      but for the dirty cells. */
  ghost predicate Matches<R>(order: seq<nat>, n: nat, at: Point, o: State<R>, m: Machine<R>, dirty: iset<int>) {
    && SameButFor(o, m.s, dirty)
    && (at.At? ==> at.k < n && m.Running? && m.pc == Line0(order, n, at.k))
    && (at.Out? ==> m.Stopped? && m.exit == at.exit)
  }

  /** What one instruction does in both programs. */
  lemma ExecMatches<R(!new)>(prog: Program<R>, k: nat, o: State<R>, s: State<R>, dirty: iset<int>, b: int)
    requires Framed(prog) && SameButFor(o, s, dirty) && prog.uses(k, o) !! dirty
    ensures prog.exec(k, o).1 == prog.exec(k, s).1
    ensures SameButFor(prog.exec(k, o).0, prog.exec(k, s).0, dirty - prog.changes(k, o))
    ensures Filled(s, dirty, b) ==> Filled(prog.exec(k, s).0, dirty - prog.changes(k, o), b)
  {
    assert FramedAt(prog, k, o, s);
  }

  lemma PassedMatches<R>(ret: nat -> int, order: seq<nat>, n: nat, k: nat, o: State<R>, s: State<R>, dirty: iset<int>,
                         b: int)
    requires SameButFor(o, s, dirty) && Calls(k, n)
    ensures SameButFor(o, Passed(ret, order, n, k, s), dirty + Window(o.rsp))
    ensures Filled(s, dirty, b) && AllBytes(ret, b) ==> Filled(Passed(ret, order, n, k, s), dirty + Window(o.rsp), b)
  {
    hide Shifted, Line0;
  }

  lemma HandOver<R(!new)>(prog: Program<R>, ret: nat -> int, order: seq<nat>, n: nat, k: nat, o: State<R>,
                          s: State<R>, dirty: iset<int>, b: int) returns (count: nat)
    requires IsShuffle(order, n) && k + 1 < n && SameButFor(o, s, dirty)
    ensures var m := Steps(prog, ret, n, Code(order, n), Running(Line0(order, n, k) + 1, s), count);
            var dirty' := dirty + if Calls(k, n) then Window(o.rsp) else iset{};
            && Matches(order, n, At(k + 1), o, m, dirty')
            && (Filled(s, dirty, b) && AllBytes(ret, b) ==> Filled(m.s, dirty', b))
  {
    hide *;
    if Calls(k, n) {
      count := 5;
      ByCall(prog, ret, order, n, k, s);
      PassedMatches(ret, order, n, k, o, s, dirty, b);
      MakeMatches(order, n, k + 1, o, Passed(ret, order, n, k, s), dirty + Window(o.rsp));
    } else {
      count := ByFalling(prog, ret, order, n, k, s);
      assert dirty + iset{} == dirty;
      MakeMatches(order, n, k + 1, o, s, dirty);
    }
  }

  lemma MakeMatches<R>(order: seq<nat>, n: nat, k: nat, o: State<R>, s: State<R>, dirty: iset<int>)
    requires k < n && SameButFor(o, s, dirty)
    ensures Matches(order, n, At(k), o, Running(Line0(order, n, k), s), dirty)
  {
  }

  /** The line of an instruction, in the machine. */
  lemma ExecLine<R>(prog: Program<R>, ret: nat -> int, order: seq<nat>, n: nat, k: nat, s: State<R>)
    requires IsShuffle(order, n) && k < n
    ensures var (s', going) := prog.exec(k, s);
            var m := Steps(prog, ret, n, Code(order, n), Running(Line0(order, n, k), s), 1);
            && (going.Next? ==> m == Running(Line0(order, n, k) + 1, s'))
            && (going.Leave? ==> m == Stopped(Left(going.v), s'))
            && (going.Goto? && going.j >= n ==> m == Stopped(Left(going.j), s'))
            && (going.Goto? && going.j < n ==> m == Running(Find(Code(order, n), Define(C(going.j))), s'))
  {
    var c := Layout(order, n, k);
    ThreeSteps(prog, ret, n, Code(order, n), Running(Line0(order, n, k), s));
    hide Code, Find, Steps, IsShuffle, Line0;
  }

  /** The place that the original goes to from instruction k. */
  function Goes(k: nat, n: nat, going: Going): Point {
    match going
    case Leave(v) => Out(Left(v))
    case Goto(j) => if j < n then At(j) else Out(Left(j))
    case Next => if k + 1 < n then At(k + 1) else Out(FellOff)
  }

  ghost function Adds(k: nat, n: nat, going: Going, rsp: int): iset<int> {
    if going.Next? && Calls(k, n) then Window(rsp) else iset{}
  }

  /** From the end of the line of instruction k to the next instruction. */
  lemma Arrive<R(!new)>(prog: Program<R>, ret: nat -> int, order: seq<nat>, n: nat, k: nat, going: Going, o: State<R>,
                        m: Machine<R>, dirty: iset<int>, b: int) returns (count: nat)
    requires IsShuffle(order, n) && k < n && SameButFor(o, m.s, dirty)
    requires going.Next? ==> m == Running(Line0(order, n, k) + 1, m.s)
    requires going.Leave? ==> m == Stopped(Left(going.v), m.s)
    requires going.Goto? && going.j >= n ==> m == Stopped(Left(going.j), m.s)
    requires going.Goto? && going.j < n ==> m == Running(Find(Code(order, n), Define(C(going.j))), m.s)
    ensures var m' := Steps(prog, ret, n, Code(order, n), m, count);
            var dirty' := dirty + Adds(k, n, going, o.rsp);
            && Matches(order, n, Goes(k, n, going), o, m', dirty')
            && (Filled(m.s, dirty, b) && AllBytes(ret, b) ==> Filled(m'.s, dirty', b))
  {
    GoesFacts(k, n, going, o.rsp, dirty);
    assert n > 0 && (going.Next? && k + 1 >= n ==> k == n - 1);
    hide *;
    if going.Goto? && going.j < n {
      count := FromLabel(prog, ret, order, n, going.j, m.s);
      MakeMatches(order, n, going.j, o, m.s, dirty);
    } else if going.Next? && k + 1 < n {
      count := HandOver(prog, ret, order, n, k, o, m.s, dirty, b);
    } else if going.Next? {
      count := 1;
      AtTheEnd(prog, ret, order, n, m.s);
      MakeMatchesOut(order, n, FellOff, o, m.s, dirty);
    } else {
      count := 0;
      NoSteps(prog, ret, n, Code(order, n), m);
      MakeMatchesOut(order, n, Left(if going.Goto? then going.j else going.v), o, m.s, dirty);
    }
  }

  lemma GoesFacts(k: nat, n: nat, going: Going, rsp: int, dirty: iset<int>)
    ensures going.Next? && k + 1 < n ==>
              Goes(k, n, going) == At(k + 1) && Adds(k, n, going, rsp) == if Calls(k, n) then Window(rsp) else iset{}
    ensures !(going.Next? && k + 1 < n) ==> dirty + Adds(k, n, going, rsp) == dirty
    ensures going.Next? && k + 1 >= n ==> Goes(k, n, going) == Out(FellOff)
    ensures going.Goto? && going.j < n ==> Goes(k, n, going) == At(going.j)
    ensures going.Goto? && going.j >= n ==> Goes(k, n, going) == Out(Left(going.j))
    ensures going.Leave? ==> Goes(k, n, going) == Out(Left(going.v))
  {
  }

  lemma MakeMatchesOut<R>(order: seq<nat>, n: nat, exit: Exit, o: State<R>, s: State<R>, dirty: iset<int>)
    requires SameButFor(o, s, dirty)
    ensures Matches(order, n, Out(exit), o, Stopped(exit, s), dirty)
  {
  }

  lemma OriginalGoes<R>(prog: Program<R>, n: nat, k: nat, o: State<R>, dirty: iset<int>)
    ensures var (o', going) := prog.exec(k, o);
            && OriginalStep(prog, n, At(k), o) == (Goes(k, n, going), o')
            && NextDirty(prog, n, At(k), o, dirty) == (dirty - prog.changes(k, o)) + Adds(k, n, going, o'.rsp)
  {
  }

  lemma UnfoldMatches<R>(prog: Program<R>, order: seq<nat>, n: nat, k: nat, o: State<R>, m: Machine<R>,
                         dirty: iset<int>)
    requires Matches(order, n, At(k), o, m, dirty) && UsesFresh(prog, At(k), o, dirty)
    ensures m == Running(Line0(order, n, k), m.s) && SameButFor(o, m.s, dirty) && k < n && prog.uses(k, o) !! dirty
  {
  }

  /** The machine after the line of instruction k. */
  lemma LineMatches<R(!new)>(prog: Program<R>, ret: nat -> int, order: seq<nat>, n: nat, k: nat, o: State<R>,
                             m: Machine<R>, dirty: iset<int>, b: int) returns (m1: Machine<R>)
    requires Framed(prog) && IsShuffle(order, n) && Matches(order, n, At(k), o, m, dirty)
             && UsesFresh(prog, At(k), o, dirty)
    ensures k < n && m1 == Steps(prog, ret, n, Code(order, n), m, 1)
    ensures var (o', going) := prog.exec(k, o);
            && SameButFor(o', m1.s, dirty - prog.changes(k, o))
            && (Filled(m.s, dirty, b) ==> Filled(m1.s, dirty - prog.changes(k, o), b))
            && (going.Next? ==> m1 == Running(Line0(order, n, k) + 1, m1.s))
            && (going.Leave? ==> m1 == Stopped(Left(going.v), m1.s))
            && (going.Goto? && going.j >= n ==> m1 == Stopped(Left(going.j), m1.s))
            && (going.Goto? && going.j < n ==> m1 == Running(Find(Code(order, n), Define(C(going.j))), m1.s))
  {
    hide *;
    UnfoldMatches(prog, order, n, k, o, m, dirty);
    ExecMatches(prog, k, o, m.s, dirty, b);
    ExecLine(prog, ret, order, n, k, m.s);
    m1 := Steps(prog, ret, n, Code(order, n), m, 1);
  }

  lemma StepMatchesAt<R(!new)>(prog: Program<R>, ret: nat -> int, order: seq<nat>, n: nat, k: nat, o: State<R>,
                               m: Machine<R>, dirty: iset<int>, b: int) returns (count: nat)
    requires Framed(prog) && IsShuffle(order, n) && Matches(order, n, At(k), o, m, dirty)
             && UsesFresh(prog, At(k), o, dirty)
    ensures var (o', going) := prog.exec(k, o);
            var m', dirty' := Steps(prog, ret, n, Code(order, n), m, count), NextDirty(prog, n, At(k), o, dirty);
            && count > 0 && Matches(order, n, Goes(k, n, going), o', m', dirty')
            && (Filled(m.s, dirty, b) && AllBytes(ret, b) ==> Filled(m'.s, dirty', b))
  {
    hide *;
    var (o', going) := prog.exec(k, o);
    var m1 := LineMatches(prog, ret, order, n, k, o, m, dirty, b);
    OriginalGoes(prog, n, k, o, dirty);
    var after := Arrive(prog, ret, order, n, k, going, o', m1, dirty - prog.changes(k, o), b);
    count := 1 + after;
    StepsJoin(prog, ret, n, Code(order, n), m, 1, after);
  }

  lemma StepMatches<R(!new)>(prog: Program<R>, ret: nat -> int, order: seq<nat>, n: nat, at: Point, o: State<R>,
                             m: Machine<R>, dirty: iset<int>, b: int) returns (count: nat)
    requires Framed(prog) && IsShuffle(order, n)
    requires Matches(order, n, at, o, m, dirty) && UsesFresh(prog, at, o, dirty)
    ensures var (at', o') := OriginalStep(prog, n, at, o);
            var m', dirty' := Steps(prog, ret, n, Code(order, n), m, count), NextDirty(prog, n, at, o, dirty);
            && (at.At? ==> count > 0) && Matches(order, n, at', o', m', dirty')
            && (Filled(m.s, dirty, b) && AllBytes(ret, b) ==> Filled(m'.s, dirty', b))
  {
    if at.Out? {
      count := 0;
      NoSteps(prog, ret, n, Code(order, n), m);
    } else {
      hide *;
      count := StepMatchesAt(prog, ret, order, n, at.k, o, m, dirty, b);
      OriginalGoes(prog, n, at.k, o, dirty);
    }
  }

  lemma NoSteps<R>(prog: Program<R>, ret: nat -> int, n: nat, code: seq<Line>, m: Machine<R>)
    ensures Steps(prog, ret, n, code, m, 0) == m
  {
  }

  /** The shuffled code starts with the first instruction. */
  lemma AtTheStart<R>(prog: Program<R>, ret: nat -> int, order: seq<nat>, n: nat, s: State<R>) returns (count: nat)
    requires IsShuffle(order, n)
    ensures Steps(prog, ret, n, Code(order, n), Running(0, s), count) == Running(Line0(order, n, 0), s)
  {
    assert order[0] == 0;
    assert Find(Code(order, n), Define(C(0))) == 0;
    hide Code, Find, Line0, Steps, Step;
    count := FromLabel(prog, ret, order, n, 0, s);
  }

  /** The machine after count steps from the start of the function. */
  function ShuffledRun<R>(prog: Program<R>, ret: nat -> int, order: seq<nat>, n: nat, s: State<R>, count: nat)
    : Machine<R> {
    Steps(prog, ret, n, Code(order, n), Running(0, s), count)
  }

  /** count steps of the shuffled code do what t steps of the original do. */
  ghost predicate Simulated<R>(prog: Program<R>, ret: nat -> int, order: seq<nat>, n: nat, s: State<R>, t: nat,
                               b: int, count: nat) {
    var (at, o) := OriginalRun(prog, n, s, t);
    var m, dirty := ShuffledRun(prog, ret, order, n, s, count), Dirty(prog, n, s, t);
    && (at.At? ==> count >= t) && Matches(order, n, at, o, m, dirty)
    && (AllBytes(ret, b) ==> Filled(m.s, dirty, b))
  }

  lemma SimulatedAtStart<R>(prog: Program<R>, ret: nat -> int, order: seq<nat>, n: nat, s: State<R>, b: int)
    returns (count: nat)
    requires IsShuffle(order, n)
    ensures Simulated(prog, ret, order, n, s, 0, b, count)
  {
    assert n > 0;
    hide IsShuffle, ShuffledRun, Line0, OriginalRun, Dirty, Matches, Filled, AllBytes;
    count := AtTheStart(prog, ret, order, n, s);
    RunIs(prog, ret, order, n, s, count);
    StartMatches(prog, ret, order, n, s, b, ShuffledRun(prog, ret, order, n, s, count));
  }

  lemma SimulatedOneMore<R(!new)>(prog: Program<R>, ret: nat -> int, order: seq<nat>, n: nat, s: State<R>, t: nat,
                                  b: int, before: nat) returns (count: nat)
    requires Framed(prog) && IsShuffle(order, n) && t > 0 && NeverStale(prog, n, s, t)
    requires Simulated(prog, ret, order, n, s, t - 1, b, before)
    ensures Simulated(prog, ret, order, n, s, t, b, count)
  {
    hide *;
    var (at, o) := OriginalRun(prog, n, s, t - 1);
    var m, dirty := ShuffledRun(prog, ret, order, n, s, before), Dirty(prog, n, s, t - 1);
    OneMore(prog, n, s, t);
    assert (at.At? ==> before >= t - 1) && Matches(order, n, at, o, m, dirty)
      && (AllBytes(ret, b) ==> Filled(m.s, dirty, b))
      by { SimulatedIs(prog, ret, order, n, s, t - 1, b, before); }
    OutStays(prog, n, at, o);
    var more := StepMatches(prog, ret, order, n, at, o, m, dirty, b);
    count := before + more;
    RunAfter(prog, ret, order, n, s, before, more);
    SimulatedIs(prog, ret, order, n, s, t, b, count);
  }

  lemma SimulatedIs<R>(prog: Program<R>, ret: nat -> int, order: seq<nat>, n: nat, s: State<R>, t: nat, b: int,
                       count: nat)
    ensures var (at, o) := OriginalRun(prog, n, s, t);
            var m, dirty := ShuffledRun(prog, ret, order, n, s, count), Dirty(prog, n, s, t);
            Simulated(prog, ret, order, n, s, t, b, count)
            <==> (at.At? ==> count >= t) && Matches(order, n, at, o, m, dirty)
                 && (AllBytes(ret, b) ==> Filled(m.s, dirty, b))
  {
    hide OriginalRun, ShuffledRun, Dirty, Matches, AllBytes, Filled;
  }

  lemma RunAfter<R>(prog: Program<R>, ret: nat -> int, order: seq<nat>, n: nat, s: State<R>, a: nat, b: nat)
    ensures ShuffledRun(prog, ret, order, n, s, a + b)
            == Steps(prog, ret, n, Code(order, n), ShuffledRun(prog, ret, order, n, s, a), b)
  {
    hide Steps, Code;
    StepsJoin(prog, ret, n, Code(order, n), Running(0, s), a, b);
  }

  /** For every function body, every order the pass may choose, every branch, and every run
      of the original in which no instruction uses stale memory: the shuffled code comes
      to the same instruction with the same registers, flags and stack pointer, and with
      the same memory outside the stale cells; those hold the bytes of return addresses. */
  lemma {:induction false} ShuffleSimulates<R(!new)>(prog: Program<R>, ret: nat -> int, order: seq<nat>, n: nat,
                                                     s: State<R>, t: nat, b: int) returns (count: nat)
    requires Framed(prog) && IsShuffle(order, n) && NeverStale(prog, n, s, t)
    ensures var (at, o) := OriginalRun(prog, n, s, t);
            var m, dirty := ShuffledRun(prog, ret, order, n, s, count), Dirty(prog, n, s, t);
            && (at.At? ==> count >= t) && Matches(order, n, at, o, m, dirty)
            && (AllBytes(ret, b) ==> Filled(m.s, dirty, b))
  {
    count := Simulates(prog, ret, order, n, s, t, b);
    hide IsShuffle, ShuffledRun, OriginalRun, Dirty, Matches, Filled, AllBytes, Framed, NeverStale;
  }

  lemma {:induction false} Simulates<R(!new)>(prog: Program<R>, ret: nat -> int, order: seq<nat>, n: nat, s: State<R>,
                                              t: nat, b: int) returns (count: nat)
    requires Framed(prog) && IsShuffle(order, n) && NeverStale(prog, n, s, t)
    ensures Simulated(prog, ret, order, n, s, t, b, count)
  {
    hide *;
    if t == 0 {
      count := SimulatedAtStart(prog, ret, order, n, s, b);
    } else {
      OneMore(prog, n, s, t);
      var before := Simulates(prog, ret, order, n, s, t - 1, b);
      count := SimulatedOneMore(prog, ret, order, n, s, t, b, before);
    }
  }

  lemma RunIs<R>(prog: Program<R>, ret: nat -> int, order: seq<nat>, n: nat, s: State<R>, count: nat)
    ensures ShuffledRun(prog, ret, order, n, s, count) == Steps(prog, ret, n, Code(order, n), Running(0, s), count)
  {
  }

  lemma StartMatches<R>(prog: Program<R>, ret: nat -> int, order: seq<nat>, n: nat, s: State<R>, b: int, m: Machine<R>)
    requires n > 0 && m == Running(Line0(order, n, 0), s)
    ensures Matches(order, n, OriginalRun(prog, n, s, 0).0, OriginalRun(prog, n, s, 0).1, m, Dirty(prog, n, s, 0))
    ensures Filled(m.s, Dirty(prog, n, s, 0), b)
  {
    hide Line0;
  }

  /** One step more of the original. */
  lemma OneMore<R>(prog: Program<R>, n: nat, s: State<R>, t: nat)
    requires t > 0
    ensures var (at, o) := OriginalRun(prog, n, s, t - 1);
            && OriginalRun(prog, n, s, t) == OriginalStep(prog, n, at, o)
            && Dirty(prog, n, s, t) == NextDirty(prog, n, at, o, Dirty(prog, n, s, t - 1))
            && (NeverStale(prog, n, s, t) ==> NeverStale(prog, n, s, t - 1)
                                              && UsesFresh(prog, at, o, Dirty(prog, n, s, t - 1)))
            && (NeverStale(prog, n, s, t - 1) && UsesFresh(prog, at, o, Dirty(prog, n, s, t - 1))
              ==> NeverStale(prog, n, s, t))
  {
    hide OriginalStep, NextDirty, UsesFresh;
  }

  lemma OutStays<R>(prog: Program<R>, n: nat, at: Point, o: State<R>)
    ensures at.Out? ==> OriginalStep(prog, n, at, o) == (at, o)
  {
  }

  lemma {:induction false} StoppedStays<R>(prog: Program<R>, ret: nat -> int, n: nat, code: seq<Line>, m: Machine<R>,
                                           count: nat)
    requires m.Stopped?
    ensures Steps(prog, ret, n, code, m, count) == m
  {
    if count > 0 { StoppedStays(prog, ret, n, code, m, count - 1); }
  }

  /** The shuffled code leaves the function only where the original does, by the same exit. */
  lemma ExitsAgree<R(!new)>(prog: Program<R>, ret: nat -> int, order: seq<nat>, n: nat, s: State<R>, c: nat)
    requires Framed(prog) && IsShuffle(order, n) && NeverStale(prog, n, s, c)
    requires ShuffledRun(prog, ret, order, n, s, c).Stopped?
    ensures OriginalRun(prog, n, s, c).0 == Out(ShuffledRun(prog, ret, order, n, s, c).exit)
    ensures SameButFor(OriginalRun(prog, n, s, c).1, ShuffledRun(prog, ret, order, n, s, c).s, Dirty(prog, n, s, c))
  {
    hide *;
    var count := ShuffleSimulates(prog, ret, order, n, s, c, 0);
    var (at, o) := OriginalRun(prog, n, s, c);
    var m, stopped := ShuffledRun(prog, ret, order, n, s, count), ShuffledRun(prog, ret, order, n, s, c);
    assert m == stopped by {
      var code, low, high := Code(order, n), if count < c then count else c, if count < c then c else count;
      MatchEnds(order, n, at, o, m, Dirty(prog, n, s, c));
      RunIs(prog, ret, order, n, s, low);
      RunIs(prog, ret, order, n, s, high);
      StepsJoin(prog, ret, n, code, Running(0, s), low, high - low);
      StoppedStays(prog, ret, n, code, ShuffledRun(prog, ret, order, n, s, low), high - low);
    }
    MatchEnds(order, n, at, o, m, Dirty(prog, n, s, c));
  }

  lemma MatchEnds<R>(order: seq<nat>, n: nat, at: Point, o: State<R>, m: Machine<R>, dirty: iset<int>)
    requires Matches(order, n, at, o, m, dirty)
    ensures SameButFor(o, m.s, dirty) && (at.At? ==> m.Running?) && (at.Out? ==> m.Stopped? && at == Out(m.exit))
  {
  }

  /** A stale cell can differ: there are return addresses for which it does. Together with
      ShuffleSimulates, a cell is the same whatever the return addresses exactly if it is
      not stale. */
  lemma StaleDiffers<R(!new)>(prog: Program<R>, order: seq<nat>, n: nat, s: State<R>, t: nat, x: int)
    returns (ret: nat -> int, count: nat)
    requires Framed(prog) && IsShuffle(order, n) && NeverStale(prog, n, s, t) && x in Dirty(prog, n, s, t)
    ensures var (at, o) := OriginalRun(prog, n, s, t);
            var m := ShuffledRun(prog, ret, order, n, s, count);
            Matches(order, n, at, o, m, Dirty(prog, n, s, t)) && m.s.mem(x) != o.mem(x)
  {
    var (at, o) := OriginalRun(prog, n, s, t);
    var b := if o.mem(x) == 0 then 1 else 0;
    ret := if b == 0 then (pc: nat) => 0 else (pc: nat) => 0x0101_0101_0101_0101;
    Bytes(ret, b);
    hide Code, Find, Line0, Steps, Step, SameButFor, Framed, IsShuffle, Dirty, OriginalRun, NeverStale, AllBytes;
    count := ShuffleSimulates(prog, ret, order, n, s, t, b);
  }

  lemma Bytes(ret: nat -> int, b: int)
    requires b == 0 || b == 1
    requires forall pc :: ret(pc) == if b == 0 then 0 else 0x0101_0101_0101_0101
    ensures AllBytes(ret, b)
  {
    var v := 0x0101_0101_0101_0101;
    assert Shifted(v, 1) == 0x01_0101_0101_0101 && Shifted(v, 2) == 0x0101_0101_0101 && Shifted(v, 3) == 0x01_0101_0101;
    assert Shifted(v, 4) == 0x0101_0101 && Shifted(v, 5) == 0x01_0101 && Shifted(v, 6) == 0x0101 && Shifted(v, 7) == 1;
    assert Shifted(0, 1) == Shifted(0, 2) == Shifted(0, 3) == Shifted(0, 4) == 0;
    assert Shifted(0, 5) == Shifted(0, 6) == Shifted(0, 7) == 0;
    forall pc, d: nat | d < 8 ensures Shifted(ret(pc), d) % 256 == b {
      assert d == 0 || d == 1 || d == 2 || d == 3 || d == 4 || d == 5 || d == 6 || d == 7;
    }
  }

  // ----- when memory is never stale

  /** Instructions use nothing further than the red zone of 128 bytes below rsp. */
  ghost predicate KeepsRedZone<R(!new)>(prog: Program<R>) {
    forall k, o, x :: x in prog.uses(k, o) ==> x >= o.rsp - 128
  }

  /** At the t-th instruction the stack pointer is not above top, and at most 0x2000 - 128
      below it. */
  ghost predicate ShallowAt<R>(prog: Program<R>, n: nat, s: State<R>, top: int, t: nat) {
    top - (GAP - 128) <= OriginalRun(prog, n, s, t).1.rsp <= top
  }

  lemma {:induction false} DirtyIsDeep<R>(prog: Program<R>, n: nat, s: State<R>, top: int, t: nat)
    requires forall u :: 0 <= u <= t ==> ShallowAt(prog, n, s, top, u)
    ensures forall x :: x in Dirty(prog, n, s, t) ==> x < top - GAP
  {
    if t > 0 {
      DirtyIsDeep(prog, n, s, top, t - 1);
      assert ShallowAt(prog, n, s, top, t);
    }
  }

  lemma {:induction false} ShallowIsFresh<R(!new)>(prog: Program<R>, n: nat, s: State<R>, top: int, t: nat)
    requires KeepsRedZone(prog) && forall u :: 0 <= u <= t ==> ShallowAt(prog, n, s, top, u)
    ensures NeverStale(prog, n, s, t)
  {
    if t > 0 {
      ShallowIsFresh(prog, n, s, top, t - 1);
      DirtyIsDeep(prog, n, s, top, t - 1);
      OneMore(prog, n, s, t);
      hide OriginalRun, Dirty, NeverStale;
      assert ShallowAt(prog, n, s, top, t - 1);
      var (at, o) := OriginalRun(prog, n, s, t - 1);
      if at.At? {
        forall x | x in prog.uses(at.k, o) ensures x !in Dirty(prog, n, s, t - 1) { assert x >= o.rsp - 128; }
      }
    }
  }

  /** A function that moves its stack pointer by no more than 0x2000 - 128 and uses nothing
      below its red zone is not changed by any shuffle: all memory it can use is the same. */
  lemma ShallowFunctionsUnchanged<R(!new)>(prog: Program<R>, ret: nat -> int, order: seq<nat>, n: nat, s: State<R>,
                                           top: int, t: nat) returns (count: nat)
    requires Framed(prog) && IsShuffle(order, n) && KeepsRedZone(prog)
    requires forall u :: 0 <= u <= t ==> ShallowAt(prog, n, s, top, u)
    ensures var (at, o) := OriginalRun(prog, n, s, t);
            var m := ShuffledRun(prog, ret, order, n, s, count);
            && Matches(order, n, at, o, m, Dirty(prog, n, s, t))
            && m.s.rsp == o.rsp && m.s.regs == o.regs
            && forall x :: x >= o.rsp - 128 ==> m.s.mem(x) == o.mem(x)
  {
    ShallowIsFresh(prog, n, s, top, t);
    DirtyIsDeep(prog, n, s, top, t);
    assert ShallowAt(prog, n, s, top, t);
    hide Code, Find, Line0, Steps, Step, Framed, IsShuffle, Dirty, OriginalRun, NeverStale, AllBytes;
    count := ShuffleSimulates(prog, ret, order, n, s, t, 0);
  }

  /** Four instructions: nothing, a push of zero, and two that leave. */
  ghost function PushProgram(): Program<int> {
    Program((k: nat, s: State<int>) => if k == 0 then (s, Next)
                        else if k == 1 then (s.(rsp := s.rsp - 8, mem := Store(s.mem, s.rsp - 8, 0)), Next)
                        else (s, Leave(0)),
            (k, s) => iset{},
            (k: nat, s: State<int>) => if k == 1 then Word(s.rsp - 8) else iset{})
  }

  predicate InWord(x: int, a: int) { a <= x < a + 8 }

  ghost function Word(a: int): iset<int> { iset x | InWord(x, a) }

  lemma PushFramed()
    ensures Framed(PushProgram())
  {
    hide Store;
    forall k, a, b ensures FramedAt(PushProgram(), k, a, b) {
      StoreApart(a.mem, a.rsp - 8, 0);
      StoreApart(b.mem, b.rsp - 8, 0);
      StoreSame(a.mem, b.mem, a.rsp - 8, 0);
    }
  }

  lemma StoreApart(m: int -> int, a: int, v: int)
    ensures forall x :: !InWord(x, a) ==> Store(m, a, v)(x) == m(x)
  {
  }

  lemma StoreSame(m: int -> int, m': int -> int, a: int, v: int)
    ensures forall x :: InWord(x, a) ==> Store(m, a, v)(x) == Store(m', a, v)(x)
  {
  }

  /** Memory above rsp - 0x2000 need not be the same: after a single push the return address
      left before it stands there. */
  lemma PushSpoils(order: seq<nat>, s: State<int>) returns (ret: nat -> int, count: nat)
    requires IsShuffle(order, 4)
    ensures var (at, o) := OriginalRun(PushProgram(), 4, s, 2);
            var m := ShuffledRun(PushProgram(), ret, order, 4, s, count);
            && Matches(order, 4, at, o, m, Dirty(PushProgram(), 4, s, 2))
            && m.s.mem(o.rsp - GAP) != o.mem(o.rsp - GAP)
  {
    var prog := PushProgram();
    PushFramed();
    hide Framed, IsShuffle;
    assert OriginalRun(prog, 4, s, 0) == (At(0), s);
    assert OriginalRun(prog, 4, s, 1) == (At(1), s);
    assert Dirty(prog, 4, s, 1) == Window(s.rsp);
    assert OriginalRun(prog, 4, s, 2).1.rsp == s.rsp - 8;
    assert s.rsp - 8 - GAP in Dirty(prog, 4, s, 2);
    assert NeverStale(prog, 4, s, 0) && NeverStale(prog, 4, s, 1) && NeverStale(prog, 4, s, 2);
    ret, count := StaleDiffers(prog, order, 4, s, 2, s.rsp - 8 - GAP);
  }
}
