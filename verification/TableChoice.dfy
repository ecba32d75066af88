/** The first half of sendMTFValues: how many coding tables there are, which symbols each
    favours at first, and four rounds of choosing the cheapest table for every fifty symbols
    and making new tables for the symbols each was chosen for. */
module TableChoice {
  import opened Counting
  import opened Tables
  import opened Forest
  import opened CodeLengths
  import Optimal

  const LESSER_ICOST: byte := 0
  const GREATER_ICOST: byte := 15

  /** The number of tables for n symbols. */
  function GroupCount(n: nat): (g: nat)
    ensures 2 <= g <= 6
  {
    if n < 200 then 2 else if n < 600 then 3 else if n < 1200 then 4 else if n < 2400 then 5 else 6
  }

  // ----- sums of frequencies

  function Counts(syms: seq<int>, a: nat): (f: seq<nat>)
    ensures |f| == a && forall v :: 0 <= v < a ==> f[v] == Occ(syms, v)
  {
    seq(a, v requires 0 <= v < a => Occ(syms, v))
  }

  lemma {:induction false} SumOneMore(f: seq<nat>, v: nat, k: nat)
    requires v < |f| && k <= |f|
    ensures SumOf(f[v := f[v] + 1], k) == SumOf(f, k) + if v < k then 1 else 0
  {
    if k > 0 { SumOneMore(f, v, k - 1); }
  }

  lemma {:induction false} SumNone(f: seq<nat>, k: nat)
    requires k <= |f| && forall v :: 0 <= v < k ==> f[v] == 0
    ensures SumOf(f, k) == 0
  {
    if k > 0 { SumNone(f, k - 1); }
  }

  lemma {:induction false} SumRises(f: seq<nat>, j: nat, k: nat)
    requires j <= k <= |f|
    ensures SumOf(f, j) <= SumOf(f, k)
    ensures SumOf(f, j) == SumOf(f, k) ==> forall v :: j <= v < k ==> f[v] == 0
  {
    if j < k { SumRises(f, j, k - 1); }
  }

  /** All symbols are counted. */
  lemma {:induction false} CountsSum(syms: seq<int>, a: nat)
    requires forall i :: 0 <= i < |syms| ==> 0 <= syms[i] < a
    ensures SumOf(Counts(syms, a), a) == |syms|
  {
    if syms == [] {
      SumNone(Counts(syms, a), a);
    } else {
      var front, v := syms[..|syms| - 1], syms[|syms| - 1];
      CountsSum(front, a);
      SumOneMore(Counts(front, a), v, a);
      assert Counts(syms, a) == Counts(front, a)[v := Counts(front, a)[v] + 1];
    }
  }

  // ----- the first tables

  /** Table t favours the symbols that it owns. */
  ghost predicate Favours(len: seq<byte>, own: seq<int>, t: nat) {
    |len| == |own| && forall v :: 0 <= v < |own| ==> len[v] == if own[v] == t then LESSER_ICOST else GREATER_ICOST
  }

  /** The parts follow one another, from the last table to the first. */
  ghost predicate Descending(own: seq<int>) {
    forall u, v :: 0 <= u < v < |own| ==> own[v] == -1 || own[v] <= own[u]
  }

  function Part(alphaSize: nat, gs: int, ge: int): (len: seq<byte>)
    ensures |len| == alphaSize
    ensures forall v :: 0 <= v < alphaSize ==> len[v] == if gs <= v <= ge then 0 else 15
  {
    seq(alphaSize, v => if gs <= v <= ge then LESSER_ICOST else GREATER_ICOST)
  }

  /** How often the symbols from a to before b occur. */
  function Between(mtfFreq: seq<nat>, a: nat, b: nat): int
    requires a <= |mtfFreq| && b <= |mtfFreq|
  {
    SumOf(mtfFreq, b) - SumOf(mtfFreq, a)
  }

  /** Symbols up to e are the fewest from gs on that make the share of one of nPart parts; or they
      are all there are. */
  ghost predicate Enough(mtfFreq: seq<nat>, alphaSize: nat, gs: nat, nPart: nat, e: int)
    requires gs <= alphaSize <= |mtfFreq| && nPart > 0
  {
    && gs - 1 <= e < alphaSize
    && (e == alphaSize - 1 || Between(mtfFreq, gs, e + 1) >= Between(mtfFreq, gs, alphaSize) / nPart)
    && forall x :: gs <= x <= e ==> Between(mtfFreq, gs, x) < Between(mtfFreq, gs, alphaSize) / nPart
  }

  /** The part from gs to ge is for table nPart - 1: just enough, and every other one of the inner
      parts of more than one symbol gives its last symbol back. */
  ghost predicate PartIs(mtfFreq: seq<nat>, alphaSize: nat, gs: nat, nPart: nat, nGroups: nat, ge: int)
    requires gs <= alphaSize <= |mtfFreq| && nPart > 0
  {
    exists e :: Enough(mtfFreq, alphaSize, gs, nPart, e)
                && ge == if e > gs && 1 < nPart < nGroups && (nGroups - nPart) % 2 == 1 then e - 1 else e
  }

  /** The first n parts follow one another, the first for the last table. */
  ghost predicate Parts(mtfFreq: seq<nat>, alphaSize: nat, lens: seq<seq<byte>>, starts: seq<int>, n: nat)
    requires alphaSize <= |mtfFreq|
  {
    && |starts| == n + 1 <= |lens| + 1 && starts[0] == 0 && (forall j :: 0 <= j <= n ==> 0 <= starts[j] <= alphaSize)
    && forall j :: 0 <= j < n ==> PartAt(mtfFreq, alphaSize, lens, starts, j)
  }

  ghost predicate PartAt(mtfFreq: seq<nat>, alphaSize: nat, lens: seq<seq<byte>>, starts: seq<int>, j: nat)
    requires alphaSize <= |mtfFreq| && j + 1 < |starts| && j < |lens| && 0 <= starts[j] <= alphaSize
  {
    && PartIs(mtfFreq, alphaSize, starts[j], |lens| - j, |lens|, starts[j + 1] - 1)
    && lens[|lens| - 1 - j] == Part(alphaSize, starts[j], starts[j + 1] - 1)
  }

  lemma PartsStart(mtfFreq: seq<nat>, alphaSize: nat, lens: seq<seq<byte>>)
    requires alphaSize <= |mtfFreq|
    ensures Parts(mtfFreq, alphaSize, lens, [0], 0)
  {
  }

  lemma PartsMore(mtfFreq: seq<nat>, alphaSize: nat, lens: seq<seq<byte>>, starts: seq<int>, n: nat, ge: int)
    requires alphaSize <= |mtfFreq| && Parts(mtfFreq, alphaSize, lens, starts, n) && n < |lens| && -1 <= ge < alphaSize
    requires PartIs(mtfFreq, alphaSize, starts[n], |lens| - n, |lens|, ge)
    ensures var lens' := lens[|lens| - 1 - n := Part(alphaSize, starts[n], ge)];
            Parts(mtfFreq, alphaSize, lens', starts + [ge + 1], n + 1)
  {
    hide PartIs, Part;
    var lens', starts' := lens[|lens| - 1 - n := Part(alphaSize, starts[n], ge)], starts + [ge + 1];
    forall j | 0 <= j < n + 1 ensures PartAt(mtfFreq, alphaSize, lens', starts', j) {
      if j < n { assert PartAt(mtfFreq, alphaSize, lens, starts, j); }
    }
  }

  /** The tables owned so far. */
  ghost predicate Owned(lens: seq<seq<byte>>, own: seq<int>, nPart: nat, gs: nat) {
    && gs <= |own| && nPart <= |lens|
    && (forall v :: 0 <= v < |own| ==> if v < gs then nPart <= own[v] < |lens| else own[v] == -1)
    && Descending(own) && forall t :: nPart <= t < |lens| ==> Favours(lens[t], own, t)
  }

  lemma OwnedMore(lens: seq<seq<byte>>, own: seq<int>, nPart: nat, gs: nat, ge: int) returns (own': seq<int>)
    requires Owned(lens, own, nPart, gs) && nPart > 0 && gs - 1 <= ge < |own|
    ensures |own'| == |own| && Owned(lens[nPart - 1 := Part(|own|, gs, ge)], own', nPart - 1, ge + 1)
  {
    own' := seq(|own|, v requires 0 <= v < |own| => if gs <= v <= ge then nPart - 1 else own[v]);
    var lens' := lens[nPart - 1 := Part(|own|, gs, ge)];
    forall t | nPart - 1 <= t < |lens| ensures Favours(lens'[t], own', t) {
      if t >= nPart { assert Favours(lens[t], own, t); }
    }
  }

  /** The end of the part that begins at gs: enough symbols for its share of the rest, but
      sometimes one less. */
  method NextPart(mtfFreq: seq<nat>, alphaSize: nat, gs: nat, remF: nat, nPart: nat, nGroups: nat)
    returns (ge: int, aFreq: nat)
    requires gs <= alphaSize <= |mtfFreq| && 0 < nPart <= nGroups
    requires remF == SumOf(mtfFreq, alphaSize) - SumOf(mtfFreq, gs)
    ensures PartIs(mtfFreq, alphaSize, gs, nPart, nGroups, ge)
    ensures gs - 1 <= ge < alphaSize && aFreq == SumOf(mtfFreq, ge + 1) - SumOf(mtfFreq, gs)
    ensures nPart == 1 ==> aFreq == remF
  {
    var tFreq := remF / nPart;
    ge, aFreq := gs - 1, 0;
    while aFreq < tFreq && ge < alphaSize - 1
      invariant gs - 1 <= ge < alphaSize && aFreq == SumOf(mtfFreq, ge + 1) - SumOf(mtfFreq, gs)
      invariant forall x :: gs <= x <= ge ==> Between(mtfFreq, gs, x) < tFreq
      decreases alphaSize - ge
    {
      ge := ge + 1;
      aFreq := aFreq + mtfFreq[ge];
    }
    SumRises(mtfFreq, ge + 1, alphaSize);
    SumRises(mtfFreq, gs, ge + 1);
    assert Enough(mtfFreq, alphaSize, gs, nPart, ge);
    if ge > gs && nPart != nGroups && nPart != 1 && (nGroups - nPart) % 2 == 1 {
      SumRises(mtfFreq, gs, ge);
      aFreq := aFreq - mtfFreq[ge];
      ge := ge - 1;
    }
  }

  /** The initial tables: parts of equal shares, and each symbol that occurs is favoured by exactly
      one. */
  method InitialTables(mtfFreq: seq<nat>, nMTF: nat, nGroups: nat, alphaSize: nat)
    returns (lens: seq<seq<byte>>, ghost own: seq<int>, ghost starts: seq<int>)
    requires alphaSize <= |mtfFreq| && SumOf(mtfFreq, alphaSize) == nMTF && 2 <= nGroups <= 6
    ensures |lens| == nGroups && |own| == alphaSize && Descending(own)
    ensures Parts(mtfFreq, alphaSize, lens, starts, nGroups)
    ensures forall t :: 0 <= t < nGroups ==> Favours(lens[t], own, t)
    ensures forall v :: 0 <= v < alphaSize && mtfFreq[v] > 0 ==> 0 <= own[v] < nGroups
  {
    hide SumOf, PartIs, Favours, Part, PartAt, Descending;
    lens := seq(nGroups, _ => seq(alphaSize, _ => GREATER_ICOST));
    own, starts := seq(alphaSize, _ => -1), [0];
    NoneDescend(alphaSize);
    PartsStart(mtfFreq, alphaSize, lens);
    var nPart, remF, gs := nGroups, nMTF, 0;
    NothingSummed(mtfFreq);
    while nPart > 0
      invariant 0 <= nPart <= nGroups == |lens| && 0 <= gs <= alphaSize == |own|
      invariant remF == SumOf(mtfFreq, alphaSize) - SumOf(mtfFreq, gs) && (nPart == 0 ==> remF == 0)
      invariant Owned(lens, own, nPart, gs)
      invariant Parts(mtfFreq, alphaSize, lens, starts, nGroups - nPart) && starts[nGroups - nPart] == gs
    {
      var ge, aFreq := NextPart(mtfFreq, alphaSize, gs, remF, nPart, nGroups);
      SumRises(mtfFreq, ge + 1, alphaSize);
      own := OwnedMore(lens, own, nPart, gs, ge);
      PartsMore(mtfFreq, alphaSize, lens, starts, nGroups - nPart, ge);
      lens := lens[nPart - 1 := Part(alphaSize, gs, ge)];
      starts := starts + [ge + 1];
      nPart := nPart - 1;
      gs := ge + 1;
      remF := remF - aFreq;
    }
    SumRises(mtfFreq, gs, alphaSize);
  }

  lemma NothingSummed(f: seq<nat>)
    ensures SumOf(f, 0) == 0
  {
  }

  lemma NoneDescend(n: nat)
    ensures Descending(seq(n, _ => -1))
  {
  }

  // ----- one round

  /** What the symbols from a to b cost in a table. */
  function CostOf(len: seq<byte>, syms: seq<int>, a: nat, b: nat): (c: nat)
    requires a <= b <= |syms| && forall i :: 0 <= i < |syms| ==> 0 <= syms[i] < |len|
    ensures c <= 255 * (b - a)
  {
    if a == b then 0 else CostOf(len, syms, a, b - 1) + len[syms[b - 1]]
  }

  /** Symbols of an alphabet of a letters, and tables for it. */
  ghost predicate Fitting(lens: seq<seq<byte>>, syms: seq<int>, alphaSize: nat) {
    && 2 <= |lens| <= 6 && (forall t :: 0 <= t < |lens| ==> |lens[t]| == alphaSize)
    && forall i :: 0 <= i < |syms| ==> 0 <= syms[i] < alphaSize
  }

  /** The first of the tables in which the symbols cost least. */
  ghost predicate Cheapest(lens: seq<seq<byte>>, syms: seq<int>, alphaSize: nat, a: nat, b: nat, t: nat)
    requires Fitting(lens, syms, alphaSize) && a <= b <= |syms|
  {
    && t < |lens|
    && (forall u :: 0 <= u < |lens| ==> CostOf(lens[t], syms, a, b) <= CostOf(lens[u], syms, a, b))
    && (forall u :: 0 <= u < t ==> CostOf(lens[t], syms, a, b) < CostOf(lens[u], syms, a, b))
  }

  /** Two sums of sixteen bits are kept in one word of 32; none runs over. */
  method PackedCost(len0: seq<byte>, len1: seq<byte>, syms: seq<int>, a: nat) returns (c0: nat, c1: nat)
    requires a + GROUP_SIZE <= |syms|
    requires forall i :: 0 <= i < |syms| ==> 0 <= syms[i] < |len0| && syms[i] < |len1|
    ensures c0 == CostOf(len0, syms, a, a + GROUP_SIZE) && c1 == CostOf(len1, syms, a, a + GROUP_SIZE)
  {
    var cost01: nat := 0;
    for i := a to a + GROUP_SIZE
      invariant cost01 == 0x1_0000 * CostOf(len1, syms, a, i) + CostOf(len0, syms, a, i)
    {
      var low: int, high: int := len0[syms[i]], len1[syms[i]];
      cost01 := cost01 + (0x1_0000 * high + low);
    }
    c0, c1 := cost01 % 0x1_0000, cost01 / 0x1_0000;
  }

  ghost predicate Costs(cost: seq<int>, lens: seq<seq<byte>>, syms: seq<int>, alphaSize: nat, a: nat, b: nat)
    requires Fitting(lens, syms, alphaSize) && a <= b <= |syms|
  {
    |cost| == 6 && forall t :: 0 <= t < |lens| ==> cost[t] == CostOf(lens[t], syms, a, b)
  }

  /** The part of the costs for one symbol. */
  method AddCosts(cost: array<int>, lens: seq<seq<byte>>, syms: seq<int>, alphaSize: nat, gs: nat, i: nat)
    requires Fitting(lens, syms, alphaSize) && gs <= i < |syms| && Costs(cost[..], lens, syms, alphaSize, gs, i)
    modifies cost
    ensures Costs(cost[..], lens, syms, alphaSize, gs, i + 1)
  {
    var icv := syms[i];
    hide CostOf;
    for t := 0 to |lens|
      invariant cost.Length == 6
      invariant forall u :: 0 <= u < |lens| ==> cost[u] == CostOf(lens[u], syms, gs, if u < t then i + 1 else i)
    {
      CostMore(lens[t], syms, gs, i);
      cost[t] := cost[t] + lens[t][icv];
    }
  }

  lemma CostMore(len: seq<byte>, syms: seq<int>, a: nat, i: nat)
    requires a <= i < |syms| && forall i :: 0 <= i < |syms| ==> 0 <= syms[i] < |len|
    ensures CostOf(len, syms, a, i + 1) == CostOf(len, syms, a, i) + len[syms[i]]
  {
  }

  /** The cost of one group in each of the tables. */
  method GroupCosts(lens: seq<seq<byte>>, syms: seq<int>, alphaSize: nat, gs: nat, ge: nat) returns (cost: array<int>)
    requires Fitting(lens, syms, alphaSize) && gs <= ge < |syms|
    ensures fresh(cost) && Costs(cost[..], lens, syms, alphaSize, gs, ge + 1)
  {
    cost := new int[6](_ => 0);
    if |lens| == 6 && 50 == ge - gs + 1 {
      hide CostOf;
      cost[0], cost[1] := PackedCost(lens[0], lens[1], syms, gs);
      cost[2], cost[3] := PackedCost(lens[2], lens[3], syms, gs);
      cost[4], cost[5] := PackedCost(lens[4], lens[5], syms, gs);
    } else {
      for i := gs to ge + 1
        invariant Costs(cost[..], lens, syms, alphaSize, gs, i)
      {
        AddCosts(cost, lens, syms, alphaSize, gs, i);
      }
    }
  }

  /** The table with the least cost, the first of several. */
  method BestTable(cost: seq<int>, nGroups: nat) returns (bt: int)
    requires 1 <= nGroups <= |cost| && forall t :: 0 <= t < nGroups ==> cost[t] < 999999999
    ensures 0 <= bt < nGroups
    ensures forall u :: 0 <= u < nGroups ==> cost[bt] <= cost[u]
    ensures forall u :: 0 <= u < bt ==> cost[bt] < cost[u]
  {
    var bc := 999999999;
    bt := -1;
    for t := 0 to nGroups
      invariant -1 <= bt < t && (bt == -1 <==> t == 0) && bc == (if bt == -1 then 999999999 else cost[bt])
      invariant forall u :: 0 <= u < t ==> bc <= cost[u]
      invariant forall u :: 0 <= u < bt ==> bc < cost[u]
    {
      if cost[t] < bc { bc, bt := cost[t], t; }
    }
  }

  /** The symbols of the first k whose group is given to table t. */
  function Assigned(syms: seq<int>, sel: seq<byte>, t: int, k: nat): (r: seq<int>)
    requires k <= |syms| && k <= GROUP_SIZE * |sel|
    ensures |r| <= k
  {
    if k == 0 then []
    else Assigned(syms, sel, t, k - 1) + if sel[GroupOf(k - 1)] == t then [syms[k - 1]] else []
  }

  lemma {:induction false} AssignedMore(syms: seq<int>, sel: seq<byte>, x: byte, t: int, k: nat)
    requires k <= |syms| && k <= GROUP_SIZE * |sel|
    ensures Assigned(syms, sel + [x], t, k) == Assigned(syms, sel, t, k)
  {
    if k > 0 { AssignedMore(syms, sel, x, t, k - 1); }
  }

  lemma {:induction false} AssignedRange(syms: seq<int>, sel: seq<byte>, t: int, k: nat, a: nat)
    requires k <= |syms| && k <= GROUP_SIZE * |sel| && forall i :: 0 <= i < |syms| ==> 0 <= syms[i] < a
    ensures forall i :: 0 <= i < |Assigned(syms, sel, t, k)| ==> 0 <= Assigned(syms, sel, t, k)[i] < a
  {
    if k > 0 { AssignedRange(syms, sel, t, k - 1, a); }
  }

  /** The frequencies of the symbols given to each table. */
  ghost predicate Counted(rfreq: array2<int>, syms: seq<int>, sel: seq<byte>, alphaSize: nat, nGroups: nat, k: nat)
    requires k <= |syms| && k <= GROUP_SIZE * |sel|
    reads rfreq
  {
    && rfreq.Length0 == 6 && rfreq.Length1 == alphaSize && nGroups <= 6
    && forall t, v :: 0 <= t < nGroups && 0 <= v < alphaSize ==> rfreq[t, v] == Occ(Assigned(syms, sel, t, k), v)
  }

  lemma OccMore(s: seq<int>, x: int, v: int)
    ensures Occ(s + [x], v) == Occ(s, v) + if x == v then 1 else 0
  {
    assert (s + [x])[..|s|] == s;
  }

  /** Counts the symbols of a group for its table. */
  method CountGroup(rfreq: array2<int>, syms: seq<int>, sel: seq<byte>, alphaSize: nat, nGroups: nat, gs: nat, ge: nat,
                    bt: nat)
    requires gs <= ge < |syms| && ge < GROUP_SIZE * |sel| && bt < nGroups
    requires forall i :: 0 <= i < |syms| ==> 0 <= syms[i] < alphaSize
    requires forall i :: gs <= i <= ge ==> sel[GroupOf(i)] == bt
    requires Counted(rfreq, syms, sel, alphaSize, nGroups, gs)
    modifies rfreq
    ensures Counted(rfreq, syms, sel, alphaSize, nGroups, ge + 1)
  {
    for i := gs to ge + 1
      invariant Counted(rfreq, syms, sel, alphaSize, nGroups, i)
    {
      forall t, v | 0 <= t < nGroups && 0 <= v < alphaSize
        ensures Occ(Assigned(syms, sel, t, i + 1), v)
                == Occ(Assigned(syms, sel, t, i), v) + if t == bt && v == syms[i] then 1 else 0
      {
        OccMore(Assigned(syms, sel, t, i), syms[i], v);
        assert Assigned(syms, sel, t, i) + [] == Assigned(syms, sel, t, i);
      }
      rfreq[bt, syms[i]] := rfreq[bt, syms[i]] + 1;
    }
  }

  /** Every group has the cheapest table. */
  ghost predicate Chosen(lens: seq<seq<byte>>, syms: seq<int>, alphaSize: nat, sel: seq<byte>)
    requires Fitting(lens, syms, alphaSize) && |syms| >= GROUP_SIZE * (|sel| - 1)
  {
    forall k :: 0 <= k < |sel| ==> ChosenAt(lens, syms, alphaSize, sel, k)
  }

  ghost predicate ChosenAt(lens: seq<seq<byte>>, syms: seq<int>, alphaSize: nat, sel: seq<byte>, k: nat)
    requires Fitting(lens, syms, alphaSize) && k < |sel| && |syms| >= GROUP_SIZE * (|sel| - 1)
  {
    GROUP_SIZE * k <= |syms|
    && Cheapest(lens, syms, alphaSize, GROUP_SIZE * k,
                if GROUP_SIZE * (k + 1) <= |syms| then GROUP_SIZE * (k + 1) else |syms|, sel[k])
  }

  /** The best table for one group. */
  method ChooseTable(lens: seq<seq<byte>>, syms: seq<int>, alphaSize: nat, gs: nat, ge: nat) returns (bt: int)
    requires Fitting(lens, syms, alphaSize) && gs <= ge < |syms| && ge < gs + GROUP_SIZE
    ensures 0 <= bt < |lens| && Cheapest(lens, syms, alphaSize, gs, ge + 1, bt)
  {
    var cost := GroupCosts(lens, syms, alphaSize, gs, ge);
    bt := BestTable(cost[..], |lens|);
  }

  /** One round: a selector for every group, and the frequencies for the new tables. */
  method ChooseSelectors(lens: seq<seq<byte>>, syms: seq<int>, alphaSize: nat)
    returns (sel: seq<byte>, rfreq: array2<int>)
    requires Fitting(lens, syms, alphaSize)
    ensures |sel| == (|syms| + GROUP_SIZE - 1) / GROUP_SIZE && fresh(rfreq)
    ensures Chosen(lens, syms, alphaSize, sel) && forall k :: 0 <= k < |sel| ==> sel[k] < |lens|
    ensures Counted(rfreq, syms, sel, alphaSize, |lens|, |syms|)
  {
    hide Cheapest, Chosen, Counted;
    rfreq := new int[6, alphaSize]((t, v) => 0);
    CountedNone(rfreq, syms, alphaSize, |lens|);
    ChosenNone(lens, syms, alphaSize);
    sel := [];
    var gs := 0;
    while true
      invariant gs == if GROUP_SIZE * |sel| <= |syms| then GROUP_SIZE * |sel| else |syms|
      invariant |syms| > GROUP_SIZE * (|sel| - 1) || (|syms| == 0 && sel == [])
      invariant fresh(rfreq) && Counted(rfreq, syms, sel, alphaSize, |lens|, gs)
      invariant Chosen(lens, syms, alphaSize, sel) && forall k :: 0 <= k < |sel| ==> sel[k] < |lens|
      decreases |syms| - gs
    {
      if gs >= |syms| { break; }
      var ge := gs + GROUP_SIZE - 1;
      if ge >= |syms| { ge := |syms| - 1; }
      var bt := ChooseTable(lens, syms, alphaSize, gs, ge);
      CountedMore(rfreq, syms, sel, bt, alphaSize, |lens|, gs);
      ChosenMore(lens, syms, alphaSize, sel, bt);
      sel := sel + [bt];
      CountGroup(rfreq, syms, sel, alphaSize, |lens|, gs, ge, bt);
      gs := ge + 1;
    }
  }

  lemma CountedNone(rfreq: array2<int>, syms: seq<int>, alphaSize: nat, nGroups: nat)
    requires rfreq.Length0 == 6 && rfreq.Length1 == alphaSize && nGroups <= 6
    requires forall t, v :: 0 <= t < 6 && 0 <= v < alphaSize ==> rfreq[t, v] == 0
    ensures Counted(rfreq, syms, [], alphaSize, nGroups, 0)
  {
  }

  lemma CountedMore(rfreq: array2<int>, syms: seq<int>, sel: seq<byte>, x: byte, alphaSize: nat, nGroups: nat, k: nat)
    requires k <= |syms| && k <= GROUP_SIZE * |sel| && Counted(rfreq, syms, sel, alphaSize, nGroups, k)
    ensures Counted(rfreq, syms, sel + [x], alphaSize, nGroups, k)
  {
    hide Assigned;
    forall t, v | 0 <= t < nGroups && 0 <= v < alphaSize
      ensures rfreq[t, v] == Occ(Assigned(syms, sel + [x], t, k), v)
    {
      AssignedMore(syms, sel, x, t, k);
    }
  }

  lemma ChosenNone(lens: seq<seq<byte>>, syms: seq<int>, alphaSize: nat)
    requires Fitting(lens, syms, alphaSize)
    ensures Chosen(lens, syms, alphaSize, [])
  {
  }

  lemma ChosenMore(lens: seq<seq<byte>>, syms: seq<int>, alphaSize: nat, sel: seq<byte>, bt: byte)
    requires Fitting(lens, syms, alphaSize) && |syms| > GROUP_SIZE * |sel| && Chosen(lens, syms, alphaSize, sel)
    requires Cheapest(lens, syms, alphaSize, GROUP_SIZE * |sel|,
                      if GROUP_SIZE * (|sel| + 1) <= |syms| then GROUP_SIZE * (|sel| + 1) else |syms|, bt)
    ensures Chosen(lens, syms, alphaSize, sel + [bt])
  {
    hide Cheapest;
    forall k | 0 <= k < |sel + [bt]| ensures ChosenAt(lens, syms, alphaSize, sel + [bt], k) {
      if k < |sel| { assert ChosenAt(lens, syms, alphaSize, sel, k); }
    }
  }

  // ----- the tables that are sent

  /** The frequencies of table t. */
  method RowOf(rfreq: array2<int>, t: nat, syms: seq<int>, sel: seq<byte>, alphaSize: nat, nGroups: nat)
    returns (row: seq<nat>)
    requires |syms| <= GROUP_SIZE * |sel| && t < nGroups && forall i :: 0 <= i < |syms| ==> 0 <= syms[i] < alphaSize
    requires Counted(rfreq, syms, sel, alphaSize, nGroups, |syms|)
    ensures row == Counts(Assigned(syms, sel, t, |syms|), alphaSize) && SumOf(row, alphaSize) <= |syms|
  {
    ghost var mine := Assigned(syms, sel, t, |syms|);
    AssignedRange(syms, sel, t, |syms|, alphaSize);
    CountsSum(mine, alphaSize);
    row := [];
    for v := 0 to alphaSize
      invariant |row| == v && forall u :: 0 <= u < v ==> row[u] == Occ(mine, u)
    {
      row := row + [rfreq[t, v]];
    }
    assert row == Counts(mine, alphaSize);
  }

  /** The lengths are those made for the symbols that each table is chosen for: complete codes of
      1 to 17 bits, and no prefix code is shorter. */
  ghost predicate NewTables(lens: seq<seq<byte>>, syms: seq<int>, sel: seq<byte>, alphaSize: nat, k: nat)
    requires |syms| <= GROUP_SIZE * |sel|
  {
    k <= |lens| && forall t :: 0 <= t < k ==> NewTable(lens[t], syms, sel, t, alphaSize)
  }

  ghost predicate NewTable(len: seq<byte>, syms: seq<int>, sel: seq<byte>, t: nat, alphaSize: nat)
    requires |syms| <= GROUP_SIZE * |sel|
  {
    && |len| == alphaSize && Complete(len) && (forall i :: 0 <= i < |len| ==> 1 <= len[i] <= 17)
    && MadeFor(len, Counts(Assigned(syms, sel, t, |syms|), alphaSize))
  }

  /** A best code for the frequencies, zeroes counted as one, scaled as long as a best code has a
      length over 17. */
  ghost predicate MadeFor(len: seq<byte>, freq: seq<nat>) {
    exists rounds: nat :: MadeIn(len, freq, rounds)
  }

  ghost predicate MadeIn(len: seq<byte>, freq: seq<nat>, rounds: nat) {
    Optimal.Best(Times(Positive(freq), rounds), Depths(len)) && AllTooLong(Positive(freq), rounds, 17)
  }

  /** One table for its frequencies. */
  method MakeTable(row: seq<nat>, ghost syms: seq<int>, ghost sel: seq<byte>, ghost t: nat, alphaSize: nat)
    returns (len: seq<byte>)
    requires 3 <= alphaSize <= 258 && |syms| <= 900001 && |syms| <= GROUP_SIZE * |sel|
    requires row == Counts(Assigned(syms, sel, t, |syms|), alphaSize) && SumOf(row, alphaSize) <= |syms|
    ensures NewTable(len, syms, sel, t, alphaSize) && |len| == alphaSize
  {
    hide *;
    var a := new byte[alphaSize];
    assert |row| == alphaSize;
    ghost var rounds := MakeCodeLengths(a, row, alphaSize, 17);
    len := a[..];
    MakeNew(len, row, rounds, syms, sel, t, alphaSize);
  }

  lemma MakeNew(len: seq<byte>, row: seq<nat>, rounds: nat, syms: seq<int>, sel: seq<byte>, t: nat, alphaSize: nat)
    requires |syms| <= GROUP_SIZE * |sel| && row == Counts(Assigned(syms, sel, t, |syms|), alphaSize)
    requires |len| == alphaSize && Complete(len) && forall i :: 0 <= i < alphaSize ==> 1 <= len[i] <= 17
    requires Optimal.Best(Times(Positive(row), rounds), Depths(len)) && AllTooLong(Positive(row), rounds, 17)
    ensures NewTable(len, syms, sel, t, alphaSize)
  {
    hide Complete, Optimal.Best, Times, Positive, Depths, AllTooLong, Counts, Assigned;
    assert MadeIn(len, row, rounds);
  }

  /** New tables for the frequencies of the round. */
  method MakeTables(lens0: seq<seq<byte>>, rfreq: array2<int>, syms: seq<int>, sel: seq<byte>, alphaSize: nat)
    returns (lens: seq<seq<byte>>)
    requires Fitting(lens0, syms, alphaSize) && 3 <= alphaSize <= 258 && |syms| <= 900001
    requires |syms| <= GROUP_SIZE * |sel| && Counted(rfreq, syms, sel, alphaSize, |lens0|, |syms|)
    ensures |lens| == |lens0| && NewTables(lens, syms, sel, alphaSize, |lens|) && Fitting(lens, syms, alphaSize)
  {
    hide NewTable, Assigned, Counts;
    lens := lens0;
    for t := 0 to |lens0|
      invariant |lens| == |lens0| && NewTables(lens, syms, sel, alphaSize, t) && Fitting(lens, syms, alphaSize)
      invariant Counted(rfreq, syms, sel, alphaSize, |lens0|, |syms|)
    {
      var row := RowOf(rfreq, t, syms, sel, alphaSize, |lens0|);
      var len := MakeTable(row, syms, sel, t, alphaSize);
      lens := lens[t := len];
    }
  }

  /** A round: the tables before, the selectors, and the tables made for them. */
  datatype Round = Round(before: seq<seq<byte>>, sel: seq<byte>, after: seq<seq<byte>>)

  /** Each group has the first of the tables that were cheapest for it, and the new tables are
      made for the groups that they were chosen for. */
  ghost predicate RoundOk(r: Round, syms: seq<int>, alphaSize: nat) {
    && |r.sel| == (|syms| + GROUP_SIZE - 1) / GROUP_SIZE && |r.after| == |r.before|
    && (forall k :: 0 <= k < |r.sel| ==> r.sel[k] < |r.before|)
    && Fitting(r.before, syms, alphaSize) && Chosen(r.before, syms, alphaSize, r.sel)
    && NewTables(r.after, syms, r.sel, alphaSize, |r.after|)
  }

  /** Every round begins with the tables of the one before. */
  ghost predicate RoundsOk(rounds: seq<Round>, syms: seq<int>, alphaSize: nat) {
    && (forall i :: 0 <= i < |rounds| ==> RoundOk(rounds[i], syms, alphaSize))
    && forall i :: 0 < i < |rounds| ==> rounds[i].before == rounds[i - 1].after
  }

  lemma RoundMore(rounds: seq<Round>, r: Round, syms: seq<int>, alphaSize: nat)
    requires RoundsOk(rounds, syms, alphaSize) && RoundOk(r, syms, alphaSize)
    requires rounds != [] ==> r.before == rounds[|rounds| - 1].after
    ensures RoundsOk(rounds + [r], syms, alphaSize)
  {
    hide RoundOk;
  }

  lemma RoundMade(r: Round, syms: seq<int>, alphaSize: nat)
    requires RoundOk(r, syms, alphaSize)
    ensures |r.sel| == (|syms| + GROUP_SIZE - 1) / GROUP_SIZE && |r.after| == |r.before|
    ensures |syms| <= GROUP_SIZE * |r.sel|
    ensures NewTables(r.after, syms, r.sel, alphaSize, |r.after|)
    ensures forall k :: 0 <= k < |r.sel| ==> r.sel[k] < |r.after|
  {
    hide NewTables, Chosen, Fitting;
  }

  /** How the coding comes about: the number of tables by the number of symbols, first tables by
      equal shares of the symbols, and four rounds, of which the last gives selectors and tables. */
  ghost predicate MadeBy(syms: seq<int>, alphaSize: nat, cod: Coding, rounds: seq<Round>, starts: seq<int>) {
    && |cod.lens| == (if |syms| < 200 then 2 else if |syms| < 600 then 3 else if |syms| < 1200 then 4
                      else if |syms| < 2400 then 5 else 6)
    && |rounds| == 4 && RoundsOk(rounds, syms, alphaSize)
    && Parts(Counts(syms, alphaSize), alphaSize, rounds[0].before, starts, |cod.lens|)
    && cod == Coding(rounds[3].after, rounds[3].sel)
  }

  ghost predicate ChoiceOf(syms: seq<int>, alphaSize: nat, cod: Coding) {
    exists rounds, starts :: MadeBy(syms, alphaSize, cod, rounds, starts)
  }

  /** The first half of sendMTFValues. */
  method ChooseTables(mtfv: seq<int>, mtfFreq: seq<nat>, alphaSize: nat)
    returns (cod: Coding, ghost rounds: seq<Round>, ghost starts: seq<int>)
    requires 3 <= alphaSize <= 258 && 1 <= |mtfv| <= 900001 && mtfFreq == Counts(mtfv, alphaSize)
    requires forall i :: 0 <= i < |mtfv| ==> 0 <= mtfv[i] < alphaSize
    ensures MadeBy(mtfv, alphaSize, cod, rounds, starts) && RoundOk(rounds[3], mtfv, alphaSize)
  {
    var nGroups := GroupCount(|mtfv|);
    CountsSum(mtfv, alphaSize);
    assert |mtfFreq| == alphaSize;
    var lens, own, begin := InitialTables(mtfFreq, |mtfv|, nGroups, alphaSize);
    starts := begin;
    hide Chosen, Counted, NewTables, Parts, Counts;
    var sel: seq<byte> := [];
    ghost var first := lens;
    rounds := [];
    for iter := 0 to 4
      invariant |lens| == nGroups && Fitting(lens, mtfv, alphaSize)
      invariant |rounds| == iter && RoundsOk(rounds, mtfv, alphaSize)
      invariant if iter == 0 then lens == first
                else rounds[iter - 1].after == lens && rounds[iter - 1].sel == sel && rounds[0].before == first
    {
      ghost var before := lens;
      var rfreq;
      sel, rfreq := ChooseSelectors(lens, mtfv, alphaSize);
      lens := MakeTables(lens, rfreq, mtfv, sel, alphaSize);
      RoundMore(rounds, Round(before, sel, lens), mtfv, alphaSize);
      rounds := rounds + [Round(before, sel, lens)];
    }
    cod := Coding(lens, sel);
  }

  /** The choice is one that the second half can send. */
  lemma ChoiceCodable(cod: Coding, rounds: seq<Round>, starts: seq<int>, syms: seq<int>, alphaSize: nat)
    requires |syms| <= 900001 && MadeBy(syms, alphaSize, cod, rounds, starts) && RoundOk(rounds[3], syms, alphaSize)
    ensures Codable(cod, alphaSize, |syms|) && ShortCodes(cod)
  {
    hide Parts, RoundsOk;
    RoundMade(rounds[3], syms, alphaSize);
    forall t | 0 <= t < |cod.lens|
      ensures |cod.lens[t]| == alphaSize && GoodTable(cod.lens[t]) && ShortCode(cod.lens[t])
    {
      assert NewTable(cod.lens[t], syms, cod.sel, t, alphaSize);
    }
  }
}
