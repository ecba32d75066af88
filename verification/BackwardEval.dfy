/** The backward symbolic evaluation of jump targets: what an instruction does to the
    expression, what it does to the machine, and when the two agree. */
module BackwardEval {
  import opened Symbolic
  import opened Expressions
  import B = BitStream

  // ----- instructions

  datatype Operand = RegOp(r: Name) | ImmOp(imm: int)

  /** What the register field of an operand gives: for an immediate, which shares its storage,
      the low 32 bits as an unsigned number. Most branches read immediates in this way. */
  function View(op: Operand): (r: Operand)
    ensures op.RegOp? || 0 <= op.imm < 0x1_0000_0000 ==> r == op
  {
    match op
    case RegOp(_) => op
    case ImmOp(imm) => ImmOp(imm % 0x1_0000_0000)
  }

  /** Immediates of additions and shifts have at most twelve bits. */
  type Short = o: Operand | o.ImmOp? ==> 0 <= o.imm < 0x1000 witness RegOp(0)

  datatype Shift = NoShift | Lsl(k: nat) | Lsr(k: nat) | Asr(k: nat) | Ror(k: nat)

  /** movz and movn place a number of 16 bits at a multiple of 16. */
  type Half = i: int | 0 <= i < 0x10000 witness 0
  type HalfPlace = k: nat | k == 0 || k == 16 || k == 32 || k == 48 witness 0

  /** add, adds, sub and subs. */
  datatype Sum = PlainAdd | FlagAdd | PlainSub | FlagSub

  /** The instructions the evaluator follows, those it skips whatever they write, and others;
      wrote gives the words that another instruction put into the registers it writes. */
  datatype Instr =
    | AddSub(sum: Sum, rd: Name, rn: Name, op2: Short, shift: Shift)
    | AndReg(rd: Name, rn: Name, src: Operand, shift: Shift)
    | AsrBy(rd: Name, rn: Name, op2: Short)
    | ShiftBy(right: bool, rd: Name, rn: Name, op2: Short)
    | Mov(rd: Name, src: Operand)
    | Movz(rd: Name, half: Half, place: HalfPlace)
    | Movn(rd: Name, half: Half, place: HalfPlace)
    | Adr(rd: Name, imm: int)
    | Mul(rd: Name, rn: Name, rm: Name)
    | Madd(rd: Name, rn: Name, rm: Name, ra: Name)
    | Ubfiz(rd: Name, rn: Name, lsb: nat, width: nat)
    | Compare
    | Other(written: set<Name>, wrote: Name -> int)

  predicate Followed(i: Instr) { !i.Compare? && !i.Other? }

  function OperandItem(op: Operand): Item {
    match op
    case RegOp(r) => Reg(r)
    case ImmOp(imm) => Num(imm)
  }

  function Pair(left: Item, right: Item, op: Op): Item { Node(left, right, op, 0) }

  /** What the evaluator puts in the place of the written register. Only a left shift of the
      second operand of an addition is looked at, no other and none of and, movz and movn; and
      adds is taken for a subtraction. */
  function Replacement(i: Instr): Item
    requires Followed(i)
  {
    match i
    case AddSub(sum, _, rn, op2, shift) =>
      Pair(Reg(rn),
           if shift.Lsl? then Pair(OperandItem(View(op2)), Num(shift.k), ShiftLeft) else OperandItem(View(op2)),
           if sum.PlainAdd? then Plus else Minus)
    case AndReg(_, rn, src, _) => Pair(Reg(rn), OperandItem(View(src)), AndOp)
    case AsrBy(_, rn, op2) => Pair(Reg(rn), OperandItem(View(op2)), ShiftRight)
    case ShiftBy(right, _, rn, op2) => Pair(Reg(rn), OperandItem(op2), if right then ShiftRight else ShiftLeft)
    case Mov(_, src) => OperandItem(View(src))
    case Movz(_, half, _) => Num(half)
    case Movn(_, half, _) => Num(-1 - half)
    case Adr(_, imm) => Num(imm)
    case Mul(_, rn, rm) => Pair(Reg(rn), Reg(rm), Times)
    case Madd(_, rn, rm, ra) => Pair(Pair(Reg(rn), Reg(rm), Times), Reg(ra), Plus)
    case Ubfiz(_, rn, lsb, width) => Pair(Pair(Reg(rn), Num(B.Pow2(width) - 1), AndOp), Num(lsb), ShiftLeft)
  }

  function OperandRegs(op: Operand): set<Name> { if op.RegOp? then {op.r} else {} }

  function RegsRead(i: Instr): set<Name> {
    match i
    case AddSub(_, _, rn, op2, _) => {rn} + OperandRegs(op2)
    case AndReg(_, rn, src, _) => {rn} + OperandRegs(src)
    case AsrBy(_, rn, op2) => {rn} + OperandRegs(op2)
    case ShiftBy(_, _, rn, op2) => {rn} + OperandRegs(op2)
    case Mov(_, src) => OperandRegs(src)
    case Mul(_, rn, rm) => {rn, rm}
    case Madd(_, rn, rm, ra) => {rn, rm, ra}
    case Ubfiz(_, rn, _, _) => {rn}
    case _ => {}
  }

  function RegsWritten(i: Instr): set<Name> {
    if i.Compare? then {} else if i.Other? then i.written else {i.rd}
  }

  lemma PairNames(left: Item, right: Item, op: Op)
    ensures Names(Pair(left, right, op)) == Names(left) + Names(right)
  {
  }

  lemma ReplacementNames(i: Instr)
    requires Followed(i)
    ensures Names(Replacement(i)) == RegsRead(i) && Replacement(i) != Nothing && Proper(Replacement(i))
  {
    if i.AddSub? && i.shift.Lsl? { PairNames(OperandItem(i.op2), Num(i.shift.k), ShiftLeft); }
    if i.Madd? { PairNames(Reg(i.rn), Reg(i.rm), Times); }
    if i.Ubfiz? { PairNames(Reg(i.rn), Num(B.Pow2(i.width) - 1), AndOp); }
    if Replacement(i).Node? { PairNames(Replacement(i).left, Replacement(i).right, Replacement(i).op); }
  }

  // ----- one step backwards

  function Back(t: Item, i: Instr): Item {
    if Followed(i) then Subst(t, i.rd, Replacement(i)) else t
  }

  /** The expression for t before the chain, from the one after it. */
  function BackChain(t: Item, chain: seq<Instr>): Item
    decreases |chain|
  {
    if chain == [] then t else BackChain(Back(t, chain[|chain| - 1]), chain[..|chain| - 1])
  }

  /** No instruction outside the fragment writes a register that is still wanted. */
  ghost predicate Clear(t: Item, chain: seq<Instr>)
    decreases |chain|
  {
    chain != [] ==>
      var last := chain[|chain| - 1];
      (last.Other? ==> last.written !! Names(t)) && Clear(Back(t, last), chain[..|chain| - 1])
  }

  /** An instruction carried out on unbounded integers. */
  function IntStep(i: Instr, env: Env): Env {
    if Followed(i) then env.(reg := (r: Name) => if r == i.rd then Value(Replacement(i), env) else env.reg(r))
    else if i.Other? then env.(reg := (r: Name) => if r in i.written then i.wrote(r) else env.reg(r))
    else env
  }

  function IntRun(chain: seq<Instr>, env: Env): Env {
    if chain == [] then env else IntStep(chain[|chain| - 1], IntRun(chain[..|chain| - 1], env))
  }

  /** One step back: the value before the instruction is the value after it, on integers. */
  lemma BackValue(t: Item, i: Instr, env: Env)
    requires i.Other? ==> i.written !! Names(t)
    ensures Value(Back(t, i), env) == Value(t, IntStep(i, env))
  {
    if Followed(i) {
      ReplacementNames(i);
      SubstValue(t, i.rd, Replacement(i), env);
    } else {
      ValueAgrees(t, env, IntStep(i, env));
    }
  }

  /** For every chain the expression found backwards has, on the start state, the value the
      chain computes when it is carried out on unbounded integers. */
  lemma {:induction false} BackwardIsIntegerRun(t: Item, chain: seq<Instr>, env: Env)
    requires Clear(t, chain)
    ensures Value(BackChain(t, chain), env) == Value(t, IntRun(chain, env))
    decreases |chain|
  {
    if chain != [] {
      var last, front := chain[|chain| - 1], chain[..|chain| - 1];
      BackwardIsIntegerRun(Back(t, last), front, env);
      BackValue(t, last, IntRun(front, env));
    }
  }

  // ----- the evaluator

  method PairExpr(left: Field, right: Field, op: Op) returns (f: Field)
    requires ValidField(left) && ValidField(right) && FieldRepr(left) !! FieldRepr(right)
    ensures ValidField(f) && FieldItem(f) == Pair(FieldItem(left), FieldItem(right), op)
    ensures fresh(FieldRepr(f) - FieldRepr(left) - FieldRepr(right))
  {
    var e := new Expr(left, right, op);
    f := Sub(e);
  }

  function OperandField(op: Operand): (f: Field)
    ensures ValidField(f) && FieldRepr(f) == {} && FieldItem(f) == OperandItem(op)
  {
    match op
    case RegOp(r) => Word(r)
    case ImmOp(imm) => Int(imm)
  }

  /** The new expressions that emulate makes, one branch for each group of mnemonics. */
  method MakeReplacement(i: Instr) returns (f: Field)
    requires Followed(i)
    ensures ValidField(f) && FieldItem(f) == Replacement(i) && fresh(FieldRepr(f))
  {
    match i {
      case AddSub(sum, _, rn, op2, shift) =>
        var second := OperandField(View(op2));
        if shift.Lsl? { second := PairExpr(second, Int(shift.k), ShiftLeft); }
        f := PairExpr(Word(rn), second, if sum.PlainAdd? then Plus else Minus);
      case AndReg(_, rn, src, _) => f := PairExpr(Word(rn), OperandField(View(src)), AndOp);
      case AsrBy(_, rn, op2) => f := PairExpr(Word(rn), OperandField(View(op2)), ShiftRight);
      case ShiftBy(right, _, rn, op2) =>
        f := PairExpr(Word(rn), OperandField(op2), if right then ShiftRight else ShiftLeft);
      case Mov(_, src) => f := OperandField(View(src));
      case Movz(_, half, _) => f := Int(half);
      case Movn(_, half, _) => f := Int(-1 - half);
      case Adr(_, imm) => f := Int(imm);
      case Mul(_, rn, rm) => f := PairExpr(Word(rn), Word(rm), Times);
      case Madd(_, rn, rm, ra) =>
        var product := PairExpr(Word(rn), Word(rm), Times);
        f := PairExpr(product, Word(ra), Plus);
      case Ubfiz(_, rn, lsb, width) =>
        var masked := PairExpr(Word(rn), Int(B.Pow2(width) - 1), AndOp);
        f := PairExpr(masked, Int(lsb), ShiftLeft);
    }
  }

  class Path {
    var instIdx: nat
    var regPool: set<Name>
    var expr: Expr
    var steps: nat

    /** The registers in the pool are exactly the names in the expression. */
    ghost predicate Valid()
      reads this, expr, expr.Repr
    {
      expr.Valid() && regPool == Names(expr.Tree())
    }

    constructor (instIdx: nat, register: Name)
      ensures Valid() && fresh(expr.Repr) && this.instIdx == instIdx && steps == 0
      ensures expr.Tree() == Node(Reg(register), Nothing, NoOp, 0)
    {
      this.instIdx, regPool, steps := instIdx, {register}, 0;
      expr := new Expr(Word(register), None, NoOp);
    }

    /** Path.emulate; false for an instruction outside the fragment that matters. */
    method Emulate(instr: Instr) returns (supported: bool)
      requires Valid()
      modifies this`regPool, expr.Repr
      ensures supported <==> !(instr.Other? && instr.written * old(regPool) != {})
      ensures supported ==> Valid() && fresh(expr.Repr - old(expr.Repr)) && expr.Tree() == Back(old(expr.Tree()), instr)
    {
      if instr.Compare? || RegsWritten(instr) * regPool == {} {
        SubstAbsent(expr.Tree(), instr);
        return true;
      }
      if instr.Other? { return false; }
      ghost var before := expr.Tree();
      regPool := regPool - RegsWritten(instr);
      regPool := regPool + RegsRead(instr);
      var item := MakeReplacement(instr);
      ReplacementNames(instr);
      SubstNames(before, instr.rd, Replacement(instr));
      expr.Replace(instr.rd, item);
      supported := true;
    }
  }

  /** An instruction that writes no name of the expression leaves it as it is. */
  lemma SubstAbsent(t: Item, i: Instr)
    ensures RegsWritten(i) * Names(t) == {} ==> Back(t, i) == t
  {
    if Followed(i) && i.rd !in Names(t) { SubstSame(t, i.rd, Replacement(i)); }
    assert Followed(i) && i.rd in Names(t) ==> i.rd in RegsWritten(i) * Names(t);
  }

  lemma {:induction false} SubstSame(t: Item, name: Name, item: Item)
    requires name !in Names(t)
    ensures Subst(t, name, item) == t
  {
    if t.Node? {
      SubstSame(t.left, name, item);
      SubstSame(t.right, name, item);
    }
  }

  // ----- the driver

  datatype Next = To(i: nat) | Label(name: string)

  ghost predicate Leads(nexts: seq<(nat, seq<Next>)>, count: nat, idx: nat, next: Next)
    requires count <= |nexts|
  {
    exists k :: 0 <= k < count && nexts[k].0 == idx && next in nexts[k].1
  }

  /** idx, as often as next is a target. */
  function Uses(idx: nat, targets: seq<Next>, next: Next): seq<nat> {
    if targets == [] then []
    else Uses(idx, targets[..|targets| - 1], next) + if targets[|targets| - 1] == next then [idx] else []
  }

  /** The instructions that lead to a place, in the order of nexts. */
  function Sources(nexts: seq<(nat, seq<Next>)>, next: Next): seq<nat> {
    if nexts == [] then []
    else
      var (idx, targets) := nexts[|nexts| - 1];
      Sources(nexts[..|nexts| - 1], next) + Uses(idx, targets, next)
  }

  function ListOf(prevs: map<Next, seq<nat>>, next: Next): seq<nat> {
    if next in prevs then prevs[next] else []
  }

  ghost predicate Reversed(nexts: seq<(nat, seq<Next>)>, prevs: map<Next, seq<nat>>) {
    forall next :: ListOf(prevs, next) == Sources(nexts, next)
  }

  method AddPrev(prevs: map<Next, seq<nat>>, next: Next, idx: nat) returns (r: map<Next, seq<nat>>)
    ensures forall other :: ListOf(r, other) == ListOf(prevs, other) + if other == next then [idx] else []
  {
    var list := ListOf(prevs, next);
    r := prevs[next := list + [idx]];
  }

  /** reverse_nexts for one function. */
  method ReverseNexts(nexts: seq<(nat, seq<Next>)>) returns (prevs: map<Next, seq<nat>>)
    ensures Reversed(nexts, prevs)
  {
    hide ListOf;
    prevs := NoPrevs();
    for k := 0 to |nexts|
      invariant Reversed(nexts[..k], prevs)
    {
      ghost var before := prevs;
      var (idx, targets) := nexts[k];
      for j := 0 to |targets|
        invariant forall next :: ListOf(prevs, next) == ListOf(before, next) + Uses(idx, targets[..j], next)
      {
        prevs := AddPrev(prevs, targets[j], idx);
        assert targets[..j + 1][..j] == targets[..j];
      }
      assert targets[..|targets|] == targets && nexts[..k + 1][..k] == nexts[..k];
    }
    assert nexts[..|nexts|] == nexts;
  }

  method NoPrevs() returns (prevs: map<Next, seq<nat>>)
    ensures forall next :: ListOf(prevs, next) == []
  {
    prevs := map[];
  }

  lemma {:induction false} UsesTarget(idx: nat, targets: seq<Next>, next: Next, x: nat)
    ensures x in Uses(idx, targets, next) <==> x == idx && next in targets
  {
    if targets != [] {
      var front := targets[..|targets| - 1];
      UsesTarget(idx, front, next, x);
      assert targets == front + [targets[|targets| - 1]];
    }
  }

  /** The sources of a place are the instructions with an edge to it. */
  lemma {:induction false} SourcesLead(nexts: seq<(nat, seq<Next>)>, next: Next, x: nat)
    ensures x in Sources(nexts, next) <==> Leads(nexts, |nexts|, x, next)
  {
    if nexts != [] {
      var front, last := nexts[..|nexts| - 1], nexts[|nexts| - 1];
      SourcesLead(front, next, x);
      UsesTarget(last.0, last.1, next, x);
      OneMoreEntry(nexts, x, next);
    }
  }

  lemma OneMoreEntry(nexts: seq<(nat, seq<Next>)>, x: nat, next: Next)
    requires nexts != []
    ensures var k := |nexts| - 1;
            Leads(nexts, k + 1, x, next) <==> Leads(nexts[..k], k, x, next) || (x == nexts[k].0 && next in nexts[k].1)
  {
    var k := |nexts| - 1;
    if Leads(nexts[..k], k, x, next) {
      var j :| 0 <= j < k && nexts[..k][j].0 == x && next in nexts[..k][j].1;
      assert nexts[j].0 == x;
    }
    if Leads(nexts, k + 1, x, next) {
      var j :| 0 <= j < k + 1 && nexts[j].0 == x && next in nexts[j].1;
      assert j < k ==> nexts[..k][j].0 == x;
    }
  }

  /** The instructions at the places of a path. */
  function Chain(cache: seq<Instr>, path: seq<nat>): (r: seq<Instr>)
    requires forall k :: 0 <= k < |path| ==> path[k] < |cache|
    ensures |r| == |path|
  {
    seq(|path|, k requires 0 <= k < |path| => cache[path[k]])
  }

  /** Each place of the path is the first of those that lead to the next one. */
  ghost predicate IsPath(path: seq<nat>, prevs: map<Next, seq<nat>>) {
    forall k :: 0 < k < |path| ==> LeadsOn(path, prevs, k)
  }

  ghost predicate LeadsOn(path: seq<nat>, prevs: map<Next, seq<nat>>, k: nat)
    requires 0 < k < |path|
  {
    First(prevs, path[k], path[k - 1])
  }

  ghost predicate First(prevs: map<Next, seq<nat>>, i: nat, x: nat) {
    ListOf(prevs, To(i)) != [] && ListOf(prevs, To(i))[0] == x
  }

  function Wanted(register: Name): Item { Node(Reg(register), Nothing, NoOp, 0) }

  ghost predicate InCache(prevs: map<Next, seq<nat>>, n: nat) {
    forall next, x: nat :: x in ListOf(prevs, next) ==> x < n
  }

  /** With the lists of reverse_nexts a path follows the edges of the function. */
  lemma PathFollowsEdges(nexts: seq<(nat, seq<Next>)>, prevs: map<Next, seq<nat>>, path: seq<nat>, k: nat)
    requires Reversed(nexts, prevs) && IsPath(path, prevs) && 0 < k < |path|
    ensures Leads(nexts, |nexts|, path[k - 1], To(path[k]))
  {
    assert LeadsOn(path, prevs, k);
    assert path[k - 1] in ListOf(prevs, To(path[k]));
    SourcesLead(nexts, To(path[k]), path[k - 1]);
  }

  /** The expression on a path stands for the register after the chain. */
  ghost predicate Follows(register: Name, cache: seq<Instr>, prevs: map<Next, seq<nat>>, path: seq<nat>, t: Item) {
    && |path| > 0 && (forall k :: 0 <= k < |path| ==> path[k] < |cache|)
    && IsPath(path, prevs)
    && var chain := Chain(cache, path[..|path| - 1]);
       Clear(Wanted(register), chain) && t == BackChain(Wanted(register), chain)
  }

  /** Why a path goes no further back: it is at the start of the function, at a place it has
      passed, out of steps, at a place nothing leads to, or without a register. */
  ghost predicate Ends(register: Name, cache: seq<Instr>, prevs: map<Next, seq<nat>>, maxSteps: nat, path: seq<nat>)
    requires |path| > 0 && forall k :: 0 <= k < |path| ==> path[k] < |cache|
  {
    || path[0] == 0 || path[0] in path[1..] || |path| > maxSteps
    || (forall x :: !First(prevs, path[0], x))
    || Names(BackChain(Wanted(register), Chain(cache, path[..|path| - 1]))) == {}
  }

  /** The path has not come to an end before its first place. */
  ghost predicate GoesOn(register: Name, cache: seq<Instr>, prevs: map<Next, seq<nat>>, maxSteps: nat, path: seq<nat>)
    requires |path| > 0 && forall k :: 0 <= k < |path| ==> path[k] < |cache|
  {
    IsPath(path, prevs) && forall k :: 0 < k < |path| ==> !Ends(register, cache, prevs, maxSteps, path[k..])
  }

  /** The path goes back as far as it can, or to an instruction outside the fragment that
      writes a register still wanted, and no further. */
  ghost predicate Taken(register: Name, cache: seq<Instr>, prevs: map<Next, seq<nat>>, maxSteps: nat, path: seq<nat>)
    requires |path| > 0 && forall k :: 0 <= k < |path| ==> path[k] < |cache|
  {
    && GoesOn(register, cache, prevs, maxSteps, path)
    && (Clear(Wanted(register), Chain(cache, path[..|path| - 1])) ==> Ends(register, cache, prevs, maxSteps, path))
  }

  lemma PathGrows(register: Name, cache: seq<Instr>, prevs: map<Next, seq<nat>>, path: seq<nat>, t: Item, x: nat)
    requires Follows(register, cache, prevs, path, t) && x < |cache|
    requires First(prevs, path[0], x)
    requires cache[x].Other? ==> cache[x].written !! Names(t)
    ensures Follows(register, cache, prevs, [x] + path, Back(t, cache[x]))
  {
    var longer := [x] + path;
    assert IsPath(longer, prevs) by {
      forall k | 0 < k < |longer| ensures LeadsOn(longer, prevs, k) {
        if k > 1 { assert LeadsOn(path, prevs, k - 1); }
      }
    }
    var chain := Chain(cache, path[..|path| - 1]);
    assert Chain(cache, longer[..|longer| - 1]) == [cache[x]] + chain;
    ChainGrows(Wanted(register), cache[x], chain);
  }

  /** An instruction more at the front of the chain is a step more at the end of the way
      back. */
  lemma {:induction false} ChainGrows(t: Item, i: Instr, chain: seq<Instr>)
    ensures BackChain(t, [i] + chain) == Back(BackChain(t, chain), i)
    ensures Clear(t, [i] + chain) <==> Clear(t, chain) && (i.Other? ==> i.written !! Names(BackChain(t, chain)))
    decreases |chain|
  {
    hide Back;
    var longer := [i] + chain;
    if chain == [] {
      assert longer[..0] == [];
      assert longer[|longer| - 1] == i && longer[..|longer| - 1] == [];
      assert BackChain(t, longer) == BackChain(Back(t, i), []);
      assert Clear(Back(t, i), []);
    } else {
      var last, front := chain[|chain| - 1], chain[..|chain| - 1];
      assert longer[..|longer| - 1] == [i] + front && longer[|longer| - 1] == last;
      ChainGrows(Back(t, last), i, front);
    }
  }

  lemma FollowsAtFirst(register: Name, cache: seq<Instr>, prevs: map<Next, seq<nat>>, instIdx: nat)
    requires instIdx < |cache|
    ensures Follows(register, cache, prevs, [instIdx], Wanted(register)) && Wanted(register).Node?
    ensures Wanted(register) == Node(Reg(register), Nothing, NoOp, 0)
  {
    assert Chain(cache, [instIdx][..0]) == [];
  }

  lemma InRange(prevs: map<Next, seq<nat>>, n: nat, next: Next, x: nat)
    requires InCache(prevs, n) && x in ListOf(prevs, next)
    ensures x < n
  {
  }

  lemma GoesOnMore(register: Name, cache: seq<Instr>, prevs: map<Next, seq<nat>>, maxSteps: nat, path: seq<nat>, x: nat)
    requires |path| > 0 && x < |cache| && forall k :: 0 <= k < |path| ==> path[k] < |cache|
    requires GoesOn(register, cache, prevs, maxSteps, path) && !Ends(register, cache, prevs, maxSteps, path)
    requires First(prevs, path[0], x)
    ensures GoesOn(register, cache, prevs, maxSteps, [x] + path)
  {
    hide Ends, First;
    var longer := [x] + path;
    forall k | 0 < k < |longer|
      ensures LeadsOn(longer, prevs, k) && !Ends(register, cache, prevs, maxSteps, longer[k..])
    {
      assert longer[k..] == path[k - 1..];
      if k > 1 { assert LeadsOn(path, prevs, k - 1); } else { assert longer[1..] == path; }
    }
  }

  /** An instruction outside the fragment that writes a register still wanted. */
  lemma NotClear(register: Name, cache: seq<Instr>, prevs: map<Next, seq<nat>>, path: seq<nat>, t: Item, x: nat)
    requires Follows(register, cache, prevs, path, t) && x < |cache|
    requires cache[x].Other? && cache[x].written * Names(t) != {}
    ensures !Clear(Wanted(register), Chain(cache, ([x] + path)[..|path|]))
  {
    var chain := Chain(cache, path[..|path| - 1]);
    assert Chain(cache, ([x] + path)[..|path|]) == [cache[x]] + chain;
    ChainGrows(Wanted(register), cache[x], chain);
  }

  lemma NoneShared(i: Instr, wanted: set<Name>)
    requires !(i.Other? && i.written * wanted != {})
    ensures i.Other? ==> i.written !! wanted
  {
    assert i.Other? ==> forall r :: r in i.written && r in wanted ==> r in i.written * wanted;
  }

  /** One turn of the loop, to the instruction before. */
  method StepBack(p: Path, x: nat, ghost register: Name, cache: seq<Instr>, ghost prevs: map<Next, seq<nat>>,
                  ghost path: seq<nat>)
    returns (ok: bool, ghost longer: seq<nat>)
    requires p.Valid() && x < |cache| && Follows(register, cache, prevs, path, p.expr.Tree())
    requires |path| > 0 && First(prevs, path[0], x) && forall k :: 0 <= k < |path| ==> path[k] < |cache|
    modifies p`instIdx, p`regPool, p.expr.Repr
    ensures longer == [x] + path && p.instIdx == x
    ensures ok ==> p.Valid() && fresh(p.expr.Repr - old(p.expr.Repr))
                   && Follows(register, cache, prevs, longer, p.expr.Tree())
    ensures !ok ==> !Clear(Wanted(register), Chain(cache, longer[..|longer| - 1]))
  {
    hide Follows, Back, First, Clear, Names;
    p.instIdx := x;
    longer := [x] + path;
    ghost var t, wanted := p.expr.Tree(), p.regPool;
    assert wanted == Names(t);
    ok := p.Emulate(cache[x]);
    if ok {
      NoneShared(cache[x], wanted);
      PathGrows(register, cache, prevs, path, t, x);
    } else {
      NotClear(register, cache, prevs, path, t, x);
    }
  }

  lemma FollowsFacts(register: Name, cache: seq<Instr>, prevs: map<Next, seq<nat>>, path: seq<nat>, t: Item)
    requires Follows(register, cache, prevs, path, t)
    ensures |path| > 0 && forall k :: 0 <= k < |path| ==> path[k] < |cache|
    ensures Clear(Wanted(register), Chain(cache, path[..|path| - 1]))
    ensures t == BackChain(Wanted(register), Chain(cache, path[..|path| - 1]))
  {
    hide Clear, BackChain;
  }

  /** The places passed are those marked, and the loop stops where the path ends. */
  ghost predicate Marked(visited: seq<bool>, path: seq<nat>)
    requires |path| > 0
  {
    forall i :: 0 <= i < |visited| ==> (visited[i] <==> i in path[1..])
  }

  lemma MarkedMore(visited: seq<bool>, path: seq<nat>, x: nat)
    requires |path| > 0 && path[0] < |visited| && Marked(visited, path)
    ensures Marked(visited[path[0] := true], [x] + path)
  {
    assert ([x] + path)[1..] == [path[0]] + path[1..];
  }

  lemma StopsAtEnd(register: Name, cache: seq<Instr>, prevs: map<Next, seq<nat>>, maxSteps: nat, path: seq<nat>,
                   t: Item, visited: seq<bool>)
    requires Follows(register, cache, prevs, path, t) && |path| > 0 && Marked(visited, path) && |visited| == |cache|
    requires forall k :: 0 <= k < |path| ==> path[k] < |cache|
    ensures Ends(register, cache, prevs, maxSteps, path)
            <==> path[0] == 0 || visited[path[0]] || |path| > maxSteps || Names(t) == {}
                 || ListOf(prevs, To(path[0])) == []
  {
    FollowsFacts(register, cache, prevs, path, t);
    var list := ListOf(prevs, To(path[0]));
    assert list != [] ==> First(prevs, path[0], list[0]);
    hide Follows, Clear, BackChain, Names;
  }

  /** resolve_register_value, in the fragment where a path does not split. path is the way
      taken, from the instruction where it ends to the branch. There is an answer unless an
      instruction outside the fragment was met or folding failed. */
  method ResolveRegisterValue(register: Name, cache: seq<Instr>, prevs: map<Next, seq<nat>>, instIdx: nat,
                              maxSteps: nat)
    returns (ok: bool, expr: Expr, ghost path: seq<nat>)
    requires instIdx < |cache| && InCache(prevs, |cache|)
    ensures |path| > 0 && path[|path| - 1] == instIdx && forall k :: 0 <= k < |path| ==> path[k] < |cache|
    ensures Taken(register, cache, prevs, maxSteps, path)
    ensures var chain := Chain(cache, path[..|path| - 1]);
            var t := BackChain(Wanted(register), chain);
            && t.Node? && (ok <==> Clear(Wanted(register), chain) && Simplified(t).Ok?)
            && (ok ==> expr.Valid() && Simplified(t) == Ok(expr.Tree()) && Follows(register, cache, prevs, path, t))
  {
    hide Follows, Expr.Tree, Simplified, Expr.Valid, InCache, Names, Ends, Marked, First, GoesOn, Clear, BackChain;
    var visited := new bool[|cache|](_ => false);
    var p := new Path(instIdx, register);
    path := [instIdx];
    expr := p.expr;
    FollowsAtFirst(register, cache, prevs, instIdx);
    StartsOut(register, cache, prevs, maxSteps, instIdx, visited[..]);
    while true
      invariant p.Valid() && fresh(p) && fresh(p.expr.Repr) && fresh(visited) && visited.Length == |cache|
                && expr == p.expr
      invariant |path| > 0 && path[|path| - 1] == instIdx && path[0] == p.instIdx < |cache|
      invariant forall k :: 0 <= k < |path| ==> path[k] < |cache|
      invariant Follows(register, cache, prevs, path, p.expr.Tree())
      invariant p.steps == |path| - 1 && Marked(visited[..], path) && GoesOn(register, cache, prevs, maxSteps, path)
      decreases |Unvisited(visited[..])|
    {
      p.steps := p.steps + 1;
      var before := ListOf(prevs, To(p.instIdx));
      StopsAtEnd(register, cache, prevs, maxSteps, path, p.expr.Tree(), visited[..]);
      if p.instIdx == 0 || visited[p.instIdx] || p.steps > maxSteps || before == [] || p.regPool == {} { break; }
      VisitOne(visited[..], p.instIdx);
      MarkedMore(visited[..], path, before[0]);
      visited[p.instIdx] := true;
      InRange(prevs, |cache|, To(p.instIdx), before[0]);
      FirstOf(prevs, p.instIdx, before);
      GoesOnMore(register, cache, prevs, maxSteps, path, before[0]);
      ok, path := StepBack(p, before[0], register, cache, prevs, path);
      if !ok {
        TakenFrom(register, cache, prevs, maxSteps, path);
        BackIsNode(Wanted(register), Chain(cache, path[..|path| - 1]));
        return false, p.expr, path;
      }
    }
    FollowsFacts(register, cache, prevs, path, p.expr.Tree());
    TakenFrom(register, cache, prevs, maxSteps, path);
    BackIsNode(Wanted(register), Chain(cache, path[..|path| - 1]));
    ok := p.expr.Simplify();
  }

  lemma {:induction false} BackIsNode(t: Item, chain: seq<Instr>)
    requires t.Node?
    ensures BackChain(t, chain).Node?
    decreases |chain|
  {
    if chain != [] { BackIsNode(Back(t, chain[|chain| - 1]), chain[..|chain| - 1]); }
  }

  lemma StartsOut(register: Name, cache: seq<Instr>, prevs: map<Next, seq<nat>>, maxSteps: nat, instIdx: nat,
                  visited: seq<bool>)
    requires instIdx < |cache| == |visited| && forall i :: 0 <= i < |visited| ==> !visited[i]
    ensures Marked(visited, [instIdx]) && GoesOn(register, cache, prevs, maxSteps, [instIdx])
  {
  }

  lemma FirstOf(prevs: map<Next, seq<nat>>, i: nat, list: seq<nat>)
    requires ListOf(prevs, To(i)) == list && list != []
    ensures First(prevs, i, list[0])
  {
  }

  lemma TakenFrom(register: Name, cache: seq<Instr>, prevs: map<Next, seq<nat>>, maxSteps: nat, path: seq<nat>)
    requires |path| > 0 && forall k :: 0 <= k < |path| ==> path[k] < |cache|
    requires GoesOn(register, cache, prevs, maxSteps, path)
    requires Clear(Wanted(register), Chain(cache, path[..|path| - 1])) ==> Ends(register, cache, prevs, maxSteps, path)
    ensures Taken(register, cache, prevs, maxSteps, path)
  {
    hide Clear, Ends, GoesOn;
  }

  ghost function Unvisited(visited: seq<bool>): set<nat> {
    set k: nat | k < |visited| && !visited[k]
  }

  lemma VisitOne(visited: seq<bool>, i: nat)
    requires i < |visited| && !visited[i]
    ensures |Unvisited(visited[i := true])| < |Unvisited(visited)|
  {
    assert Unvisited(visited[i := true]) == Unvisited(visited) - {i};
  }
}
