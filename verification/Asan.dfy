/** The memory check that RetroWrite puts before an access: which registers it takes,
    how it saves and restores state, and that the program does not notice it. */
module Asan {
  import opened Memory
  import Liveness

  // ----- the machine

  /** Registers are numbered as in the liveness analysis, where rflags is number 17. */
  const RAX := 0
  const RDI := 4
  const RSI := 5
  const RSP := 7
  const RFLAGS := 17

  const TWO32 := 0x1_0000_0000

  type Reg = r: nat | r < 16

  type Regs = r: seq<int> | |r| == 16 witness seq(16, _ => 0)

  /** The 58 bits of rflags that are not status flags, as a number. */
  type OtherBits = n: nat | n < 0x400_0000_0000_0000 witness 0

  /** The status flags, and all other bits of rflags. */
  datatype Flags = Flags(cf: bool, pf: bool, af: bool, zf: bool, sf: bool, of_: bool, others: OtherBits)

  /** One emitted line. The address expression of the access stands in LeaAddress. */
  datatype Line =
    | Push(r: Reg) | Pop(r: Reg) | Pushf | Popf
    | Mov(src: Reg, dst: Reg)
    | Lahf | SetoAl | AddAl | Sahf
    | LeaRsp(delta: int)
    | LeaAddress(dst: Reg) | MovQ(src: Reg, dst: Reg) | Shr3(r: Reg)
    | LoadShadow(r: Reg) | TestB(r: Reg) | JeExit
    | AndL7(r: Reg) | AddL(k: nat, r: Reg) | IncL(r: Reg)
    | Movsbl(r: Reg) | CmpL(tgt: Reg, clob: Reg) | JlExit
    | CmpShadow(r: Reg) | CallReport | ExitLabel

  /** What is left open: the value of the address expression for given registers, the
      flags arithmetic produces where no check depends on them, and the number that stands
      for the flags in memory. */
  datatype Env = Env(address: Regs -> int, status: (Flags, int) -> Flags, image: Flags -> int, flagsOf: int -> Flags)

  /** popf undoes pushf. */
  ghost predicate Faithful(env: Env) {
    forall f :: env.flagsOf(env.image(f)) == f && 0 <= env.image(f) < TWO64
  }

  function WithBit(w: int, bit: bool): int { 2 * w + Bit(bit) }

  /** A layout of the flags in a word: the other bits above, the status flags below. */
  function Image(f: Flags): int {
    WithBit(WithBit(WithBit(WithBit(WithBit(WithBit(f.others, f.cf), f.pf), f.af), f.zf), f.sf), f.of_)
  }

  function LowBit(w: int): bool { w % 2 == 1 }

  function FlagsOf(w: int): Flags {
    var a, b, c, d, e := w / 2, w / 2 / 2, w / 2 / 2 / 2, w / 2 / 2 / 2 / 2, w / 2 / 2 / 2 / 2 / 2;
    Flags(LowBit(e), LowBit(d), LowBit(c), LowBit(b), LowBit(a), LowBit(w),
          if 0 <= e / 2 < 0x400_0000_0000_0000 then e / 2 else 0)
  }

  lemma WithBitBack(w: int, bit: bool)
    ensures WithBit(w, bit) / 2 == w && LowBit(WithBit(w, bit)) == bit
  {
  }

  lemma ImageBack(f: Flags)
    ensures FlagsOf(Image(f)) == f && 0 <= Image(f) < TWO64
  {
    var e := WithBit(f.others, f.cf);
    var d := WithBit(e, f.pf);
    var c := WithBit(d, f.af);
    var b := WithBit(c, f.zf);
    var a := WithBit(b, f.sf);
    WithBitBack(f.others, f.cf);
    WithBitBack(e, f.pf);
    WithBitBack(d, f.af);
    WithBitBack(c, f.zf);
    WithBitBack(b, f.sf);
    WithBitBack(a, f.of_);
    ImageRange(f);
    hide WithBit, LowBit;
  }

  lemma ImageRange(f: Flags)
    ensures 0 <= Image(f) < TWO64
  {
  }

  /** Whatever address expressions and arithmetic do, pushf and popf can be faithful. */
  lemma FaithfulExists(address: Regs -> int, status: (Flags, int) -> Flags) returns (env: Env)
    ensures Faithful(env) && env.address == address && env.status == status
  {
    env := Env(address, status, Image, FlagsOf);
    forall f ensures env.flagsOf(env.image(f)) == f && 0 <= env.image(f) < TWO64 { ImageBack(f); }
  }

  /** leaving is set between a jump to the exit label and the label; probed lists the
      shadow addresses looked at. */
  datatype Machine = Machine(regs: Regs, flags: Flags, mem: int -> int, leaving: bool, reported: bool, probed: seq<int>)

  const SHADOW := 2147450880

  // ----- one line

  function Bit(b: bool): nat { if b then 1 else 0 }

  /** The byte lahf makes of the flags: SF ZF 0 AF 0 PF 1 CF. */
  function AhByte(f: Flags): (r: nat)
    ensures r < 256
  {
    128 * Bit(f.sf) + 64 * Bit(f.zf) + 16 * Bit(f.af) + 4 * Bit(f.pf) + 2 + Bit(f.cf)
  }

  /** The second byte of x replaced. */
  function Ah(x: int, b: int): int {
    x / 0x1_0000 * 0x1_0000 + 256 * b + x % 256
  }

  /** The lowest byte of x replaced. */
  function Al(x: int, b: int): int {
    x / 256 * 256 + b
  }

  /** What arithmetic with result v leaves of the flags. */
  function Status(env: Env, f: Flags, v: int): Flags {
    env.status(f, v).(others := f.others)
  }

  function Signed32(x: int): int {
    var w := x % TWO32;
    if w >= 0x8000_0000 then w - TWO32 else w
  }

  function SignExtend(b: int): int {
    if b % 256 >= 128 then TWO32 - 256 + b % 256 else b % 256
  }

  function SetReg(s: Machine, r: Reg, v: int): Machine {
    s.(regs := s.regs[r := v])
  }

  function Alu(env: Env, s: Machine, r: Reg, v: int): Machine {
    s.(regs := s.regs[r := v], flags := Status(env, s.flags, v))
  }

  function PushWord(s: Machine, v: int): Machine {
    s.(mem := Store(s.mem, s.regs[RSP] - 8, v), regs := s.regs[RSP := s.regs[RSP] - 8])
  }

  function PopWord(s: Machine, r: Reg): Machine {
    s.(regs := s.regs[RSP := s.regs[RSP] + 8][r := Load(s.mem, s.regs[RSP])])
  }

  /** sahf: five flags from the second byte of rax. */
  function FromAh(f: Flags, x: int): Flags {
    var b := x / 256 % 256;
    f.(sf := b / 128 % 2 == 1, zf := b / 64 % 2 == 1, af := b / 16 % 2 == 1, pf := b / 4 % 2 == 1, cf := b % 2 == 1)
  }

  /** add $0x7f, %al: overflow exactly when the sum of a nonnegative byte passes 0x7f. */
  function AddToAl(env: Env, s: Machine): Machine {
    var b := s.regs[RAX] % 256;
    var sum := (b + 0x7f) % 256;
    s.(regs := s.regs[RAX := Al(s.regs[RAX], sum)],
       flags := Status(env, s.flags, sum).(of_ := b < 128 && sum >= 128))
  }

  function ShadowByte(s: Machine, r: Reg): int {
    s.mem(s.regs[r] + SHADOW) % 256
  }

  /** One line of code, when it is not skipped. */
  function Step(env: Env, line: Line, s: Machine): Machine {
    match line
    case Push(r) => PushWord(s, s.regs[r])
    case Pop(r) => PopWord(s, r)
    case Pushf => PushWord(s, env.image(s.flags))
    case Popf => s.(flags := env.flagsOf(Load(s.mem, s.regs[RSP])), regs := s.regs[RSP := s.regs[RSP] + 8])
    case Mov(src, dst) => SetReg(s, dst, s.regs[src])
    case MovQ(src, dst) => SetReg(s, dst, s.regs[src])
    case Lahf => SetReg(s, RAX, Ah(s.regs[RAX], AhByte(s.flags)))
    case SetoAl => SetReg(s, RAX, Al(s.regs[RAX], Bit(s.flags.of_)))
    case AddAl => AddToAl(env, s)
    case Sahf => s.(flags := FromAh(s.flags, s.regs[RAX]))
    case LeaRsp(delta) => SetReg(s, RSP, s.regs[RSP] + delta)
    case LeaAddress(dst) => SetReg(s, dst, env.address(s.regs))
    case Shr3(r) => Alu(env, s, r, s.regs[r] / 8)
    case LoadShadow(r) => SetReg(s, r, Al(s.regs[r], ShadowByte(s, r))).(probed := s.probed + [s.regs[r] + SHADOW])
    case TestB(r) => s.(flags := Status(env, s.flags, s.regs[r]).(zf := s.regs[r] % 256 == 0))
    case JeExit => s.(leaving := s.flags.zf)
    case AndL7(r) => Alu(env, s, r, s.regs[r] % 8)
    case AddL(k, r) => Alu(env, s, r, (s.regs[r] + k) % TWO32)
    case IncL(r) => Alu(env, s, r, (s.regs[r] + 1) % TWO32)
    case Movsbl(r) => SetReg(s, r, SignExtend(s.regs[r]))
    case CmpL(tgt, clob) =>
      var st := Status(env, s.flags, s.regs[clob]);
      s.(flags := st.(zf := s.regs[clob] % TWO32 == s.regs[tgt] % TWO32,
                      sf := st.of_ != (Signed32(s.regs[clob]) < Signed32(s.regs[tgt]))))
    case JlExit => s.(leaving := s.flags.sf != s.flags.of_)
    case CmpShadow(r) =>
      s.(flags := Status(env, s.flags, ShadowByte(s, r)).(zf := ShadowByte(s, r) == 0),
         probed := s.probed + [s.regs[r] + SHADOW])
    case CallReport => s.(reported := true)
    case ExitLabel => s
  }

  /** After a jump to the exit, lines are skipped up to the label. */
  function Exec(env: Env, line: Line, s: Machine): Machine {
    if s.reported then s
    else if !s.leaving then Step(env, line, s)
    else if line.ExitLabel? then s.(leaving := false)
    else s
  }

  function Run(env: Env, code: seq<Line>, s: Machine): Machine {
    if code == [] then s else Run(env, code[1..], Exec(env, code[0], s))
  }

  lemma {:induction false} RunJoin(env: Env, a: seq<Line>, b: seq<Line>, s: Machine)
    ensures Run(env, a + b, s) == Run(env, b, Run(env, a, s))
    decreases |a|
  {
    hide Exec;
    if a == [] {
      assert a + b == b;
    } else {
      assert (a + b)[1..] == a[1..] + b;
      RunJoin(env, a[1..], b, Exec(env, a[0], s));
    }
  }

  /** Two and four lines at a time. */
  lemma RunTwo(env: Env, a: Line, b: Line, s: Machine)
    ensures Run(env, [a], s) == Exec(env, a, s)
    ensures Run(env, [a, b], s) == Exec(env, b, Exec(env, a, s))
  {
    hide Exec;
    assert [a, b][1..] == [b] && [b][1..] == [];
    assert Run(env, [b], Exec(env, a, s)) == Exec(env, b, Exec(env, a, s));
  }

  lemma RunFour(env: Env, a: Line, b: Line, c: Line, d: Line, s: Machine)
    ensures Run(env, [a, b, c], s) == Exec(env, c, Exec(env, b, Exec(env, a, s)))
    ensures Run(env, [a, b, c, d], s) == Exec(env, d, Exec(env, c, Exec(env, b, Exec(env, a, s))))
  {
    hide Exec;
    RunTwo(env, a, b, s);
    RunTwo(env, c, d, Exec(env, b, Exec(env, a, s)));
    RunJoin(env, [a, b], [c], s);
    RunJoin(env, [a, b], [c, d], s);
    assert [a, b] + [c] == [a, b, c] && [a, b] + [c, d] == [a, b, c, d];
  }

  // ----- the choice of registers

  /** rdi, rsi, rcx, rdx, rbx, r8 to r15, rax, rbp */
  function Affinity(): (r: seq<Reg>)
    ensures |r| == 15
  {
    [4, 5, 2, 3, 1, 8, 9, 10, 11, 12, 13, 14, 15, 0, 6]
  }

  lemma {:induction false} AffinityFacts(i: nat, j: nat)
    requires i < j < 15
    ensures Affinity()[i] != Affinity()[j] && Affinity()[i] != RSP && Affinity()[j] != RSP
  {
  }

  /** The free registers in the order of preference. */
  function Usable(free: set<nat>, i: nat): (r: seq<Reg>)
    requires i <= 15
    decreases 15 - i
  {
    if i == 15 then []
    else if Affinity()[i] in free then [Affinity()[i]] + Usable(free, i + 1)
    else Usable(free, i + 1)
  }

  /** The first of them is at some place, the second at a later one. */
  lemma {:induction false} UsableAt(free: set<nat>, i: nat) returns (j: nat, k: nat)
    requires i <= 15
    ensures |Usable(free, i)| > 0 ==> i <= j < 15 && Usable(free, i)[0] == Affinity()[j] && Affinity()[j] in free
    ensures |Usable(free, i)| > 1 ==> j < k < 15 && Usable(free, i)[1] == Affinity()[k] && Affinity()[k] in free
    decreases 15 - i
  {
    hide Affinity;
    j, k := i, i;
    if i < 15 {
      var j', k' := UsableAt(free, i + 1);
      if Affinity()[i] in free { k := j'; } else { j, k := j', k'; }
    }
  }

  lemma UsableFacts(free: set<nat>)
    ensures var u := Usable(free, 0);
            && (|u| > 0 ==> u[0] != RSP && u[0] in free)
            && (|u| > 1 ==> u[1] != RSP && u[1] in free && u[0] != u[1])
  {
    var j, k := UsableAt(free, 0);
    hide Usable;
    if |Usable(free, 0)| > 1 { AffinityFacts(j, k); }
    else if |Usable(free, 0)| > 0 { AffinityFacts(if j > 0 then 0 else j, if j > 0 then j else 1); }
  }

  datatype FlagSave = NoFlags | Unopt | Opt(saveRax: bool)

  datatype Plan = Plan(r1: Reg, save1: bool, r2: Reg, save2: bool, flags: FlagSave, adjust: bool)

  /** The first part of get_mem_instrumentation. */
  method ChooseRegisters(free: set<nat>, isLeaf: bool) returns (p: Plan)
    ensures p == PlanFor(free, isLeaf)
  {
    var usable := Usable(free, 0);
    UsableFacts(free);
    hide Usable;
    var saveFlags := if RFLAGS in free then NoFlags else Unopt;
    var r1, save1, r2, save2 := RDI, true, RSI, true;
    if |usable| > 0 {
      r2, save2 := usable[0], false;
      if |usable| > 1 { r1, save1 := usable[1], false; }
      if r2 == r1 { r1, save1 := RSI, true; }
      if saveFlags.Unopt? { saveFlags := Opt(RAX !in free); }
    }
    p := Plan(r1, save1, r2, save2, saveFlags, isLeaf && (save1 || save2 || !saveFlags.NoFlags?));
  }

  function PlanFor(free: set<nat>, isLeaf: bool): Plan {
    var usable := Usable(free, 0);
    var r2, save2 := if usable == [] then RSI else usable[0], usable == [];
    var r1, save1 := if |usable| > 1 then usable[1] else if r2 == RDI then RSI else RDI, |usable| <= 1;
    var flags := if RFLAGS in free then NoFlags else if usable == [] then Unopt else Opt(RAX !in free);
    Plan(r1, save1, r2, save2, flags, isLeaf && (save1 || save2 || !flags.NoFlags?))
  }

  /** Place j of the preferences is the first free one from place i on. */
  predicate FirstFree(free: set<nat>, i: nat, j: nat) {
    i <= j < 15 && Affinity()[j] in free && forall m :: i <= m < j ==> Affinity()[m] !in free
  }

  predicate NoneFree(free: set<nat>, i: nat) {
    forall m :: i <= m < 15 ==> Affinity()[m] !in free
  }

  lemma {:induction false} UsableFirst(free: set<nat>, i: nat, j: nat)
    requires FirstFree(free, i, j)
    ensures Usable(free, i) == [Affinity()[j]] + Usable(free, j + 1)
    decreases j - i
  {
    hide Affinity;
    if i < j { UsableFirst(free, i + 1, j); }
  }

  lemma {:induction false} UsableNone(free: set<nat>, i: nat)
    requires i <= 15 && NoneFree(free, i)
    ensures Usable(free, i) == []
    decreases 15 - i
  {
    hide Affinity;
    if i < 15 { UsableNone(free, i + 1); }
  }

  /** The plan by the order of preference: the first two free registers are taken and nothing
      is saved; with one, the other scratch register is rdi, or rsi if that one is rdi; with
      none, rdi and rsi are. What is not free is saved, and no more. */
  lemma PlanByPreference(free: set<nat>, isLeaf: bool, j: nat, k: nat)
    ensures Affinity() == [RDI, RSI, 2, 3, 1, 8, 9, 10, 11, 12, 13, 14, 15, RAX, 6]
    ensures var p := PlanFor(free, isLeaf);
            && (FirstFree(free, 0, j) && FirstFree(free, j + 1, k) ==>
                  p.r2 == Affinity()[j] && p.r1 == Affinity()[k] && !p.save2 && !p.save1)
            && (FirstFree(free, 0, j) && NoneFree(free, j + 1) ==>
                  p.r2 == Affinity()[j] && !p.save2 && p.save1 && p.r1 == if p.r2 == RDI then RSI else RDI)
            && (NoneFree(free, 0) ==> p.r2 == RSI && p.save2 && p.r1 == RDI && p.save1)
            && p.flags == (if RFLAGS in free then NoFlags else if NoneFree(free, 0) then Unopt else Opt(RAX !in free))
            && (p.adjust <==> isLeaf && (p.save1 || p.save2 || RFLAGS !in free))
  {
    if FirstFree(free, 0, j) {
      UsableFirst(free, 0, j);
      if FirstFree(free, j + 1, k) { UsableFirst(free, j + 1, k); }
      if NoneFree(free, j + 1) { UsableNone(free, j + 1); }
    }
    if NoneFree(free, 0) { UsableNone(free, 0); } else { SomeUsable(free); }
    hide Usable;
  }

  lemma SomeUsable(free: set<nat>)
    ensures !NoneFree(free, 0) ==> Usable(free, 0) != []
  {
    if Usable(free, 0) == [] { forall m: nat | m < 15 ensures Affinity()[m] !in free { NotUsable(free, 0, m); } }
  }

  lemma {:induction false} NotUsable(free: set<nat>, i: nat, m: nat)
    requires i <= m < 15 && Usable(free, i) == []
    ensures Affinity()[m] !in free
    decreases m - i
  {
    hide Affinity;
    if i < m { NotUsable(free, i + 1, m); }
  }

  /** What makes a choice of registers safe. */
  ghost predicate Safe(p: Plan, free: set<nat>) {
    && p.r1 != p.r2 && p.r1 != RSP && p.r2 != RSP
    && (p.save1 || p.r1 in free) && (p.save2 || p.r2 in free)
    && (p.flags.NoFlags? ==> RFLAGS in free)
    && (p.flags.Opt? ==> !p.save2)
    && (p.flags.Opt? && p.flags.saveRax ==> p.r1 != RAX && p.r2 != RAX)
    && (p.flags.Opt? && !p.flags.saveRax ==> RAX in free && !(p.save1 && p.r1 == RAX))
  }

  lemma PlanSafe(free: set<nat>, isLeaf: bool)
    ensures Safe(PlanFor(free, isLeaf), free)
  {
    UsableFacts(free);
    hide Usable;
  }

  // ----- the emitted code

  function If(c: bool, l: seq<Line>): seq<Line> { if c then l else [] }

  /** The words pushed below the address rsp has at the check. */
  function PushCount(p: Plan): nat {
    (if p.adjust then 32 else 0) + Bit(p.save1) + Bit(p.save2) + Bit(!p.flags.NoFlags?)
  }

  function SaveFlagLines(p: Plan): seq<Line> {
    match p.flags
    case NoFlags => []
    case Unopt => [Pushf]
    case Opt(saveRax) =>
      if saveRax then [Mov(RAX, p.r2)] + [Lahf, SetoAl, Push(RAX)] + [Mov(p.r2, RAX)] else [Lahf, SetoAl, Push(RAX)]
  }

  function RestoreFlagLines(p: Plan): seq<Line> {
    match p.flags
    case NoFlags => []
    case Unopt => [Popf]
    case Opt(saveRax) =>
      if saveRax then [Mov(RAX, p.r2)] + [Pop(RAX), AddAl, Sahf] + [Mov(p.r2, RAX)] else [Pop(RAX), AddAl, Sahf]
  }

  function SaveLines(p: Plan): seq<Line> {
    If(p.adjust, [LeaRsp(-256)]) + (If(p.save1, [Push(p.r1)]) + (If(p.save2, [Push(p.r2)])
    + (SaveFlagLines(p) + If(PushCount(p) > 0, [LeaRsp(8 * PushCount(p))]))))
  }

  function RestoreLines(p: Plan): seq<Line> {
    If(PushCount(p) > 0, [LeaRsp(-8 * PushCount(p))]) + (RestoreFlagLines(p) + (If(p.save2, [Pop(p.r2)])
    + (If(p.save1, [Pop(p.r1)]) + If(p.adjust, [LeaRsp(256)]))))
  }

  /** MEM_LOAD_COMMON and MEM_LOAD_SZ. */
  function LoadCommon(clob1: Reg, tgt: Reg): (r: seq<Line>)
    ensures |r| == 6
  {
    [LeaAddress(clob1), MovQ(clob1, tgt), Shr3(tgt), LoadShadow(tgt), TestB(tgt), JeExit]
  }

  function LoadSize(clob1: Reg, tgt: Reg, acsz: nat): (r: seq<Line>)
    requires acsz >= 1
    ensures |r| == 6
  {
    [AndL7(clob1), AddL(acsz - 1, clob1), Movsbl(tgt), CmpL(tgt, clob1), JlExit, CallReport]
  }

  /** _access1, _access2, _access4 and _access8: edits of the two templates. */
  function Access(clob1: Reg, tgt: Reg, acsz: nat): seq<Line>
    requires acsz == 1 || acsz == 2 || acsz == 4 || acsz == 8
  {
    var common, ac1 := LoadCommon(clob1, tgt), LoadSize(clob1, tgt, acsz);
    if acsz == 1 then common + (ac1[..1] + ac1[2..])
    else if acsz == 2 then common + ac1[1 := IncL(clob1)]
    else if acsz == 4 then common + ac1
    else common[3 := CmpShadow(tgt)][4 := common[5]][5 := ac1[5]]
  }

  function Emitted(p: Plan, acsz: nat): seq<Line>
    requires acsz == 1 || acsz == 2 || acsz == 4 || acsz == 8
  {
    SaveLines(p) + (Access(p.r1, p.r2, acsz) + [ExitLabel]) + RestoreLines(p)
  }

  /** One pair of lines: appended to the saving code, put in front of the restoring code. */
  method Bracket(needed: bool, opening: Line, closing: Line, save0: seq<Line>, restore0: seq<Line>, pushCnt0: nat,
                 n: nat)
    returns (save: seq<Line>, restore: seq<Line>, pushCnt: nat)
    ensures save == save0 + If(needed, [opening]) && restore == If(needed, [closing]) + restore0
    ensures pushCnt == pushCnt0 + if needed then n else 0
  {
    save, restore, pushCnt := save0, restore0, pushCnt0;
    if needed {
      save := save + [opening];
      restore := [closing] + restore;
      pushCnt := pushCnt + n;
    }
  }

  lemma JoinLines(a: seq<Line>, b: seq<Line>, c: seq<Line>, d: seq<Line>)
    ensures a + b + c + d == a + (b + c + d) && a + (b + (c + d)) == (a + b + c) + d
  {
  }

  /** The lines that save and restore the flags, through rax if they have to. */
  method BracketFlags(p: Plan, save0: seq<Line>, restore0: seq<Line>, pushCnt0: nat)
    returns (save: seq<Line>, restore: seq<Line>, pushCnt: nat)
    ensures save == save0 + SaveFlagLines(p) && restore == RestoreFlagLines(p) + restore0
    ensures pushCnt == pushCnt0 + Bit(!p.flags.NoFlags?)
  {
    save, restore, pushCnt := save0, restore0, pushCnt0;
    match p.flags {
      case NoFlags =>
      case Unopt =>
        save := save + [Pushf];
        restore := [Popf] + restore;
        pushCnt := pushCnt + 1;
      case Opt(saveRax) =>
        pushCnt := pushCnt + 1;
        if saveRax {
          save := save + [Mov(RAX, p.r2)];
          save := save + [Lahf, SetoAl, Push(RAX)];
          save := save + [Mov(p.r2, RAX)];
          restore := [Mov(p.r2, RAX)] + restore;
          restore := [Pop(RAX), AddAl, Sahf] + restore;
          restore := [Mov(RAX, p.r2)] + restore;
          JoinLines(save0, [Mov(RAX, p.r2)], [Lahf, SetoAl, Push(RAX)], [Mov(p.r2, RAX)]);
          JoinLines([Mov(RAX, p.r2)], [Pop(RAX), AddAl, Sahf], [Mov(p.r2, RAX)], restore0);
        } else {
          save := save + [Lahf, SetoAl, Push(RAX)];
          restore := [Pop(RAX), AddAl, Sahf] + restore;
        }
    }
  }

  /** get_mem_instrumentation: builds the save and restore lists and puts the check
      between them. */
  method GetMemInstrumentation(acsz: nat, free: set<nat>, isLeaf: bool) returns (codecache: seq<Line>)
    requires acsz == 1 || acsz == 2 || acsz == 4 || acsz == 8
    ensures codecache == Emitted(PlanFor(free, isLeaf), acsz)
  {
    var p := ChooseRegisters(free, isLeaf);
    hide PlanFor, Access, If, SaveFlagLines, RestoreFlagLines;
    var save, restore, pushCnt := Bracket(p.adjust, LeaRsp(-256), LeaRsp(256), [], [], 0, 32);
    save, restore, pushCnt := Bracket(p.save1, Push(p.r1), Pop(p.r1), save, restore, pushCnt, 1);
    save, restore, pushCnt := Bracket(p.save2, Push(p.r2), Pop(p.r2), save, restore, pushCnt, 1);
    save, restore, pushCnt := BracketFlags(p, save, restore, pushCnt);
    PushCountIs(p);
    assert pushCnt == PushCount(p);
    var none;
    var size: int := 8 * pushCnt;
    save, restore, none := Bracket(pushCnt > 0, LeaRsp(size), LeaRsp(-size), save, restore, 0, 0);
    SameSave(p, save);
    SameRestore(p, restore);
    codecache := save + (Access(p.r1, p.r2, acsz) + [ExitLabel]) + restore;
  }

  lemma PushCountIs(p: Plan)
    ensures PushCount(p) == (if p.adjust then 32 else 0) + (if p.save1 then 1 else 0) + (if p.save2 then 1 else 0)
                            + Bit(!p.flags.NoFlags?)
  {
  }

  lemma SameSave(p: Plan, save: seq<Line>)
    requires save == [] + If(p.adjust, [LeaRsp(-256)]) + If(p.save1, [Push(p.r1)]) + If(p.save2, [Push(p.r2)])
                     + SaveFlagLines(p) + If(PushCount(p) > 0, [LeaRsp(8 * PushCount(p))])
    ensures save == SaveLines(p)
  {
    hide If, SaveFlagLines, PushCount;
  }

  lemma SameRestore(p: Plan, restore: seq<Line>)
    requires restore == If(PushCount(p) > 0, [LeaRsp(-8 * PushCount(p))]) + (RestoreFlagLines(p)
             + (If(p.save2, [Pop(p.r2)]) + (If(p.save1, [Pop(p.r1)]) + (If(p.adjust, [LeaRsp(256)]) + []))))
    ensures restore == RestoreLines(p)
  {
    hide If, RestoreFlagLines, PushCount;
    assert If(p.adjust, [LeaRsp(256)]) + [] == If(p.adjust, [LeaRsp(256)]);
  }

  // ----- saving

  /** lahf and seto put all six flags into rax. */
  function FlagsInRax(x: int, f: Flags): int {
    Al(Ah(x, AhByte(f)), Bit(f.of_))
  }

  lemma FlagsInRaxRange(x: int, f: Flags)
    requires 0 <= x < TWO64
    ensures 0 <= FlagsInRax(x, f) < TWO64
    ensures FlagsInRax(x, f) % 256 == Bit(f.of_) && FlagsInRax(x, f) / 256 % 256 == AhByte(f)
  {
    var b := AhByte(f);
    hide AhByte;
    var y := x / 0x1_0000;
    var z := Ah(x, b);
    assert z == 256 * (256 * y + b) + x % 256;
    assert z / 256 == 256 * y + b;
    assert Al(z, Bit(f.of_)) == 256 * (256 * y + b) + Bit(f.of_);
  }

  /** The word pushed for the flags. */
  function FlagWord(env: Env, p: Plan, s: Machine): int {
    match p.flags
    case NoFlags => 0
    case Unopt => env.image(s.flags)
    case Opt(_) => FlagsInRax(s.regs[RAX], s.flags)
  }

  /** The registers at the check: apart from the stack pointer, saving the flags through
      rax changes one free register. */
  function RegsAtCheck(p: Plan, s: Machine): Regs {
    match p.flags
    case NoFlags => s.regs
    case Unopt => s.regs
    case Opt(saveRax) =>
      if saveRax then s.regs[p.r2 := s.regs[RAX]] else s.regs[RAX := FlagsInRax(s.regs[RAX], s.flags)]
  }

  /** lahf, seto and push. */
  lemma FlagsPushed(env: Env, s: Machine)
    requires !s.leaving && !s.reported
    ensures var v := FlagsInRax(s.regs[RAX], s.flags);
            Run(env, [Lahf, SetoAl, Push(RAX)], s) == PushWord(SetReg(s, RAX, v), v)
  {
    hide Store, Ah, Al, AhByte;
    RunFour(env, Lahf, SetoAl, Push(RAX), Push(RAX), s);
    assert s.regs[RAX := Ah(s.regs[RAX], AhByte(s.flags))][RAX := FlagsInRax(s.regs[RAX], s.flags)]
        == s.regs[RAX := FlagsInRax(s.regs[RAX], s.flags)];
  }

  lemma MovExec(env: Env, src: Reg, dst: Reg, s: Machine)
    requires !s.leaving && !s.reported
    ensures Run(env, [Mov(src, dst)], s) == SetReg(s, dst, s.regs[src])
  {
    RunTwo(env, Mov(src, dst), Pushf, s);
  }

  lemma RaxBack(regs: Regs, r2: Reg, v: int, sp: int)
    requires r2 != RAX && r2 != RSP
    ensures regs[r2 := regs[RAX]][RAX := v][RSP := sp][RAX := regs[RAX]] == regs[r2 := regs[RAX]][RSP := sp]
  {
  }

  /** The flags kept through a copy of rax in r2. */
  lemma FlagsPushedAround(env: Env, p: Plan, s: Machine)
    requires !s.leaving && !s.reported && p.flags == Opt(true) && p.r2 != RAX && p.r2 != RSP
    ensures Run(env, SaveFlagLines(p), s)
            == s.(regs := RegsAtCheck(p, s)[RSP := s.regs[RSP] - 8],
                  mem := Store(s.mem, s.regs[RSP] - 8, FlagWord(env, p, s)))
  {
    hide Store, FlagsInRax, Run;
    var v := FlagsInRax(s.regs[RAX], s.flags);
    var start := SetReg(s, p.r2, s.regs[RAX]);
    var mid := PushWord(SetReg(start, RAX, v), v);
    MovExec(env, RAX, p.r2, s);
    FlagsPushed(env, start);
    MovExec(env, p.r2, RAX, mid);
    RunJoin(env, [Mov(RAX, p.r2)], [Lahf, SetoAl, Push(RAX)], s);
    RunJoin(env, [Mov(RAX, p.r2)] + [Lahf, SetoAl, Push(RAX)], [Mov(p.r2, RAX)], s);
    RaxBack(s.regs, p.r2, v, s.regs[RSP] - 8);
  }

  lemma FlagsSaved(env: Env, p: Plan, s: Machine)
    requires !s.leaving && !s.reported
    requires p.flags.Opt? && p.flags.saveRax ==> p.r2 != RAX && p.r2 != RSP
    ensures Run(env, SaveFlagLines(p), s)
            == if p.flags.NoFlags? then s
               else s.(regs := RegsAtCheck(p, s)[RSP := s.regs[RSP] - 8],
                       mem := Store(s.mem, s.regs[RSP] - 8, FlagWord(env, p, s)))
  {
    hide Store, FlagsInRax;
    if p.flags.Unopt? {
      RunTwo(env, Pushf, Pushf, s);
    } else if p.flags == Opt(true) {
      FlagsPushedAround(env, p, s);
    } else if p.flags == Opt(false) {
      FlagsPushed(env, s);
    }
  }

  lemma RunIf(env: Env, c: bool, x: Line, s: Machine)
    ensures Run(env, If(c, [x]), s) == if c then Exec(env, x, s) else s
  {
    hide Exec;
    RunTwo(env, x, x, s);
  }

  // ----- the stack at the check

  function Base(p: Plan, s: Machine): int { s.regs[RSP] - (if p.adjust then 256 else 0) }

  function Below1(p: Plan, s: Machine): int { Base(p, s) - 8 * Bit(p.save1) }

  function Below2(p: Plan, s: Machine): int { Below1(p, s) - 8 * Bit(p.save2) }

  function Below3(p: Plan, s: Machine): int { Below2(p, s) - 8 * Bit(!p.flags.NoFlags?) }

  function Mem1(p: Plan, s: Machine): int -> int {
    if p.save1 then Store(s.mem, Below1(p, s), s.regs[p.r1]) else s.mem
  }

  function Mem2(p: Plan, s: Machine): int -> int {
    if p.save2 then Store(Mem1(p, s), Below2(p, s), s.regs[p.r2]) else Mem1(p, s)
  }

  /** The memory at the check: up to three words below the stack pointer, and below the
      red zone of a leaf function. */
  function MemAtCheck(env: Env, p: Plan, s: Machine): int -> int {
    if p.flags.NoFlags? then Mem2(p, s) else Store(Mem2(p, s), Below3(p, s), FlagWord(env, p, s))
  }

  /** The machine while saving: the stack pointer and the memory have changed. */
  function With(s: Machine, sp: int, m: int -> int): Machine {
    s.(regs := s.regs[RSP := sp], mem := m)
  }

  lemma Saving1(env: Env, p: Plan, s: Machine)
    requires !s.leaving && !s.reported
    ensures Run(env, If(p.adjust, [LeaRsp(-256)]), s) == With(s, Base(p, s), s.mem)
  {
    hide If, Run;
    RunIf(env, p.adjust, LeaRsp(-256), s);
    assert s.regs[RSP := s.regs[RSP]] == s.regs;
  }

  lemma Saving2(env: Env, p: Plan, s: Machine)
    requires !s.leaving && !s.reported && p.r1 != RSP
    ensures Run(env, If(p.save1, [Push(p.r1)]), With(s, Base(p, s), s.mem)) == With(s, Below1(p, s), Mem1(p, s))
  {
    hide If, Run, Store;
    RunIf(env, p.save1, Push(p.r1), With(s, Base(p, s), s.mem));
  }

  lemma Saving3(env: Env, p: Plan, s: Machine)
    requires !s.leaving && !s.reported && p.r2 != RSP
    ensures Run(env, If(p.save2, [Push(p.r2)]), With(s, Below1(p, s), Mem1(p, s))) == With(s, Below2(p, s), Mem2(p, s))
  {
    hide If, Run, Store, Mem1;
    RunIf(env, p.save2, Push(p.r2), With(s, Below1(p, s), Mem1(p, s)));
  }

  function BeforeLea(env: Env, p: Plan, s: Machine): Machine {
    s.(regs := RegsAtCheck(p, s)[RSP := Below3(p, s)], mem := MemAtCheck(env, p, s))
  }

  lemma Saving4(env: Env, p: Plan, free: set<nat>, s: Machine)
    requires !s.leaving && !s.reported && Safe(p, free)
    ensures Run(env, SaveFlagLines(p), With(s, Below2(p, s), Mem2(p, s))) == BeforeLea(env, p, s)
  {
    hide SaveFlagLines, Run, Store, Mem2, Below2, FlagsInRax;
    var s3 := With(s, Below2(p, s), Mem2(p, s));
    FlagsSaved(env, p, s3);
    assert !p.flags.NoFlags? ==> RegsAtCheck(p, s3)[RSP := Below3(p, s)] == RegsAtCheck(p, s)[RSP := Below3(p, s)];
  }

  lemma Saving5(env: Env, p: Plan, free: set<nat>, s: Machine)
    requires !s.leaving && !s.reported && Safe(p, free)
    ensures Run(env, If(PushCount(p) > 0, [LeaRsp(8 * PushCount(p))]), BeforeLea(env, p, s))
            == s.(regs := RegsAtCheck(p, s), mem := MemAtCheck(env, p, s))
  {
    hide If, Run, MemAtCheck, FlagsInRax;
    RunIf(env, PushCount(p) > 0, LeaRsp(8 * PushCount(p)), BeforeLea(env, p, s));
    assert RegsAtCheck(p, s)[RSP := Below3(p, s)][RSP := s.regs[RSP]] == RegsAtCheck(p, s);
    assert RegsAtCheck(p, s)[RSP := s.regs[RSP]] == RegsAtCheck(p, s);
  }

  /** The saving code brings the machine to the check with rsp as it was. */
  lemma SaveEffect(env: Env, p: Plan, free: set<nat>, s: Machine)
    requires !s.leaving && !s.reported && Safe(p, free)
    ensures Run(env, SaveLines(p), s) == s.(regs := RegsAtCheck(p, s), mem := MemAtCheck(env, p, s))
  {
    assert p.r1 != RSP && p.r2 != RSP;
    assert SaveLines(p) == If(p.adjust, [LeaRsp(-256)]) + (If(p.save1, [Push(p.r1)]) + (If(p.save2, [Push(p.r2)])
      + (SaveFlagLines(p) + If(PushCount(p) > 0, [LeaRsp(8 * PushCount(p))]))))
      by { hide If, SaveFlagLines, PushCount; }
    hide *;
    var a, b, c := If(p.adjust, [LeaRsp(-256)]), If(p.save1, [Push(p.r1)]), If(p.save2, [Push(p.r2)]);
    var d, e := SaveFlagLines(p), If(PushCount(p) > 0, [LeaRsp(8 * PushCount(p))]);
    RunJoin(env, a, b + (c + (d + e)), s);
    Saving1(env, p, s);
    RunJoin(env, b, c + (d + e), With(s, Base(p, s), s.mem));
    Saving2(env, p, s);
    RunJoin(env, c, d + e, With(s, Below1(p, s), Mem1(p, s)));
    Saving3(env, p, s);
    RunJoin(env, d, e, With(s, Below2(p, s), Mem2(p, s)));
    Saving4(env, p, free, s);
    Saving5(env, p, free, s);
  }

  // ----- the check

  /** A line of a check that works in r1 and r2: no other register, no memory and no bit of
      rflags outside the status flags changes. */
  predicate Quiet(line: Line, r1: Reg, r2: Reg) {
    match line
    case LeaAddress(d) => d == r1 || d == r2
    case MovQ(_, d) => d == r1 || d == r2
    case Shr3(d) => d == r1 || d == r2
    case LoadShadow(d) => d == r1 || d == r2
    case AndL7(d) => d == r1 || d == r2
    case AddL(_, d) => d == r1 || d == r2
    case IncL(d) => d == r1 || d == r2
    case Movsbl(d) => d == r1 || d == r2
    case TestB(_) => true
    case JeExit => true
    case CmpL(_, _) => true
    case JlExit => true
    case CmpShadow(_) => true
    case CallReport => true
    case ExitLabel => true
    case _ => false
  }

  ghost predicate SameOutside(a: Machine, b: Machine, r1: Reg, r2: Reg) {
    && a.mem == b.mem && a.flags.others == b.flags.others
    && forall k :: 0 <= k < 16 && k != r1 && k != r2 ==> a.regs[k] == b.regs[k]
  }

  lemma QuietExec(env: Env, line: Line, s: Machine, r1: Reg, r2: Reg)
    requires Quiet(line, r1, r2)
    ensures SameOutside(s, Exec(env, line, s), r1, r2)
  {
    hide Al, ShadowByte, SignExtend, Signed32;
  }

  lemma {:induction false} QuietRun(env: Env, code: seq<Line>, s: Machine, r1: Reg, r2: Reg)
    requires forall i :: 0 <= i < |code| ==> Quiet(code[i], r1, r2)
    ensures SameOutside(s, Run(env, code, s), r1, r2)
  {
    if code != [] {
      QuietExec(env, code[0], s, r1, r2);
      hide Exec, Quiet;
      QuietRun(env, code[1..], Exec(env, code[0], s), r1, r2);
    }
  }

  lemma AccessQuiet(r1: Reg, r2: Reg, acsz: nat)
    requires acsz == 1 || acsz == 2 || acsz == 4 || acsz == 8
    ensures forall i :: 0 <= i < |Access(r1, r2, acsz)| ==> Quiet(Access(r1, r2, acsz)[i], r1, r2)
    ensures forall i :: 0 <= i < |Access(r1, r2, acsz)| ==> !Access(r1, r2, acsz)[i].ExitLabel?
  {
  }

  lemma {:induction false} Skipped(env: Env, code: seq<Line>, s: Machine)
    requires s.leaving || s.reported
    requires forall i :: 0 <= i < |code| ==> !code[i].ExitLabel?
    ensures Run(env, code, s) == s
  {
    if code != [] { Skipped(env, code[1..], s); }
  }

  /** The shadow byte of an address. */
  function ShadowOf(m: int -> int, a: int): int { m(a / 8 + SHADOW) % 256 }

  /** A byte as a signed number. */
  function Signed8(b: int): int { if b >= 128 then b - 256 else b }

  /** What the check reports: for eight bytes any poison at all, for fewer a last byte at
      or behind the first poisoned one. */
  predicate Poisoned(shadow: int, a: int, acsz: nat) {
    shadow != 0 && (acsz == 8 || a % 8 + acsz - 1 >= Signed8(shadow))
  }

  /** The first three lines put the address into clob1 and an eighth of it into tgt. */
  lemma Addressed(env: Env, s: Machine, r1: Reg, r2: Reg) returns (t: Machine)
    requires !s.leaving && !s.reported && r1 != r2
    ensures t == Run(env, [LeaAddress(r1), MovQ(r1, r2), Shr3(r2)], s)
    ensures t.regs[r1] == env.address(s.regs) && t.regs[r2] == env.address(s.regs) / 8
    ensures t.mem == s.mem && t.probed == s.probed && !t.leaving && !t.reported
  {
    RunFour(env, LeaAddress(r1), MovQ(r1, r2), Shr3(r2), Shr3(r2), s);
    t := Run(env, [LeaAddress(r1), MovQ(r1, r2), Shr3(r2)], s);
    hide Run;
  }

  lemma LowByte(x: int, b: int)
    requires 0 <= b < 256
    ensures Al(x, b) % 256 == b
  {
  }

  /** The common part: the shadow byte stands in tgt, and a zero byte ends the check. */
  lemma CommonLoads(env: Env, s: Machine, r1: Reg, r2: Reg)
    requires !s.leaving && !s.reported && r1 != r2
    ensures var t, a := Run(env, LoadCommon(r1, r2), s), env.address(s.regs);
            && t.regs[r1] == a && t.regs[r2] % 256 == ShadowOf(s.mem, a)
            && t.leaving == (ShadowOf(s.mem, a) == 0) && !t.reported
            && t.probed == s.probed + [a / 8 + SHADOW]
  {
    var t := Addressed(env, s, r1, r2);
    RunFour(env, LoadShadow(r2), TestB(r2), JeExit, JeExit, t);
    RunJoin(env, [LeaAddress(r1), MovQ(r1, r2), Shr3(r2)], [LoadShadow(r2), TestB(r2), JeExit], s);
    assert LoadCommon(r1, r2) == [LeaAddress(r1), MovQ(r1, r2), Shr3(r2)] + [LoadShadow(r2), TestB(r2), JeExit];
    LowByte(t.regs[r2], ShadowByte(t, r2));
    hide Run, Al;
  }

  lemma Extended(x: int)
    ensures Signed32(SignExtend(x)) == Signed8(x % 256)
  {
  }

  lemma SmallSigned(x: int)
    requires 0 <= x < 16
    ensures Signed32(x) == x
  {
  }

  /** The reporting jump of the sized checks, from the two numbers compared. */
  lemma Compared(env: Env, s: Machine, r1: Reg, r2: Reg)
    requires !s.leaving && !s.reported && r1 != r2 && 0 <= s.regs[r1] < 16
    ensures var t := Run(env, [Movsbl(r2), CmpL(r2, r1), JlExit, CallReport], s);
            t.probed == s.probed && (t.reported <==> s.regs[r1] >= Signed8(s.regs[r2] % 256))
  {
    RunFour(env, Movsbl(r2), CmpL(r2, r1), JlExit, CallReport, s);
    Extended(s.regs[r2]);
    SmallSigned(s.regs[r1]);
    hide Run, SignExtend, Signed32, Signed8;
  }

  /** The lines between the two, which work out the last byte's place in its group. */
  function Offset(r1: Reg, acsz: nat): seq<Line>
    requires acsz == 1 || acsz == 2 || acsz == 4
  {
    if acsz == 1 then [AndL7(r1)] else if acsz == 2 then [AndL7(r1), IncL(r1)] else [AndL7(r1), AddL(3, r1)]
  }

  lemma AccessShape(r1: Reg, r2: Reg, acsz: nat)
    requires acsz == 1 || acsz == 2 || acsz == 4
    ensures Access(r1, r2, acsz)
            == LoadCommon(r1, r2) + (Offset(r1, acsz) + [Movsbl(r2), CmpL(r2, r1), JlExit, CallReport])
  {
  }

  lemma OffsetEffect(env: Env, s: Machine, r1: Reg, r2: Reg, acsz: nat)
    requires acsz == 1 || acsz == 2 || acsz == 4
    requires !s.leaving && !s.reported && r1 != r2
    ensures var t := Run(env, Offset(r1, acsz), s);
            && t.regs[r1] == s.regs[r1] % 8 + acsz - 1 && t.regs[r2] == s.regs[r2]
            && t.probed == s.probed && !t.leaving && !t.reported
  {
    RunTwo(env, AndL7(r1), IncL(r1), s);
    RunTwo(env, AndL7(r1), AddL(3, r1), s);
    hide Run;
  }

  /** The check looks at the shadow byte of the address it was given, once, and reports
      exactly the poisoned accesses. */
  lemma CheckReports(env: Env, s: Machine, r1: Reg, r2: Reg, acsz: nat)
    requires acsz == 1 || acsz == 2 || acsz == 4 || acsz == 8
    requires !s.leaving && !s.reported && r1 != r2
    ensures var t, a := Run(env, Access(r1, r2, acsz), s), env.address(s.regs);
            && t.probed == s.probed + [a / 8 + SHADOW]
            && (t.reported <==> Poisoned(ShadowOf(s.mem, a), a, acsz))
  {
    if acsz == 8 {
      var t := Addressed(env, s, r1, r2);
      LongShape(r1, r2);
      LongReports(env, t, r2);
      hide Run, Access;
      RunJoin(env, [LeaAddress(r1), MovQ(r1, r2), Shr3(r2)], [CmpShadow(r2), JeExit, CallReport], s);
    } else {
      SmallReports(env, s, r1, r2, acsz);
    }
  }

  lemma LongShape(r1: Reg, r2: Reg)
    ensures Access(r1, r2, 8) == [LeaAddress(r1), MovQ(r1, r2), Shr3(r2)] + [CmpShadow(r2), JeExit, CallReport]
  {
  }

  lemma LongReports(env: Env, t: Machine, r2: Reg)
    requires !t.leaving && !t.reported
    ensures var u := Run(env, [CmpShadow(r2), JeExit, CallReport], t);
            u.probed == t.probed + [t.regs[r2] + SHADOW] && (u.reported <==> ShadowByte(t, r2) != 0)
  {
    RunFour(env, CmpShadow(r2), JeExit, CallReport, CallReport, t);
    hide Run, ShadowByte;
  }

  lemma SmallReports(env: Env, s: Machine, r1: Reg, r2: Reg, acsz: nat)
    requires acsz == 1 || acsz == 2 || acsz == 4
    requires !s.leaving && !s.reported && r1 != r2
    ensures var t, a := Run(env, Access(r1, r2, acsz), s), env.address(s.regs);
            && t.probed == s.probed + [a / 8 + SHADOW]
            && (t.reported <==> Poisoned(ShadowOf(s.mem, a), a, acsz))
  {
    var rest := Offset(r1, acsz) + [Movsbl(r2), CmpL(r2, r1), JlExit, CallReport];
    AccessShape(r1, r2, acsz);
    hide *;
    RunJoin(env, LoadCommon(r1, r2), rest, s);
    CommonLoads(env, s, r1, r2);
    var t := Run(env, LoadCommon(r1, r2), s);
    RestReports(env, t, r1, r2, acsz);
    PoisonedSmall(ShadowOf(s.mem, env.address(s.regs)), env.address(s.regs), acsz);
  }

  lemma PoisonedSmall(shadow: int, a: int, acsz: nat)
    requires acsz != 8
    ensures Poisoned(shadow, a, acsz) <==> shadow != 0 && a % 8 + acsz - 1 >= Signed8(shadow)
  {
  }

  lemma RestReports(env: Env, t: Machine, r1: Reg, r2: Reg, acsz: nat)
    requires acsz == 1 || acsz == 2 || acsz == 4
    requires !t.reported && r1 != r2
    ensures var u := Run(env, Offset(r1, acsz) + [Movsbl(r2), CmpL(r2, r1), JlExit, CallReport], t);
            && u.probed == t.probed
            && (u.reported <==> !t.leaving && t.regs[r1] % 8 + acsz - 1 >= Signed8(t.regs[r2] % 256))
  {
    var cmp := [Movsbl(r2), CmpL(r2, r1), JlExit, CallReport];
    if t.leaving {
      assert forall i :: 0 <= i < |Offset(r1, acsz) + cmp| ==> !(Offset(r1, acsz) + cmp)[i].ExitLabel?;
      hide Run, Offset;
      Skipped(env, Offset(r1, acsz) + cmp, t);
    } else {
      OffsetEffect(env, t, r1, r2, acsz);
      hide Run, Offset;
      RunJoin(env, Offset(r1, acsz), cmp, t);
      Compared(env, Run(env, Offset(r1, acsz), t), r1, r2);
    }
  }

  lemma CheckEffect(env: Env, s: Machine, r1: Reg, r2: Reg, acsz: nat)
    requires acsz == 1 || acsz == 2 || acsz == 4 || acsz == 8
    requires !s.leaving && !s.reported && r1 != r2
    ensures var t, a := Run(env, Access(r1, r2, acsz) + [ExitLabel], s), env.address(s.regs);
            && t.probed == s.probed + [a / 8 + SHADOW]
            && (t.reported <==> Poisoned(ShadowOf(s.mem, a), a, acsz))
            && (!t.reported ==> !t.leaving) && SameOutside(s, t, r1, r2)
  {
    CheckReports(env, s, r1, r2, acsz);
    AccessQuiet(r1, r2, acsz);
    hide Access, Poisoned, ShadowOf;
    RunJoin(env, Access(r1, r2, acsz), [ExitLabel], s);
    AtExit(env, Run(env, Access(r1, r2, acsz), s));
    QuietRun(env, Access(r1, r2, acsz), s, r1, r2);
    hide Run;
  }

  lemma AtExit(env: Env, s: Machine)
    ensures Run(env, [ExitLabel], s) == if s.reported then s else s.(leaving := false)
  {
    RunTwo(env, ExitLabel, ExitLabel, s);
  }

  // ----- restoring

  ghost predicate InRange(s: Machine) {
    forall k :: 0 <= k < 16 ==> 0 <= s.regs[k] < TWO64
  }

  lemma FlagWordRange(env: Env, p: Plan, s: Machine)
    requires InRange(s) && Faithful(env)
    ensures 0 <= FlagWord(env, p, s) < TWO64
  {
    if p.flags.Opt? {
      FlagsInRaxRange(s.regs[RAX], s.flags);
    }
    assert 0 <= env.image(s.flags) < TWO64 by {
      assert env.flagsOf(env.image(s.flags)) == s.flags;
    }
    hide FlagsInRax;
  }

  /** The saved words stand where the restoring code looks for them, and nothing else in
      memory has changed. */
  lemma Slots(env: Env, p: Plan, s: Machine)
    requires InRange(s) && Faithful(env)
    ensures var m := MemAtCheck(env, p, s);
            && (p.save1 ==> Load(m, Below1(p, s)) == s.regs[p.r1])
            && (p.save2 ==> Load(m, Below2(p, s)) == s.regs[p.r2])
            && (!p.flags.NoFlags? ==> Load(m, Below3(p, s)) == FlagWord(env, p, s))
  {
    FlagWordRange(env, p, s);
    hide Load, Store, FlagWord;
    var w := FlagWord(env, p, s);
    LoadStored(s.mem, Below1(p, s), s.regs[p.r1]);
    LoadStored(Mem1(p, s), Below2(p, s), s.regs[p.r2]);
    LoadStored(Mem2(p, s), Below3(p, s), w);
    if p.save2 { LoadOther(Mem1(p, s), Below2(p, s), s.regs[p.r2], Below1(p, s)); }
    if !p.flags.NoFlags? {
      LoadOther(Mem2(p, s), Below3(p, s), w, Below1(p, s));
      LoadOther(Mem2(p, s), Below3(p, s), w, Below2(p, s));
    }
  }

  lemma MemoryKept(env: Env, p: Plan, s: Machine, x: int)
    requires x >= Base(p, s) || x < Base(p, s) - 24
    ensures MemAtCheck(env, p, s)(x) == s.mem(x)
  {
    hide FlagWord, Shifted;
  }

  /** While restoring: the stack pointer is at sp and only registers that were taken may
      still differ. */
  ghost predicate Restoring(env: Env, p: Plan, s: Machine, t: Machine, sp: int) {
    && t.mem == MemAtCheck(env, p, s) && t.flags.others == s.flags.others && !t.leaving && !t.reported
    && t.regs[RSP] == sp
    && forall k :: 0 <= k < 16 && k != p.r1 && k != p.r2 && k != RSP && !(k == RAX && p.flags == Opt(false))
         ==> t.regs[k] == s.regs[k]
  }

  lemma AhDecodes(f: Flags, g: Flags, x: int)
    requires x / 256 % 256 == AhByte(f)
    ensures FromAh(g, x) == f.(of_ := g.of_, others := g.others)
  {
    var b := AhByte(f);
    assert b / 128 == Bit(f.sf) && b / 64 == 2 * Bit(f.sf) + Bit(f.zf) && b % 2 == Bit(f.cf);
  }

  /** add 0x7f brings the overflow flag back and leaves the second byte alone. */
  lemma OverflowBack(env: Env, t: Machine, x: int, f: Flags)
    requires 0 <= x < TWO64 && t.regs[RAX] == FlagsInRax(x, f) && t.flags.others == f.others
    ensures var u := AddToAl(env, t);
            u.flags.of_ == f.of_ && u.flags.others == f.others && u.regs[RAX] / 256 % 256 == AhByte(f)
            && u.mem == t.mem && u.leaving == t.leaving && u.reported == t.reported
            && forall k :: 0 <= k < 16 && k != RAX ==> u.regs[k] == t.regs[k]
  {
    FlagsInRaxRange(x, f);
    var v := FlagsInRax(x, f);
    AlKeepsAh(v, (v % 256 + 0x7f) % 256);
    hide FlagsInRax, Al, AhByte;
  }

  /** pop rax, add 0x7f, sahf on the word that lahf and seto made. */
  lemma FlagsPopped(env: Env, t: Machine, x: int, f: Flags)
    requires !t.leaving && !t.reported && t.flags.others == f.others
    requires 0 <= x < TWO64 && Load(t.mem, t.regs[RSP]) == FlagsInRax(x, f)
    ensures var u := Run(env, [Pop(RAX), AddAl, Sahf], t);
            && u.flags == f && u.mem == t.mem && !u.leaving && !u.reported && u.regs[RSP] == t.regs[RSP] + 8
            && forall k :: 0 <= k < 16 && k != RAX && k != RSP ==> u.regs[k] == t.regs[k]
  {
    RunFour(env, Pop(RAX), AddAl, Sahf, Sahf, t);
    var popped := PopWord(t, RAX);
    OverflowBack(env, popped, x, f);
    var u := AddToAl(env, popped);
    AhDecodes(f, u.flags, u.regs[RAX]);
    hide Run, Load, FlagsInRax, Al, AhByte, FromAh, AddToAl;
  }

  lemma AlKeepsAh(x: int, b: int)
    requires 0 <= b < 256
    ensures Al(x, b) / 256 % 256 == x / 256 % 256
  {
    assert Al(x, b) / 256 == x / 256;
  }

  lemma FlagsPoppedAround(env: Env, p: Plan, free: set<nat>, s: Machine, t: Machine)
    requires Safe(p, free) && InRange(s) && Faithful(env) && p.flags == Opt(true)
    requires Restoring(env, p, s, t, Below3(p, s))
    ensures var u := Run(env, RestoreFlagLines(p), t);
            Restoring(env, p, s, u, Below2(p, s)) && u.flags == s.flags
  {
    Slots(env, p, s);
    hide Load, FlagsInRax, Run, Store, MemAtCheck;
    var t1 := SetReg(t, p.r2, t.regs[RAX]);
    MovExec(env, RAX, p.r2, t);
    FlagsPopped(env, t1, s.regs[RAX], s.flags);
    var t2 := Run(env, [Pop(RAX), AddAl, Sahf], t1);
    MovExec(env, p.r2, RAX, t2);
    RunJoin(env, [Mov(RAX, p.r2)], [Pop(RAX), AddAl, Sahf], t);
    RunJoin(env, [Mov(RAX, p.r2)] + [Pop(RAX), AddAl, Sahf], [Mov(p.r2, RAX)], t);
  }

  lemma FlagsRestored(env: Env, p: Plan, free: set<nat>, s: Machine, t: Machine)
    requires Safe(p, free) && InRange(s) && Faithful(env)
    requires Restoring(env, p, s, t, Below3(p, s))
    ensures var u := Run(env, RestoreFlagLines(p), t);
            Restoring(env, p, s, u, Below2(p, s)) && (!p.flags.NoFlags? ==> u.flags == s.flags)
  {
    if p.flags.Unopt? {
      Slots(env, p, s);
      hide Load, Store, MemAtCheck;
      RunTwo(env, Popf, Popf, t);
      assert env.flagsOf(env.image(s.flags)) == s.flags;
    } else if p.flags == Opt(true) {
      FlagsPoppedAround(env, p, free, s, t);
    } else if p.flags == Opt(false) {
      Slots(env, p, s);
      hide Load, FlagsInRax, Run, Store, MemAtCheck;
      FlagsPopped(env, t, s.regs[RAX], s.flags);
    } else {
      hide MemAtCheck;
    }
  }

  /** A saved register comes back, or no line stands there. */
  lemma PopIf(env: Env, c: bool, r: Reg, t: Machine)
    requires !t.leaving && !t.reported && r != RSP
    ensures var u := Run(env, If(c, [Pop(r)]), t);
            && u.mem == t.mem && u.flags == t.flags && u.leaving == t.leaving && u.reported == t.reported
            && u.regs[RSP] == t.regs[RSP] + 8 * Bit(c)
            && (forall k :: 0 <= k < 16 && k != r && k != RSP ==> u.regs[k] == t.regs[k])
            && (c ==> u.regs[r] == Load(t.mem, t.regs[RSP])) && (!c ==> u.regs[r] == t.regs[r])
  {
    hide If, Run, Load;
    RunIf(env, c, Pop(r), t);
  }

  lemma Popped2(env: Env, p: Plan, free: set<nat>, s: Machine, t: Machine)
    requires Safe(p, free) && InRange(s) && Faithful(env) && Restoring(env, p, s, t, Below2(p, s))
    ensures var u := Run(env, If(p.save2, [Pop(p.r2)]), t);
            && Restoring(env, p, s, u, Below1(p, s)) && u.flags == t.flags
            && (p.save2 ==> u.regs[p.r2] == s.regs[p.r2])
  {
    Slots(env, p, s);
    hide If, Run, Load, MemAtCheck, Faithful, InRange;
    PopIf(env, p.save2, p.r2, t);
  }

  lemma Popped1(env: Env, p: Plan, free: set<nat>, s: Machine, t: Machine)
    requires Safe(p, free) && InRange(s) && Faithful(env) && Restoring(env, p, s, t, Below1(p, s))
    ensures var u := Run(env, If(p.save1, [Pop(p.r1)]), t);
            && Restoring(env, p, s, u, Base(p, s)) && u.flags == t.flags
            && (p.save1 ==> u.regs[p.r1] == s.regs[p.r1]) && u.regs[p.r2] == t.regs[p.r2]
  {
    Slots(env, p, s);
    hide If, Run, Load, MemAtCheck, Faithful, InRange;
    PopIf(env, p.save1, p.r1, t);
  }

  /** The restoring code undoes the saving code. */
  lemma RestoreEffect(env: Env, p: Plan, free: set<nat>, s: Machine, t: Machine)
    requires Safe(p, free) && InRange(s) && Faithful(env)
    requires Restoring(env, p, s, t, s.regs[RSP])
    ensures var u := Run(env, RestoreLines(p), t);
            && Restoring(env, p, s, u, s.regs[RSP]) && (!p.flags.NoFlags? ==> u.flags == s.flags)
            && (p.save1 ==> u.regs[p.r1] == s.regs[p.r1]) && (p.save2 ==> u.regs[p.r2] == s.regs[p.r2])
  {
    assert p.r1 != p.r2 && p.r1 != RSP && p.r2 != RSP;
    var a, b := If(PushCount(p) > 0, [LeaRsp(-8 * PushCount(p))]), RestoreFlagLines(p);
    var c, d, e := If(p.save2, [Pop(p.r2)]), If(p.save1, [Pop(p.r1)]), If(p.adjust, [LeaRsp(256)]);
    assert RestoreLines(p) == a + (b + (c + (d + e))) by { hide If, RestoreFlagLines, PushCount; }
    assert Restoring(env, p, s, Run(env, a, t), Below3(p, s)) by {
      hide Run, If, MemAtCheck;
      RunIf(env, PushCount(p) > 0, LeaRsp(-8 * PushCount(p)), t);
    }
    hide *;
    var t0 := Run(env, a, t);
    FlagsRestored(env, p, free, s, t0);
    var t1 := Run(env, b, t0);
    Popped2(env, p, free, s, t1);
    var t2 := Run(env, c, t1);
    Popped1(env, p, free, s, t2);
    var t3 := Run(env, d, t2);
    Unadjusted(env, p, s, t3);
    RunJoin(env, a, b + (c + (d + e)), t);
    RunJoin(env, b, c + (d + e), t0);
    RunJoin(env, c, d + e, t1);
    RunJoin(env, d, e, t2);
  }

  lemma Unadjusted(env: Env, p: Plan, s: Machine, t: Machine)
    requires Restoring(env, p, s, t, Base(p, s))
    ensures var u := Run(env, If(p.adjust, [LeaRsp(256)]), t);
            && Restoring(env, p, s, u, s.regs[RSP]) && u.flags == t.flags
            && forall k :: 0 <= k < 16 && k != RSP ==> u.regs[k] == t.regs[k]
  {
    hide Run, If, MemAtCheck;
    RunIf(env, p.adjust, LeaRsp(256), t);
  }

  // ----- the whole

  /** The address expression reads no register of the set. */
  ghost predicate AddressAvoids(env: Env, taken: set<nat>) {
    forall a: Regs, b: Regs :: SameBut(a, b, taken) ==> env.address(a) == env.address(b)
  }

  ghost predicate SameBut(a: Regs, b: Regs, taken: set<nat>) {
    forall k :: 0 <= k < 16 && k !in taken ==> a[k] == b[k]
  }

  /** The one register that saving the flags changes before the address is worked out. */
  function Touched(p: Plan): set<nat> {
    if !p.flags.Opt? then {} else if p.flags.saveRax then {p.r2} else {RAX}
  }

  lemma AddressUnchanged(env: Env, p: Plan, s: Machine)
    requires AddressAvoids(env, Touched(p))
    ensures env.address(RegsAtCheck(p, s)) == env.address(s.regs)
  {
    hide FlagsInRax;
    assert SameBut(RegsAtCheck(p, s), s.regs, Touched(p));
  }

  /** What the program sees of the check: nothing but registers it does not need, and the
      words below its stack. */
  ghost predicate Unnoticed(free: set<nat>, isLeaf: bool, s: Machine, t: Machine) {
    && (forall k :: 0 <= k < 16 && k !in free ==> t.regs[k] == s.regs[k])
    && t.regs[RSP] == s.regs[RSP]
    && (RFLAGS !in free ==> t.flags == s.flags) && t.flags.others == s.flags.others
    && (forall x :: x >= s.regs[RSP] - (if isLeaf then 256 else 0) || x < s.regs[RSP] - 280 ==> t.mem(x) == s.mem(x))
    && !t.leaving
  }

  /** Only the words below the stack pointer, for a leaf below its red zone, are used. */
  lemma ScratchOnly(env: Env, free: set<nat>, isLeaf: bool, s: Machine)
    ensures var m := MemAtCheck(env, PlanFor(free, isLeaf), s);
            forall x :: x >= s.regs[RSP] - (if isLeaf then 256 else 0) || x < s.regs[RSP] - 280 ==> m(x) == s.mem(x)
  {
    var p := PlanFor(free, isLeaf);
    LeafAdjusted(free, isLeaf);
    hide PlanFor;
    forall x | x >= s.regs[RSP] - (if isLeaf then 256 else 0) || x < s.regs[RSP] - 280
      ensures MemAtCheck(env, p, s)(x) == s.mem(x)
    {
      if p.adjust || !isLeaf { MemoryKept(env, p, s, x); }
    }
  }

  lemma LeafAdjusted(free: set<nat>, isLeaf: bool)
    ensures var p := PlanFor(free, isLeaf);
            && (p.adjust ==> isLeaf)
            && (isLeaf && !p.adjust ==> !p.save1 && !p.save2 && p.flags.NoFlags?)
  {
    hide Usable;
  }

  /** The machine between the check and the restoring code. */
  lemma CheckedState(env: Env, p: Plan, free: set<nat>, acsz: nat, s: Machine) returns (t: Machine)
    requires acsz == 1 || acsz == 2 || acsz == 4 || acsz == 8
    requires !s.leaving && !s.reported && Safe(p, free) && AddressAvoids(env, Touched(p))
    ensures t == Run(env, SaveLines(p) + (Access(p.r1, p.r2, acsz) + [ExitLabel]), s)
    ensures t.probed == s.probed + [env.address(s.regs) / 8 + SHADOW]
    ensures t.reported <==> Poisoned(ShadowOf(MemAtCheck(env, p, s), env.address(s.regs)), env.address(s.regs), acsz)
    ensures !t.reported ==> Restoring(env, p, s, t, s.regs[RSP])
  {
    assert p.r1 != p.r2;
    hide *;
    SaveEffect(env, p, free, s);
    AddressUnchanged(env, p, s);
    var c := s.(regs := RegsAtCheck(p, s), mem := MemAtCheck(env, p, s));
    CheckEffect(env, c, p.r1, p.r2, acsz);
    RunJoin(env, SaveLines(p), Access(p.r1, p.r2, acsz) + [ExitLabel], s);
    t := Run(env, SaveLines(p) + (Access(p.r1, p.r2, acsz) + [ExitLabel]), s);
    if !t.reported { RestoringStarts(env, p, free, s, t); }
  }

  lemma RestoringStarts(env: Env, p: Plan, free: set<nat>, s: Machine, t: Machine)
    requires Safe(p, free) && !t.leaving && !t.reported
    requires SameOutside(s.(regs := RegsAtCheck(p, s), mem := MemAtCheck(env, p, s)), t, p.r1, p.r2)
    ensures Restoring(env, p, s, t, s.regs[RSP])
  {
    hide MemAtCheck, FlagsInRax;
  }

  lemma SameShadow(env: Env, free: set<nat>, isLeaf: bool, s: Machine, a: int)
    requires !(s.regs[RSP] - 280 <= a / 8 + SHADOW < s.regs[RSP])
    ensures ShadowOf(MemAtCheck(env, PlanFor(free, isLeaf), s), a) == ShadowOf(s.mem, a)
  {
    hide PlanFor, MemAtCheck;
    ScratchOnly(env, free, isLeaf, s);
  }

  lemma NotNoticed(env: Env, free: set<nat>, isLeaf: bool, s: Machine, t: Machine)
    requires var p := PlanFor(free, isLeaf);
             && Restoring(env, p, s, t, s.regs[RSP]) && (!p.flags.NoFlags? ==> t.flags == s.flags)
             && (p.save1 ==> t.regs[p.r1] == s.regs[p.r1]) && (p.save2 ==> t.regs[p.r2] == s.regs[p.r2])
    ensures Unnoticed(free, isLeaf, s, t)
  {
    PlanSafe(free, isLeaf);
    hide PlanFor, MemAtCheck;
    ScratchOnly(env, free, isLeaf, s);
  }

  /** The check reports exactly the poisoned accesses, looks at one shadow byte, that of the
      address in the program's own registers, and otherwise is not noticed: whatever
      registers are free, whether or not rflags is one of them, in a leaf function or not. */
  lemma Transparent(env: Env, free: set<nat>, isLeaf: bool, acsz: nat, s: Machine)
    requires acsz == 1 || acsz == 2 || acsz == 4 || acsz == 8
    requires Faithful(env) && InRange(s) && !s.leaving && !s.reported
    requires AddressAvoids(env, Touched(PlanFor(free, isLeaf)))
    ensures var t, a := Run(env, Emitted(PlanFor(free, isLeaf), acsz), s), env.address(s.regs);
            && t.probed == s.probed + [a / 8 + SHADOW]
            && (!(s.regs[RSP] - 280 <= a / 8 + SHADOW < s.regs[RSP])
                ==> (t.reported <==> Poisoned(ShadowOf(s.mem, a), a, acsz)))
            && (!t.reported ==> Unnoticed(free, isLeaf, s, t))
  {
    var p, a := PlanFor(free, isLeaf), env.address(s.regs);
    PlanSafe(free, isLeaf);
    var t := CheckedState(env, p, free, acsz, s);
    RunJoin(env, SaveLines(p) + (Access(p.r1, p.r2, acsz) + [ExitLabel]), RestoreLines(p), s);
    if !(s.regs[RSP] - 280 <= a / 8 + SHADOW < s.regs[RSP]) { SameShadow(env, free, isLeaf, s, a); }
    hide Run, SaveLines, Access, RestoreLines, MemAtCheck, Poisoned, ShadowOf, PlanFor, Unnoticed, Safe;
    var u := Run(env, RestoreLines(p), t);
    if t.reported {
      ReportedStays(env, RestoreLines(p), t);
    } else {
      RestoreEffect(env, p, free, s, t);
      RestoreProbesNothing(env, p, t);
      hide Restoring;
      NotNoticed(env, free, isLeaf, s, u);
    }
  }

  ghost predicate NoProbe(code: seq<Line>) {
    forall i :: 0 <= i < |code| ==> !code[i].LoadShadow? && !code[i].CmpShadow? && !code[i].CallReport?
  }

  lemma NoProbeJoin(a: seq<Line>, b: seq<Line>)
    requires NoProbe(a) && NoProbe(b)
    ensures NoProbe(a + b)
  {
  }

  /** Restoring looks at no shadow byte. */
  lemma {:induction false} ProbesNothing(env: Env, code: seq<Line>, s: Machine)
    requires NoProbe(code)
    ensures Run(env, code, s).probed == s.probed && Run(env, code, s).reported == s.reported
  {
    if code != [] {
      ProbesNothing(env, code[1..], Exec(env, code[0], s));
      hide Load, Store, FromAh, Ah, Al, AhByte, SignExtend, Signed32;
    }
  }

  lemma RestoreProbesNothing(env: Env, p: Plan, s: Machine)
    ensures Run(env, RestoreLines(p), s).probed == s.probed && Run(env, RestoreLines(p), s).reported == s.reported
  {
    var a, b := If(PushCount(p) > 0, [LeaRsp(-8 * PushCount(p))]), RestoreFlagLines(p);
    var c, d, e := If(p.save2, [Pop(p.r2)]), If(p.save1, [Pop(p.r1)]), If(p.adjust, [LeaRsp(256)]);
    assert RestoreLines(p) == a + (b + (c + (d + e))) by { hide If, RestoreFlagLines, PushCount; }
    assert NoProbe(a) && NoProbe(b) && NoProbe(c) && NoProbe(d) && NoProbe(e) by { hide PushCount; }
    hide *;
    NoProbeJoin(d, e);
    NoProbeJoin(c, d + e);
    NoProbeJoin(b, c + (d + e));
    NoProbeJoin(a, b + (c + (d + e)));
    ProbesNothing(env, RestoreLines(p), s);
  }

  lemma {:induction false} ReportedStays(env: Env, code: seq<Line>, s: Machine)
    requires s.reported
    ensures Run(env, code, s) == s
  {
    if code != [] { ReportedStays(env, code[1..], s); }
  }

  // ----- with the register analysis

  /** The registers reported free at an instruction. */
  function FreeSet(used: Liveness.RegisterSet): set<nat> {
    set k | k in Liveness.FreeList(used, Liveness.NREGS)
  }

  /** The address expression reads only registers the instruction is known to read. */
  ghost predicate AddressReads(env: Env, readSet: Liveness.RegisterSet) {
    forall a: Regs, b: Regs :: (forall k :: 0 <= k < 16 && readSet[k] ==> a[k] == b[k])
      ==> env.address(a) == env.address(b)
  }

  /** The assumptions of the two theorems about the check can be met, in every function. */
  lemma AssumptionsMet(free: set<nat>, isLeaf: bool, readSet: Liveness.RegisterSet) returns (env: Env, s: Machine)
    ensures Faithful(env) && InRange(s) && !s.leaving && !s.reported
    ensures AddressAvoids(env, Touched(PlanFor(free, isLeaf))) && AddressReads(env, readSet)
  {
    env := FaithfulExists(_ => 0, (f, v) => f);
    s := Machine(seq(16, _ => 0), Flags(false, false, false, false, false, false, 0), _ => 0, false, false, []);
  }

  lemma TouchedIsFree(free: set<nat>, isLeaf: bool)
    ensures Touched(PlanFor(free, isLeaf)) <= free
  {
    PlanSafe(free, isLeaf);
    hide PlanFor;
  }

  /** A register an instruction reads is not reported free there. */
  lemma ReadIsNotFree(code: seq<Liveness.Sets>, used: seq<Liveness.RegisterSet>, i: nat, k: nat)
    requires Liveness.PostFixpoint(code, used) && i < |code| && k < Liveness.NREGS && code[i].readSet[k]
    ensures k !in FreeSet(used[i])
  {
    assert Liveness.Covers(code, used, i);
    assert Liveness.Needed(code[i], used, k);
  }

  /** The check in front of an instruction, with the registers the analysis reports free
      there, is not noticed. */
  lemma TransparentWhereFree(env: Env, code: seq<Liveness.Sets>, used: seq<Liveness.RegisterSet>, i: nat,
                             isLeaf: bool, acsz: nat, s: Machine)
    requires acsz == 1 || acsz == 2 || acsz == 4 || acsz == 8
    requires Faithful(env) && InRange(s) && !s.leaving && !s.reported
    requires Liveness.PostFixpoint(code, used) && i < |code| && AddressReads(env, code[i].readSet)
    ensures var free := FreeSet(used[i]);
            var t, a := Run(env, Emitted(PlanFor(free, isLeaf), acsz), s), env.address(s.regs);
            && t.probed == s.probed + [a / 8 + SHADOW]
            && (!(s.regs[RSP] - 280 <= a / 8 + SHADOW < s.regs[RSP])
                ==> (t.reported <==> Poisoned(ShadowOf(s.mem, a), a, acsz)))
            && (!t.reported ==> Unnoticed(free, isLeaf, s, t))
  {
    assert i < |used|;
    hide *;
    ReadsAvoided(env, code, used, i, isLeaf);
    Transparent(env, FreeSet(used[i]), isLeaf, acsz, s);
  }

  lemma ReadsAvoided(env: Env, code: seq<Liveness.Sets>, used: seq<Liveness.RegisterSet>, i: nat, isLeaf: bool)
    requires Liveness.PostFixpoint(code, used) && i < |code| && AddressReads(env, code[i].readSet)
    ensures AddressAvoids(env, Touched(PlanFor(FreeSet(used[i]), isLeaf)))
  {
    var taken := Touched(PlanFor(FreeSet(used[i]), isLeaf));
    TouchedIsFree(FreeSet(used[i]), isLeaf);
    hide Touched, PlanFor, FreeSet;
    forall a: Regs, b: Regs | SameBut(a, b, taken) ensures env.address(a) == env.address(b) {
      forall k | 0 <= k < 16 && code[i].readSet[k] ensures a[k] == b[k] {
        ReadIsNotFree(code, used, i, k);
      }
    }
  }
}
