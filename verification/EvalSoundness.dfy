/** When the symbolic value of a register is the value the machine computes: the evaluator
    calculates with unbounded integers, the machine with words of 64 bits. */
module EvalSoundness {
  import opened Symbolic
  import opened BackwardEval
  import B = BitStream

  function Words(): (r: int)
    ensures r >= 1
  {
    B.Pow2(64)
  }

  function Wrap(x: int): (r: int)
    ensures 0 <= r < Words()
  {
    x % Words()
  }

  /** A word as a signed number. */
  function Signed(w: int): int {
    if w >= B.Pow2(63) then w - Words() else w
  }

  function OperandWord(op: Operand, reg: Name -> int): int {
    match op
    case RegOp(r) => reg(r)
    case ImmOp(imm) => Wrap(imm)
  }

  function Shifted(w: int, shift: Shift): int {
    match shift
    case NoShift => w
    case Lsl(k) => Wrap(w * B.Pow2(k))
    case Lsr(k) => w / B.Pow2(k)
    case Asr(k) => Wrap(Signed(w) / B.Pow2(k))
    case Ror(k) => Wrap(w / B.Pow2(k % 64) + w * B.Pow2(64 - k % 64))
  }

  /** What the machine writes into the destination register. Shift amounts count modulo 64. */
  function MachineValue(i: Instr, reg: Name -> int): int
    requires Followed(i)
  {
    match i
    case AddSub(sum, _, rn, op2, shift) =>
      var second := Shifted(OperandWord(op2, reg), shift);
      Wrap(if sum.PlainSub? || sum.FlagSub? then reg(rn) - second else reg(rn) + second)
    case AndReg(_, rn, src, shift) => Wrap(And(reg(rn), Shifted(OperandWord(src, reg), shift)))
    case AsrBy(_, rn, op2) => Wrap(Signed(reg(rn)) / B.Pow2(OperandWord(op2, reg) % 64))
    case ShiftBy(right, _, rn, op2) =>
      var k := OperandWord(op2, reg) % 64;
      if right then reg(rn) / B.Pow2(k) else Wrap(reg(rn) * B.Pow2(k))
    case Mov(_, src) => OperandWord(src, reg)
    case Movz(_, half, place) => half * B.Pow2(place)
    case Movn(_, half, place) => Wrap(-1 - half * B.Pow2(place))
    case Adr(_, imm) => Wrap(imm)
    case Mul(_, rn, rm) => Wrap(reg(rn) * reg(rm))
    case Madd(_, rn, rm, ra) => Wrap(reg(rn) * reg(rm) + reg(ra))
    case Ubfiz(_, rn, lsb, width) => Wrap(And(reg(rn), B.Pow2(width) - 1) * B.Pow2(lsb))
  }

  function MachineStep(i: Instr, reg: Name -> int): Name -> int {
    if Followed(i) then (r: Name) => if r == i.rd then MachineValue(i, reg) else reg(r)
    else if i.Other? then (r: Name) => if r in i.written then Wrap(i.wrote(r)) else reg(r)
    else reg
  }

  function MachineRun(chain: seq<Instr>, reg: Name -> int): Name -> int {
    if chain == [] then reg else MachineStep(chain[|chain| - 1], MachineRun(chain[..|chain| - 1], reg))
  }

  /** The machine's registers are the integers modulo 2^64. */
  ghost predicate Agree(env: Env, reg: Name -> int) {
    forall r :: reg(r) == Wrap(env.reg(r))
  }

  // ----- the condition

  /** The number of times a passes 2^64, counted from 0, and counted from -2^63. */
  function Overflows(a: int): int { a / Words() }

  function SignedOverflows(a: int): int { (a + B.Pow2(63)) / Words() }

  function OperandValue(op: Operand, env: Env): int {
    Value(OperandItem(op), env)
  }

  /** The shift of the second operand that the evaluator does not look at makes no
      difference. */
  predicate ShiftHarmless(a: int, shift: Shift) {
    match shift
    case Lsr(k) => k == 0 || Wrap(a) == 0
    case Asr(k) => k == 0 || Wrap(a) == 0 || Wrap(a) == Words() - 1
    case Ror(_) => Shifted(Wrap(a), shift) == Wrap(a)
    case _ => true
  }

  function Scaled(b: int, shift: Shift): int {
    if shift.Lsl? then b * B.Pow2(shift.k) else b
  }

  /** The operand, as the evaluator reads it and as the machine does, is its own opposite. */
  predicate Opposite(a: int, shift: Shift) {
    Wrap(Scaled(a, shift) + Shifted(Wrap(a), shift)) == 0
  }

  predicate Bit(w: int, n: nat) { w / B.Pow2(n) % 2 == 1 }

  /** x and y agree on the set bits of w. */
  ghost predicate SameWhereSet(w: int, x: int, y: int) {
    forall n: nat :: n < 64 && Bit(w, n) ==> (Bit(x, n) <==> Bit(y, n))
  }

  /** Dropping the shift of the second operand b of and, and reading it as b', makes no
      difference. */
  ghost predicate AndHarmless(a: int, b': int, b: int, shift: Shift) {
    SameWhereSet(Wrap(a), Wrap(b'), Shifted(Wrap(b), shift))
  }

  /** What an instruction needs, on the integers, for the evaluator to be right about it.
      Of a value shifted right by k, the overflows must be a multiple of 2^k; this is so
      whenever it is in the range of a word. The machine takes amounts modulo 64, the
      evaluator does not. */
  ghost predicate Sound(i: Instr, env: Env)
    requires Followed(i)
  {
    match i
    case AddSub(sum, _, _, op2, shift) =>
      if sum.FlagAdd? then Opposite(OperandValue(op2, env), shift) else ShiftHarmless(OperandValue(op2, env), shift)
    case AndReg(_, rn, src, shift) =>
      AndHarmless(env.reg(rn), OperandValue(View(src), env), OperandValue(src, env), shift)
    case AsrBy(_, rn, op2) => SoundAsr(env.reg(rn), OperandValue(op2, env))
    case ShiftBy(right, _, rn, op2) =>
      if right then SoundLsr(env.reg(rn), OperandValue(op2, env)) else SoundLsl(env.reg(rn), OperandValue(op2, env))
    case Mov(_, src) => src.RegOp? || Wrap(src.imm) < 0x1_0000_0000
    case Movz(_, half, place) => half == 0 || place == 0
    case Movn(_, half, place) => half == 0 || place == 0
    case _ => true
  }

  /** By 64 or more, only the overflows are left of the value. A negative amount, which only
      the run on integers can come to, has no value in the source; here it gives 0. */
  predicate SoundLsr(a: int, k: int) {
    if 0 <= k < 64 then Overflows(a) % B.Pow2(k) == 0
    else if k < 0 then Wrap(a) < B.Pow2(k % 64)
    else Wrap(Overflows(a) / B.Pow2(k - 64)) == Wrap(a) / B.Pow2(k % 64)
  }

  predicate SoundAsr(a: int, k: int) {
    if 0 <= k < 64 then SignedOverflows(a) % B.Pow2(k) == 0
    else if k < 0 then 0 <= Signed(Wrap(a)) < B.Pow2(k % 64)
    else Wrap(Overflows(a) / B.Pow2(k - 64)) == Wrap(Signed(Wrap(a)) / B.Pow2(k % 64))
  }

  predicate SoundLsl(a: int, k: int) {
    if 0 <= k < 64 then true else Wrap(a) % B.Pow2(64 - k % 64) == 0
  }

  // ----- words and congruence

  lemma WrapCong(a: int)
    ensures Cong(a, Wrap(a), 64) && Cong(Wrap(a), a, 64)
  {
    assert a == Wrap(a) + (a / Words()) * Words();
    MakeCong(a, Wrap(a), a / Words(), 64);
    CongFacts(a, Wrap(a), 0, 64);
  }

  lemma WrapEqual(a: int, b: int)
    ensures Cong(a, b, 64) <==> Wrap(a) == Wrap(b)
  {
    hide Wrap;
    WrapCong(a);
    WrapCong(b);
    CongFacts(Wrap(a), a, b, 64);
    CongFacts(Wrap(a), b, Wrap(b), 64);
    CongFacts(a, Wrap(a), b, 64);
    CongSmall(Wrap(a), Wrap(b), 64);
  }

  /** A word is its own remainder. */
  lemma WrapWord(w: int)
    requires 0 <= w < Words()
    ensures Wrap(w) == w
  {
    hide Words;
  }

  lemma WrapArithmetic(a: int, b: int)
    ensures Wrap(Wrap(a) + Wrap(b)) == Wrap(a + b) && Wrap(Wrap(a) - Wrap(b)) == Wrap(a - b)
    ensures Wrap(Wrap(a) * Wrap(b)) == Wrap(a * b) && Wrap(And(Wrap(a), Wrap(b))) == Wrap(And(a, b))
  {
    WrapCong(a);
    WrapCong(b);
    CongArithmetic(Wrap(a), a, Wrap(b), b, 64);
    CongAnd(Wrap(a), a, Wrap(b), b, 64);
    hide Wrap, And, Cong;
    WrapEqual(Wrap(a) + Wrap(b), a + b);
    WrapEqual(Wrap(a) - Wrap(b), a - b);
    WrapEqual(Wrap(a) * Wrap(b), a * b);
    WrapEqual(And(Wrap(a), Wrap(b)), And(a, b));
  }

  /** A factor that is not wrapped makes no difference either. */
  lemma WrapMixed(a: int, b: int)
    ensures Wrap(Wrap(a) * b) == Wrap(a * b) && Wrap(And(Wrap(a), b)) == Wrap(And(a, b))
    ensures Wrap(Wrap(a)) == Wrap(a) && Wrap(Wrap(a) + b) == Wrap(a + b)
  {
    WrapWord(Wrap(a));
    hide Wrap, And;
    WrapArithmetic(a, b);
    WrapArithmetic(Wrap(a), b);
  }

  /** Adding or subtracting the same leaves unequal remainders unequal. */
  lemma WrapCancels(a: int, b: int, c: int)
    ensures Wrap(a + b) == Wrap(a + c) <==> Wrap(b) == Wrap(c)
    ensures Wrap(a - b) == Wrap(a - c) <==> Wrap(b) == Wrap(c)
  {
    hide Wrap;
    WrapEqual(b, c);
    WrapEqual(a + b, a + c);
    WrapEqual(a - b, a - c);
    if Cong(b, c, 64) {
      CongFacts(a, a, 0, 64);
      CongArithmetic(a, a, b, c, 64);
    }
    if Cong(a + b, a + c, 64) {
      CongFacts(a, a, 0, 64);
      CongArithmetic(a + b, a + c, a, a, 64);
    }
    if Cong(a - b, a - c, 64) {
      CongFacts(a, a, 0, 64);
      CongArithmetic(a, a, a - b, a - c, 64);
    }
  }

  lemma {:induction false} Pow2Add(m: nat, n: nat)
    ensures B.Pow2(m + n) == B.Pow2(m) * B.Pow2(n)
  {
    if m > 0 {
      Pow2Add(m - 1, n);
      assert 2 * (B.Pow2(m - 1) * B.Pow2(n)) == (2 * B.Pow2(m - 1)) * B.Pow2(n);
    }
  }

  lemma DivideOver(w: int, q: int, m: int, d: int, h: int)
    requires d > 0 && m == h * d
    ensures (w + q * m) / d == w / d + q * h
  {
    var x := w / d;
    var y := w % d;
    assert w == x * d + y;
    assert q * m == (q * h) * d;
    assert w + q * m == (x + q * h) * d + y by { assert (x + q * h) * d == x * d + (q * h) * d; }
    QuotientIs(w + q * m, d, x + q * h, y);
  }

  lemma QuotientIs(a: int, d: int, q: int, y: int)
    requires d > 0 && 0 <= y < d && a == q * d + y
    ensures a / d == q && a % d == y
  {
    var p, z := a / d, a % d;
    assert a == p * d + z;
    assert (p - q) * d == y - z;
    SmallMultiple(y - z, p - q, d);
  }

  /** The quotient of a number that is q times 2^64 off differs from the right one by a
      multiple of 2^64 exactly if q is a multiple of the divisor. */
  lemma ShiftedOff(w: int, q: int, k: nat)
    requires k <= 64
    ensures Wrap((w + q * Words()) / B.Pow2(k)) == Wrap(w / B.Pow2(k)) <==> q % B.Pow2(k) == 0
  {
    var d, h := B.Pow2(k), B.Pow2(64 - k);
    Pow2Add(64 - k, k);
    hide *;
    assert B.Pow2(64 - k + k) == Words() by { WordsIs(); }
    DivideOver(w, q, Words(), d, h);
    WrapEqual(w / d + q * h, w / d);
    if q % d == 0 { MultipleCong(w / d, q, d, h); }
    if Cong(w / d + q * h, w / d, 64) { CongMultiple(w / d, q, d, h); }
  }

  lemma WordsIs()
    ensures Words() == B.Pow2(64)
  {
  }

  lemma MultipleCong(x: int, q: int, d: int, h: int)
    requires d > 0 && Words() == h * d && q % d == 0
    ensures Cong(x + q * h, x, 64)
  {
    WordsIs();
    hide *;
    var p := q / d;
    assert q == p * d;
    Regroup(p, d, h);
    MakeCong(x + q * h, x, p, 64);
  }

  lemma Regroup(p: int, d: int, h: int)
    ensures (p * d) * h == p * (h * d)
  {
  }

  lemma CongMultiple(x: int, q: int, d: int, h: int)
    requires d > 0 && h > 0 && Words() == h * d && Cong(x + q * h, x, 64)
    ensures q % d == 0
  {
    WordsIs();
    var p :| x + q * h == Over(x, p, 64);
    assert q * h == p * Words();
    hide *;
    Regroup(p, d, h);
    SameFactor(q, p * d, h);
    QuotientIs(q, d, p, 0);
  }

  lemma SameFactor(a: int, b: int, h: int)
    requires h > 0 && a * h == b * h
    ensures a == b
  {
    assert (a - b) * h == 0;
  }

  // ----- one instruction

  /** Shift amounts count modulo 64, before and after wrapping. */
  lemma AmountWord(k: int)
    ensures Wrap(k) % 64 == k % 64
  {
    Pow2Add(6, 58);
    SmallPowers();
    WordsIs();
    RestOfRest(k, Words(), B.Pow2(58));
    WrapIs(k);
    hide *;
  }

  lemma WrapIs(a: int)
    ensures Wrap(a) == a % Words() && Overflows(a) == a / Words() && a == Wrap(a) + Overflows(a) * Words()
  {
  }

  lemma RestOfRest(k: int, m: int, h: int)
    requires m == 64 * h && h >= 1
    ensures (k % m) % 64 == k % 64
  {
    var q, w := k / m, k % m;
    assert k == q * m + w;
    assert q * (64 * h) == 64 * (q * h);
  }

  lemma SmallPowers()
    ensures B.Pow2(6) == 64 && B.Pow2(0) == 1 && B.Pow2(1) == 2
  {
    assert B.Pow2(3) == 8;
  }

  lemma HalfWords()
    ensures Words() == 2 * B.Pow2(63)
  {
  }

  lemma {:induction false} Pow2Monotone(m: nat, n: nat)
    requires m <= n
    ensures B.Pow2(m) <= B.Pow2(n) && (m < n ==> 2 * B.Pow2(m) <= B.Pow2(n))
  {
    if m < n { Pow2Monotone(m, n - 1); }
  }

  /** lsr: the machine divides the word. */
  lemma LsrSound(a: int, k: int)
    requires 0 <= k < 64
    ensures Wrap(a / B.Pow2(k)) == Wrap(a) / B.Pow2(k) <==> SoundLsr(a, k)
  {
    WrapIs(a);
    ShiftedOff(Wrap(a), Overflows(a), k);
    QuotientSmall(Wrap(a), B.Pow2(k));
    WrapWord(Wrap(a) / B.Pow2(k));
    hide Wrap, Words, Overflows, B.Pow2;
  }

  lemma QuotientSmall(w: int, d: int)
    requires w >= 0 && d >= 1
    ensures 0 <= w / d <= w
    ensures w / d == w <==> d == 1 || w == 0
  {
    if d == 1 {
      QuotientIs(w, 1, w, 0);
    } else {
      var q, y := w / d, w % d;
      assert w == q * d + y;
      AtLeastTwice(q, d);
    }
  }

  lemma AtLeastTwice(q: int, d: int)
    requires q >= 0 && d >= 2
    ensures q * d >= 2 * q
  {
    assert q * d == 2 * q + q * (d - 2);
  }

  lemma SignedSplit(a: int)
    ensures a == Signed(Wrap(a)) + SignedOverflows(a) * Words()
    ensures 0 <= Signed(Wrap(a)) + B.Pow2(63) < Words()
  {
    HalfWords();
    WrapIs(a);
    Unfolded(a, Wrap(a));
    WrapRange(a);
    hide *;
    HalfSplit(a, B.Pow2(63), Words());
  }

  lemma WrapRange(a: int)
    ensures 0 <= Wrap(a) < Words() && Words() >= 1
  {
  }

  lemma HalfSplit(a: int, h: int, m: int)
    requires m == 2 * h && h >= 1
    ensures a % m >= h ==> a == a % m - m + (a + h) / m * m
    ensures a % m < h ==> a == a % m + (a + h) / m * m
  {
    var q, w := a / m, a % m;
    assert a == q * m + w;
    assert (q + 1) * m == q * m + m;
    if w >= h { QuotientIs(a + h, m, q + 1, w - h); } else { QuotientIs(a + h, m, q, w + h); }
  }

  lemma Unfolded(a: int, w: int)
    ensures Wrap(a) == a % Words() && SignedOverflows(a) == (a + B.Pow2(63)) / Words()
    ensures Signed(w) == if w >= B.Pow2(63) then w - Words() else w
  {
  }

  /** asr: the machine divides the signed word. */
  lemma AsrSound(a: int, k: int)
    requires 0 <= k < 64
    ensures Wrap(a / B.Pow2(k)) == Wrap(Signed(Wrap(a)) / B.Pow2(k)) <==> SoundAsr(a, k)
  {
    SignedSplit(a);
    ShiftedOff(Signed(Wrap(a)), SignedOverflows(a), k);
    hide Wrap, Words, Signed, SignedOverflows;
  }

  lemma Regroup2(a: int, p: int, m: int)
    ensures a * (p * m) == (a * p) * m
  {
  }

  /** Shifting left by 64 or more leaves nothing. */
  lemma AllOut(a: int, k: nat)
    requires k >= 64
    ensures Wrap(a * B.Pow2(k)) == 0
  {
    Pow2Add(k - 64, 64);
    WordsIs();
    var p := B.Pow2(k - 64);
    hide *;
    Regroup2(a, p, B.Pow2(64));
    MakeCong(a * B.Pow2(k), 0, a * p, 64);
    WrapEqual(a * B.Pow2(k), 0);
    WrapWord(0);
  }

  /** A word times 2^k is a multiple of 2^64 exactly if the word is one of 2^(64-k). */
  lemma NothingLeft(w: int, k: nat)
    requires k <= 64
    ensures Wrap(w * B.Pow2(k)) == 0 <==> w % B.Pow2(64 - k) == 0
  {
    var d, h := B.Pow2(64 - k), B.Pow2(k);
    Pow2Add(k, 64 - k);
    assert Words() == h * d;
    hide *;
    WrapEqual(0 + w * h, 0);
    WrapWord(0);
    if w % d == 0 { MultipleCong(0, w, d, h); }
    if Cong(0 + w * h, 0, 64) { CongMultiple(0, w, d, h); }
  }

  lemma LslSound(a: int, k: int)
    ensures Wrap(Apply(ShiftLeft, a, k)) == Wrap(Wrap(a) * B.Pow2(k % 64)) <==> SoundLsl(a, k)
  {
    LslIs(a, k);
    hide *;
    WrapRange(0);
    if 0 <= k < 64 {
      assert k % 64 == k;
      WrapMixed(a, B.Pow2(k));
    } else {
      if k >= 64 { AllOut(a, k); } else { WrapWord(0); }
      NothingLeft(Wrap(a), k % 64);
    }
  }

  lemma LslIs(a: int, k: int)
    ensures Apply(ShiftLeft, a, k) == if k >= 0 then a * B.Pow2(k) else 0
    ensures SoundLsl(a, k) == if 0 <= k < 64 then true else Wrap(a) % B.Pow2(64 - k % 64) == 0
  {
  }

  lemma {:induction false} PowerOne(k: nat)
    ensures B.Pow2(k) == 1 <==> k == 0
  {
    SmallPowers();
    Pow2Monotone(0, k);
  }

  /** Dividing a signed number by more than one leaves only 0 and -1 as they are. */
  lemma SignedQuotient(s: int, d: int)
    requires d >= 1
    ensures s / d == s <==> d == 1 || s == 0 || s == -1
    ensures 0 <= s ==> 0 <= s / d <= s
    ensures s < 0 ==> s <= s / d < 0
  {
    if s >= 0 {
      QuotientSmall(s, d);
    } else {
      QuotientSmall(-1 - s, d);
      var q, y := (-1 - s) / d, (-1 - s) % d;
      assert -1 - s == q * d + y;
      Flip(q, d);
      QuotientIs(s, d, -1 - q, d - 1 - y);
    }
  }

  lemma Flip(q: int, d: int)
    ensures (-1 - q) * d == -(q * d) - d
  {
  }

  /** An ignored right shift of the second operand is harmless for a few values only. */
  lemma IgnoredShift(b: int, shift: Shift)
    requires shift.Lsr? || shift.Asr?
    ensures Wrap(b) == Wrap(Shifted(Wrap(b), shift)) <==> ShiftHarmless(b, shift)
  {
    var w, d := Wrap(b), B.Pow2(shift.k);
    WrapRange(b);
    PowerOne(shift.k);
    ShiftedIs(w, shift);
    HarmlessIs(b, shift);
    hide *;
    if shift.Lsr? {
      QuotientSmall(w, d);
      WrapWord(w / d);
    } else {
      SignedQuotient(Signed(w), d);
      SignedWord(w);
      WrapMixed(Signed(w) / d, 0);
      SignedRange(w);
      SameSigned(Signed(w), Signed(w) / d);
    }
  }

  lemma ShiftedIs(w: int, shift: Shift)
    ensures shift.NoShift? ==> Shifted(w, shift) == w
    ensures shift.Lsl? ==> Shifted(w, shift) == Wrap(w * B.Pow2(shift.k))
    ensures shift.Lsr? ==> Shifted(w, shift) == w / B.Pow2(shift.k)
    ensures shift.Asr? ==> Shifted(w, shift) == Wrap(Signed(w) / B.Pow2(shift.k))
    ensures shift.Ror? ==> Shifted(w, shift) == Wrap(w / B.Pow2(shift.k % 64) + w * B.Pow2(64 - shift.k % 64))
  {
  }

  lemma HarmlessIs(a: int, shift: Shift)
    ensures shift.Lsr? ==> (ShiftHarmless(a, shift) <==> shift.k == 0 || Wrap(a) == 0)
    ensures shift.Asr? ==> (ShiftHarmless(a, shift) <==> shift.k == 0 || Wrap(a) == 0 || Wrap(a) == Words() - 1)
    ensures shift.Ror? ==> (ShiftHarmless(a, shift) <==> Shifted(Wrap(a), shift) == Wrap(a))
    ensures shift.Lsl? || shift.NoShift? ==> ShiftHarmless(a, shift)
  {
  }

  lemma SignedWord(w: int)
    requires 0 <= w < Words()
    ensures Wrap(Signed(w)) == w
    ensures Signed(w) == 0 <==> w == 0
    ensures Signed(w) == -1 <==> w == Words() - 1
  {
    HalfWords();
    MakeCong(w, Signed(w), if w >= B.Pow2(63) then 1 else 0, 64);
    WrapEqual(w, Signed(w));
    WrapWord(w);
    hide Wrap;
  }

  lemma SignedRange(w: int)
    requires 0 <= w < Words()
    ensures 0 <= Signed(w) + B.Pow2(63) < Words() && Words() == 2 * B.Pow2(63)
  {
    HalfWords();
  }

  /** Two numbers of the signed range are equal if they are as words. */
  lemma SameSigned(s: int, t: int)
    requires 0 <= s + B.Pow2(63) < Words() && 0 <= t + B.Pow2(63) < Words()
    ensures Wrap(s) == Wrap(t) <==> s == t
  {
    hide *;
    WrapMixed(s, B.Pow2(63));
    WrapMixed(t, B.Pow2(63));
    WrapWord(s + B.Pow2(63));
    WrapWord(t + B.Pow2(63));
  }

  // ----- every instruction

  lemma OperandAgrees(op: Operand, env: Env, reg: Name -> int)
    requires Agree(env, reg)
    ensures OperandWord(op, reg) == Wrap(OperandValue(op, env))
  {
    hide Wrap;
  }

  lemma ScaledIs(b: int, shift: Shift)
    ensures Scaled(b, shift) == if shift.Lsl? then b * B.Pow2(shift.k) else b
  {
  }

  lemma SecondSound(b: int, shift: Shift)
    ensures Wrap(Scaled(b, shift)) == Wrap(Shifted(Wrap(b), shift)) <==> ShiftHarmless(b, shift)
  {
    hide *;
    ShiftedIs(Wrap(b), shift);
    HarmlessIs(b, shift);
    ScaledIs(b, shift);
    if shift.Lsr? || shift.Asr? {
      IgnoredShift(b, shift);
    } else if shift.Lsl? {
      WrapMixed(b, B.Pow2(shift.k));
      WrapMixed(b * B.Pow2(shift.k), 0);
    } else if shift.Ror? {
      WrapRange(b);
      ShiftedRange(Wrap(b), shift);
      WrapWord(Shifted(Wrap(b), shift));
    } else {
      WrapMixed(b, 0);
    }
  }

  lemma AddSubSound(a: int, b: int, shift: Shift)
    ensures var c, second := Scaled(b, shift), Shifted(Wrap(b), shift);
            && (Wrap(a - c) == Wrap(Wrap(a) - second) <==> ShiftHarmless(b, shift))
            && (Wrap(a + c) == Wrap(Wrap(a) + second) <==> ShiftHarmless(b, shift))
            && (Wrap(a - c) == Wrap(Wrap(a) + second) <==> Opposite(b, shift))
  {
    OppositeIs(b, shift);
    hide *;
    var c, second := Scaled(b, shift), Shifted(Wrap(b), shift);
    SecondSound(b, shift);
    WrapMixed(a, second);
    WrapMixed(a, -second);
    WrapCancels(a, c, second);
    WrapCancels(a, -c, second);
    WrapCancels(c, -c, second);
  }

  lemma OppositeIs(b: int, shift: Shift)
    ensures Opposite(b, shift) <==> Wrap(Scaled(b, shift) + Shifted(Wrap(b), shift)) == Wrap(0)
  {
    WrapWord(0);
    hide Wrap, Scaled, Shifted;
  }

  /** A word is its own opposite. */
  lemma OwnOpposite(w: int)
    requires 0 <= w < Words()
    ensures Wrap(w + w) == 0 <==> w == 0 || w == B.Pow2(63)
  {
    HalfWords();
    WrapIs(w + w);
    hide *;
    if w < B.Pow2(63) {
      QuotientIs(w + w, Words(), 0, w + w);
    } else {
      QuotientIs(w + w, Words(), 1, w + w - Words());
    }
  }

  lemma OppositeUnshifted(b: int, shift: Shift)
    requires shift.NoShift?
    ensures Opposite(b, shift) <==> Wrap(Wrap(b) + b) == 0
  {
    assert Scaled(b, shift) == b && Shifted(Wrap(b), shift) == Wrap(b);
    hide Wrap, B.Pow2, Scaled, Shifted;
  }

  lemma OppositeWord(b: int, shift: Shift)
    requires shift.NoShift?
    ensures Opposite(b, shift) <==> Wrap(b) == 0 || Wrap(b) == B.Pow2(63)
  {
    hide *;
    OppositeUnshifted(b, shift);
    WrapMixed(b, b);
    WrapMixed(b, Wrap(b));
    OwnOpposite(Wrap(b));
  }

  /** adds is taken for a subtraction: right exactly for an operand that is its own opposite. */
  lemma AddsSubtracts(i: Instr, env: Env)
    requires i.AddSub? && i.sum.FlagAdd? && i.shift.NoShift?
    ensures Sound(i, env) <==> Wrap(OperandValue(i.op2, env)) == 0 || Wrap(OperandValue(i.op2, env)) == B.Pow2(63)
  {
    OppositeWord(OperandValue(i.op2, env), i.shift);
    hide Wrap, OperandValue, Opposite, B.Pow2;
  }

  /** The evaluator is right about an instruction exactly under the condition. */
  lemma StepSound(i: Instr, env: Env, reg: Name -> int)
    requires Followed(i) && Agree(env, reg)
    ensures Wrap(Value(Replacement(i), env)) == MachineValue(i, reg) <==> Sound(i, env)
  {
    hide Wrap, Value, Replacement, MachineValue, Sound, Agree;
    match i {
      case AddSub(_, _, _, _, _) => AddSubStep(i, env, reg);
      case AsrBy(_, _, _) => AsrStep(i, env, reg);
      case ShiftBy(_, _, _, _) => ShiftStep(i, env, reg);
      case AndReg(_, _, _, _) => AndStep(i, env, reg);
      case Mov(_, _) => MoveStep(i, env, reg);
      case Adr(_, _) => MoveStep(i, env, reg);
      case Movz(_, _, _) => HalfStep(i, env, reg);
      case Movn(_, _, _) => HalfStep(i, env, reg);
      case _ => RingStep(i, env, reg);
    }
  }

  /** The low 32 bits are those of the word, and all of it if it has no more. */
  lemma ViewOfWord(imm: int)
    ensures Wrap(imm % 0x1_0000_0000) == imm % 0x1_0000_0000
    ensures Wrap(imm % 0x1_0000_0000) == Wrap(imm) <==> Wrap(imm) < 0x1_0000_0000
  {
    hide *;
    var m := 0x1_0000_0000;
    TwoHalves();
    WrapRange(imm);
    WrapWord(imm % m);
    WrapIs(imm);
    Multiples(imm, Wrap(imm), Overflows(imm), m);
    if Wrap(imm) < m { QuotientIs(Wrap(imm), m, 0, Wrap(imm)); }
  }

  lemma TwoHalves()
    ensures Words() == 0x1_0000_0000 * 0x1_0000_0000
  {
    Pow2Add(16, 16);
    Pow2Add(32, 32);
    Sixteen();
    WordsIs();
  }

  /** A multiple of m * m is not seen modulo m. */
  lemma Multiples(a: int, w: int, q: int, m: int)
    requires m >= 1 && a == w + q * (m * m)
    ensures a % m == w % m
  {
    var p, y := w / m, w % m;
    assert w == p * m + y;
    Regroup2(q, m, m);
    assert a == (p + q * m) * m + y by { Spread(p, q * m, m); }
    QuotientIs(a, m, p + q * m, y);
  }

  lemma MoveStep(i: Instr, env: Env, reg: Name -> int)
    requires (i.Mov? || i.Adr?) && Agree(env, reg)
    ensures Wrap(Value(Replacement(i), env)) == MachineValue(i, reg) <==> Sound(i, env)
  {
    if i.Mov? {
      OperandAgrees(i.src, env, reg);
      if i.src.ImmOp? { ViewOfWord(i.src.imm); }
    }
    hide Wrap, OperandWord, Agree;
  }

  lemma HalfStep(i: Instr, env: Env, reg: Name -> int)
    requires i.Movz? || i.Movn?
    ensures Wrap(Value(Replacement(i), env)) == MachineValue(i, reg) <==> Sound(i, env)
  {
    HalfPlaced(i.half, i.place);
    hide Wrap, B.Pow2;
  }

  /** The values that are compared, written out. */
  lemma PairValue(left: Item, right: Item, op: Op, env: Env)
    requires right != Nothing
    ensures Value(Pair(left, right, op), env) == Apply(op, Value(left, env), Value(right, env))
  {
    hide Apply;
  }

  lemma AddSubStep(i: Instr, env: Env, reg: Name -> int)
    requires i.AddSub? && Agree(env, reg)
    ensures Wrap(Value(Replacement(i), env)) == MachineValue(i, reg) <==> Sound(i, env)
  {
    var a, b := env.reg(i.rn), OperandValue(i.op2, env);
    AddSubSound(a, b, i.shift);
    OperandAgrees(i.op2, env, reg);
    hide Wrap, Shifted, ShiftHarmless, Opposite, Value, Scaled, OperandWord, OperandItem;
    AddSubValue(i, env);
    assert reg(i.rn) == Wrap(a);
  }

  lemma AddSubValue(i: Instr, env: Env)
    requires i.AddSub?
    ensures var a, c := env.reg(i.rn), Scaled(OperandValue(i.op2, env), i.shift);
            Value(Replacement(i), env) == if i.sum.PlainAdd? then a + c else a - c
  {
    var second := if i.shift.Lsl? then Pair(OperandItem(i.op2), Num(i.shift.k), ShiftLeft) else OperandItem(i.op2);
    PairValue(Reg(i.rn), second, if i.sum.PlainAdd? then Plus else Minus, env);
    if i.shift.Lsl? { PairValue(OperandItem(i.op2), Num(i.shift.k), ShiftLeft, env); }
    hide OperandItem;
  }

  /** Sixteen bits at a place below 64 are a word, and the same ones only there or if zero. */
  lemma HalfPlaced(half: Half, place: HalfPlace)
    ensures 0 <= half * B.Pow2(place) < Words()
    ensures Wrap(half) == half * B.Pow2(place) <==> half == 0 || place == 0
    ensures Wrap(-1 - half) == Wrap(-1 - half * B.Pow2(place)) <==> half == 0 || place == 0
  {
    hide *;
    PowerOne(place);
    Pow2Add(16, place);
    Pow2Monotone(16 + place, 64);
    WordsIs();
    Sixteen();
    var d := B.Pow2(place);
    Fits(half, d);
    Product(half, d);
    WrapWord(half);
    WrapWord(half * d);
    WrapCancels(-1, half, half * d);
  }

  lemma Sixteen()
    ensures B.Pow2(16) == 0x10000
  {
    Pow2Add(8, 8);
    assert B.Pow2(8) == 256;
  }

  lemma Fits(half: int, d: int)
    requires 0 <= half < 0x10000 && d >= 1
    ensures 0 <= half <= half * d < 0x10000 * d
  {
  }

  lemma Product(half: int, d: int)
    ensures half * d == half <==> half == 0 || d == 1
  {
    assert half * d - half == half * (d - 1);
  }

  lemma OperandIsItem(op: Operand, env: Env)
    ensures OperandItem(op) != Nothing && Value(OperandItem(op), env) == OperandValue(op, env)
  {
  }

  lemma AndIs(i: Instr, env: Env, reg: Name -> int)
    requires i.AndReg?
    ensures MachineValue(i, reg) == Wrap(And(reg(i.rn), Shifted(OperandWord(i.src, reg), i.shift)))
    ensures Replacement(i) == Pair(Reg(i.rn), OperandItem(View(i.src)), AndOp)
    ensures var item := OperandItem(View(i.src)); item != Nothing && Value(item, env) == OperandValue(View(i.src), env)
    ensures Sound(i, env) <==>
              AndHarmless(env.reg(i.rn), OperandValue(View(i.src), env), OperandValue(i.src, env), i.shift)
    ensures Value(Reg(i.rn), env) == env.reg(i.rn) && forall a, b :: Apply(AndOp, a, b) == And(a, b)
  {
    hide Wrap, And, AndHarmless, Shifted, OperandWord, OperandItem, View, B.Pow2;
    OperandIsItem(View(i.src), env);
  }

  lemma AndStep(i: Instr, env: Env, reg: Name -> int)
    requires i.AndReg? && Agree(env, reg)
    ensures Wrap(Value(Replacement(i), env)) == MachineValue(i, reg) <==> Sound(i, env)
  {
    hide *;
    AndIs(i, env, reg);
    PairValue(Reg(i.rn), OperandItem(View(i.src)), AndOp, env);
    OperandAgrees(i.src, env, reg);
    AgreeAt(env, reg, i.rn);
    var a, b', b := env.reg(i.rn), OperandValue(View(i.src), env), OperandValue(i.src, env);
    var v, w', w := Wrap(a), Wrap(b'), Wrap(b);
    WrapRange(a);
    WrapRange(b');
    WrapRange(b);
    WrapArithmetic(a, b');
    ShiftedRange(w, i.shift);
    AndOfWords(v, w');
    AndOfWords(v, Shifted(w, i.shift));
    AndAgrees(v, w', Shifted(w, i.shift));
    HarmlessAnd(a, b', b, i.shift);
  }

  lemma HarmlessAnd(a: int, b': int, b: int, shift: Shift)
    ensures AndHarmless(a, b', b, shift) <==> SameWhereSet(Wrap(a), Wrap(b'), Shifted(Wrap(b), shift))
  {
    hide Wrap, Shifted, SameWhereSet;
  }

  lemma ShiftedRange(w: int, shift: Shift)
    requires 0 <= w < Words()
    ensures 0 <= Shifted(w, shift) < Words()
  {
    ShiftedIs(w, shift);
    hide *;
    match shift {
      case NoShift =>
      case Lsl(k) => WrapRange(w * B.Pow2(k));
      case Lsr(k) => QuotientSmall(w, B.Pow2(k));
      case Asr(k) => WrapRange(Signed(w) / B.Pow2(k));
      case Ror(k) => WrapRange(w / B.Pow2(k % 64) + w * B.Pow2(64 - k % 64));
    }
  }

  /** The bits of two words that are both set make a word. */
  lemma AndOfWords(v: int, w: int)
    requires 0 <= v < Words() && 0 <= w < Words()
    ensures Wrap(And(v, w)) == And(v, w)
  {
    WordsIs();
    hide *;
    AndSmall(v, w, 64);
    WrapWord(And(v, w));
  }

  lemma {:induction false} AndSmall(v: nat, w: nat, n: nat)
    requires v < B.Pow2(n)
    ensures 0 <= And(v, w) < B.Pow2(n)
    decreases n
  {
    if n > 0 && v > 0 { AndSmall(v / 2, w / 2, n - 1); }
  }

  lemma AndAgrees(v: int, x: int, y: int)
    requires 0 <= v < Words() && 0 <= x < Words() && 0 <= y < Words()
    ensures And(v, x) == And(v, y) <==> SameWhereSet(v, x, y)
  {
    WordsIs();
    assert SameWhereSet(v, x, y) <==> SameBelow(v, x, y, 64);
    hide *;
    AndSame(v, x, y, 64);
  }

  ghost predicate SameBelow(v: int, x: int, y: int, n: nat) {
    forall k: nat :: k < n && Bit(v, k) ==> (Bit(x, k) <==> Bit(y, k))
  }

  /** Bit 0 is the remainder, and the others are the bits of the half. */
  lemma BitMore(w: int, k: nat)
    ensures Bit(w, 0) <==> w % 2 == 1
    ensures Bit(w, k + 1) <==> Bit(w / 2, k)
  {
    var d := B.Pow2(k);
    assert B.Pow2(0) == 1 && B.Pow2(k + 1) == 2 * d;
    var q, y := w / 2 / d, w / 2 % d;
    assert w / 2 == q * d + y && w == 2 * (w / 2) + w % 2;
    assert Bit(w, 0) == (w / 1 % 2 == 1);
    hide B.Pow2;
    QuotientIs(w, 2 * d, q, 2 * y + w % 2);
  }

  lemma {:induction false} AndSame(v: nat, x: int, y: int, n: nat)
    requires v < B.Pow2(n)
    ensures And(v, x) == And(v, y) <==> SameBelow(v, x, y, n)
    decreases n
  {
    if n == 0 {
      assert v == 0;
    } else {
      AndSame(v / 2, x / 2, y / 2, n - 1);
      AndUnfolded(v, x);
      AndUnfolded(v, y);
      hide And;
      SameMore(v, x, y, n - 1);
    }
  }

  lemma AndUnfolded(v: nat, x: int)
    ensures And(v, x) == 2 * And(v / 2, x / 2) + if v % 2 == 1 then x % 2 else 0
  {
    AndBits(v, x);
  }

  lemma SameMore(v: int, x: int, y: int, n: nat)
    ensures SameBelow(v, x, y, n + 1)
            <==> (v % 2 == 1 ==> x % 2 == y % 2) && SameBelow(v / 2, x / 2, y / 2, n)
  {
    hide Bit;
    BitMore(v, 0);
    BitMore(x, 0);
    BitMore(y, 0);
    forall k: nat
      ensures Bit(v, k + 1) <==> Bit(v / 2, k)
      ensures Bit(x, k + 1) <==> Bit(x / 2, k)
      ensures Bit(y, k + 1) <==> Bit(y / 2, k)
    {
      BitMore(v, k);
      BitMore(x, k);
      BitMore(y, k);
    }
    if SameBelow(v / 2, x / 2, y / 2, n) && (v % 2 == 1 ==> x % 2 == y % 2) {
      forall k: nat | k < n + 1 && Bit(v, k) ensures Bit(x, k) <==> Bit(y, k) {
        if k > 0 { assert Bit(v / 2, k - 1); }
      }
    }
    if SameBelow(v, x, y, n + 1) {
      forall k: nat | k < n && Bit(v / 2, k) ensures Bit(x / 2, k) <==> Bit(y / 2, k) {
        assert Bit(v, k + 1);
      }
      assert v % 2 == 1 ==> Bit(v, 0);
    }
  }

  lemma UbfizStep(i: Instr, env: Env, reg: Name -> int)
    requires i.Ubfiz? && Agree(env, reg)
    ensures Wrap(Value(Replacement(i), env)) == MachineValue(i, reg)
  {
    var a, mask := env.reg(i.rn), B.Pow2(i.width) - 1;
    PairValue(Pair(Reg(i.rn), Num(mask), AndOp), Num(i.lsb), ShiftLeft, env);
    PairValue(Reg(i.rn), Num(mask), AndOp, env);
    hide Wrap, And, B.Pow2;
    WrapMixed(a, mask);
    WrapMixed(And(a, mask), B.Pow2(i.lsb));
    WrapMixed(And(Wrap(a), mask), B.Pow2(i.lsb));
  }

  lemma RingStep(i: Instr, env: Env, reg: Name -> int)
    requires (i.Mul? || i.Madd? || i.Ubfiz?) && Agree(env, reg)
    ensures Wrap(Value(Replacement(i), env)) == MachineValue(i, reg) && Sound(i, env)
  {
    var a := env.reg(i.rn);
    if i.Ubfiz? {
      UbfizStep(i, env, reg);
    } else if i.Mul? {
      PairValue(Reg(i.rn), Reg(i.rm), Times, env);
      hide Wrap;
      WrapArithmetic(a, env.reg(i.rm));
    } else {
      PairValue(Pair(Reg(i.rn), Reg(i.rm), Times), Reg(i.ra), Plus, env);
      PairValue(Reg(i.rn), Reg(i.rm), Times, env);
      hide Wrap;
      MaddWraps(a, env.reg(i.rm), env.reg(i.ra));
    }
  }

  lemma MaddWraps(a: int, b: int, c: int)
    ensures Wrap(Wrap(a) * Wrap(b) + Wrap(c)) == Wrap(a * b + c)
  {
    hide Wrap;
    WrapArithmetic(a, b);
    WrapArithmetic(a * b, c);
    WrapMixed(Wrap(a) * Wrap(b), Wrap(c));
  }

  lemma AsrStep(i: Instr, env: Env, reg: Name -> int)
    requires i.AsrBy? && Agree(env, reg)
    ensures Wrap(Value(Replacement(i), env)) == MachineValue(i, reg) <==> Sound(i, env)
  {
    var a, k := env.reg(i.rn), OperandValue(i.op2, env);
    PairValue(Reg(i.rn), OperandItem(i.op2), ShiftRight, env);
    OperandAgrees(i.op2, env, reg);
    AsrIs(i, env, reg);
    assert Value(Reg(i.rn), env) == a;
    hide *;
    AmountWord(k);
    assert reg(i.rn) == Wrap(a) by { AgreeAt(env, reg, i.rn); }
    AsrAny(a, k);
  }

  lemma AgreeAt(env: Env, reg: Name -> int, r: Name)
    requires Agree(env, reg)
    ensures reg(r) == Wrap(env.reg(r))
  {
  }

  lemma AsrIs(i: Instr, env: Env, reg: Name -> int)
    requires i.AsrBy?
    ensures MachineValue(i, reg) == Wrap(Signed(reg(i.rn)) / B.Pow2(OperandWord(i.op2, reg) % 64))
    ensures Sound(i, env) == SoundAsr(env.reg(i.rn), OperandValue(i.op2, env))
    ensures Replacement(i) == Pair(Reg(i.rn), OperandItem(i.op2), ShiftRight)
    ensures OperandItem(i.op2) != Nothing && Value(OperandItem(i.op2), env) == OperandValue(i.op2, env)
  {
  }

  lemma AsrAny(a: int, k: int)
    ensures Wrap(Apply(ShiftRight, a, k)) == Wrap(Signed(Wrap(a)) / B.Pow2(k % 64)) <==> SoundAsr(a, k)
  {
    AsrCases(a, k);
    hide *;
    if 0 <= k < 64 {
      AsrSound(a, k);
    } else if k >= 64 {
      LongShift(a, k);
    } else {
      var s := Signed(Wrap(a));
      WrapRange(a);
      WrapWord(0);
      SignedRange(Wrap(a));
      SignedQuotient(s, B.Pow2(k % 64));
      SameSigned(0, s / B.Pow2(k % 64));
      QuotientZero(s, B.Pow2(k % 64));
    }
  }

  lemma LsrAny(a: int, k: int)
    ensures Wrap(Apply(ShiftRight, a, k)) == Wrap(a) / B.Pow2(k % 64) <==> SoundLsr(a, k)
  {
    LsrCases(a, k);
    hide *;
    if 0 <= k < 64 {
      LsrSound(a, k);
    } else if k >= 64 {
      LongShift(a, k);
    } else {
      WrapRange(a);
      WrapWord(0);
      QuotientZero(Wrap(a), B.Pow2(k % 64));
    }
  }

  lemma AsrCases(a: int, k: int)
    ensures Apply(ShiftRight, a, k) == if k >= 0 then a / B.Pow2(k) else 0
    ensures 0 <= k < 64 ==> k % 64 == k
    ensures k < 0 ==> (SoundAsr(a, k) <==> 0 <= Signed(Wrap(a)) < B.Pow2(k % 64))
    ensures k >= 64 ==>
              (SoundAsr(a, k) <==> Wrap(Overflows(a) / B.Pow2(k - 64)) == Wrap(Signed(Wrap(a)) / B.Pow2(k % 64)))
  {
    hide Wrap, Signed, Overflows, B.Pow2;
  }

  lemma LsrCases(a: int, k: int)
    ensures Apply(ShiftRight, a, k) == if k >= 0 then a / B.Pow2(k) else 0
    ensures 0 <= k < 64 ==> k % 64 == k
    ensures k < 0 ==> (SoundLsr(a, k) <==> Wrap(a) < B.Pow2(k % 64))
    ensures k >= 64 ==> (SoundLsr(a, k) <==> Wrap(Overflows(a) / B.Pow2(k - 64)) == Wrap(a) / B.Pow2(k % 64))
  {
    hide Wrap, Overflows, B.Pow2;
  }

  lemma QuotientZero(s: int, d: int)
    requires d >= 1
    ensures s / d == 0 <==> 0 <= s < d
    ensures s / d == -1 <==> -d <= s < 0
  {
    var q, y := s / d, s % d;
    assert s == q * d + y;
    if 0 <= s < d { QuotientIs(s, d, 0, s); }
    if -d <= s < 0 { QuotientIs(s, d, -1, s + d); }
  }

  /** Shifting by 64 and more first drops the word. */
  lemma LongShift(a: int, k: nat)
    requires k >= 64
    ensures a / B.Pow2(k) == Overflows(a) / B.Pow2(k - 64)
  {
    hide *;
    Pow2Add(k - 64, 64);
    WordsIs();
    WrapIs(a);
    WrapRange(a);
    QuotientTwice(a, Overflows(a), Wrap(a), B.Pow2(k - 64), Words());
  }

  /** Dividing by m and then by d is dividing by both. */
  lemma QuotientTwice(a: int, q: int, w: int, d: int, m: int)
    requires a == w + q * m && 0 <= w < m && d >= 1
    ensures d * m >= 1 && a / (d * m) == q / d
  {
    var p, y := q / d, q % d;
    Divided(q, d);
    Regroup2(p, d, m);
    Inside(y, d, m, w);
    Spread(p * d, y, m);
    QuotientIs(a, d * m, p, y * m + w);
  }

  lemma Divided(q: int, d: int)
    requires d >= 1
    ensures q == q / d * d + q % d && 0 <= q % d < d
  {
  }

  lemma Spread(x: int, y: int, m: int)
    ensures (x + y) * m == x * m + y * m
  {
  }

  lemma Inside(y: int, d: int, m: int, w: int)
    requires 0 <= y < d && 0 <= w < m
    ensures 0 <= y * m + w < d * m
  {
    assert (d - 1 - y) * m >= 0;
    assert d * m == (d - 1 - y) * m + y * m + m;
  }

  lemma ShiftIs(i: Instr, env: Env, reg: Name -> int)
    requires i.ShiftBy?
    ensures var k := OperandWord(i.op2, reg) % 64;
            MachineValue(i, reg) == if i.right then reg(i.rn) / B.Pow2(k) else Wrap(reg(i.rn) * B.Pow2(k))
    ensures Sound(i, env) == if i.right then SoundLsr(env.reg(i.rn), OperandValue(i.op2, env))
                             else SoundLsl(env.reg(i.rn), OperandValue(i.op2, env))
    ensures Replacement(i) == Pair(Reg(i.rn), OperandItem(i.op2), if i.right then ShiftRight else ShiftLeft)
    ensures OperandItem(i.op2) != Nothing && Value(OperandItem(i.op2), env) == OperandValue(i.op2, env)
  {
    hide SoundLsr, SoundLsl;
  }

  lemma ShiftStep(i: Instr, env: Env, reg: Name -> int)
    requires i.ShiftBy? && Agree(env, reg)
    ensures Wrap(Value(Replacement(i), env)) == MachineValue(i, reg) <==> Sound(i, env)
  {
    var a, k := env.reg(i.rn), OperandValue(i.op2, env);
    ShiftIs(i, env, reg);
    PairValue(Reg(i.rn), OperandItem(i.op2), if i.right then ShiftRight else ShiftLeft, env);
    OperandAgrees(i.op2, env, reg);
    assert Value(Reg(i.rn), env) == a;
    hide *;
    AmountWord(k);
    AgreeAt(env, reg, i.rn);
    if i.right { LsrAny(a, k); } else { LslSound(a, k); }
  }

  // ----- runs

  lemma AgreeStep(i: Instr, env: Env, reg: Name -> int)
    requires Agree(env, reg)
    ensures Agree(IntStep(i, env), MachineStep(i, reg)) <==> (Followed(i) ==> Sound(i, env))
  {
    hide Wrap, Sound, MachineValue, Value, Replacement;
    if Followed(i) {
      StepSound(i, env, reg);
      var e, m := IntStep(i, env), MachineStep(i, reg);
      assert e.reg(i.rd) == Value(Replacement(i), env) && m(i.rd) == MachineValue(i, reg);
      assert forall r :: r != i.rd ==> e.reg(r) == env.reg(r) && m(r) == reg(r);
    }
  }

  ghost predicate AgreeAfter(chain: seq<Instr>, env: Env, reg: Name -> int, j: nat)
    requires j <= |chain|
  {
    Agree(IntRun(chain[..j], env), MachineRun(chain[..j], reg))
  }

  /** The condition at the j-th instruction of a chain, on the integers it meets. */
  ghost predicate SoundAt(chain: seq<Instr>, env: Env, j: nat)
    requires j < |chain|
  {
    Followed(chain[j]) ==> Sound(chain[j], IntRun(chain[..j], env))
  }

  ghost predicate SoundUpTo(chain: seq<Instr>, env: Env, n: nat)
    requires n <= |chain|
  {
    forall j :: 0 <= j < n ==> SoundAt(chain, env, j)
  }

  /** One instruction more. */
  lemma RunMore(chain: seq<Instr>, env: Env, reg: Name -> int, j: nat)
    requires j < |chain|
    ensures IntRun(chain[..j + 1], env) == IntStep(chain[j], IntRun(chain[..j], env))
    ensures MachineRun(chain[..j + 1], reg) == MachineStep(chain[j], MachineRun(chain[..j], reg))
  {
    assert chain[..j + 1][..j] == chain[..j];
    hide IntStep, MachineStep;
  }

  lemma {:induction false} SoundAgrees(chain: seq<Instr>, env: Env, reg: Name -> int, n: nat)
    requires n <= |chain| && Agree(env, reg) && SoundUpTo(chain, env, n)
    ensures AgreeAfter(chain, env, reg, n)
  {
    if n > 0 {
      SoundAgrees(chain, env, reg, n - 1);
      RunMore(chain, env, reg, n - 1);
      assert SoundAt(chain, env, n - 1);
      hide Agree, IntRun, MachineRun, IntStep, MachineStep, Sound;
      AgreeStep(chain[n - 1], IntRun(chain[..n - 1], env), MachineRun(chain[..n - 1], reg));
    }
  }

  lemma WantedValue(register: Name, chain: seq<Instr>, env: Env)
    requires Clear(Wanted(register), chain)
    ensures Value(BackChain(Wanted(register), chain), env) == IntRun(chain, env).reg(register)
  {
    BackwardIsIntegerRun(Wanted(register), chain, env);
    hide BackChain, IntRun;
    assert forall e :: Value(Wanted(register), e) == e.reg(register);
  }

  /** The evaluator is right about a register after the first j instructions: the value of
      its expression on the start state is the machine's word. */
  ghost predicate RightAbout(chain: seq<Instr>, env: Env, reg: Name -> int, j: nat, register: Name)
    requires j <= |chain|
  {
    Wrap(Value(BackChain(Wanted(register), chain[..j]), env)) == MachineRun(chain[..j], reg)(register)
  }

  ghost predicate RightEverywhere(chain: seq<Instr>, env: Env, reg: Name -> int) {
    forall j: nat, register :: j <= |chain| ==> RightAbout(chain, env, reg, j, register)
  }

  predicate StraightLine(chain: seq<Instr>) {
    forall j :: 0 <= j < |chain| ==> !chain[j].Other?
  }

  lemma {:induction false} StraightIsClear(t: Item, chain: seq<Instr>)
    requires StraightLine(chain)
    ensures Clear(t, chain)
    decreases |chain|
  {
    if chain != [] { StraightIsClear(Back(t, chain[|chain| - 1]), chain[..|chain| - 1]); }
  }

  lemma RightMeansAgree(chain: seq<Instr>, env: Env, reg: Name -> int, j: nat)
    requires j <= |chain| && StraightLine(chain)
    ensures AgreeAfter(chain, env, reg, j) <==> forall register :: RightAbout(chain, env, reg, j, register)
  {
    hide Wrap, BackChain, IntRun, MachineRun;
    forall register
      ensures RightAbout(chain, env, reg, j, register)
              <==> MachineRun(chain[..j], reg)(register) == Wrap(IntRun(chain[..j], env).reg(register))
    {
      StraightIsClear(Wanted(register), chain[..j]);
      WantedValue(register, chain[..j], env);
    }
  }

  /** For every chain of the instructions the evaluator follows and every start state: it is
      right about every register all along the chain if and only if every instruction of the
      chain meets its condition. */
  lemma RightIffSound(chain: seq<Instr>, env: Env, reg: Name -> int)
    requires StraightLine(chain) && Agree(env, reg)
    ensures RightEverywhere(chain, env, reg) <==> SoundUpTo(chain, env, |chain|)
  {
    hide Agree, IntRun, MachineRun, IntStep, MachineStep, Sound, RightAbout;
    if SoundUpTo(chain, env, |chain|) {
      forall j: nat, register | j <= |chain| ensures RightAbout(chain, env, reg, j, register) {
        SoundAgrees(chain, env, reg, j);
        RightMeansAgree(chain, env, reg, j);
      }
    }
    if RightEverywhere(chain, env, reg) {
      forall j | 0 <= j < |chain| ensures SoundAt(chain, env, j) {
        RightMeansAgree(chain, env, reg, j);
        RightMeansAgree(chain, env, reg, j + 1);
        assert AgreeAfter(chain, env, reg, j) && AgreeAfter(chain, env, reg, j + 1);
        RunMore(chain, env, reg, j);
        AgreeStep(chain[j], IntRun(chain[..j], env), MachineRun(chain[..j], reg));
      }
    }
  }

  /** What the driver returns is right for every run along its path that meets the
      condition, also past instructions outside the fragment. */
  lemma ResolvedIsRight(register: Name, cache: seq<Instr>, prevs: map<Next, seq<nat>>, path: seq<nat>, t: Item,
                        answer: Item, env: Env, reg: Name -> int)
    requires Follows(register, cache, prevs, path, t) && t.Node? && Simplified(t) == Ok(answer)
    requires Agree(env, reg) && SoundUpTo(Chain(cache, path[..|path| - 1]), env, |path| - 1)
    ensures Wrap(Value(answer, env)) == MachineRun(Chain(cache, path[..|path| - 1]), reg)(register)
    ensures Reduced(answer)
  {
    var chain := Chain(cache, path[..|path| - 1]);
    BackProper(Wanted(register), chain);
    SimplifiedValue(t, env);
    SimplifiedReduced(t);
    WantedValue(register, chain, env);
    hide Agree, IntRun, MachineRun, Wrap, Simplified, Reduced, BackChain;
    SoundAgrees(chain, env, reg, |chain|);
    assert chain[..|chain|] == chain;
    AgreeAt(IntRun(chain, env), MachineRun(chain, reg), register);
  }

  lemma {:induction false} SubstProper(t: Item, name: Name, item: Item)
    requires Proper(t) && Proper(item) && item != Nothing
    ensures Proper(Subst(t, name, item)) && (t != Nothing ==> Subst(t, name, item) != Nothing)
  {
    if t.Node? {
      SubstProper(t.left, name, item);
      SubstProper(t.right, name, item);
    }
  }

  lemma {:induction false} BackProper(t: Item, chain: seq<Instr>)
    requires Proper(t)
    ensures Proper(BackChain(t, chain))
    decreases |chain|
  {
    if chain != [] {
      var last := chain[|chain| - 1];
      if Followed(last) {
        ReplacementNames(last);
        SubstProper(t, last.rd, Replacement(last));
      }
      hide Replacement;
      BackProper(Back(t, last), chain[..|chain| - 1]);
    }
  }

  // ----- when the condition holds

  /** An instruction whose expression keeps to the operations that commute with wrapping. */
  predicate ModularInstr(i: Instr)
    requires Followed(i)
  {
    && Modular(Replacement(i)) && (i.AddSub? ==> !i.sum.FlagAdd? && (i.shift.NoShift? || i.shift.Lsl?))
    && (i.AndReg? ==> i.shift.NoShift? && Narrow(i.src)) && (i.Mov? ==> Narrow(i.src))
    && (i.Movz? || i.Movn? ==> i.place == 0)
    && (i.ShiftBy? ==> i.op2.ImmOp? && i.op2.imm < 64)
  }

  /** A register, or an immediate of 32 bits. */
  predicate Narrow(op: Operand) { op.RegOp? || 0 <= op.imm < 0x1_0000_0000 }

  lemma NarrowWord(op: Operand)
    requires op.ImmOp? && Narrow(op)
    ensures Wrap(op.imm) < 0x1_0000_0000
  {
    TwoHalves();
    WrapWord(op.imm);
  }

  lemma ModularIsSound(i: Instr, env: Env)
    requires Followed(i) && ModularInstr(i)
    ensures Sound(i, env)
  {
    if i.Mov? && i.src.ImmOp? { NarrowWord(i.src); }
    hide Wrap, Words, B.Pow2, SoundLsr, SoundAsr;
  }

  /** A shift amount below 64, and a shifted value in the range of a word: unsigned for lsr,
      signed for asr. */
  predicate InRange(i: Instr, env: Env)
    requires i.AsrBy? || i.ShiftBy?
  {
    var a, k := env.reg(i.rn), OperandValue(i.op2, env);
    0 <= k < 64 && (i.AsrBy? ==> 0 <= a + B.Pow2(63) < Words()) && (i.ShiftBy? && i.right ==> 0 <= a < Words())
  }

  lemma InRangeIsSound(i: Instr, env: Env)
    requires (i.AsrBy? || i.ShiftBy?) && InRange(i, env)
    ensures Sound(i, env)
  {
    var a, k := env.reg(i.rn), OperandValue(i.op2, env);
    var d := B.Pow2(k);
    var h := a + B.Pow2(63);
    assert i.AsrBy? ==> SignedOverflows(a) == 0 by { if i.AsrBy? { QuotientIs(h, Words(), 0, h); } }
    assert i.ShiftBy? && i.right ==> Overflows(a) == 0 by { if i.ShiftBy? && i.right { QuotientIs(a, Words(), 0, a); } }
    assert 0 % d == 0 by { QuotientIs(0, d, 0, 0); }
    hide Words, Overflows, SignedOverflows, B.Pow2, Wrap;
  }

  /** On a word lsr is always right; asr is exactly if the word is not negative, since both
      become the same operator. */
  lemma WordShifts(a: int, k: int)
    requires 0 <= a < Words() && 0 <= k < 64
    ensures SoundLsr(a, k)
    ensures SoundAsr(a, k) <==> k == 0 || a < B.Pow2(63)
  {
    var d, h := B.Pow2(k), B.Pow2(63);
    HalfWords();
    PowerOne(k);
    assert SoundLsr(a, k) == (Overflows(a) % d == 0) && SoundAsr(a, k) == (SignedOverflows(a) % d == 0);
    Unfolded(a, a);
    WrapIs(a);
    hide *;
    QuotientIs(a, Words(), 0, a);
    QuotientIs(0, d, 0, 0);
    if a < h {
      QuotientIs(a + h, Words(), 0, a + h);
    } else {
      QuotientIs(a + h, Words(), 1, a - h);
      if d == 1 { QuotientIs(1, 1, 1, 0); } else { QuotientIs(1, d, 0, 1); }
    }
  }

  /** Shifted by 64 or more, a word is 0 for the evaluator, and for the machine exactly if it
      is below 2 to the amount modulo 64. */
  lemma LongLsr(a: int, k: int)
    requires 0 <= a < Words() && k >= 64
    ensures SoundLsr(a, k) <==> a < B.Pow2(k % 64)
  {
    LsrCases(a, k);
    OfWord(a);
    hide *;
    QuotientZero(0, B.Pow2(k - 64));
    WrapWord(0);
    QuotientZero(a, B.Pow2(k % 64));
  }

  /** A signed word becomes 0 or -1 for the evaluator. */
  lemma LongAsr(a: int, k: int)
    requires 0 <= a + B.Pow2(63) < Words() && k >= 64
    ensures SoundAsr(a, k) <==> 0 - B.Pow2(k % 64) <= a < B.Pow2(k % 64)
  {
    AsrCases(a, k);
    OfSigned(a);
    hide *;
    var d, e := B.Pow2(k - 64), B.Pow2(k % 64);
    QuotientZero(Overflows(a), d);
    QuotientZero(a, e);
    SignedQuotient(a, e);
    HalfWords();
    SameSigned(if a >= 0 then 0 else -1, a / e);
  }

  lemma OfWord(a: int)
    requires 0 <= a < Words()
    ensures Overflows(a) == 0 && Wrap(a) == a
  {
    QuotientIs(a, Words(), 0, a);
    hide Words;
  }

  lemma OfSigned(a: int)
    requires 0 <= a + B.Pow2(63) < Words()
    ensures Overflows(a) == (if a >= 0 then 0 else -1) && Signed(Wrap(a)) == a
  {
    HalfWords();
    if a >= 0 { QuotientIs(a, Words(), 0, a); } else { QuotientIs(a, Words(), -1, a + Words()); }
    hide B.Pow2, Words;
  }

  // ----- where it fails

  /** and x0, x1, x2, lsl #3 with x1 = 8 and x2 = 1 is 8; the evaluator drops the shift. */
  lemma AndFails(env: Env, reg: Name -> int)
    requires Agree(env, reg) && reg(1) == env.reg(1) == 8 && reg(2) == env.reg(2) == 1
    ensures var i := AndReg(0, 1, RegOp(2), Lsl(3));
            Value(Replacement(i), env) == 0 && MachineValue(i, reg) == 8 && !Sound(i, env)
  {
    var i := AndReg(0, 1, RegOp(2), Lsl(3));
    assert Followed(i);
    hide *;
    AndIs(i, env, reg);
    PairValue(Reg(1), Reg(2), AndOp, env);
    ShiftedIs(1, Lsl(3));
    EightWords();
    StepSound(i, env, reg);
    OperandOf(2, env, reg);
  }

  lemma EightWords()
    ensures B.Pow2(3) == 8 && And(8, 1) == 0 && And(8, 8) == 8 && Wrap(8) == 8 && Wrap(0) == 0
  {
    assert B.Pow2(3) == 8;
    hide B.Pow2;
    Pow2Monotone(6, 64);
    SmallPowers();
    WordsIs();
    WrapWord(8);
    WrapWord(0);
  }

  /** mov x0, #-1 is 2^64 - 1; the evaluator finds 2^32 - 1. */
  lemma MovFails(env: Env, reg: Name -> int)
    ensures var i := Mov(0, ImmOp(-1));
            Value(Replacement(i), env) == 0xffff_ffff && MachineValue(i, reg) == Words() - 1 && !Sound(i, env)
  {
    TwoHalves();
    BorrowWords();
    hide Wrap, Words, B.Pow2;
  }

  /** and x0, x1, #-16 with x1 = 2^32 leaves x1; the evaluator finds 0. */
  lemma AndWideFails(env: Env, reg: Name -> int)
    requires Agree(env, reg) && env.reg(1) == reg(1) == 0x1_0000_0000
    ensures var i := AndReg(0, 1, ImmOp(-16), NoShift);
            Value(Replacement(i), env) == 0 && MachineValue(i, reg) == 0x1_0000_0000 && !Sound(i, env)
  {
    var i := AndReg(0, 1, ImmOp(-16), NoShift);
    assert Followed(i) && View(ImmOp(-16)) == ImmOp(0xffff_fff0) && OperandItem(ImmOp(0xffff_fff0)) == Num(0xffff_fff0);
    assert OperandValue(ImmOp(0xffff_fff0), env) == 0xffff_fff0 && OperandWord(ImmOp(-16), reg) == Wrap(-16);
    hide *;
    AndIs(i, env, reg);
    PairValue(Reg(1), Num(0xffff_fff0), AndOp, env);
    ShiftedIs(Wrap(-16), NoShift);
    WideWords();
    StepSound(i, env, reg);
  }

  lemma WideWords()
    ensures And(0x1_0000_0000, 0xffff_fff0) == 0 && And(0x1_0000_0000, Wrap(-16)) == 0x1_0000_0000
    ensures Wrap(0) == 0 && Wrap(0x1_0000_0000) == 0x1_0000_0000
  {
    hide *;
    TwoHalves();
    WrapWord(0);
    WrapWord(0x1_0000_0000);
    WrapArithmetic(0x1_0000_0000, -16);
    AndOfWords(0x1_0000_0000, Wrap(-16)) by { WrapRange(-16); }
    AndPower(32, 0xffff_fff0);
    AndPower(32, -16);
    Pow2Add(16, 16);
    Sixteen();
    BitIs(0xffff_fff0, 32);
    BitIs(-16, 32);
    QuotientIs(0xffff_fff0, 0x1_0000_0000, 0, 0xffff_fff0);
    QuotientIs(-16, 0x1_0000_0000, -1, 0xffff_fff0);
  }

  lemma BitIs(w: int, n: nat)
    ensures Bit(w, n) <==> w / B.Pow2(n) % 2 == 1
  {
  }

  /** Of a single bit, and keeps it exactly if the other has it. */
  lemma {:induction false} AndPower(n: nat, x: int)
    ensures And(B.Pow2(n), x) == if Bit(x, n) then B.Pow2(n) else 0
    decreases n
  {
    if n == 0 {
      BitMore(x, 0);
    } else {
      AndPower(n - 1, x / 2);
      BitMore(x, n - 1);
    }
  }

  lemma OperandOf(r: Name, env: Env, reg: Name -> int)
    ensures OperandWord(RegOp(r), reg) == reg(r) && Value(Reg(r), env) == env.reg(r) && OperandItem(RegOp(r)) == Reg(r)
  {
  }

  /** lsr x0, x1, x2 with x1 = 2^63 and x2 = 64 leaves x1, and the evaluator finds 0. */
  lemma LongFails()
    ensures Apply(ShiftRight, B.Pow2(63), 64) == 0 && B.Pow2(63) / B.Pow2(64 % 64) == B.Pow2(63)
    ensures !SoundLsr(B.Pow2(63), 64)
  {
    HalfWords();
    WordsIs();
    SmallPowers();
    LsrCases(B.Pow2(63), 64);
    Pow2Monotone(1, 63);
    LongLsr(B.Pow2(63), 64);
    hide *;
    QuotientZero(B.Pow2(63), B.Pow2(64));
    QuotientIs(B.Pow2(63), 1, B.Pow2(63), 0);
  }

  /** sub x1, x2, #1; lsr x0, x1, #63 */
  function BorrowChain(): seq<Instr> {
    [AddSub(PlainSub, 1, 2, ImmOp(1), NoShift), ShiftBy(true, 0, 1, ImmOp(63))]
  }

  /** With x2 = 0 the evaluator finds (0 - 1) >> 63 = -1 where the machine has 1. */
  lemma BorrowFails(env: Env, reg: Name -> int)
    requires env.reg(2) == 0 && reg(2) == 0
    ensures Value(BackChain(Wanted(0), BorrowChain()), env) == -1
    ensures MachineRun(BorrowChain(), reg)(0) == 1
    ensures Wrap(-1) != 1
  {
    var c := BorrowChain();
    assert c[..1][..0] == [] && c[..0] == [] && c[..2] == c;
    StraightIsClear(Wanted(0), c);
    assert |c| == 2 && c[0] == AddSub(PlainSub, 1, 2, ImmOp(1), NoShift) && c[1] == ShiftBy(true, 0, 1, ImmOp(63));
    hide *;
    WantedValue(0, c, env);
    EmptyRuns(env, reg);
    RunMore(c, env, reg, 0);
    RunMore(c, env, reg, 1);
    BorrowWords();
    BorrowFirst(env, reg);
    BorrowSecond(IntRun(c[..1], env), MachineRun(c[..1], reg));
  }

  lemma BorrowFirst(env: Env, reg: Name -> int)
    requires env.reg(2) == 0 && reg(2) == 0
    ensures var i := AddSub(PlainSub, 1, 2, ImmOp(1), NoShift);
            IntStep(i, env).reg(1) == -1 && MachineStep(i, reg)(1) == Wrap(-1)
  {
    var i := AddSub(PlainSub, 1, 2, ImmOp(1), NoShift);
    AddSubValue(i, env);
    assert MachineValue(i, reg) == Wrap(0 - Wrap(1));
    hide Wrap, Replacement, MachineValue, Scaled;
    BorrowWords();
    assert Scaled(1, NoShift) == 1 by { ScaledOne(); }
    assert OperandValue(ImmOp(1), env) == 1;
  }

  lemma StepAt(i: Instr, env: Env, reg: Name -> int)
    requires Followed(i)
    ensures IntStep(i, env).reg(i.rd) == Value(Replacement(i), env) && MachineStep(i, reg)(i.rd) == MachineValue(i, reg)
  {
  }

  lemma ScaledOne()
    ensures Scaled(1, NoShift) == 1
  {
  }

  lemma BorrowSecond(env: Env, reg: Name -> int)
    requires env.reg(1) == -1 && reg(1) == Wrap(-1)
    ensures var i := ShiftBy(true, 0, 1, ImmOp(63));
            IntStep(i, env).reg(0) == -1 && MachineStep(i, reg)(0) == 1
  {
    assert Followed(ShiftBy(true, 0, 1, ImmOp(63)));
    var i := ShiftBy(true, 0, 1, ImmOp(63));
    ShiftIs(i, env, reg);
    PairValue(Reg(1), Num(63), ShiftRight, env);
    assert Apply(ShiftRight, -1, 63) == -1 / B.Pow2(63);
    assert OperandWord(ImmOp(63), reg) == Wrap(63) && Value(Reg(1), env) == -1 && Value(Num(63), env) == 63;
    assert Reg(1) == Reg(i.rn) && OperandItem(ImmOp(63)) == Num(63);
    hide *;
    BorrowWords();
    StepAt(i, env, reg);
  }

  lemma EmptyRuns(env: Env, reg: Name -> int)
    ensures IntRun([], env) == env && MachineRun([], reg) == reg
  {
  }

  lemma BorrowWords()
    ensures Wrap(-1) == Words() - 1 && (Words() - 1) / B.Pow2(63) == 1 && -1 / B.Pow2(63) == -1 && Wrap(-1) != 1
    ensures Wrap(1) == 1 && Wrap(63) == 63
  {
    HalfWords();
    Pow2Monotone(6, 63);
    SmallPowers();
    QuotientIs(-1, Words(), -1, Words() - 1);
    QuotientIs(Words() - 1, B.Pow2(63), 1, B.Pow2(63) - 1);
    QuotientIs(-1, B.Pow2(63), -1, B.Pow2(63) - 1);
    WrapIs(-1);
    hide Wrap, B.Pow2;
    WrapWord(1);
    WrapWord(63);
  }
}
