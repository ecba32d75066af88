/** Symbolic expressions over registers: their values as unbounded integers, substitution,
    folding of constants, and values modulo 2^64. */
module Symbolic {
  import B = BitStream

  type Name = nat

  datatype Op = Plus | Minus | Times | Divide | ShiftLeft | ShiftRight | AndOp | XorOp | NoOp

  /** What an expression node holds: a name, a number, nothing, or another node. mem is the
      size of a memory access, 0 for none. */
  datatype Item = Reg(r: Name) | Num(i: int) | Nothing | Node(left: Item, right: Item, op: Op, mem: nat)

  // ----- numbers

  /** Bits of unbounded integers, in two's complement. */
  function And(a: int, b: int): int
    decreases if a < 0 then -a else a
  {
    if a == 0 then 0 else if a == -1 then b else 2 * And(a / 2, b / 2) + (if a % 2 == 1 then b % 2 else 0)
  }

  function Xor(a: int, b: int): int
    decreases if a < 0 then -a else a
  {
    if a == 0 then b else if a == -1 then -1 - b else 2 * Xor(a / 2, b / 2) + (if a % 2 == b % 2 then 0 else 1)
  }

  function Defined(op: Op, a: int, b: int): bool {
    match op
    case Divide => b != 0
    case ShiftLeft => b >= 0
    case ShiftRight => b >= 0
    case NoOp => false
    case _ => true
  }

  /** The operators on unbounded integers; division rounds down. */
  function Apply(op: Op, a: int, b: int): int {
    if !Defined(op, a, b) then 0
    else
      match op
      case Plus => a + b
      case Minus => a - b
      case Times => a * b
      case Divide => if b > 0 then a / b else (-a) / (-b)
      case ShiftLeft => a * B.Pow2(b)
      case ShiftRight => a / B.Pow2(b)
      case AndOp => And(a, b)
      case XorOp => Xor(a, b)
      case NoOp => 0
  }

  /** Division rounds down, also for negative numbers: what is left has the sign of the divisor. */
  lemma DividesDown(a: int, b: int)
    requires b != 0
    ensures var rest := a - Apply(Divide, a, b) * b; if b > 0 then 0 <= rest < b else b < rest <= 0
  {
    if b < 0 {
      var q := (-a) / (-b);
      assert -a == q * (-b) + (-a) % (-b);
      Turned(q, b);
    }
  }

  lemma Turned(q: int, b: int)
    ensures q * (-b) == -(q * b)
  {
  }

  /** Values of registers, and of memory by size and address. */
  datatype Env = Env(reg: Name -> int, load: (nat, int) -> int)

  function Value(t: Item, env: Env): int {
    match t
    case Reg(r) => env.reg(r)
    case Num(i) => i
    case Nothing => 0
    case Node(left, right, op, mem) =>
      var v := if right.Nothing? then Value(left, env) else Apply(op, Value(left, env), Value(right, env));
      if mem == 0 then v else env.load(mem, v)
  }

  function Names(t: Item): set<Name> {
    match t
    case Reg(r) => {r}
    case Node(left, right, _, _) => Names(left) + Names(right)
    case _ => {}
  }

  // ----- substitution

  function Subst(t: Item, name: Name, item: Item): Item {
    match t
    case Reg(r) => if r == name then item else t
    case Node(left, right, op, mem) => Node(Subst(left, name, item), Subst(right, name, item), op, mem)
    case _ => t
  }

  /** The value after a substitution is the value where the register holds the value of what
      was put in its place. */
  lemma {:induction false} SubstValue(t: Item, name: Name, item: Item, env: Env)
    requires item != Nothing
    ensures Value(Subst(t, name, item), env)
            == Value(t, env.(reg := (r: Name) => if r == name then Value(item, env) else env.reg(r)))
  {
    if t.Node? {
      SubstValue(t.left, name, item, env);
      SubstValue(t.right, name, item, env);
    }
  }

  lemma {:induction false} SubstNames(t: Item, name: Name, item: Item)
    ensures Names(Subst(t, name, item)) == if name in Names(t) then (Names(t) - {name}) + Names(item) else Names(t)
  {
    if t.Node? {
      SubstNames(t.left, name, item);
      SubstNames(t.right, name, item);
    }
  }

  lemma {:induction false} ValueAgrees(t: Item, e1: Env, e2: Env)
    requires e1.load == e2.load && forall r :: r in Names(t) ==> e1.reg(r) == e2.reg(r)
    ensures Value(t, e1) == Value(t, e2)
  {
    if t.Node? {
      ValueAgrees(t.left, e1, e2);
      ValueAgrees(t.right, e1, e2);
    }
  }

  // ----- folding

  datatype Folded = Ok(t: Item) | Fails

  /** A child that wraps a single item is replaced by that item. */
  function Unwrapped(t: Item): Item {
    if t.Node? && t.right.Nothing? && t.mem == 0 then t.left else t
  }

  function SimplifiedChild(t: Item): Folded
    decreases t, 1
  {
    if t.Node? then
      match Simplified(t)
      case Ok(u) => Ok(Unwrapped(u))
      case Fails => Fails
    else Ok(t)
  }

  /** simplify, which fails where an operation on two numbers does. */
  function Simplified(t: Item): Folded
    requires t.Node?
    decreases t, 0
  {
    var l := SimplifiedChild(t.left);
    if l.Fails? then Fails
    else
      var r := SimplifiedChild(t.right);
      if r.Fails? then Fails
      else if l.t.Num? && r.t.Num? then
        if Defined(t.op, l.t.i, r.t.i) then Ok(Node(Num(Apply(t.op, l.t.i, r.t.i)), Nothing, t.op, t.mem)) else Fails
      else Ok(Node(l.t, r.t, t.op, t.mem))
  }

  /** Every node has something on its left. */
  predicate Proper(t: Item) {
    match t
    case Node(left, right, _, _) => left != Nothing && Proper(left) && Proper(right)
    case _ => true
  }

  /** No pair of numbers is left, and no child wraps a single item. */
  predicate Reduced(t: Item) {
    match t
    case Node(left, right, _, _) =>
      Reduced(left) && Reduced(right) && !(left.Num? && right.Num?) && Unwrapped(left) == left
        && Unwrapped(right) == right
    case _ => true
  }

  lemma {:induction false} SimplifiedValue(t: Item, env: Env)
    requires t.Node? && Proper(t) && Simplified(t).Ok?
    ensures Value(Simplified(t).t, env) == Value(t, env) && Simplified(t).t.Node? && Simplified(t).t.left != Nothing
    ensures Simplified(t).t.mem == t.mem && (t.right == Nothing ==> Simplified(t).t.right == Nothing)
  {
    if t.left.Node? { SimplifiedValue(t.left, env); }
    if t.right.Node? { SimplifiedValue(t.right, env); }
    hide Apply, Defined;
  }

  /** Folding leaves no pair of numbers, and nothing wrapped. */
  lemma {:induction false} SimplifiedReduced(t: Item)
    requires t.Node? && Simplified(t).Ok?
    ensures Reduced(Simplified(t).t)
  {
    if t.left.Node? { SimplifiedReduced(t.left); }
    if t.right.Node? { SimplifiedReduced(t.right); }
    hide Apply, Defined;
  }

  /** Nothing but numbers, and no memory access: its value does not depend on anything. */
  predicate Closed(t: Item) {
    match t
    case Num(_) => true
    case Node(left, right, _, mem) => mem == 0 && Closed(left) && (right.Nothing? || Closed(right))
    case _ => false
  }

  ghost function ClosedValue(t: Item): int {
    Value(t, Env((_: Name) => 0, (_: nat, _: int) => 0))
  }

  /** Somewhere two numbers are divided by 0, shifted by less than 0, or joined by no operation. */
  ghost predicate Stops(t: Item) {
    match t
    case Node(left, right, op, _) =>
      || Stops(left) || Stops(right)
      || (Closed(left) && Closed(right)
          && (op == NoOp || (op == Divide && ClosedValue(right) == 0)
              || ((op == ShiftLeft || op == ShiftRight) && ClosedValue(right) < 0)))
    case _ => false
  }

  /** Folding fails exactly there; and what does not depend on anything becomes a number. */
  lemma {:induction false} ChildFolds(t: Item)
    requires Proper(t)
    ensures SimplifiedChild(t).Fails? <==> Stops(t)
    ensures SimplifiedChild(t).Ok? ==>
              var u := SimplifiedChild(t).t;
              (u.Num? <==> Closed(t)) && (u.Num? ==> u.i == ClosedValue(t)) && (u.Nothing? <==> t.Nothing?)
    decreases t, 1
  {
    hide Apply;
    if t.Node? {
      SimplifiedStops(t);
      if Simplified(t).Ok? { SimplifiedValue(t, Env((_: Name) => 0, (_: nat, _: int) => 0)); }
    }
  }

  lemma {:induction false} SimplifiedStops(t: Item)
    requires t.Node? && Proper(t)
    ensures Simplified(t).Fails? <==> Stops(t)
    ensures Simplified(t).Ok? ==> (Unwrapped(Simplified(t).t).Num? <==> Closed(t))
    decreases t, 0
  {
    hide Apply;
    ChildFolds(t.left);
    ChildFolds(t.right);
  }

  // ----- numbers modulo a power of two

  function Over(b: int, q: int, n: nat): int { b + q * B.Pow2(n) }

  ghost predicate Cong(a: int, b: int, n: nat) {
    exists q :: a == Over(b, q, n)
  }

  lemma MakeCong(a: int, b: int, q: int, n: nat)
    requires a == b + q * B.Pow2(n)
    ensures Cong(a, b, n)
  {
    assert a == Over(b, q, n);
  }

  lemma CongFacts(a: int, b: int, c: int, n: nat)
    ensures Cong(a, a, n)
    ensures Cong(a, b, n) ==> Cong(b, a, n)
    ensures Cong(a, b, n) && Cong(b, c, n) ==> Cong(a, c, n)
  {
    MakeCong(a, a, 0, n);
    if Cong(a, b, n) {
      var q :| a == Over(b, q, n);
      Negated(q, B.Pow2(n));
      MakeCong(b, a, -q, n);
      if Cong(b, c, n) {
        var p :| b == Over(c, p, n);
        assert (q + p) * B.Pow2(n) == q * B.Pow2(n) + p * B.Pow2(n);
        MakeCong(a, c, q + p, n);
      }
    }
  }

  lemma Negated(q: int, m: int)
    ensures (-q) * m == -(q * m)
  {
  }

  lemma CongArithmetic(a: int, a': int, b: int, b': int, n: nat)
    requires Cong(a, a', n) && Cong(b, b', n)
    ensures Cong(a + b, a' + b', n) && Cong(a - b, a' - b', n) && Cong(a * b, a' * b', n)
  {
    var m := B.Pow2(n);
    var p :| a == Over(a', p, n);
    var q :| b == Over(b', q, n);
    assert p * m + q * m == (p + q) * m && p * m - q * m == (p - q) * m;
    MakeCong(a + b, a' + b', p + q, n);
    MakeCong(a - b, a' - b', p - q, n);
    ProductOver(a', b', p, q, m);
    MakeCong(a * b, a' * b', a' * q + p * b' + p * q * m, n);
  }

  lemma ProductOver(a: int, b: int, p: int, q: int, m: int)
    ensures (a + p * m) * (b + q * m) == a * b + (a * q + p * b + p * q * m) * m
  {
    calc {
      (a + p * m) * (b + q * m);
      a * (b + q * m) + (p * m) * (b + q * m);
      a * b + a * (q * m) + (p * m) * b + (p * m) * (q * m);
      { assert a * (q * m) == (a * q) * m && (p * m) * b == (p * b) * m && (p * m) * (q * m) == (p * q * m) * m; }
      a * b + (a * q) * m + (p * b) * m + (p * q * m) * m;
      a * b + (a * q + p * b + p * q * m) * m;
    }
  }

  lemma AndBits(a: int, b: int)
    ensures And(a, b) == 2 * And(a / 2, b / 2) + (if a % 2 == 1 then b % 2 else 0)
  {
  }

  /** Congruent numbers have the same lowest bit and congruent halves. */
  lemma Halves(a: int, b: int, n: nat)
    requires n > 0 && Cong(a, b, n)
    ensures a % 2 == b % 2 && Cong(a / 2, b / 2, n - 1)
  {
    var q :| a == Over(b, q, n);
    var h := q * B.Pow2(n - 1);
    assert q * (2 * B.Pow2(n - 1)) == 2 * h;
    MakeCong(a / 2, b / 2, q, n - 1);
  }

  lemma Doubled(a: int, b: int, d: int, n: nat)
    requires n > 0 && Cong(a, b, n - 1)
    ensures Cong(2 * a + d, 2 * b + d, n)
  {
    var q :| a == Over(b, q, n - 1);
    assert q * (2 * B.Pow2(n - 1)) == 2 * (q * B.Pow2(n - 1));
    MakeCong(2 * a + d, 2 * b + d, q, n);
  }

  lemma {:induction false} CongAnd(a: int, a': int, b: int, b': int, n: nat)
    requires Cong(a, a', n) && Cong(b, b', n)
    ensures Cong(And(a, b), And(a', b'), n)
    decreases n
  {
    if n == 0 {
      MakeCong(And(a, b), And(a', b'), And(a, b) - And(a', b'), 0);
    } else {
      Halves(a, a', n);
      Halves(b, b', n);
      AndBits(a, b);
      AndBits(a', b');
      hide And, Cong;
      CongAnd(a / 2, a' / 2, b / 2, b' / 2, n - 1);
      Doubled(And(a / 2, b / 2), And(a' / 2, b' / 2), if a % 2 == 1 then b % 2 else 0, n);
    }
  }

  /** Numbers below the modulus are congruent only if they are equal. */
  lemma CongSmall(a: int, b: int, n: nat)
    requires 0 <= a < B.Pow2(n) && 0 <= b < B.Pow2(n)
    ensures Cong(a, b, n) <==> a == b
  {
    CongFacts(a, a, 0, n);
    if Cong(a, b, n) {
      var q :| a == Over(b, q, n);
      SmallMultiple(a - b, q, B.Pow2(n));
    }
  }

  lemma SmallMultiple(d: int, q: int, m: int)
    requires d == q * m && -m < d < m
    ensures q == 0 && d == 0
  {
    assert q >= 1 ==> q * m >= m;
    assert q <= -1 ==> q * m <= -m;
  }

  // ----- expressions whose value modulo 2^64 depends only on registers modulo 2^64

  predicate ModularOp(op: Op, right: Item) {
    match op
    case Plus => true
    case Minus => true
    case Times => true
    case AndOp => true
    case XorOp => true
    case ShiftLeft => right.Num? && right.i >= 0
    case _ => false
  }

  /** No memory, no right shift, no division, and no shift by anything but a constant. */
  predicate Modular(t: Item) {
    match t
    case Node(left, right, op, mem) =>
      Modular(left) && Modular(right) && mem == 0 && (right.Nothing? || ModularOp(op, right))
    case _ => true
  }
}
