/** The expression objects of the evaluator, whose fields are overwritten in place. */
module Expressions {
  import opened Symbolic

  datatype Field = Sub(e: Expr) | Word(r: Name) | Int(i: int) | None

  ghost predicate ValidField(f: Field)
    reads if f.Sub? then {f.e} + f.e.Repr else {}
  {
    f.Sub? ==> f.e.Valid()
  }

  ghost function FieldRepr(f: Field): set<Expr>
    reads if f.Sub? then {f.e} else {}
  {
    if f.Sub? then f.e.Repr else {}
  }

  ghost function FieldItem(f: Field): Item
    requires ValidField(f)
    reads if f.Sub? then {f.e} + f.e.Repr else {}
  {
    match f
    case Sub(e) => e.Tree()
    case Word(r) => Reg(r)
    case Int(i) => Num(i)
    case None => Nothing
  }

  /** A field that holds no expression. */
  function PlainItem(f: Field): Item
    requires !f.Sub?
  {
    match f
    case Word(r) => Reg(r)
    case Int(i) => Num(i)
    case None => Nothing
  }

  class Expr {
    var left: Field
    var right: Field
    const operation: Op
    var mem: nat
    ghost var Repr: set<Expr>

    ghost predicate Valid()
      reads this, Repr
      decreases Repr
    {
      && this in Repr
      && (left.Sub? ==> left.e in Repr && left.e.Repr <= Repr && this !in left.e.Repr && left.e.Valid())
      && (right.Sub? ==> right.e in Repr && right.e.Repr <= Repr && this !in right.e.Repr && right.e.Valid())
      && (left.Sub? && right.Sub? ==> left.e.Repr !! right.e.Repr)
    }

    ghost function Tree(): (t: Item)
      requires Valid()
      reads this, Repr
      ensures t.Node?
      decreases Repr
    {
      Node(if left.Sub? then left.e.Tree() else PlainItem(left),
           if right.Sub? then right.e.Tree() else PlainItem(right),
           operation, mem)
    }

    constructor (left: Field, right: Field, op: Op)
      requires ValidField(left) && ValidField(right) && FieldRepr(left) !! FieldRepr(right)
      ensures Valid() && Repr == {this} + FieldRepr(left) + FieldRepr(right)
      ensures this.left == left && this.right == right && operation == op && mem == 0
      ensures Tree() == Node(FieldItem(left), FieldItem(right), op, 0)
    {
      this.left, this.right, operation, mem := left, right, op, 0;
      Repr := {this} + FieldRepr(left) + FieldRepr(right);
    }

    /** copy.deepcopy */
    method Copy() returns (c: Expr)
      requires Valid()
      ensures fresh(c.Repr) && c.Valid() && c.Tree() == Tree()
      decreases Repr, 0
    {
      hide Expr.Valid, Expr.Tree, FieldItem;
      Parts(this);
      var l := CopyField(left);
      Own(l);
      var r := CopyField(right);
      Own(r);
      c := new Expr(l, r, operation);
      c.mem := mem;
      Assembled(c);
    }

    /** Every field that holds the name is overwritten by a copy of the item. */
    method Replace(name: Name, item: Field)
      requires Valid() && ValidField(item) && FieldRepr(item) !! Repr
      modifies Repr
      ensures Valid() && fresh(Repr - old(Repr))
      ensures Tree() == Subst(old(Tree()), name, old(FieldItem(item)))
      decreases Repr, 0
    {
      hide Expr.Valid, Expr.Tree, FieldItem, Subst;
      ghost var before, x := Tree(), FieldItem(item);
      SubstNode(before, name, x);
      Parts(this);
      var l, r := ReplaceBoth(left, right, name, item);
      Own(l);
      Own(r);
      left, right, Repr := l, r, {this} + FieldRepr(l) + FieldRepr(r);
      Assembled(this);
    }

    /** Folds what can be folded; false where the source stops with an error. */
    method Simplify() returns (ok: bool)
      requires Valid()
      modifies Repr
      ensures Repr <= old(Repr)
      ensures ok <==> Simplified(old(Tree())).Ok?
      ensures ok ==> Valid() && Simplified(old(Tree())) == Ok(Tree())
      decreases Repr, 0
    {
      hide Expr.Valid, Expr.Tree, FieldItem, Apply, Defined, Simplified, SimplifiedChild;
      ghost var before := Tree();
      SimplifiedNode(before);
      Parts(this);
      var l, r;
      ok, l, r := SimplifyBoth(left, right);
      if !ok { return; }
      ItemKind(l);
      ItemKind(r);
      if l.Int? && r.Int? {
        if !Defined(operation, l.i, r.i) { return false; }
        l, r := Int(Apply(operation, l.i, r.i)), None;
        ItemKind(l);
        ItemKind(r);
      }
      Own(l);
      Own(r);
      left, right, Repr := l, r, {this} + FieldRepr(l) + FieldRepr(r);
      Assembled(this);
    }
  }

  lemma Assembled(e: Expr)
    requires ValidField(e.left) && ValidField(e.right) && FieldRepr(e.left) !! FieldRepr(e.right)
    requires e !in FieldRepr(e.left) && e !in FieldRepr(e.right)
             && e.Repr == {e} + FieldRepr(e.left) + FieldRepr(e.right)
    ensures e.Valid() && e.Tree() == Node(FieldItem(e.left), FieldItem(e.right), e.operation, e.mem)
  {
  }

  lemma Parts(e: Expr)
    requires e.Valid()
    ensures ValidField(e.left) && ValidField(e.right) && FieldRepr(e.left) !! FieldRepr(e.right)
    ensures e in e.Repr && FieldRepr(e.left) <= e.Repr - {e} && FieldRepr(e.right) <= e.Repr - {e}
    ensures e.Tree() == Node(FieldItem(e.left), FieldItem(e.right), e.operation, e.mem)
  {
  }

  lemma Own(f: Field)
    requires ValidField(f)
    ensures f.Sub? ==> f.e in f.e.Repr
  {
  }

  lemma ItemKind(f: Field)
    requires ValidField(f)
    ensures FieldItem(f).Num? <==> f.Int?
    ensures f.Int? ==> FieldItem(f) == Num(f.i)
    ensures f.Int? || f.None? ==> FieldRepr(f) == {}
    ensures f.None? ==> FieldItem(f) == Nothing
  {
  }

  lemma SubstNode(t: Item, name: Name, item: Item)
    requires t.Node?
    ensures Subst(t, name, item) == Node(Subst(t.left, name, item), Subst(t.right, name, item), t.op, t.mem)
  {
  }

  lemma SimplifiedNode(t: Item)
    requires t.Node?
    ensures var l, r := SimplifiedChild(t.left), SimplifiedChild(t.right);
            Simplified(t) == if l.Fails? || r.Fails? then Fails
                             else if l.t.Num? && r.t.Num? then
                               if Defined(t.op, l.t.i, r.t.i) then Ok(Node(Num(Apply(t.op, l.t.i, r.t.i)), Nothing,
                                 t.op, t.mem))
                               else Fails
                             else Ok(Node(l.t, r.t, t.op, t.mem))
  {
    hide Apply, Defined;
  }

  /** One side of replace. */
  method ReplaceField(f: Field, name: Name, item: Field) returns (g: Field)
    requires ValidField(f) && ValidField(item) && FieldRepr(item) !! FieldRepr(f)
    modifies FieldRepr(f)
    ensures ValidField(g) && fresh(FieldRepr(g) - old(FieldRepr(f)))
    ensures FieldItem(g) == Subst(old(FieldItem(f)), name, old(FieldItem(item)))
    decreases FieldRepr(f), 1
  {
    g := f;
    if f.Sub? {
      f.e.Replace(name, item);
    } else if f == Word(name) {
      g := CopyField(item);
    }
  }

  /** One side of simplify: folded, and unwrapped if a single item is left. */
  method SimplifyField(f: Field) returns (ok: bool, g: Field)
    requires ValidField(f)
    modifies FieldRepr(f)
    ensures ok <==> SimplifiedChild(old(FieldItem(f))).Ok?
    ensures ok ==> ValidField(g) && FieldRepr(g) <= old(FieldRepr(f))
                   && SimplifiedChild(old(FieldItem(f))) == Ok(FieldItem(g))
    decreases FieldRepr(f), 1
  {
    ok, g := true, f;
    if f.Sub? {
      ok := f.e.Simplify();
      if !ok { return; }
      if f.e.right.None? && f.e.mem == 0 { g := f.e.left; }
    }
  }

  /** Both sides of replace. */
  method ReplaceBoth(l: Field, r: Field, name: Name, item: Field) returns (l': Field, r': Field)
    requires ValidField(l) && ValidField(r) && ValidField(item) && FieldRepr(l) !! FieldRepr(r)
    requires FieldRepr(item) !! FieldRepr(l) && FieldRepr(item) !! FieldRepr(r)
    modifies FieldRepr(l), FieldRepr(r)
    ensures ValidField(l') && ValidField(r') && FieldRepr(l') !! FieldRepr(r')
    ensures fresh(FieldRepr(l') - old(FieldRepr(l))) && fresh(FieldRepr(r') - old(FieldRepr(r)))
    ensures FieldItem(l') == Subst(old(FieldItem(l)), name, old(FieldItem(item)))
    ensures FieldItem(r') == Subst(old(FieldItem(r)), name, old(FieldItem(item)))
    decreases FieldRepr(l) + FieldRepr(r), 2
  {
    hide Subst, Expr.Valid, Expr.Tree, FieldItem;
    Own(item);
    Own(r);
    l' := ReplaceField(l, name, item);
    Own(l');
    r' := ReplaceField(r, name, item);
  }

  /** Both sides of simplify. */
  method SimplifyBoth(l: Field, r: Field) returns (ok: bool, l': Field, r': Field)
    requires ValidField(l) && ValidField(r) && FieldRepr(l) !! FieldRepr(r)
    modifies FieldRepr(l), FieldRepr(r)
    ensures ok <==> SimplifiedChild(old(FieldItem(l))).Ok? && SimplifiedChild(old(FieldItem(r))).Ok?
    ensures ok ==> ValidField(l') && ValidField(r') && FieldRepr(l') !! FieldRepr(r')
    ensures ok ==> FieldRepr(l') <= old(FieldRepr(l)) && FieldRepr(r') <= old(FieldRepr(r))
    ensures ok ==> SimplifiedChild(old(FieldItem(l))) == Ok(FieldItem(l'))
                   && SimplifiedChild(old(FieldItem(r))) == Ok(FieldItem(r'))
    decreases FieldRepr(l) + FieldRepr(r), 2
  {
    hide Expr.Valid, Expr.Tree, FieldItem, SimplifiedChild;
    l', r' := None, None;
    Own(r);
    ok, l' := SimplifyField(l);
    if !ok { return; }
    Own(l');
    ok, r' := SimplifyField(r);
  }

  method CopyField(f: Field) returns (c: Field)
    requires ValidField(f)
    ensures ValidField(c) && fresh(FieldRepr(c)) && FieldItem(c) == FieldItem(f)
    decreases FieldRepr(f), 1
  {
    c := f;
    if f.Sub? {
      var x := f.e.Copy();
      c := Sub(x);
    }
  }
}
