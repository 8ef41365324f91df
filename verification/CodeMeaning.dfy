/** What generated code does with the value of an expression, by recursion on the expression: it falls through
    with the value, or leaves by a jump that says whether the value is true and may bring a register's value
    along. This is the generator's scheme, with its fault: the jump of a literal operand takes over the jumps
    that were to come to it, and what they bring along. */
module CodeMeaning {
  import opened LuaCode

  /** What a jump brings along: the value in the register of the TESTSET that controls it, if one does. */
  datatype Held = Nothing | Holding(v: Value)

  /** How control goes on after an expression. Falling, it may have come by a jump to here. A literal exit is
      the jump of an operand that is a literal. */
  datatype Way =
    | Falls(v: Value, h: Held)
    | Exits(truth: bool, h: Held, literal: bool)

  /** What is stored when the value is needed in a register. */
  function Delivered(w: Way): Value {
    match w
    case Falls(v, _) => v
    case Exits(_, Holding(v), _) => v
    case Exits(truth, Nothing, _) => Bool(truth)
  }

  function HeldAfter(w: Way): Held { if w.Falls? then w.h else Nothing }

  // ----- what the generator knows of an expression

  datatype Form = AsTrue | AsFalse | AsConst(n: int) | AsLocal | AsNot | AsResult | AsJump

  predicate Literal(f: Form) { f.AsTrue? || f.AsFalse? || f.AsConst? }

  /** Where the value is when no jump was taken (expdesc.k). */
  function FormOf(e: Expr): Form {
    match e
    case Local(_) => AsLocal
    case Const(n) => AsConst(n)
    case True => AsTrue
    case False => AsFalse
    case Binary(_, _, _) => AsResult
    case Relation(_, _, _) => AsJump
    case And(_, b) => FormOf(b)
    case Or(_, b) => FormOf(b)
    case Negate(a) => NotForm(FormOf(a))
  }

  function NotForm(f: Form): Form {
    match f
    case AsFalse => AsTrue
    case AsTrue => AsFalse
    case AsConst(_) => AsFalse
    case AsJump => AsJump
    case _ => AsNot
  }

  /** The first operand needs no jump taken when it has the truth cond. */
  predicate Never(f: Form, cond: bool) { if cond then f.AsFalse? else f.AsTrue? || f.AsConst? }

  predicate Always(f: Form, cond: bool) { if cond then f.AsTrue? else f.AsFalse? }

  /** There are exits taken when the value has the truth t. */
  predicate HasExits(e: Expr, t: bool) {
    match e
    case And(a, b) => HasExits(b, t) || (!t && (HasExits(a, false) || !Never(FormOf(a), false)))
    case Or(a, b) => HasExits(b, t) || (t && (HasExits(a, true) || !Never(FormOf(a), true)))
    case Negate(a) => HasExits(a, !t)
    case _ => false
  }

  /** The operand is used where it is, without code of its own; k are the constants when it is needed. */
  predicate Bare(e: Expr, k: seq<Value>) {
    && !HasExits(e, true) && !HasExits(e, false)
    && match FormOf(e)
       case AsLocal => true
       case AsConst(n) => IndexOf(k, Other(n)) <= MAXINDEXRK
       case AsTrue => |k| <= MAXINDEXRK
       case AsFalse => |k| <= MAXINDEXRK
       case _ => false
  }

  /** The constants after luaK_exp2RK, and after the expression. */
  function OperandConsts(e: Expr, k: seq<Value>): seq<Value> {
    if Bare(e, k) && (FormOf(e).AsTrue? || FormOf(e).AsFalse?) then WithConst(k, Bool(FormOf(e).AsTrue?)) else k
  }

  function Consts(e: Expr, k: seq<Value>): seq<Value>
    decreases e, 0
  {
    match e
    case Const(n) => WithConst(k, Other(n))
    case Negate(a) => Consts(a, k)
    case And(a, b) => Consts(b, Consts(a, k))
    case Or(a, b) => Consts(b, Consts(a, k))
    case Binary(_, a, b) => FirstConsts(b, FirstConsts(a, k))
    case Relation(_, a, b) => FirstConsts(b, FirstConsts(a, k))
    case _ => k
  }

  function FirstConsts(a: Expr, k: seq<Value>): seq<Value>
    decreases a, 1
  {
    OperandConsts(a, Consts(a, k))
  }

  // ----- the generator's steps

  /** An instruction is emitted: jumps to it bring nothing along. */
  function Emit(w: Way): Way { if w.Falls? then Falls(w.v, Nothing) else w }

  /** The exits deliver what they bring along, or their truth. */
  function Close(w: Way): Way { if w.Falls? then w else Falls(Delivered(w), Nothing) }

  /** A test that jumps when the value has the truth cond, keeping the value or not. */
  function Branch(w: Way, cond: bool, keeps: bool): Way {
    if w.Exits? then w
    else if Truthy(w.v) == cond then Exits(cond, if keeps then Holding(w.v) else Nothing, false)
    else Falls(w.v, Nothing)
  }

  /** The jump of a literal, and of every jump to it. */
  function JumpAlways(w: Way, cond: bool): Way { if w.Exits? then w else Exits(cond, w.h, true) }

  /** The exits of one truth come to here. */
  function ComeHere(w: Way, truth: bool): Way {
    if w.Exits? && w.truth == truth then Falls(Bool(truth), w.h) else w
  }

  function Neg(v: Value): Value { Bool(!Truthy(v)) }

  function Invert(w: Way): Way {
    if w.Falls? then Falls(Neg(w.v), w.h) else Exits(!w.truth, Nothing, false)
  }

  /** Leaving when the value has the truth cond. */
  function Guard(f: Form, cond: bool, w: Way): Way {
    if Never(f, cond) then w
    else if Always(f, cond) then JumpAlways(w, cond)
    else Branch(w, cond, !f.AsNot? && !f.AsJump?)
  }

  /** luaK_goiftrue and luaK_goiffalse: falling through means that the value has the given truth. */
  function GoOn(f: Form, truth: bool, w: Way): Way { ComeHere(Guard(f, !truth, w), truth) }

  /** luaK_exp2RK. */
  function Operand(e: Expr, k: seq<Value>, w: Way): Way { if Bare(e, k) then w else Close(Emit(w)) }

  datatype How = ByArith(op: nat) | ByRel(rel: CmpOp)

  function Apply(ops: Ops, how: How, v: Value, w: Value): Value {
    match how
    case ByArith(op) => ops.arith(op, v, w)
    case ByRel(rel) => Bool(Relate(ops, rel, v, w))
  }

  // ----- the expression as coded

  /** The way control takes through the code for e, entered with registers r by a jump that brings h along;
      k are the constants before e. */
  function Coded(ops: Ops, e: Expr, k: seq<Value>, r: Regs, h: Held): Way
    decreases e, 0
  {
    match e
    case Local(i) => Falls(Reg(r, i), h)
    case Const(n) => Falls(Other(n), h)
    case True => Falls(Bool(true), h)
    case False => Falls(Bool(false), h)
    case Negate(a) =>
      var w := Coded(ops, a, k, r, h);
      Invert(if Literal(FormOf(a)) then w else Emit(w))
    case And(a, b) =>
      var w := GoOn(FormOf(a), true, Coded(ops, a, k, r, h));
      if w.Falls? then Coded(ops, b, Consts(a, k), r, w.h) else w
    case Or(a, b) =>
      var w := GoOn(FormOf(a), false, Coded(ops, a, k, r, h));
      if w.Falls? then Coded(ops, b, Consts(a, k), r, w.h) else w
    case Binary(op, a, b) =>
      var v := OperandWay(ops, a, k, r, h);
      var w := OperandWay(ops, b, FirstConsts(a, k), r, HeldAfter(v));
      Falls(Apply(ops, ByArith(op), Delivered(v), Delivered(w)), Nothing)
    case Relation(rel, a, b) =>
      var v := OperandWay(ops, a, k, r, h);
      var w := OperandWay(ops, b, FirstConsts(a, k), r, HeldAfter(v));
      Falls(Apply(ops, ByRel(rel), Delivered(v), Delivered(w)), Nothing)
  }

  /** An operand of arithmetic or of a comparison. */
  function OperandWay(ops: Ops, e: Expr, k: seq<Value>, r: Regs, h: Held): Way
    decreases e, 1
  {
    Operand(e, Consts(e, k), Coded(ops, e, k, r, h))
  }

  // ----- expressions under way

  /** What the code generated so far means: an expression, and the steps made since. */
  datatype Sem =
    | Coding(e: Expr, k: seq<Value>)
    | Emitted(s: Sem)
    | Closing(s: Sem)
    | Branching(s: Sem, cond: bool, keeps: bool)
    | Jumping(s: Sem, cond: bool)
    | Coming(s: Sem, truth: bool)
    | Negating(s: Sem)
    | Following(s: Sem, b: Expr, k: seq<Value>)
    | Applying(v: Value, s: Sem, how: How)
    | Combining(s: Sem, s2: Sem, how: How)

  function Means(ops: Ops, s: Sem, r: Regs, h: Held): Way {
    match s
    case Coding(e, k) => Coded(ops, e, k, r, h)
    case Emitted(s1) => Emit(Means(ops, s1, r, h))
    case Closing(s1) => Close(Means(ops, s1, r, h))
    case Branching(s1, cond, keeps) => Branch(Means(ops, s1, r, h), cond, keeps)
    case Jumping(s1, cond) => JumpAlways(Means(ops, s1, r, h), cond)
    case Coming(s1, truth) => ComeHere(Means(ops, s1, r, h), truth)
    case Negating(s1) => Invert(Means(ops, s1, r, h))
    case Following(s1, b, k) =>
      var w := Means(ops, s1, r, h);
      if w.Falls? then Coded(ops, b, k, r, w.h) else w
    case Applying(v, s1, how) => Falls(Apply(ops, how, v, Delivered(Means(ops, s1, r, h))), Nothing)
    case Combining(s1, s2, how) =>
      var v := Means(ops, s1, r, h);
      var w := Means(ops, s2, r, HeldAfter(v));
      Falls(Apply(ops, how, Delivered(v), Delivered(w)), Nothing)
  }

  /** The registers in use before the expression keep their values. */
  ghost predicate Same(r: Regs, r2: Regs, n: nat) {
    forall i :: 0 <= i < n ==> Reg(r2, i) == Reg(r, i)
  }

  /** Expressions read only registers of local variables. */
  predicate Scoped(e: Expr, n: nat) {
    match e
    case Local(i) => i < n
    case Binary(_, a, b) => Scoped(a, n) && Scoped(b, n)
    case Relation(_, a, b) => Scoped(a, n) && Scoped(b, n)
    case And(a, b) => Scoped(a, n) && Scoped(b, n)
    case Or(a, b) => Scoped(a, n) && Scoped(b, n)
    case Negate(a) => Scoped(a, n)
    case _ => true
  }

  predicate ScopedSem(s: Sem, n: nat) {
    match s
    case Coding(e, _) => Scoped(e, n)
    case Following(s1, b, _) => ScopedSem(s1, n) && Scoped(b, n)
    case Applying(_, s1, _) => ScopedSem(s1, n)
    case Combining(s1, s2, _) => ScopedSem(s1, n) && ScopedSem(s2, n)
    case _ => ScopedSem(s.s, n)
  }

  lemma {:induction false} CodedSame(ops: Ops, e: Expr, k: seq<Value>, r: Regs, r2: Regs, h: Held, n: nat)
    requires Scoped(e, n) && Same(r, r2, n)
    ensures Coded(ops, e, k, r2, h) == Coded(ops, e, k, r, h)
  {
    hide GoOn, Operand, Invert, Apply, Consts, FirstConsts;
    match e
    case Local(i) => assert Reg(r2, i) == Reg(r, i);
    case Negate(a) => CodedSame(ops, a, k, r, r2, h, n);
    case And(a, b) =>
      CodedSame(ops, a, k, r, r2, h, n);
      var w := GoOn(FormOf(a), true, Coded(ops, a, k, r, h));
      if w.Falls? { CodedSame(ops, b, Consts(a, k), r, r2, w.h, n); }
    case Or(a, b) =>
      CodedSame(ops, a, k, r, r2, h, n);
      var w := GoOn(FormOf(a), false, Coded(ops, a, k, r, h));
      if w.Falls? { CodedSame(ops, b, Consts(a, k), r, r2, w.h, n); }
    case Binary(_, a, b) =>
      CodedSame(ops, a, k, r, r2, h, n);
      CodedSame(ops, b, FirstConsts(a, k), r, r2, HeldAfter(OperandWay(ops, a, k, r, h)), n);
    case Relation(_, a, b) =>
      CodedSame(ops, a, k, r, r2, h, n);
      CodedSame(ops, b, FirstConsts(a, k), r, r2, HeldAfter(OperandWay(ops, a, k, r, h)), n);
    case _ =>
  }

  lemma {:induction false} MeansSame(ops: Ops, s: Sem, r: Regs, r2: Regs, h: Held, n: nat)
    requires ScopedSem(s, n) && Same(r, r2, n)
    ensures Means(ops, s, r2, h) == Means(ops, s, r, h)
  {
    hide Coded, Emit, Close, Branch, ComeHere, Invert, Apply, Same;
    match s
    case Coding(e, k) => CodedSame(ops, e, k, r, r2, h, n);
    case Following(s1, b, k) =>
      MeansSame(ops, s1, r, r2, h, n);
      var w := Means(ops, s1, r, h);
      if w.Falls? { CodedSame(ops, b, k, r, r2, w.h, n); }
    case Applying(_, s1, _) => MeansSame(ops, s1, r, r2, h, n);
    case Combining(s1, s2, _) =>
      MeansSame(ops, s1, r, r2, h, n);
      MeansSame(ops, s2, r, r2, HeldAfter(Means(ops, s1, r, h)), n);
    case _ => MeansSame(ops, s.s, r, r2, h, n);
  }

  // ----- forms and ways

  /** A value that is computed or compared is not come to by a jump that brings something along. */
  lemma {:induction false} FormWay(ops: Ops, e: Expr, k: seq<Value>, r: Regs, h: Held)
    requires Coded(ops, e, k, r, h).Falls?
    ensures var w := Coded(ops, e, k, r, h);
            match FormOf(e)
            case AsTrue => w.v == Bool(true)
            case AsFalse => w.v == Bool(false)
            case AsConst(n) => w.v == Other(n)
            case AsJump => w.v.Bool? && w.h == Nothing
            case AsNot => w.v.Bool? && w.h == Nothing
            case AsResult => w.h == Nothing
            case AsLocal => true
  {
    hide GoOn, Operand, Consts, FirstConsts, OperandWay;
    match e
    case Negate(a) => FormWay(ops, a, k, r, h);
    case And(a, b) => FormWay(ops, b, Consts(a, k), r, GoOn(FormOf(a), true, Coded(ops, a, k, r, h)).h);
    case Or(a, b) => FormWay(ops, b, Consts(a, k), r, GoOn(FormOf(a), false, Coded(ops, a, k, r, h)).h);
    case _ =>
  }

  /** No way leaves through exits that are not there. */
  lemma {:induction false} ExitWay(ops: Ops, e: Expr, k: seq<Value>, r: Regs, h: Held)
    requires Coded(ops, e, k, r, h).Exits?
    ensures HasExits(e, Coded(ops, e, k, r, h).truth)
  {
    hide Consts, FirstConsts, OperandWay;
    match e
    case Negate(a) => ExitWay(ops, a, k, r, h);
    case And(a, b) =>
      var v := Coded(ops, a, k, r, h);
      if v.Exits? { ExitWay(ops, a, k, r, h); }
      var w := GoOn(FormOf(a), true, v);
      if w.Falls? { ExitWay(ops, b, Consts(a, k), r, w.h); }
    case Or(a, b) =>
      var v := Coded(ops, a, k, r, h);
      if v.Exits? { ExitWay(ops, a, k, r, h); }
      var w := GoOn(FormOf(a), false, v);
      if w.Falls? { ExitWay(ops, b, Consts(a, k), r, w.h); }
    case _ =>
  }
}
