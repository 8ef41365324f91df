/** When generated code delivers the value of its expression: exactly when no operand whose value is needed is
    left by the jump of a literal that a test with another value has come to. */
module CodeExact {
  import opened LuaCode
  import opened CodeMeaning
  import opened CodeTheorem
  import opened CodeRun

  /** Control leaves by the jump of a literal and brings along a value that is not the literal. */
  predicate Misled(w: Way) { w.Exits? && w.literal && w.h.Holding? && w.h.v != Bool(w.truth) }

  /** Every operand of arithmetic or of a comparison that is reached delivers its value. */
  predicate OperandsRight(ops: Ops, e: Expr, k: seq<Value>, r: Regs, h: Held) {
    match e
    case Negate(a) => OperandsRight(ops, a, k, r, h)
    case And(a, b) =>
      var w := GoOn(FormOf(a), true, Coded(ops, a, k, r, h));
      OperandsRight(ops, a, k, r, h) && (w.Falls? ==> OperandsRight(ops, b, Consts(a, k), r, w.h))
    case Or(a, b) =>
      var w := GoOn(FormOf(a), false, Coded(ops, a, k, r, h));
      OperandsRight(ops, a, k, r, h) && (w.Falls? ==> OperandsRight(ops, b, Consts(a, k), r, w.h))
    case Binary(_, a, b) =>
      var h2 := HeldAfter(OperandWay(ops, a, k, r, h));
      && OperandsRight(ops, a, k, r, h) && OperandsRight(ops, b, FirstConsts(a, k), r, h2)
      && Delivered(Coded(ops, a, k, r, h)) == Eval(ops, a, r)
      && Delivered(Coded(ops, b, FirstConsts(a, k), r, h2)) == Eval(ops, b, r)
    case Relation(_, a, b) =>
      var h2 := HeldAfter(OperandWay(ops, a, k, r, h));
      && OperandsRight(ops, a, k, r, h) && OperandsRight(ops, b, FirstConsts(a, k), r, h2)
      && Delivered(Coded(ops, a, k, r, h)) == Eval(ops, a, r)
      && Delivered(Coded(ops, b, FirstConsts(a, k), r, h2)) == Eval(ops, b, r)
    case _ => true
  }

  /** No operand of arithmetic or of a comparison that is reached is left by a literal's jump with another value. */
  predicate OperandsLed(ops: Ops, e: Expr, k: seq<Value>, r: Regs, h: Held) {
    match e
    case Negate(a) => OperandsLed(ops, a, k, r, h)
    case And(a, b) =>
      var w := GoOn(FormOf(a), true, Coded(ops, a, k, r, h));
      OperandsLed(ops, a, k, r, h) && (w.Falls? ==> OperandsLed(ops, b, Consts(a, k), r, w.h))
    case Or(a, b) =>
      var w := GoOn(FormOf(a), false, Coded(ops, a, k, r, h));
      OperandsLed(ops, a, k, r, h) && (w.Falls? ==> OperandsLed(ops, b, Consts(a, k), r, w.h))
    case Binary(_, a, b) =>
      var h2 := HeldAfter(OperandWay(ops, a, k, r, h));
      && OperandsLed(ops, a, k, r, h) && OperandsLed(ops, b, FirstConsts(a, k), r, h2)
      && !Misled(Coded(ops, a, k, r, h)) && !Misled(Coded(ops, b, FirstConsts(a, k), r, h2))
    case Relation(_, a, b) =>
      var h2 := HeldAfter(OperandWay(ops, a, k, r, h));
      && OperandsLed(ops, a, k, r, h) && OperandsLed(ops, b, FirstConsts(a, k), r, h2)
      && !Misled(Coded(ops, a, k, r, h)) && !Misled(Coded(ops, b, FirstConsts(a, k), r, h2))
    case _ => true
  }

  /** The way taken has the truth of the value, and only a literal's jump may bring another value along. */
  predicate Agrees(w: Way, v: Value) {
    match w
    case Falls(v2, _) => v2 == v
    case Exits(truth, _, literal) => Truthy(v) == truth && if literal then v == Bool(truth) else Delivered(w) == v
  }

  lemma AgreesExact(w: Way, v: Value)
    requires Agrees(w, v)
    ensures Delivered(w) == v <==> !Misled(w)
  {
  }

  lemma OperandDelivers(ops: Ops, e: Expr, k: seq<Value>, r: Regs, h: Held)
    ensures Delivered(OperandWay(ops, e, k, r, h)) == Delivered(Coded(ops, e, k, r, h))
  {
    hide Coded, Bare, Consts;
  }

  /** Going on after the first operand of `and` or `or`. */
  lemma GoOnAgrees(ops: Ops, a: Expr, k: seq<Value>, r: Regs, h: Held, truth: bool, v: Value)
    requires Agrees(Coded(ops, a, k, r, h), v)
    ensures var w := GoOn(FormOf(a), truth, Coded(ops, a, k, r, h));
            if w.Falls? then Truthy(v) == truth else Truthy(v) != truth && Agrees(w, v)
  {
    hide Coded, FormOf;
    if Coded(ops, a, k, r, h).Falls? { FormWay(ops, a, k, r, h); }
  }

  lemma {:induction false} CodedAgrees(ops: Ops, e: Expr, k: seq<Value>, r: Regs, h: Held)
    requires OperandsRight(ops, e, k, r, h)
    ensures Agrees(Coded(ops, e, k, r, h), Eval(ops, e, r))
  {
    hide GoOn, OperandWay, Consts, FirstConsts, FormOf;
    match e
    case Negate(a) => CodedAgrees(ops, a, k, r, h);
    case And(a, b) =>
      CodedAgrees(ops, a, k, r, h);
      GoOnAgrees(ops, a, k, r, h, true, Eval(ops, a, r));
      var w := GoOn(FormOf(a), true, Coded(ops, a, k, r, h));
      if w.Falls? { CodedAgrees(ops, b, Consts(a, k), r, w.h); }
    case Or(a, b) =>
      CodedAgrees(ops, a, k, r, h);
      GoOnAgrees(ops, a, k, r, h, false, Eval(ops, a, r));
      var w := GoOn(FormOf(a), false, Coded(ops, a, k, r, h));
      if w.Falls? { CodedAgrees(ops, b, Consts(a, k), r, w.h); }
    case Binary(op, a, b) =>
      OperandDelivers(ops, a, k, r, h);
      OperandDelivers(ops, b, FirstConsts(a, k), r, HeldAfter(OperandWay(ops, a, k, r, h)));
    case Relation(rel, a, b) =>
      OperandDelivers(ops, a, k, r, h);
      OperandDelivers(ops, b, FirstConsts(a, k), r, HeldAfter(OperandWay(ops, a, k, r, h)));
    case _ =>
  }

  lemma OperandExact(ops: Ops, e: Expr, k: seq<Value>, r: Regs, h: Held)
    requires OperandsRight(ops, e, k, r, h)
    ensures Delivered(Coded(ops, e, k, r, h)) == Eval(ops, e, r) <==> !Misled(Coded(ops, e, k, r, h))
  {
    CodedAgrees(ops, e, k, r, h);
    AgreesExact(Coded(ops, e, k, r, h), Eval(ops, e, r));
  }

  /** All operands reached are right if and only if none of them is misled. */
  lemma {:induction false} OperandsExact(ops: Ops, e: Expr, k: seq<Value>, r: Regs, h: Held)
    ensures OperandsRight(ops, e, k, r, h) <==> OperandsLed(ops, e, k, r, h)
  {
    hide GoOn, OperandWay, Consts, FirstConsts, FormOf, Coded, Misled, Eval;
    match e
    case Negate(a) => OperandsExact(ops, a, k, r, h);
    case And(a, b) =>
      OperandsExact(ops, a, k, r, h);
      var w := GoOn(FormOf(a), true, Coded(ops, a, k, r, h));
      if w.Falls? { OperandsExact(ops, b, Consts(a, k), r, w.h); }
    case Or(a, b) =>
      OperandsExact(ops, a, k, r, h);
      var w := GoOn(FormOf(a), false, Coded(ops, a, k, r, h));
      if w.Falls? { OperandsExact(ops, b, Consts(a, k), r, w.h); }
    case Binary(_, a, b) =>
      var h2 := HeldAfter(OperandWay(ops, a, k, r, h));
      OperandsExact(ops, a, k, r, h);
      OperandsExact(ops, b, FirstConsts(a, k), r, h2);
      if OperandsRight(ops, a, k, r, h) { OperandExact(ops, a, k, r, h); }
      if OperandsRight(ops, b, FirstConsts(a, k), r, h2) { OperandExact(ops, b, FirstConsts(a, k), r, h2); }
    case Relation(_, a, b) =>
      var h2 := HeldAfter(OperandWay(ops, a, k, r, h));
      OperandsExact(ops, a, k, r, h);
      OperandsExact(ops, b, FirstConsts(a, k), r, h2);
      if OperandsRight(ops, a, k, r, h) { OperandExact(ops, a, k, r, h); }
      if OperandsRight(ops, b, FirstConsts(a, k), r, h2) { OperandExact(ops, b, FirstConsts(a, k), r, h2); }
    case _ =>
  }

  // ----- the generated code

  /** The run of the code generated for e, from its start, with what it leaves in the first free register. */
  ghost predicate Delivers(x: Ctx, fs0: FS, e: Expr, r: Regs, v: Value) {
    var code := Generate(fs0, e).code;
    exists r2: Regs :: Reaches(x, code, Machine(|fs0.code|, r), |code| - 1, r2) && Reg(r2, fs0.freereg) == v
  }

  lemma DeliversCoded(x: Ctx, fs0: FS, e: Expr, r: Regs, v: Value)
    requires Start(fs0) && Scoped(e, fs0.nactvar) && !Generate(fs0, e).err && Generate(fs0, e).k <= x.k
    ensures Delivers(x, fs0, e, r, v) <==> v == Delivered(Coded(x.ops, e, fs0.k, r, Nothing))
  {
    hide Generate, Reaches, Coded, Start;
    var r2 := GeneratedRuns(x, fs0, e, r);
    var code := Generate(fs0, e).code;
    if Delivers(x, fs0, e, r, v) {
      var r3: Regs :| Reaches(x, code, Machine(|fs0.code|, r), |code| - 1, r3) && Reg(r3, fs0.freereg) == v;
      ReachesOnce(x, code, Machine(|fs0.code|, r), |code| - 1, r2, r3);
    }
  }

  /** For every expression and every state of the registers: the code delivers the expression's value, and every
      operand on the way its own, if and only if neither is misled. */
  lemma GeneratedExact(x: Ctx, fs0: FS, e: Expr, r: Regs)
    requires Start(fs0) && Scoped(e, fs0.nactvar) && !Generate(fs0, e).err && Generate(fs0, e).k <= x.k
    ensures Delivers(x, fs0, e, r, Eval(x.ops, e, r)) && OperandsRight(x.ops, e, fs0.k, r, Nothing) <==>
            !Misled(Coded(x.ops, e, fs0.k, r, Nothing)) && OperandsLed(x.ops, e, fs0.k, r, Nothing)
    ensures OperandsLed(x.ops, e, fs0.k, r, Nothing) ==>
              (Delivers(x, fs0, e, r, Eval(x.ops, e, r)) <==> !Misled(Coded(x.ops, e, fs0.k, r, Nothing)))
  {
    hide Generate, Coded, Start, Delivers, Misled, Eval, OperandsLed, OperandsRight;
    DeliversCoded(x, fs0, e, r, Eval(x.ops, e, r));
    OperandsExact(x.ops, e, fs0.k, r, Nothing);
    if OperandsRight(x.ops, e, fs0.k, r, Nothing) { OperandExact(x.ops, e, fs0.k, r, Nothing); }
  }

  // ----- expressions no literal of which is jumped from

  /** No `and` has a first operand that folds to false, and no `or` one that folds to true. */
  predicate NoLiteralJumps(e: Expr) {
    match e
    case Binary(_, a, b) => NoLiteralJumps(a) && NoLiteralJumps(b)
    case Relation(_, a, b) => NoLiteralJumps(a) && NoLiteralJumps(b)
    case And(a, b) => !FormOf(a).AsFalse? && NoLiteralJumps(a) && NoLiteralJumps(b)
    case Or(a, b) => !FormOf(a).AsTrue? && NoLiteralJumps(a) && NoLiteralJumps(b)
    case Negate(a) => NoLiteralJumps(a)
    case _ => true
  }

  lemma {:induction false} NoLiteralExits(ops: Ops, e: Expr, k: seq<Value>, r: Regs, h: Held)
    requires NoLiteralJumps(e)
    ensures Coded(ops, e, k, r, h).Exits? ==> !Coded(ops, e, k, r, h).literal
    ensures OperandsLed(ops, e, k, r, h)
  {
    hide OperandWay, Consts, FirstConsts, FormOf;
    match e
    case Negate(a) => NoLiteralExits(ops, a, k, r, h);
    case And(a, b) =>
      NoLiteralExits(ops, a, k, r, h);
      var w := GoOn(FormOf(a), true, Coded(ops, a, k, r, h));
      if w.Falls? { NoLiteralExits(ops, b, Consts(a, k), r, w.h); }
    case Or(a, b) =>
      NoLiteralExits(ops, a, k, r, h);
      var w := GoOn(FormOf(a), false, Coded(ops, a, k, r, h));
      if w.Falls? { NoLiteralExits(ops, b, Consts(a, k), r, w.h); }
    case Binary(_, a, b) =>
      NoLiteralExits(ops, a, k, r, h);
      NoLiteralExits(ops, b, FirstConsts(a, k), r, HeldAfter(OperandWay(ops, a, k, r, h)));
    case Relation(_, a, b) =>
      NoLiteralExits(ops, a, k, r, h);
      NoLiteralExits(ops, b, FirstConsts(a, k), r, HeldAfter(OperandWay(ops, a, k, r, h)));
    case _ =>
  }

  /** Such expressions, arithmetic and comparisons included, are compiled right for all states of the registers. */
  lemma NoLiteralRuns(x: Ctx, fs0: FS, e: Expr, r: Regs)
    requires Start(fs0) && Scoped(e, fs0.nactvar) && !Generate(fs0, e).err && Generate(fs0, e).k <= x.k
    requires NoLiteralJumps(e)
    ensures Delivers(x, fs0, e, r, Eval(x.ops, e, r))
  {
    hide Generate, Coded, Start, Delivers, Eval;
    NoLiteralExits(x.ops, e, fs0.k, r, Nothing);
    GeneratedExact(x, fs0, e, r);
  }

  // ----- logical expressions, for all states of the registers at once

  /** Locals and constants joined by and, or and not. */
  predicate Logical(e: Expr) {
    match e
    case Binary(_, _, _) => false
    case Relation(_, _, _) => false
    case And(a, b) => Logical(a) && Logical(b)
    case Or(a, b) => Logical(a) && Logical(b)
    case Negate(a) => Logical(a)
    case _ => true
  }

  /** The course control takes when just the locals of a set are true; held says that a jump it comes by is
      controlled by a test that keeps its value. */
  datatype Course = Through(truth: bool, held: bool) | Out(truth: bool, held: bool, literal: bool)

  function Onward(f: Form, truth: bool, c: Course): Course {
    match c
    case Out(v, h, _) => if v == truth then Through(truth, h) else c
    case Through(v, h) =>
      if Never(f, !truth) then c
      else if Always(f, !truth) then Out(!truth, h, true)
      else if v == truth then Through(v, false)
      else Out(!truth, !f.AsNot? && !f.AsJump?, false)
  }

  function CourseOf(e: Expr, t: set<nat>, held: bool): Course {
    match e
    case Local(i) => Through(i in t, held)
    case True => Through(true, held)
    case False => Through(false, held)
    case Negate(a) =>
      (match CourseOf(a, t, held)
       case Through(v, h) => Through(!v, Literal(FormOf(a)) && h)
       case Out(v, _, _) => Out(!v, false, false))
    case And(a, b) =>
      var c := Onward(FormOf(a), true, CourseOf(a, t, held));
      if c.Through? then CourseOf(b, t, c.held) else c
    case Or(a, b) =>
      var c := Onward(FormOf(a), false, CourseOf(a, t, held));
      if c.Through? then CourseOf(b, t, c.held) else c
    case _ => Through(true, held)
  }

  /** The course leaves by a literal's jump that a test which keeps its value has come to. */
  predicate Overtaken(e: Expr, t: set<nat>) {
    var c := CourseOf(e, t, false);
    c.Out? && c.literal && c.held
  }

  function Seen(w: Way): Course {
    match w
    case Falls(v, h) => Through(Truthy(v), h.Holding?)
    case Exits(truth, h, literal) => Out(truth, h.Holding?, literal)
  }

  predicate Trues(t: set<nat>, r: Regs) { forall i: nat :: i < |r| ==> (i in t <==> Truthy(r[i])) }

  lemma OnwardWay(f: Form, truth: bool, w: Way)
    requires Never(f, !truth) && w.Falls? ==> Truthy(w.v) == truth
    ensures Seen(GoOn(f, truth, w)) == Onward(f, truth, Seen(w))
  {
  }

  lemma NeverWay(ops: Ops, e: Expr, k: seq<Value>, r: Regs, h: Held, cond: bool)
    requires Never(FormOf(e), cond) && Coded(ops, e, k, r, h).Falls?
    ensures Truthy(Coded(ops, e, k, r, h).v) == !cond
  {
    hide Coded, FormOf;
    FormWay(ops, e, k, r, h);
  }

  /** The way taken follows the course of the locals' truths. */
  lemma {:induction false} CourseWay(ops: Ops, e: Expr, k: seq<Value>, r: Regs, h: Held, t: set<nat>)
    requires Logical(e) && Scoped(e, NO_REG) && Trues(t, r)
    ensures Seen(Coded(ops, e, k, r, h)) == CourseOf(e, t, h.Holding?)
    ensures OperandsLed(ops, e, k, r, h)
  {
    hide GoOn, Onward, Consts, FormOf, Never;
    match e
    case Negate(a) => CourseWay(ops, a, k, r, h, t);
    case And(a, b) =>
      CourseWay(ops, a, k, r, h, t);
      var w := Coded(ops, a, k, r, h);
      if w.Falls? && Never(FormOf(a), false) { NeverWay(ops, a, k, r, h, false); }
      OnwardWay(FormOf(a), true, w);
      var w2 := GoOn(FormOf(a), true, w);
      if w2.Falls? { CourseWay(ops, b, Consts(a, k), r, w2.h, t); }
    case Or(a, b) =>
      CourseWay(ops, a, k, r, h, t);
      var w := Coded(ops, a, k, r, h);
      if w.Falls? && Never(FormOf(a), true) { NeverWay(ops, a, k, r, h, true); }
      OnwardWay(FormOf(a), false, w);
      var w2 := GoOn(FormOf(a), false, w);
      if w2.Falls? { CourseWay(ops, b, Consts(a, k), r, w2.h, t); }
    case _ =>
  }

  /** No register holds true or false, so that no value a test keeps is a literal. */
  predicate NoBools(r: Regs) { forall i :: 0 <= i < |r| ==> !r[i].Bool? }

  predicate NotBool(h: Held) { h.Holding? ==> !h.v.Bool? }

  lemma OnwardPlain(f: Form, truth: bool, w: Way)
    requires NotBool(w.h) && (w.Falls? && f.AsLocal? ==> !w.v.Bool?) && !f.AsResult?
    requires w.Falls? && f.AsConst? ==> w.v == Other(f.n)
    requires w.Falls? && f.AsTrue? ==> w.v == Bool(true)
    requires w.Falls? && f.AsFalse? ==> w.v == Bool(false)
    ensures NotBool(GoOn(f, truth, w).h)
  {
  }

  lemma {:induction false} LogicalForm(e: Expr)
    requires Logical(e)
    ensures !FormOf(e).AsResult? && !FormOf(e).AsJump?
  {
    match e
    case Negate(a) => LogicalForm(a);
    case And(_, b) => LogicalForm(b);
    case Or(_, b) => LogicalForm(b);
    case _ =>
  }

  lemma {:induction false} PlainWay(ops: Ops, e: Expr, k: seq<Value>, r: Regs, h: Held)
    requires Logical(e) && NoBools(r) && NotBool(h)
    ensures var w := Coded(ops, e, k, r, h); NotBool(w.h) && (w.Falls? && FormOf(e).AsLocal? ==> !w.v.Bool?)
  {
    hide GoOn, Consts, NotBool;
    match e
    case Negate(a) => PlainWay(ops, a, k, r, h); assert NotBool(Nothing) by { NothingPlain(); }
    case And(a, b) =>
      PlainFirst(ops, a, k, r, h, true) by { PlainWay(ops, a, k, r, h); }
      var w := GoOn(FormOf(a), true, Coded(ops, a, k, r, h));
      if w.Falls? { PlainWay(ops, b, Consts(a, k), r, w.h); }
    case Or(a, b) =>
      PlainFirst(ops, a, k, r, h, false) by { PlainWay(ops, a, k, r, h); }
      var w := GoOn(FormOf(a), false, Coded(ops, a, k, r, h));
      if w.Falls? { PlainWay(ops, b, Consts(a, k), r, w.h); }
    case _ =>
  }

  lemma NothingPlain()
    ensures NotBool(Nothing)
  {
  }

  lemma PlainFirst(ops: Ops, a: Expr, k: seq<Value>, r: Regs, h: Held, truth: bool)
    requires Logical(a)
    requires var w := Coded(ops, a, k, r, h); NotBool(w.h) && (w.Falls? && FormOf(a).AsLocal? ==> !w.v.Bool?)
    ensures NotBool(GoOn(FormOf(a), truth, Coded(ops, a, k, r, h)).h)
  {
    hide Coded, FormOf, GoOn;
    LogicalForm(a);
    if Coded(ops, a, k, r, h).Falls? { FormWay(ops, a, k, r, h); }
    OnwardPlain(FormOf(a), truth, Coded(ops, a, k, r, h));
  }

  /** Registers with just the locals of t true. */
  function PlainRegs(t: set<nat>): (r: Regs)
    ensures NoBools(r) && Trues(t, r)
  {
    seq(NO_REG, i requires 0 <= i => if i in t then Other(0) else Nil)
  }

  function TruesOf(r: Regs): (t: set<nat>)
    ensures Trues(t, r)
  {
    set i: nat | i < NO_REG && Truthy(r[i])
  }

  lemma {:induction false} ScopedMore(e: Expr, n: nat, m: nat)
    requires Scoped(e, n) && n <= m
    ensures Scoped(e, m)
  {
    match e
    case Binary(_, a, b) => ScopedMore(a, n, m); ScopedMore(b, n, m);
    case Relation(_, a, b) => ScopedMore(a, n, m); ScopedMore(b, n, m);
    case And(a, b) => ScopedMore(a, n, m); ScopedMore(b, n, m);
    case Or(a, b) => ScopedMore(a, n, m); ScopedMore(b, n, m);
    case Negate(a) => ScopedMore(a, n, m);
    case _ =>
  }

  lemma CourseExact(x: Ctx, fs0: FS, e: Expr, r: Regs, t: set<nat>)
    requires Start(fs0) && Scoped(e, fs0.nactvar) && !Generate(fs0, e).err && Generate(fs0, e).k <= x.k
    requires Logical(e) && Trues(t, r)
    ensures !Overtaken(e, t) ==> Delivers(x, fs0, e, r, Eval(x.ops, e, r))
    ensures NoBools(r) && Overtaken(e, t) ==> !Delivers(x, fs0, e, r, Eval(x.ops, e, r))
  {
    hide Generate, Coded, Delivers, Eval, CourseOf, OperandsLed, NoBools, Trues;
    StartReg(fs0);
    hide Start;
    ScopedMore(e, fs0.nactvar, NO_REG);
    CourseWay(x.ops, e, fs0.k, r, Nothing, t);
    var w := Coded(x.ops, e, fs0.k, r, Nothing);
    assert Seen(w) == CourseOf(e, t, false);
    if NoBools(r) {
      PlainWay(x.ops, e, fs0.k, r, Nothing);
      assert Overtaken(e, t) ==> Misled(w);
    }
    assert Misled(w) ==> Overtaken(e, t);
    GeneratedExact(x, fs0, e, r);
  }

  /** Exactly which logical expressions are compiled right for all states of the registers: those of which no
      choice of the true locals leads control out by a literal's jump that it has come to by a test that keeps
      its value. */
  lemma LogicalExact(x: Ctx, fs0: FS, e: Expr)
    requires Start(fs0) && Scoped(e, fs0.nactvar) && !Generate(fs0, e).err && Generate(fs0, e).k <= x.k
    requires Logical(e)
    ensures (forall r: Regs :: Delivers(x, fs0, e, r, Eval(x.ops, e, r))) <==>
            (forall t: set<nat> :: !Overtaken(e, t))
  {
    hide Generate, Start, Delivers, Eval, CourseOf, NoBools, Trues, Overtaken;
    if t: set<nat> :| Overtaken(e, t) {
      CourseExact(x, fs0, e, PlainRegs(t), t);
      assert !Delivers(x, fs0, e, PlainRegs(t), Eval(x.ops, e, PlainRegs(t)));
    } else {
      forall r: Regs ensures Delivers(x, fs0, e, r, Eval(x.ops, e, r)) {
        CourseExact(x, fs0, e, r, TruesOf(r));
      }
    }
  }

  // ----- what the condition tells apart

  lemma {:induction false} FaultyCourse(t: set<nat>)
    ensures CourseOf(Faulty(), t, false) ==
            if 0 in t && 1 in t then Through(2 in t, true) else Out(false, 0 !in t, true)
  {
    var a := And(Local(0), Local(1));
    assert CourseOf(a, t, false) == if 0 in t then Through(1 in t, false) else Out(false, true, false);
    var o := Or(a, False);
    assert CourseOf(o, t, false) == if 0 in t && 1 in t then Out(true, true, false) else Through(false, 0 !in t);
    assert Faulty() == And(o, Local(2)) && FormOf(o) == AsFalse;
  }

  /** The faulty expression goes wrong exactly when its first local is false. Negated, or behind a test of that
      local, it is right, and so is a literal that no jump comes to. */
  lemma {:induction false} FaultyCourses(t: set<nat>)
    ensures Overtaken(Faulty(), t) <==> 0 !in t
    ensures !Overtaken(Negate(Faulty()), t)
    ensures !Overtaken(And(Local(0), Faulty()), t)
    ensures !Overtaken(And(False, Local(0)), t)
  {
    FaultyCourse(t);
    hide Faulty;
    assert CourseOf(Local(0), t, false) == Through(0 in t, false) && CourseOf(False, t, false) == Through(false, false);
    assert CourseOf(And(Local(0), Faulty()), t, false) ==
      if 0 in t then CourseOf(Faulty(), t, false) else Out(false, true, false);
    assert CourseOf(And(False, Local(0)), t, false) == Out(false, false, true);
  }
}
