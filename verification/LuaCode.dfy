/** Instructions, the part of the virtual machine that runs them, and the code generator for
    logical expressions (lcode.c), on values.

    Jump lists are sequences here; the generator also threads them through the jump operands as
    the source does, and CodeGen.dfy, which keeps only the list heads, follows those threads. */
module LuaCode {

  datatype Value = Nil | Bool(b: bool) | Other(n: int)

  predicate Truthy(v: Value) { v != Nil && v != Bool(false) }

  datatype CmpKind = EQ | LT | LE

  datatype Instr =
    | Move(a: nat, b: nat)
    | LoadK(a: nat, bx: nat)
    | LoadBool(a: nat, val: bool, skip: bool)
    | Not(a: nat, b: nat)
    | Arith(op: nat, a: nat, b: nat, c: nat)
    | Jmp(sbx: int)
    | Cmp(kind: CmpKind, cond: bool, b: nat, c: nat)
    | Test(a: nat, cond: bool)
    | TestSet(a: nat, b: nat, cond: bool)
    | Return

  const NO_JUMP: int := -1
  const NO_REG: nat := 255
  const MAXSTACK: nat := 250
  const BITRK: nat := 256
  const MAXINDEXRK: nat := 255
  const MAXARG_SBX: nat := 131071

  /** testTMode: the next instruction is the jump the test controls. */
  predicate IsTest(i: Instr) { i.Cmp? || i.Test? || i.TestSet? }

  /** The instruction has a register A that is still to be chosen. */
  predicate Relocatable(i: Instr) { i.Not? || i.Arith? }

  // ----- what one instruction does

  type Regs = r: seq<Value> | |r| == NO_REG witness seq(NO_REG, _ => Nil)

  /** Arithmetic and order on values, whatever they are. */
  datatype Ops = Ops(arith: (nat, Value, Value) -> Value, lt: (Value, Value) -> bool, le: (Value, Value) -> bool)

  datatype Ctx = Ctx(ops: Ops, k: seq<Value>)

  function Reg(r: Regs, i: nat): Value { if i < |r| then r[i] else Nil }

  function Write(r: Regs, i: nat, v: Value): Regs { if i < |r| then r[i := v] else r }

  function Kst(x: Ctx, i: nat): Value { if i < |x.k| then x.k[i] else Nil }

  function RK(x: Ctx, r: Regs, i: nat): Value {
    if i >= BITRK then Kst(x, i - BITRK) else Reg(r, i)
  }

  function Compare(x: Ctx, kind: CmpKind, v: Value, w: Value): bool {
    match kind
    case EQ => v == w
    case LT => x.ops.lt(v, w)
    case LE => x.ops.le(v, w)
  }

  /** Whether a test instruction takes the jump after it. */
  function Passes(x: Ctx, i: Instr, r: Regs): bool
    requires IsTest(i)
  {
    match i
    case Cmp(kind, cond, b, c) => Compare(x, kind, RK(x, r, b), RK(x, r, c)) == cond
    case Test(a, cond) => !Truthy(Reg(r, a)) != cond
    case TestSet(_, b, cond) => !Truthy(Reg(r, b)) != cond
  }

  /** The value an instruction stores in its register A. */
  function Result(x: Ctx, i: Instr, r: Regs): Value {
    match i
    case Move(_, b) => Reg(r, b)
    case LoadK(_, bx) => Kst(x, bx)
    case LoadBool(_, val, _) => Bool(val)
    case Not(_, b) => Bool(!Truthy(Reg(r, b)))
    case Arith(op, _, b, c) => x.ops.arith(op, RK(x, r, b), RK(x, r, c))
    case TestSet(_, b, _) => Reg(r, b)
    case _ => Nil
  }

  // ----- the machine

  datatype Machine = Machine(pc: int, r: Regs)

  /** One turn of luaV_execute's loop; a test and the jump after it are one turn. */
  function Step(x: Ctx, code: seq<Instr>, s: Machine): Machine
    requires 0 <= s.pc < |code|
  {
    var i := code[s.pc];
    match i
    case Jmp(sbx) => s.(pc := s.pc + 1 + sbx)
    case Cmp(_, _, _, _) => Machine(if Passes(x, i, s.r) then s.pc + 2 + JumpOffset(code, s.pc + 1) else s.pc + 2, s.r)
    case Test(_, _) => Machine(if Passes(x, i, s.r) then s.pc + 2 + JumpOffset(code, s.pc + 1) else s.pc + 2, s.r)
    case TestSet(a, _, _) =>
      if Passes(x, i, s.r)
      then Machine(s.pc + 2 + JumpOffset(code, s.pc + 1), Write(s.r, a, Result(x, i, s.r)))
      else s.(pc := s.pc + 2)
    case LoadBool(a, val, skip) => Machine(s.pc + (if skip then 2 else 1), Write(s.r, a, Bool(val)))
    case Return => s
    case _ => Machine(s.pc + 1, Write(s.r, i.a, Result(x, i, s.r)))
  }

  function JumpOffset(code: seq<Instr>, pc: int): int {
    if 0 <= pc < |code| && code[pc].Jmp? then code[pc].sbx else 0
  }

  /** The machine started at pc with registers r reaches stop, going forward, with registers r2. */
  predicate Reaches(x: Ctx, code: seq<Instr>, s: Machine, stop: int, r2: Regs)
    decreases stop - s.pc
  {
    if s.pc == stop then s.r == r2
    else 0 <= s.pc < stop && s.pc < |code| && s.pc < Step(x, code, s).pc <= stop
         && Reaches(x, code, Step(x, code, s), stop, r2)
  }

  // ----- jump lists

  /** getjumpcontrol: the test that controls the jump at pc, if it is preceded by one. */
  predicate Controlled(code: seq<Instr>, pc: nat) {
    1 <= pc <= |code| && IsTest(code[pc - 1])
  }

  /** Whether the jump at pc carries a value, that is, is controlled by a TESTSET. */
  predicate Carries(code: seq<Instr>, pc: nat) {
    1 <= pc <= |code| && code[pc - 1].TestSet?
  }

  /** need_value: some jump of the list does not carry a value. */
  predicate NeedValue(code: seq<Instr>, l: seq<nat>) {
    exists i :: 0 <= i < |l| && !Carries(code, l[i])
  }

  /** fixjump. A list member is always a position of the code; elsewhere nothing is changed. */
  function FixJump(code: seq<Instr>, pc: nat, dest: nat): (r: seq<Instr>)
    ensures |r| == |code|
  {
    if pc < |code| then code[pc := Jmp(dest - (pc + 1))] else code
  }

  /** patchtestreg on a TESTSET. */
  function PatchTest(i: Instr, reg: nat): Instr
    requires i.TestSet?
  {
    if reg != NO_REG && reg != i.b then i.(a := reg) else Test(i.b, i.cond)
  }

  /** patchtestreg. */
  function PatchTestReg(code: seq<Instr>, pc: nat, reg: nat): (r: seq<Instr>)
    ensures |r| == |code|
  {
    if Carries(code, pc) then code[pc - 1 := PatchTest(code[pc - 1], reg)] else code
  }

  /** patchlistaux: each jump that carries a value goes to vtarget, the others to dtarget. */
  function PatchList(code: seq<Instr>, l: seq<nat>, vtarget: nat, reg: nat, dtarget: nat): (r: seq<Instr>)
    ensures |r| == |code|
    decreases |l|
  {
    if l == [] then code
    else
      var c := FixJump(PatchTestReg(code, l[0], reg), l[0], if Carries(code, l[0]) then vtarget else dtarget);
      PatchList(c, l[1..], vtarget, reg, dtarget)
  }

  /** removevalues. */
  function RemoveValues(code: seq<Instr>, l: seq<nat>): (r: seq<Instr>)
    ensures |r| == |code|
    decreases |l|
  {
    if l == [] then code else RemoveValues(PatchTestReg(code, l[0], NO_REG), l[1..])
  }

  /** luaK_concat: the last jump of a is made to point at the first of b. */
  function Concat(code: seq<Instr>, a: seq<nat>, b: seq<nat>): (r: seq<Instr>)
    ensures |r| == |code|
  {
    if a == [] || b == [] then code else FixJump(code, a[|a| - 1], b[0])
  }

  // ----- expressions and their descriptions

  datatype CmpOp = Eq | Ne | Lt | Le | Gt | Ge

  /** Logical expressions over locals, constants, arithmetic and comparisons. */
  datatype Expr =
    | Local(reg: nat)
    | Const(n: int)
    | True
    | False
    | Binary(op: nat, l: Expr, r: Expr)
    | Relation(rel: CmpOp, l: Expr, r: Expr)
    | And(l: Expr, r: Expr)
    | Or(l: Expr, r: Expr)
    | Negate(e: Expr)

  predicate Relate(ops: Ops, rel: CmpOp, v: Value, w: Value) {
    match rel
    case Eq => v == w
    case Ne => v != w
    case Lt => ops.lt(v, w)
    case Le => ops.le(v, w)
    case Gt => ops.lt(w, v)
    case Ge => ops.le(w, v)
  }

  function Eval(ops: Ops, e: Expr, r: Regs): Value {
    match e
    case Local(i) => Reg(r, i)
    case Const(n) => Other(n)
    case True => Bool(true)
    case False => Bool(false)
    case Binary(op, a, b) => ops.arith(op, Eval(ops, a, r), Eval(ops, b, r))
    case Relation(rel, a, b) =>
      var v, w := Eval(ops, a, r), Eval(ops, b, r);
      Bool(Relate(ops, rel, v, w))
    case And(a, b) => if Truthy(Eval(ops, a, r)) then Eval(ops, b, r) else Eval(ops, a, r)
    case Or(a, b) => if Truthy(Eval(ops, a, r)) then Eval(ops, a, r) else Eval(ops, b, r)
    case Negate(a) => Bool(!Truthy(Eval(ops, a, r)))
  }

  /** Where the value of an expression is (expdesc.k). VCond is what goiftrue and goiffalse leave:
      control comes here only if the value has that truth. */
  datatype Kind =
    | VTrue
    | VFalse
    | VK(k: nat)
    | VLocal(r: nat)
    | VNonReloc(r: nat)
    | VReloc(pc: nat)
    | VJmp(pc: nat)
    | VCond(truth: bool)

  /** An expression description with its lists of jumps taken when the value is true or false. */
  datatype Desc = Desc(k: Kind, t: seq<nat>, f: seq<nat>)

  /** The state of the generator; `err` records that a limit was exceeded. */
  datatype FS = FS(
    code: seq<Instr>,
    jpc: seq<nat>,
    freereg: nat,
    nactvar: nat,
    k: seq<Value>,
    err: bool)

  /** What generating code never undoes: an error, the constants. */
  predicate Grows(fs: FS, fs2: FS) {
    && (fs.err ==> fs2.err)
    && fs2.nactvar == fs.nactvar
    && fs.k <= fs2.k
  }

  // ----- emitting code

  /** The error of fixjump: the offset does not fit the operand. */
  predicate Far(pc: nat, dest: nat) { dest - (pc + 1) > MAXARG_SBX || pc + 1 - dest > MAXARG_SBX }

  predicate TooFar(code: seq<Instr>, l: seq<nat>, vtarget: nat, dtarget: nat) {
    exists i :: 0 <= i < |l| && Far(l[i], if Carries(code, l[i]) then vtarget else dtarget)
  }

  /** luaK_code: the jumps to here are patched, then the instruction is appended. */
  function Code(fs: FS, i: Instr): (r: FS)
    ensures Grows(fs, r)
  {
    var n := |fs.code|;
    fs.(code := PatchList(fs.code, fs.jpc, n, NO_REG, n) + [i], jpc := [],
        err := fs.err || TooFar(fs.code, fs.jpc, n, n))
  }

  /** luaK_concat, with the error of its fixjump. */
  function Chain(fs: FS, a: seq<nat>, b: seq<nat>): (r: FS)
    ensures Grows(fs, r)
  {
    fs.(code := Concat(fs.code, a, b), err := fs.err || (a != [] && b != [] && Far(a[|a| - 1], b[0])))
  }

  /** luaK_jump: the jumps to here are kept on hold in the list of the new jump. */
  function Jump(fs: FS): (r: (FS, seq<nat>))
    ensures Grows(fs, r.0)
  {
    var n := |fs.code|;
    (Chain(fs.(code := fs.code + [Jmp(NO_JUMP)], jpc := []), [n], fs.jpc), [n] + fs.jpc)
  }

  /** luaK_patchtohere. */
  function PatchToHere(fs: FS, l: seq<nat>): (r: FS)
    ensures Grows(fs, r)
  {
    Chain(fs, fs.jpc, l).(jpc := fs.jpc + l)
  }

  /** condjump: a test and the jump it controls. */
  function CondJump(fs: FS, i: Instr): (r: (FS, seq<nat>))
    ensures Grows(fs, r.0)
  {
    Jump(Code(fs, i))
  }

  // ----- registers and constants

  function Reserve(fs: FS, n: nat): (r: FS)
    ensures Grows(fs, r)
  {
    fs.(freereg := fs.freereg + n, err := fs.err || fs.freereg + n >= MAXSTACK)
  }

  function FreeReg(fs: FS, reg: nat): (r: FS)
    ensures Grows(fs, r)
  {
    if reg < BITRK && reg >= fs.nactvar && fs.freereg > 0 then fs.(freereg := fs.freereg - 1) else fs
  }

  function FreeExp(fs: FS, d: Desc): (r: FS)
    ensures Grows(fs, r)
  {
    if d.k.VNonReloc? then FreeReg(fs, d.k.r) else fs
  }

  function IndexOf(k: seq<Value>, v: Value): (i: nat)
    ensures i <= |k| && (i < |k| ==> k[i] == v)
  {
    if k == [] then 0 else if k[0] == v then 0 else 1 + IndexOf(k[1..], v)
  }

  function WithConst(k: seq<Value>, v: Value): (k2: seq<Value>)
    ensures k <= k2 && IndexOf(k, v) < |k2| && k2[IndexOf(k, v)] == v
  {
    if IndexOf(k, v) < |k| then k else k + [v]
  }

  /** addk: the index of an equal constant, or a new entry. */
  function AddK(fs: FS, v: Value): (r: (FS, nat))
    ensures fs.k <= r.0.k && r.1 < |r.0.k| && r.0.k[r.1] == v && r.0 == fs.(k := r.0.k)
  {
    (fs.(k := WithConst(fs.k, v)), IndexOf(fs.k, v))
  }

  // ----- putting values into registers

  /** luaK_dischargevars for the kinds modelled. */
  function DischargeVars(d: Desc): Desc {
    if d.k.VLocal? then d.(k := VNonReloc(d.k.r)) else d
  }

  function SetA(i: Instr, reg: nat): Instr {
    match i
    case Not(_, b) => Not(reg, b)
    case Arith(op, _, b, c) => Arith(op, reg, b, c)
    case _ => i
  }

  /** discharge2reg. */
  function Discharge2Reg(fs: FS, d: Desc, reg: nat): (r: (FS, Desc))
    ensures Grows(fs, r.0)
  {
    match d.k
    case VTrue => (Code(fs, LoadBool(reg, true, false)), d.(k := VNonReloc(reg)))
    case VFalse => (Code(fs, LoadBool(reg, false, false)), d.(k := VNonReloc(reg)))
    case VK(k) => (Code(fs, LoadK(reg, k)), d.(k := VNonReloc(reg)))
    case VReloc(pc) =>
      (fs.(code := if pc < |fs.code| then fs.code[pc := SetA(fs.code[pc], reg)] else fs.code), d.(k := VNonReloc(reg)))
    case VNonReloc(r) => (if r != reg then Code(fs, Move(reg, r)) else fs, d.(k := VNonReloc(reg)))
    case VLocal(r) => (if r != reg then Code(fs, Move(reg, r)) else fs, d.(k := VNonReloc(reg)))
    case _ => (fs, d)
  }

  /** discharge2anyreg. */
  function Discharge2AnyReg(fs: FS, d: Desc): (r: (FS, Desc))
    ensures Grows(fs, r.0)
  {
    if d.k.VNonReloc? then (fs, d) else Discharge2Reg(Reserve(fs, 1), d, fs.freereg)
  }

  /** code_label: a load that may be jumped to. */
  function CodeLabel(fs: FS, reg: nat, val: bool, skip: bool): (r: FS)
    ensures Grows(fs, r)
  {
    Code(fs, LoadBool(reg, val, skip))
  }

  /** The loads of false and true that jumps without a value go to, in exp2reg. The fall-through jumps over
      them, unless it is a comparison that was itself turned into a jump. */
  function Materialize(fs: FS, jumped: bool, reg: nat): (r: FS)
    ensures Grows(fs, r)
  {
    var (fs1, fj) := if jumped then (fs, []) else Jump(fs);
    PatchToHere(CodeLabel(CodeLabel(fs1, reg, false, true), reg, true, false), fj)
  }

  /** The end of exp2reg: exits that carry a value store it and go to the end, the others go to a load. */
  function CloseLists(fs: FS, d: Desc, reg: nat, pf: nat, pt: nat): (r: FS)
    ensures Grows(fs, r)
  {
    var n := |fs.code|;
    var c := PatchList(fs.code, d.f, n, reg, pf);
    fs.(code := PatchList(c, d.t, n, reg, pt),
        err := fs.err || TooFar(fs.code, d.f, n, pf) || TooFar(c, d.t, n, pt))
  }

  /** A jump that the expression itself turned into joins the exits taken when it is true. */
  function JoinJump(fs: FS, d: Desc): (r: (FS, Desc))
    ensures Grows(fs, r.0)
  {
    if d.k.VJmp? then (Chain(fs, d.t, [d.k.pc]), d.(t := d.t + [d.k.pc])) else (fs, d)
  }

  /** exp2reg. */
  function Exp2Reg(fs: FS, d0: Desc, reg: nat): (r: (FS, Desc))
    ensures Grows(fs, r.0)
  {
    var (fs1, d1) := Discharge2Reg(fs, d0, reg);
    var (fs2, d2) := JoinJump(fs1, d1);
    var r := Desc(VNonReloc(reg), [], []);
    if d2.t == [] && d2.f == [] then (fs2, r)
    else if NeedValue(fs2.code, d2.t) || NeedValue(fs2.code, d2.f) then
      var n := |fs2.code| + if d1.k.VJmp? then 0 else 1;
      (CloseLists(Materialize(fs2, d1.k.VJmp?, reg), d2, reg, n, n + 1), r)
    else (CloseLists(fs2, d2, reg, 0, 0), r)
  }

  /** luaK_exp2nextreg. */
  function Exp2NextReg(fs: FS, d0: Desc): (r: (FS, Desc))
    ensures Grows(fs, r.0)
  {
    var d := DischargeVars(d0);
    var fs1 := FreeExp(fs, d);
    Exp2Reg(Reserve(fs1, 1), d, fs1.freereg)
  }

  /** luaK_exp2anyreg. */
  function Exp2AnyReg(fs: FS, d0: Desc): (r: (FS, Desc))
    ensures Grows(fs, r.0)
  {
    var d := DischargeVars(d0);
    if d.k.VNonReloc? && d.t == [] && d.f == [] then (fs, d)
    else if d.k.VNonReloc? && d.k.r >= fs.nactvar then Exp2Reg(fs, d, d.k.r)
    else Exp2NextReg(fs, d)
  }

  /** luaK_exp2val. */
  function Exp2Val(fs: FS, d: Desc): (r: (FS, Desc))
    ensures Grows(fs, r.0)
  {
    if d.t != [] || d.f != [] then Exp2AnyReg(fs, d) else (fs, DischargeVars(d))
  }

  /** luaK_exp2RK: the operand as a constant if it is one that fits, else in a register. */
  function Exp2RK(fs: FS, d0: Desc): (r: (FS, Desc, nat))
    ensures Grows(fs, r.0)
  {
    var (fs1, d) := Exp2Val(fs, d0);
    if (d.k.VTrue? || d.k.VFalse?) && |fs1.k| <= MAXINDEXRK then
      var (fs2, i) := AddK(fs1, Bool(d.k.VTrue?));
      (fs2, d.(k := VK(i)), i + BITRK)
    else if d.k.VK? && d.k.k <= MAXINDEXRK then (fs1, d, d.k.k + BITRK)
    else
      var (fs2, d2) := Exp2AnyReg(fs1, d);
      (fs2, d2, if d2.k.VNonReloc? then d2.k.r else 0)
  }

  // ----- conditions

  /** invertjump on the comparison before the jump. */
  function InvertJump(code: seq<Instr>, pc: nat): (r: seq<Instr>)
    ensures |r| == |code|
  {
    if 1 <= pc <= |code| && code[pc - 1].Cmp?
    then var i := code[pc - 1]; code[pc - 1 := Cmp(i.kind, !i.cond, i.b, i.c)] else code
  }

  /** jumponcond: jumps if the value has the truth `cond`; a NOT just emitted is folded into the test. */
  function JumpOnCond(fs: FS, d: Desc, cond: bool): (r: (FS, seq<nat>))
    ensures Grows(fs, r.0)
  {
    if d.k.VReloc? && d.k.pc < |fs.code| && fs.code[d.k.pc].Not? then
      CondJump(fs.(code := fs.code[..|fs.code| - 1]), Test(fs.code[d.k.pc].b, !cond))
    else
      var (fs1, d1) := Discharge2AnyReg(fs, d);
      CondJump(FreeExp(fs1, d1), TestSet(NO_REG, if d1.k.VNonReloc? then d1.k.r else 0, cond))
  }

  /** The jump luaK_goiftrue takes when the value is false. */
  function FalseJump(fs: FS, d: Desc): (r: (FS, seq<nat>))
    ensures Grows(fs, r.0)
  {
    match d.k
    case VK(_) => (fs, [])
    case VTrue => (fs, [])
    case VFalse => Jump(fs)
    case VJmp(pc) => (fs.(code := InvertJump(fs.code, pc)), [pc])
    case _ => JumpOnCond(fs, d, false)
  }

  /** The jump luaK_goiffalse takes when the value is true. */
  function TrueJump(fs: FS, d: Desc): (r: (FS, seq<nat>))
    ensures Grows(fs, r.0)
  {
    match d.k
    case VFalse => (fs, [])
    case VTrue => Jump(fs)
    case VJmp(pc) => (fs, [pc])
    case _ => JumpOnCond(fs, d, true)
  }

  /** luaK_goiftrue: go on here if the value is true, exit through f otherwise. */
  function GoIfTrue(fs: FS, d0: Desc): (r: (FS, Desc))
    ensures Grows(fs, r.0)
  {
    var d := DischargeVars(d0);
    var (fs1, l) := FalseJump(fs, d);
    (PatchToHere(Chain(fs1, d.f, l), d.t), Desc(VCond(true), [], d.f + l))
  }

  /** luaK_goiffalse. */
  function GoIfFalse(fs: FS, d0: Desc): (r: (FS, Desc))
    ensures Grows(fs, r.0)
  {
    var d := DischargeVars(d0);
    var (fs1, l) := TrueJump(fs, d);
    (PatchToHere(Chain(fs1, d.t, l), d.f), Desc(VCond(false), d.t + l, []))
  }

  // ----- operators

  /** codenot on the value that falls through. */
  function NotValue(fs: FS, d: Desc): (r: (FS, Kind))
    ensures Grows(fs, r.0)
  {
    match d.k
    case VFalse => (fs, VTrue)
    case VK(_) => (fs, VFalse)
    case VTrue => (fs, VFalse)
    case VJmp(pc) => (fs.(code := InvertJump(fs.code, pc)), d.k)
    case _ =>
      var (fs1, d1) := Discharge2AnyReg(fs, d);
      var fs2 := FreeExp(fs1, d1);
      (Code(fs2, Not(0, if d1.k.VNonReloc? then d1.k.r else 0)), VReloc(|fs2.code|))
  }

  /** codenot: the lists are exchanged, and their jumps carry no values any more. */
  function CodeNot(fs: FS, d0: Desc): (r: (FS, Desc))
    ensures Grows(fs, r.0)
  {
    var d := DischargeVars(d0);
    var (fs1, k) := NotValue(fs, d);
    (fs1.(code := RemoveValues(RemoveValues(fs1.code, d.t), d.f)), Desc(k, d.f, d.t))
  }

  function Free2(fs: FS, d1: Desc, d2: Desc): (r: FS)
    ensures Grows(fs, r)
  { FreeExp(FreeExp(fs, d1), d2) }

  /** codearith without constant folding. */
  function CodeArith(fs: FS, op: nat, d1: Desc, d2: Desc): (r: (FS, Desc))
    ensures Grows(fs, r.0)
  {
    var (fs1, e2, o2) := Exp2RK(fs, d2);
    var (fs2, e1, o1) := Exp2RK(fs1, d1);
    var fs3 := if o1 > o2 then Free2(fs2, e1, e2) else Free2(fs2, e2, e1);
    (Code(fs3, Arith(op, 0, o1, o2)), Desc(VReloc(|fs3.code|), e1.t, e1.f))
  }

  /** codecomp: `>` and `>=` become `<` and `<=` with the operands exchanged. */
  function CodeComp(fs: FS, kind: CmpKind, cond: bool, d1: Desc, d2: Desc): (r: (FS, Desc))
    ensures Grows(fs, r.0)
  {
    var (fs1, e1, o1) := Exp2RK(fs, d1);
    var (fs2, e2, o2) := Exp2RK(fs1, d2);
    var fs3 := Free2(fs2, e2, e1);
    var i := if !cond && kind != EQ then Cmp(kind, true, o2, o1) else Cmp(kind, cond, o1, o2);
    var (fs4, _) := CondJump(fs3, i);
    (fs4, Desc(VJmp(|fs3.code| + 1), e1.t, e1.f))
  }

  /** The opcode and condition luaK_posfix passes to codecomp. */
  function Comparison(rel: CmpOp): (CmpKind, bool) {
    match rel
    case Eq => (EQ, true)
    case Ne => (EQ, false)
    case Lt => (LT, true)
    case Le => (LE, true)
    case Gt => (LT, false)
    case Ge => (LE, false)
  }

  /** The end of luaK_posfix for `and`: both operands exit through f when false. */
  function JoinFalse(fs: FS, d1: Desc, d2: Desc): (r: (FS, Desc))
    ensures Grows(fs, r.0)
  {
    (Chain(fs, d2.f, d1.f), DischargeVars(d2).(f := d2.f + d1.f))
  }

  function JoinTrue(fs: FS, d1: Desc, d2: Desc): (r: (FS, Desc))
    ensures Grows(fs, r.0)
  {
    (Chain(fs, d2.t, d1.t), DischargeVars(d2).(t := d2.t + d1.t))
  }

  /** Code for an expression, in the order the parser calls luaK_prefix, luaK_infix and luaK_posfix. */
  function Compile(fs: FS, e: Expr): (r: (FS, Desc))
    ensures Grows(fs, r.0)
    decreases e
  {
    match e
    case Local(r) => (fs, Desc(VLocal(r), [], []))
    case Const(n) => var (fs1, i) := AddK(fs, Other(n)); (fs1, Desc(VK(i), [], []))
    case True => (fs, Desc(VTrue, [], []))
    case False => (fs, Desc(VFalse, [], []))
    case Negate(a) =>
      var (fs1, d) := Compile(fs, a);
      CodeNot(fs1, d)
    case And(a, b) =>
      var (fs1, d) := Compile(fs, a);
      var (fs2, d1) := GoIfTrue(fs1, d);
      var (fs3, d2) := Compile(fs2, b);
      JoinFalse(fs3, d1, d2)
    case Or(a, b) =>
      var (fs1, d) := Compile(fs, a);
      var (fs2, d1) := GoIfFalse(fs1, d);
      var (fs3, d2) := Compile(fs2, b);
      JoinTrue(fs3, d1, d2)
    case Binary(op, a, b) =>
      var (fs1, d) := Compile(fs, a);
      var (fs2, d1, _) := Exp2RK(fs1, d);
      var (fs3, d2) := Compile(fs2, b);
      CodeArith(fs3, op, d1, d2)
    case Relation(rel, a, b) =>
      var (fs1, d) := Compile(fs, a);
      var (fs2, d1, _) := Exp2RK(fs1, d);
      var (fs3, d2) := Compile(fs2, b);
      CodeComp(fs3, Comparison(rel).0, Comparison(rel).1, d1, d2)
  }
}
