/** The bytecode checker: symbexec in its full mode, as luaG_checkcode calls it, and what its acceptance means
    for the paths luaV_execute can take through a function. */
module Checker {
  import opened Wrappers
  import opened Prototypes

  const MAXSTACK: nat := 250
  const BITRK: nat := 256
  const VARARG_HASARG: nat := 1
  const VARARG_ISVARARG: nat := 2
  const VARARG_NEEDSARG: nat := 4

  predicate Bit(x: nat, bit: nat)
    requires bit > 0
  {
    x / bit % 2 == 1
  }

  // ----- instruction formats

  datatype Mode = IABC | IABx | IAsBx

  datatype ArgMask = ArgN | ArgU | ArgR | ArgK

  function OpMode(op: nat): Mode {
    if op == OP_LOADK || op == OP_GETGLOBAL || op == OP_SETGLOBAL || op == OP_CLOSURE then IABx
    else if op == OP_JMP || op == OP_FORLOOP || op == OP_FORPREP then IAsBx
    else IABC
  }

  function BMode(op: nat): ArgMask {
    if op == OP_MOVE || op == OP_LOADNIL || op == OP_GETTABLE || op == OP_SELF then ArgR
    else if op == OP_LOADK || op == OP_GETGLOBAL || op == OP_SETGLOBAL || op == OP_SETTABLE then ArgK
    else if OP_ADD <= op <= OP_POW then ArgK
    else if op == OP_UNM || op == OP_NOT || op == OP_LEN || op == OP_CONCAT || op == OP_JMP then ArgR
    else if op == OP_EQ || op == OP_LT || op == OP_LE then ArgK
    else if op == OP_TEST || op == OP_TESTSET || op == OP_FORLOOP || op == OP_FORPREP then ArgR
    else if op == OP_TFORLOOP || op == OP_CLOSE then ArgN
    else ArgU
  }

  function CMode(op: nat): ArgMask {
    if op == OP_LOADBOOL || op == OP_NEWTABLE || op == OP_TEST || op == OP_TESTSET then ArgU
    else if op == OP_CALL || op == OP_TAILCALL || op == OP_TFORLOOP || op == OP_SETLIST then ArgU
    else if op == OP_GETTABLE || op == OP_SETTABLE || op == OP_SELF || OP_ADD <= op <= OP_POW then ArgK
    else if op == OP_EQ || op == OP_LT || op == OP_LE then ArgK
    else if op == OP_CONCAT then ArgR
    else ArgN
  }

  /** testTMode: the next instruction is the jump of a test. */
  predicate IsTest(op: nat) {
    op == OP_EQ || op == OP_LT || op == OP_LE || op == OP_TEST || op == OP_TESTSET || op == OP_TFORLOOP
  }

  // ----- instructions and the counts of SETLIST

  /** A SETLIST whose count is the next word, or a word that looks like one. */
  predicate TakesWord(w: Word) { Op(w) == OP_SETLIST && C(w) == 0 }

  /** The position holds an instruction: going through the code from its start, counts are stepped over. */
  predicate Real(code: seq<Word>, pc: nat)
    requires pc <= |code|
    decreases pc
  {
    || pc == 0
    || (Real(code, pc - 1) && !TakesWord(code[pc - 1]))
    || (pc >= 2 && Real(code, pc - 2) && TakesWord(code[pc - 2]))
  }

  /** How many words just before pc look like SETLISTs that take a word. */
  function Run(code: seq<Word>, pc: nat): nat
    requires pc <= |code|
    decreases pc
  {
    if pc == 0 || !TakesWord(code[pc - 1]) then 0 else 1 + Run(code, pc - 1)
  }

  /** The run test of symbexec is exact: a position holds an instruction if and only if the run before it is even. */
  lemma {:induction false} RunTest(code: seq<Word>, pc: nat)
    requires pc <= |code|
    ensures Real(code, pc) <==> Run(code, pc) % 2 == 0
    decreases pc
  {
    if pc >= 1 { RunTest(code, pc - 1); }
    if pc >= 2 { RunTest(code, pc - 2); }
  }

  // ----- the checks

  predicate RegOK(pt: Proto, r: int) { r < pt.maxstacksize }

  /** checkArgMode. */
  predicate ArgOK(pt: Proto, r: nat, mode: ArgMask) {
    match mode
    case ArgN => r == 0
    case ArgU => true
    case ArgR => RegOK(pt, r)
    case ArgK => if r >= BITRK then r - BITRK < |pt.k| else RegOK(pt, r)
  }

  /** luaG_checkopenop. */
  predicate OpenOK(w: Word) {
    (Op(w) == OP_CALL || Op(w) == OP_TAILCALL || Op(w) == OP_RETURN || Op(w) == OP_SETLIST) && B(w) == 0
  }

  predicate PreCheck(pt: Proto) {
    && pt.maxstacksize <= MAXSTACK
    && pt.numparams + (if Bit(pt.isVararg, VARARG_HASARG) then 1 else 0) <= pt.maxstacksize
    && (Bit(pt.isVararg, VARARG_NEEDSARG) ==> Bit(pt.isVararg, VARARG_HASARG))
    && |pt.upvalues| <= pt.nups
    && (|pt.lineinfo| == |pt.code| || |pt.lineinfo| == 0)
    && |pt.code| > 0 && Op(pt.code[|pt.code| - 1]) == OP_RETURN
  }

  /** A jump destination is an instruction of the code. */
  predicate DestOK(pt: Proto, dest: int) {
    0 <= dest < |pt.code| && Run(pt.code, dest) % 2 == 0
  }

  /** The checks that depend on the instruction's format. */
  predicate FormatOK(pt: Proto, pc: nat)
    requires pc < |pt.code|
  {
    var w := pt.code[pc];
    && Op(w) < NUM_OPCODES && RegOK(pt, A(w))
    && match OpMode(Op(w))
       case IABC => ArgOK(pt, B(w), BMode(Op(w))) && ArgOK(pt, C(w), CMode(Op(w)))
       case IABx => BMode(Op(w)) == ArgK ==> Bx(w) < |pt.k|
       case IAsBx => DestOK(pt, pc + 1 + SBx(w))
  }

  predicate TestOK(pt: Proto, pc: nat)
    requires pc < |pt.code|
  {
    IsTest(Op(pt.code[pc])) ==> pc + 2 < |pt.code| && Op(pt.code[pc + 1]) == OP_JMP
  }

  /** A pseudo-instruction naming a variable to capture. */
  predicate Captures(pt: Proto, q: nat)
    requires q < |pt.code|
  {
    Op(pt.code[q]) == OP_GETUPVAL || Op(pt.code[q]) == OP_MOVE
  }

  /** The pseudo-instructions after a CLOSURE. */
  predicate PseudoOK(pt: Proto, pc: nat, nup: nat)
    requires pc + nup < |pt.code|
  {
    forall q: nat :: pc < q <= pc + nup ==> Captures(pt, q)
  }

  /** The checks of each opcode. */
  predicate OpcodeOK(pt: Proto, pc: nat)
    requires pc < |pt.code| && FormatOK(pt, pc)
    requires Op(pt.code[pc]) != OP_RETURN ==> pc + 1 < |pt.code|
  {
    var w := pt.code[pc];
    var op, a, b, c := Op(w), A(w), B(w), C(w);
    if op == OP_LOADBOOL then c == 1 ==> pc + 2 < |pt.code| && !TakesWord(pt.code[pc + 1])
    else if op == OP_GETUPVAL || op == OP_SETUPVAL then b < pt.nups
    else if op == OP_GETGLOBAL || op == OP_SETGLOBAL then pt.k[Bx(w)].KStr?
    else if op == OP_SELF then RegOK(pt, a + 1)
    else if op == OP_CONCAT then b < c
    else if op == OP_TFORLOOP then c >= 1 && RegOK(pt, a + 2 + c)
    else if op == OP_FORLOOP || op == OP_FORPREP then RegOK(pt, a + 3)
    else if op == OP_CALL || op == OP_TAILCALL then
      && (b != 0 ==> RegOK(pt, a + b - 1))
      && (if c == 0 then OpenOK(pt.code[pc + 1]) else c - 1 != 0 ==> RegOK(pt, a + c - 2))
    else if op == OP_RETURN then b > 1 ==> RegOK(pt, a + b - 2)
    else if op == OP_SETLIST then (b > 0 ==> RegOK(pt, a + b)) && (c == 0 ==> pc + 1 < |pt.code| - 1)
    else if op == OP_CLOSURE then
      && Bx(w) < |pt.p|
      && pc + pt.p[Bx(w)].nups < |pt.code|
      && PseudoOK(pt, pc, pt.p[Bx(w)].nups)
    else if op == OP_VARARG then
      && Bit(pt.isVararg, VARARG_ISVARARG) && !Bit(pt.isVararg, VARARG_NEEDSARG)
      && (b == 0 ==> OpenOK(pt.code[pc + 1]))
      && RegOK(pt, a + b - 2)
    else true
  }

  predicate InstrOK(pt: Proto, pc: nat)
    requires pc < |pt.code| && Op(pt.code[|pt.code| - 1]) == OP_RETURN
  {
    FormatOK(pt, pc) && TestOK(pt, pc) && OpcodeOK(pt, pc)
  }

  /** What luaG_checkcode accepts: the prechecks hold, and every instruction passes. */
  predicate Accepts(pt: Proto) {
    PreCheck(pt) && forall pc: nat :: pc < |pt.code| && Real(pt.code, pc) ==> InstrOK(pt, pc)
  }

  // ----- the checker itself

  /** The run test before a jump destination. */
  method RunIsEven(code: seq<Word>, dest: nat) returns (even: bool)
    requires dest <= |code|
    ensures even <==> Run(code, dest) % 2 == 0
  {
    var j := 0;
    while j < dest
      invariant 0 <= j <= dest && Run(code, dest) == j + Run(code, dest - j)
    {
      if !TakesWord(code[dest - 1 - j]) { break; }
      j := j + 1;
    }
    return j % 2 == 0;
  }

  method CheckFormat(pt: Proto, pc: nat) returns (ok: bool)
    requires pc < |pt.code|
    ensures ok <==> FormatOK(pt, pc)
  {
    var w := pt.code[pc];
    var op := Op(w);
    if op >= NUM_OPCODES || !RegOK(pt, A(w)) { return false; }
    match OpMode(op)
    case IABC => return ArgOK(pt, B(w), BMode(op)) && ArgOK(pt, C(w), CMode(op));
    case IABx => return BMode(op) == ArgK ==> Bx(w) < |pt.k|;
    case IAsBx =>
      var dest := pc + 1 + SBx(w);
      if !(0 <= dest < |pt.code|) { return false; }
      if dest > 0 {
        ok := RunIsEven(pt.code, dest);
        return;
      }
      return true;
  }

  /** The loop over the pseudo-instructions of a CLOSURE. */
  method CheckPseudo(pt: Proto, pc: nat, nup: nat) returns (ok: bool)
    requires pc + nup < |pt.code|
    ensures ok <==> PseudoOK(pt, pc, nup)
  {
    for j := 1 to nup + 1
      invariant forall q: nat :: pc < q < pc + j ==> Captures(pt, q)
    {
      var op1 := Op(pt.code[pc + j]);
      if !(op1 == OP_GETUPVAL || op1 == OP_MOVE) {
        assert !Captures(pt, pc + j);
        return false;
      }
    }
    return true;
  }

  method CheckOpcode(pt: Proto, pc: nat) returns (ok: bool)
    requires pc < |pt.code| && FormatOK(pt, pc)
    requires Op(pt.code[pc]) != OP_RETURN ==> pc + 1 < |pt.code|
    ensures ok <==> OpcodeOK(pt, pc)
  {
    var w := pt.code[pc];
    if Op(w) == OP_CLOSURE {
      if Bx(w) >= |pt.p| { return false; }
      var nup := pt.p[Bx(w)].nups;
      if pc + nup >= |pt.code| { return false; }
      ok := CheckPseudo(pt, pc, nup);
      return;
    }
    return OpcodeOK(pt, pc);
  }

  /** NO_REG: the checker is not looking for the instruction that set a register. */
  const NO_REG: nat := 255

  /** Whether symbexec notes the instruction as the last to change the register it looks for. */
  predicate Changes(w: Word, reg: nat) {
    var op, a := Op(w), A(w);
    || (op == OP_TFORLOOP && reg >= a + 2)
    || ((op == OP_CALL || op == OP_TAILCALL) && reg >= a)
  }

  lemma ChangesMarks(w: Word, reg: nat)
    requires Changes(w, reg)
    ensures w != 0
  {
  }

  /** symbexec over the whole code with NO_REG, and luaG_checkcode, which tests the word it returns for zero. */
  method CheckCode(pt: Proto) returns (ok: bool)
    ensures ok <==> Accepts(pt)
  {
    hide FormatOK, OpcodeOK, TestOK, Real, TakesWord, Changes;
    if !PreCheck(pt) { return false; }
    var pc := 0;
    var last := |pt.code| - 1;
    RealStart(pt.code);
    while pc < |pt.code|
      invariant 0 <= pc <= |pt.code| && Real(pt.code, pc)
      invariant 0 <= last < |pt.code| && pt.code[last] != 0
      invariant forall q: nat :: q < pc && Real(pt.code, q) ==> InstrOK(pt, q)
    {
      ok := CheckFormat(pt, pc);
      if !ok { return; }
      if !TestOK(pt, pc) { return false; }
      ok := CheckOpcode(pt, pc);
      if !ok { return; }
      if Changes(pt.code[pc], NO_REG) {
        ChangesMarks(pt.code[pc], NO_REG);
        last := pc;
      }
      RealNext(pt, pc);
      if TakesWord(pt.code[pc]) { pc := pc + 1; }
      pc := pc + 1;
    }
    return pt.code[last] != 0;
  }

  lemma RealStart(code: seq<Word>)
    ensures Real(code, 0)
  {
  }

  /** The next instruction is one or two words on, and nothing between is one. */
  lemma RealNext(pt: Proto, pc: nat)
    requires pc < |pt.code| && Real(pt.code, pc) && PreCheck(pt) && InstrOK(pt, pc)
    ensures TakesWord(pt.code[pc]) ==> pc + 2 <= |pt.code| && Real(pt.code, pc + 2) && !Real(pt.code, pc + 1)
    ensures !TakesWord(pt.code[pc]) ==> Real(pt.code, pc + 1)
  {
    RunTest(pt.code, pc);
    RunTest(pt.code, pc + 1);
  }

  // ----- the paths of the machine

  /** Where luaV_execute can go from pc within the frame. */
  function Successors(pt: Proto, pc: nat): set<int>
    requires pc < |pt.code|
  {
    var w := pt.code[pc];
    var op := Op(w);
    if op == OP_LOADBOOL then {if C(w) != 0 then pc + 2 else pc + 1}
    else if op == OP_JMP || op == OP_FORPREP then {pc + 1 + SBx(w)}
    else if op == OP_FORLOOP then {pc + 1, pc + 1 + SBx(w)}
    else if IsTest(op) then {pc + 2, pc + 2 + if pc + 1 < |pt.code| then SBx(pt.code[pc + 1]) else 0}
    else if op == OP_SETLIST then {if C(w) == 0 then pc + 2 else pc + 1}
    else if op == OP_CLOSURE then {pc + 1 + if Bx(w) < |pt.p| then pt.p[Bx(w)].nups else 0}
    else if op == OP_RETURN then {}
    else {pc + 1}
  }

  /** A place where an instruction may be fetched. */
  predicate Sound(pt: Proto, pc: int) { 0 <= pc < |pt.code| && Real(pt.code, pc) }

  /** The one skip symbexec does not check: it tests C == 1 where the machine tests C != 0. Such a skip goes wrong
      past the end of the code, and into the count of a SETLIST. */
  predicate UncheckedSkip(pt: Proto, pc: nat)
    requires pc < |pt.code|
  {
    Op(pt.code[pc]) == OP_LOADBOOL && C(pt.code[pc]) > 1 && (pc + 2 >= |pt.code| || TakesWord(pt.code[pc + 1]))
  }

  lemma DestSound(pt: Proto, dest: int)
    requires DestOK(pt, dest)
    ensures Sound(pt, dest)
  {
    RunTest(pt.code, dest);
  }

  lemma {:induction false} PseudoReal(pt: Proto, pc: nat, nup: nat, j: nat)
    requires pc + nup < |pt.code| && PseudoOK(pt, pc, nup) && j <= nup && Real(pt.code, pc) &&
      Op(pt.code[pc]) == OP_CLOSURE
    ensures Real(pt.code, pc + j + 1)
    decreases j
  {
    if j > 0 {
      PseudoReal(pt, pc, nup, j - 1);
      assert Captures(pt, pc + j);
    }
  }

  /** Not at the end: the last instruction is a return. */
  lemma NotLast(pt: Proto, pc: nat)
    requires Accepts(pt) && pc < |pt.code| && Op(pt.code[pc]) != OP_RETURN
    ensures pc + 1 < |pt.code|
  {
  }

  lemma PlainSound(pt: Proto, pc: nat)
    requires Accepts(pt) && Sound(pt, pc) && Op(pt.code[pc]) != OP_RETURN && !TakesWord(pt.code[pc])
    ensures Sound(pt, pc + 1)
  {
    NotLast(pt, pc);
  }

  lemma ClosureSound(pt: Proto, pc: nat)
    requires Accepts(pt) && Sound(pt, pc) && Op(pt.code[pc]) == OP_CLOSURE
    ensures Bx(pt.code[pc]) < |pt.p| && Sound(pt, pc + 1 + pt.p[Bx(pt.code[pc])].nups)
  {
    assert InstrOK(pt, pc);
    var nup := pt.p[Bx(pt.code[pc])].nups;
    PseudoReal(pt, pc, nup, nup);
    if nup > 0 { assert Captures(pt, pc + nup); }
  }

  lemma TestSound(pt: Proto, pc: nat)
    requires Accepts(pt) && Sound(pt, pc) && IsTest(Op(pt.code[pc]))
    ensures Sound(pt, pc + 1) && Sound(pt, pc + 2) && Sound(pt, pc + 2 + SBx(pt.code[pc + 1]))
  {
    assert InstrOK(pt, pc);
    PlainSound(pt, pc);
    assert InstrOK(pt, pc + 1);
    PlainSound(pt, pc + 1);
    DestSound(pt, pc + 2 + SBx(pt.code[pc + 1]));
  }

  /** Exactly when one step of an accepted function stays inside its instructions. */
  lemma StepSound(pt: Proto, pc: nat)
    requires Accepts(pt) && Sound(pt, pc)
    ensures (forall s :: s in Successors(pt, pc) ==> Sound(pt, s)) <==> !UncheckedSkip(pt, pc)
  {
    hide Accepts, Real, SBx, Op, C, Bx, DestOK;
    var w := pt.code[pc];
    var op := Op(w);
    if op == OP_JMP || op == OP_FORPREP {
      JumpSound(pt, pc);
    } else if op == OP_FORLOOP {
      PlainSound(pt, pc);
      JumpSound(pt, pc);
    } else if IsTest(op) {
      TestSound(pt, pc);
    } else if op == OP_CLOSURE {
      ClosureSound(pt, pc);
    } else if op == OP_SETLIST {
      SetListSound(pt, pc);
    } else if op == OP_LOADBOOL {
      PlainSound(pt, pc);
      SkipExact(pt, pc);
    } else if op != OP_RETURN {
      PlainSound(pt, pc);
    }
  }

  lemma JumpSound(pt: Proto, pc: nat)
    requires Accepts(pt) && Sound(pt, pc)
    requires Op(pt.code[pc]) == OP_JMP || Op(pt.code[pc]) == OP_FORLOOP || Op(pt.code[pc]) == OP_FORPREP
    ensures Sound(pt, pc + 1 + SBx(pt.code[pc]))
  {
    assert InstrOK(pt, pc);
    DestSound(pt, pc + 1 + SBx(pt.code[pc]));
  }

  lemma SetListSound(pt: Proto, pc: nat)
    requires Accepts(pt) && Sound(pt, pc) && Op(pt.code[pc]) == OP_SETLIST
    ensures if C(pt.code[pc]) == 0 then Sound(pt, pc + 2) else Sound(pt, pc + 1)
  {
    assert InstrOK(pt, pc);
  }

  /** Where a LOADBOOL that skips leads to an instruction; the check that symbexec makes says so when C is 1. */
  lemma SkipExact(pt: Proto, pc: nat)
    requires Accepts(pt) && Sound(pt, pc) && Op(pt.code[pc]) == OP_LOADBOOL
    ensures Sound(pt, pc + 2) <==> pc + 2 < |pt.code| && !TakesWord(pt.code[pc + 1])
    ensures C(pt.code[pc]) == 1 ==> Sound(pt, pc + 2)
  {
    assert InstrOK(pt, pc);
    PlainSound(pt, pc);
    assert InstrOK(pt, pc + 1);
    RealNext(pt, pc + 1);
  }

  /** A path of the machine through one activation of the function. */
  ghost predicate Path(pt: Proto, path: seq<int>) {
    && |path| > 0 && path[0] == 0
    && forall i :: 0 <= i < |path| - 1 ==> 0 <= path[i] < |pt.code| && path[i + 1] in Successors(pt, path[i])
  }

  function Last(path: seq<int>): int
    requires |path| > 0
  {
    path[|path| - 1]
  }

  lemma PathExtends(pt: Proto, path: seq<int>, next: int)
    requires Path(pt, path) && 0 <= Last(path) < |pt.code| && next in Successors(pt, Last(path))
    ensures Path(pt, path + [next]) && Last(path + [next]) == next
  {
    var longer := path + [next];
    forall i | 0 <= i < |longer| - 1 ensures 0 <= longer[i] < |pt.code| && longer[i + 1] in Successors(pt, longer[i]) {
      if i < |path| - 1 { assert path[i + 1] in Successors(pt, path[i]); }
    }
  }

  /** A path that makes no unchecked skip stays on the instructions. */
  lemma {:induction false} PathSafe(pt: Proto, path: seq<int>)
    requires Accepts(pt) && Path(pt, path)
    requires forall i :: 0 <= i < |path| - 1 ==> !UncheckedSkip(pt, path[i])
    ensures Sound(pt, Last(path))
    decreases |path|
  {
    if |path| > 1 {
      var q := path[..|path| - 1];
      assert Path(pt, q);
      PathSafe(pt, q);
      StepSound(pt, Last(q));
      assert path[|path| - 2 + 1] in Successors(pt, path[|path| - 2]);
    }
  }

  /** No path of the function leaves its code or executes the count of a SETLIST. */
  ghost predicate AllSound(pt: Proto) {
    forall path: seq<int> :: Path(pt, path) ==> Sound(pt, Last(path))
  }

  /** Some path leads to an unchecked skip. */
  ghost predicate MeetsSkip(pt: Proto) {
    exists path: seq<int> :: Path(pt, path) && 0 <= Last(path) < |pt.code| && UncheckedSkip(pt, Last(path))
  }

  /** Exactly when acceptance means safe control flow: if and only if no path meets an unchecked skip. */
  lemma PathsExact(pt: Proto)
    requires Accepts(pt)
    ensures AllSound(pt) <==> !MeetsSkip(pt)
  {
    if MeetsSkip(pt) {
      var path: seq<int> :| Path(pt, path) && 0 <= Last(path) < |pt.code| && UncheckedSkip(pt, Last(path));
      if Sound(pt, Last(path)) {
        StepSound(pt, Last(path));
        var next :| next in Successors(pt, Last(path)) && !Sound(pt, next);
        PathExtends(pt, path, next);
      }
    } else {
      forall path: seq<int> | Path(pt, path) ensures Sound(pt, Last(path)) {
        forall i | 0 <= i < |path| - 1
          ensures !UncheckedSkip(pt, path[i])
        {
          assert Path(pt, path[..i + 1]) && Last(path[..i + 1]) == path[i];
        }
        PathSafe(pt, path);
      }
    }
  }

  /** LOADBOOL's C is a truth value wherever it is an instruction, as the code generator writes it. */
  ghost predicate SkipsAreBits(pt: Proto) {
    forall pc: nat :: pc < |pt.code| && Real(pt.code, pc) && Op(pt.code[pc]) == OP_LOADBOOL ==> C(pt.code[pc]) <= 1
  }

  /** No path of such a function, if it is accepted, leaves its code or executes the count of a SETLIST. */
  lemma {:induction false} PathSound(pt: Proto, path: seq<int>)
    requires Accepts(pt) && SkipsAreBits(pt) && Path(pt, path)
    ensures Sound(pt, Last(path))
    decreases |path|
  {
    if |path| > 1 {
      forall i | 0 <= i < |path| - 1 ensures !UncheckedSkip(pt, path[i]) {
        assert Path(pt, path[..i + 1]);
        PathSound(pt, path[..i + 1]);
      }
      PathSafe(pt, path);
    }
  }

  // ----- operands

  /** The highest register an instruction names. */
  function RegOf(r: nat): int { if r >= BITRK then -1 else r }

  function Max(a: int, b: int): int { if a < b then b else a }

  function TopReg(pt: Proto, pc: nat): int
    requires pc < |pt.code|
  {
    var w := pt.code[pc];
    var op, a, b, c := Op(w), A(w), B(w), C(w);
    if op == OP_MOVE || op == OP_LOADNIL || op == OP_UNM || op == OP_NOT || op == OP_LEN || op == OP_TESTSET
    then Max(a, b)
    else if op == OP_GETTABLE then Max(Max(a, b), RegOf(c))
    else if op == OP_SETTABLE || OP_ADD <= op <= OP_POW then Max(a, Max(RegOf(b), RegOf(c)))
    else if op == OP_SELF then Max(Max(a + 1, b), RegOf(c))
    else if op == OP_CONCAT then Max(a, c)
    else if op == OP_JMP then -1
    else if op == OP_EQ || op == OP_LT || op == OP_LE then Max(RegOf(b), RegOf(c))
    else if op == OP_CALL || op == OP_TAILCALL then Max(Max(a, a + b - 1), a + c - 2)
    else if op == OP_RETURN then Max(a, a + b - 2)
    else if op == OP_FORLOOP || op == OP_FORPREP then a + 3
    else if op == OP_TFORLOOP then a + 2 + c
    else if op == OP_SETLIST then a + b
    else if op == OP_VARARG then Max(a, a + b - 2)
    else a
  }

  predicate ConstOK(pt: Proto, r: nat) { r >= BITRK ==> r - BITRK < |pt.k| }

  /** Constant, prototype and upvalue indices are in range, and names of globals are strings. */
  predicate IndicesOK(pt: Proto, pc: nat)
    requires pc < |pt.code|
  {
    var w := pt.code[pc];
    var op := Op(w);
    && (op == OP_LOADK || op == OP_GETGLOBAL || op == OP_SETGLOBAL ==> Bx(w) < |pt.k|)
    && (op == OP_GETGLOBAL || op == OP_SETGLOBAL ==> pt.k[Bx(w)].KStr?)
    && (op == OP_GETUPVAL || op == OP_SETUPVAL ==> B(w) < pt.nups)
    && (op == OP_CLOSURE ==> Bx(w) < |pt.p|)
    && (op == OP_SETTABLE || OP_ADD <= op <= OP_POW || op == OP_EQ || op == OP_LT || op == OP_LE ==> ConstOK(pt, B(w)))
    && (op == OP_GETTABLE || op == OP_SELF || op == OP_SETTABLE || OP_ADD <= op <= OP_POW || op == OP_EQ ||
        op == OP_LT || op == OP_LE
        ==> ConstOK(pt, C(w)))
  }

  /** Results left open are used by the next instruction. */
  predicate OpenUsed(pt: Proto, pc: nat)
    requires pc < |pt.code|
  {
    var w := pt.code[pc];
    ((Op(w) == OP_CALL || Op(w) == OP_TAILCALL) && C(w) == 0) || (Op(w) == OP_VARARG && B(w) == 0) ==>
      pc + 1 < |pt.code| && OpenOK(pt.code[pc + 1])
  }

  /** Every instruction an accepted function can execute names registers of its frame, and existing constants,
      upvalues and prototypes. */
  lemma OperandsSound(pt: Proto, pc: nat)
    requires Accepts(pt) && Sound(pt, pc)
    ensures TopReg(pt, pc) < pt.maxstacksize && IndicesOK(pt, pc) && OpenUsed(pt, pc)
  {
    assert InstrOK(pt, pc);
    hide Accepts, Real, SBx, Op, A, B, C, Bx, Run;
  }

  /** The upvalues a CLOSURE captures are named by instructions that are themselves checked. */
  lemma CapturesSound(pt: Proto, pc: nat, j: nat)
    requires Accepts(pt) && Sound(pt, pc) && Op(pt.code[pc]) == OP_CLOSURE
    requires 1 <= j <= pt.p[Bx(pt.code[pc])].nups
    ensures pc + j < |pt.code|
    ensures var w := pt.code[pc + j];
            if Op(w) == OP_GETUPVAL then B(w) < pt.nups else Op(w) == OP_MOVE && B(w) < pt.maxstacksize
  {
    assert InstrOK(pt, pc);
    var nup := pt.p[Bx(pt.code[pc])].nups;
    PseudoReal(pt, pc, nup, j - 1);
    assert Captures(pt, pc + j);
    assert InstrOK(pt, pc + j);
  }

  // ----- the skip that is not checked

  /** LOADBOOL 0 0 2, then RETURN 0 1: accepted, but the skip leaves the code. */
  function Skipper(): Proto {
    Proto(None, 0, 0, 0, 0, 0, 2, [2 + 2 * 0x4000, 30 + 0x80_0000], [], [], [], [], [])
  }

  lemma SkipperAccepted()
    ensures Accepts(Skipper()) && Path(Skipper(), [0, 2]) && !Sound(Skipper(), 2)
  {
    var pt := Skipper();
    assert Op(pt.code[0]) == OP_LOADBOOL && A(pt.code[0]) == 0 && B(pt.code[0]) == 0 && C(pt.code[0]) == 2;
    assert Op(pt.code[1]) == OP_RETURN && A(pt.code[1]) == 0 && B(pt.code[1]) == 1 && C(pt.code[1]) == 0;
    assert InstrOK(pt, 0) && InstrOK(pt, 1);
    assert 2 in Successors(pt, 0);
  }
}
