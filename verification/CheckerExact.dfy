/** What the checker accepts, said of the operands of each instruction: nothing else, and nothing less. */
module CheckerExact {
  import opened Wrappers
  import opened Prototypes
  import opened Checker

  // ----- instruction words

  /** An instruction with three operands, and one with a wide operand (lopcodes.h). */
  function WordABC(op: nat, a: nat, b: nat, c: nat): Word
    requires op < 64 && a < 256 && b < 512 && c < 512
  {
    op + 64 * a + 16384 * c + 8388608 * b
  }

  function WordABx(op: nat, a: nat, bx: nat): Word
    requires op < 64 && a < 256 && bx < 262144
  {
    op + 64 * a + 16384 * bx
  }

  /** The parts of a word, taken off one after the other. */
  lemma Parts(w: nat, op: nat, a: nat, z: nat)
    requires op < 64 && a < 256 && w == op + 64 * (a + 256 * z)
    ensures w % 64 == op && w / 64 % 256 == a && w / 0x4000 == z
  {
    var y := a + 256 * z;
    assert w / 64 == y && y / 256 == z;
    DivTwice(w, y, z);
  }

  lemma DivTwice(w: nat, y: nat, z: nat)
    requires y == w / 64 && z == y / 256
    ensures w / 0x4000 == z
  {
  }

  lemma HighParts(w: nat, z: nat, b: nat, c: nat)
    requires w / 0x4000 == z && z == c + 512 * b && c < 512
    ensures w / 0x4000 % 512 == c && w / 0x80_0000 == b
  {
  }

  lemma FieldsABC(op: nat, a: nat, b: nat, c: nat)
    requires op < 64 && a < 256 && b < 512 && c < 512
    ensures var w := WordABC(op, a, b, c); Op(w) == op && A(w) == a && B(w) == b && C(w) == c
  {
    var w := WordABC(op, a, b, c);
    Parts(w, op, a, c + 512 * b);
    HighParts(w, c + 512 * b, b, c);
  }

  /** The signed operand is wide, in excess 131071. */
  lemma FieldsABx(op: nat, a: nat, bx: nat)
    requires op < 64 && a < 256 && bx < 262144
    ensures var w := WordABx(op, a, bx); Op(w) == op && A(w) == a && Bx(w) == bx && SBx(w) == bx - 131071
  {
    Parts(WordABx(op, a, bx), op, a, bx);
  }

  lemma WordExact(w: Word)
    ensures w == WordABC(Op(w), A(w), B(w), C(w)) == WordABx(Op(w), A(w), Bx(w))
  {
    var x := w / 64;
    var y := x / 256;
    assert w / 0x4000 == y && w / 0x80_0000 == y / 512;
    assert Bx(w) == y && B(w) == y / 512;
  }

  // ----- a proper function

  /** The frame holds the parameters, the debug information fits, and the code ends with a RETURN. */
  predicate Framed(pt: Proto) {
    && pt.maxstacksize <= 250
    && pt.numparams + pt.isVararg % 2 <= pt.maxstacksize
    && (pt.isVararg / 4 % 2 == 1 ==> pt.isVararg % 2 == 1)
    && |pt.upvalues| <= pt.nups
    && |pt.lineinfo| in {0, |pt.code|}
    && pt.code != [] && Op(pt.code[|pt.code| - 1]) == OP_RETURN
  }

  /** The operands an instruction does not have are zero. */
  predicate UnusedZero(w: Word) {
    && (Op(w) in {OP_MOVE, OP_LOADNIL, OP_GETUPVAL, OP_SETUPVAL, OP_UNM, OP_NOT, OP_LEN, OP_RETURN, OP_CLOSE, OP_VARARG}
        ==> C(w) == 0)
    && (Op(w) in {OP_TFORLOOP, OP_CLOSE} ==> B(w) == 0)
  }

  /** Where an instruction jumps or skips to there is an instruction, and after a test there is a jump. */
  predicate Leads(pt: Proto, pc: nat)
    requires pc < |pt.code|
  {
    var w := pt.code[pc];
    && (Op(w) in {OP_JMP, OP_FORLOOP, OP_FORPREP} ==> Sound(pt, pc + 1 + SBx(w)))
    && (Op(w) == OP_LOADBOOL && C(w) == 1 ==> Sound(pt, pc + 2))
    && (Op(w) == OP_SETLIST && C(w) == 0 ==> Sound(pt, pc + 2))
    && (Op(w) in {OP_EQ, OP_LT, OP_LE, OP_TEST, OP_TESTSET, OP_TFORLOOP} ==>
          pc + 2 < |pt.code| && Op(pt.code[pc + 1]) == OP_JMP)
  }

  /** After a CLOSURE there is a MOVE or a GETUPVAL for each upvalue of the prototype. */
  predicate CapturesAll(pt: Proto, pc: nat)
    requires pc < |pt.code| && Bx(pt.code[pc]) < |pt.p|
  {
    var last := pc + pt.p[Bx(pt.code[pc])].nups;
    last < |pt.code| && forall q :: pc < q <= last ==> Op(pt.code[q]) in {OP_MOVE, OP_GETUPVAL}
  }

  /** An instruction whose operands exist and whose jumps lead to instructions. Every A has to be a register, also
      where it is none, and so has the B of a TEST, which has none. */
  predicate Proper(pt: Proto, pc: nat)
    requires pc < |pt.code|
  {
    var w := pt.code[pc];
    && Op(w) <= OP_VARARG
    && A(w) < pt.maxstacksize && TopReg(pt, pc) < pt.maxstacksize
    && (Op(w) == OP_TEST ==> B(w) < pt.maxstacksize)
    && IndicesOK(pt, pc) && UnusedZero(w) && Leads(pt, pc) && OpenUsed(pt, pc)
    && (Op(w) == OP_CONCAT ==> B(w) < C(w))
    && (Op(w) == OP_TFORLOOP ==> C(w) >= 1)
    && (Op(w) == OP_CLOSURE ==> CapturesAll(pt, pc))
    && (Op(w) == OP_VARARG ==> pt.isVararg / 2 % 2 == 1 && pt.isVararg / 4 % 2 == 0)
  }

  lemma LeadsExact(pt: Proto, pc: nat)
    requires pc < |pt.code| && Real(pt.code, pc)
    ensures forall d: int :: DestOK(pt, d) <==> Sound(pt, d)
    ensures TakesWord(pt.code[pc]) ==> (Sound(pt, pc + 2) <==> pc + 2 < |pt.code|)
    ensures !TakesWord(pt.code[pc]) ==>
              (Sound(pt, pc + 2) <==> pc + 2 < |pt.code| && !TakesWord(pt.code[pc + 1]))
  {
    forall d: int | 0 <= d < |pt.code| ensures DestOK(pt, d) <==> Sound(pt, d) { RunTest(pt.code, d); }
    if pc + 2 < |pt.code| { RunTest(pt.code, pc + 2); RunTest(pt.code, pc); }
  }

  lemma ClosureExact(pt: Proto, pc: nat)
    requires pc < |pt.code| && Bx(pt.code[pc]) < |pt.p|
    ensures var nup := pt.p[Bx(pt.code[pc])].nups;
            CapturesAll(pt, pc) <==> pc + nup < |pt.code| && PseudoOK(pt, pc, nup)
  {
    hide Bx, Op;
    var nup := pt.p[Bx(pt.code[pc])].nups;
    if CapturesAll(pt, pc) {
      forall q: nat | pc < q <= pc + nup ensures Captures(pt, q) {}
    }
    if pc + nup < |pt.code| && PseudoOK(pt, pc, nup) {
      forall q | pc < q <= pc + nup ensures Op(pt.code[q]) in {OP_MOVE, OP_GETUPVAL} { assert Captures(pt, q); }
    }
  }

  lemma LoadsExact(pt: Proto, pc: nat)
    requires pc < |pt.code| && Real(pt.code, pc) && Op(pt.code[|pt.code| - 1]) == OP_RETURN
    requires Op(pt.code[pc]) <= OP_GETGLOBAL || Op(pt.code[pc]) == OP_SETGLOBAL || Op(pt.code[pc]) == OP_SETUPVAL
    ensures InstrOK(pt, pc) <==> Proper(pt, pc)
  {
    hide Real, Sound, DestOK, SBx, Op, A, B, C, Bx, Run, CapturesAll, PseudoOK;
    LeadsExact(pt, pc);
  }

  lemma ComputesExact(pt: Proto, pc: nat)
    requires pc < |pt.code| && Real(pt.code, pc) && Op(pt.code[|pt.code| - 1]) == OP_RETURN
    requires OP_GETTABLE <= Op(pt.code[pc]) <= OP_CONCAT && Op(pt.code[pc]) != OP_SETGLOBAL &&
      Op(pt.code[pc]) != OP_SETUPVAL
    ensures InstrOK(pt, pc) <==> Proper(pt, pc)
  {
    hide Real, Sound, DestOK, SBx, Op, A, B, C, Bx, Run, CapturesAll, PseudoOK;
    LeadsExact(pt, pc);
  }

  lemma JumpsExact(pt: Proto, pc: nat)
    requires pc < |pt.code| && Real(pt.code, pc) && Op(pt.code[|pt.code| - 1]) == OP_RETURN
    requires OP_JMP <= Op(pt.code[pc]) <= OP_TESTSET || OP_FORLOOP <= Op(pt.code[pc]) <= OP_TFORLOOP
    ensures InstrOK(pt, pc) <==> Proper(pt, pc)
  {
    hide Real, Sound, DestOK, SBx, Op, A, B, C, Bx, Run, CapturesAll, PseudoOK;
    LeadsExact(pt, pc);
  }

  lemma CallsExact(pt: Proto, pc: nat)
    requires pc < |pt.code| && Real(pt.code, pc) && Op(pt.code[|pt.code| - 1]) == OP_RETURN
    requires OP_CALL <= Op(pt.code[pc]) <= OP_RETURN || OP_SETLIST <= Op(pt.code[pc])
    ensures InstrOK(pt, pc) <==> Proper(pt, pc)
  {
    hide Real, Sound, DestOK, SBx, Op, A, B, C, Bx, Run, CapturesAll, PseudoOK;
    LeadsExact(pt, pc);
    if Bx(pt.code[pc]) < |pt.p| { ClosureExact(pt, pc); }
  }

  /** symbexec passes an instruction if and only if it is proper. */
  lemma InstrExact(pt: Proto, pc: nat)
    requires pc < |pt.code| && Real(pt.code, pc) && Op(pt.code[|pt.code| - 1]) == OP_RETURN
    ensures InstrOK(pt, pc) <==> Proper(pt, pc)
  {
    hide Real, Op, InstrOK, Proper;
    var op := Op(pt.code[pc]);
    if op <= OP_GETGLOBAL || op == OP_SETGLOBAL || op == OP_SETUPVAL {
      LoadsExact(pt, pc);
    } else if op <= OP_CONCAT {
      ComputesExact(pt, pc);
    } else if op <= OP_TESTSET || OP_FORLOOP <= op <= OP_TFORLOOP {
      JumpsExact(pt, pc);
    } else {
      CallsExact(pt, pc);
    }
  }

  /** luaG_checkcode accepts exactly the functions with a proper frame all of whose instructions are proper. */
  lemma AcceptsExact(pt: Proto)
    ensures Accepts(pt) <==> Framed(pt) && forall pc: nat :: Sound(pt, pc) ==> Proper(pt, pc)
  {
    hide Real, InstrOK, Proper;
    assert PreCheck(pt) <==> Framed(pt) by { hide Op; }
    if Framed(pt) {
      forall pc: nat | pc < |pt.code| && Real(pt.code, pc) ensures InstrOK(pt, pc) <==> Proper(pt, pc) {
        InstrExact(pt, pc);
      }
    }
  }
}
