/** Running code whose jumps are not all patched yet: a pending jump is an exit. Patching jumps and
    appending code only continues the runs that left through them. */
module CodeExec {
  import opened LuaCode

  datatype Out = Fall(r: Regs) | Exit(pc: nat, r: Regs) | Bad

  /** Runs code from pc with registers r until it falls off at end or takes a jump in p. Backward jumps,
      jumps beyond end, jumps between a test and its jump, and a TESTSET that would store without having
      been given a register do not occur; they are Bad. */
  function Exec(x: Ctx, code: seq<Instr>, p: set<nat>, pc: nat, r: Regs, end: nat): Out
    decreases if pc < end then end - pc else 0, 1
  {
    if pc == end then Fall(r)
    else if pc > end || pc >= |code| then Bad
    else
      var i := code[pc];
      if IsTest(i) then
        if pc + 1 >= end then Bad
        else if Passes(x, i, r) then
          if Unset(i) && pc + 1 !in p then Bad else Take(x, code, p, pc + 1, Taken(x, i, r), end)
        else Exec(x, code, p, pc + 2, r, end)
      else if i.Jmp? then
        if Controlled(code, pc) then Bad else Take(x, code, p, pc, r, end)
      else if i.Return? then Bad
      else Exec(x, code, p, pc + Size(i), Stored(x, i, r), end)
  }

  /** A TESTSET whose register is still to be chosen. */
  predicate Unset(i: Instr) { i.TestSet? && i.a == NO_REG }

  /** An instruction that stores a value and goes on; LOADBOOL may skip the next one. */
  predicate Stores(i: Instr) { i.Move? || i.LoadK? || i.LoadBool? || i.Not? || i.Arith? }

  function Size(i: Instr): nat { if i.LoadBool? && i.skip then 2 else 1 }

  function Stored(x: Ctx, i: Instr, r: Regs): Regs {
    if Stores(i) then Write(r, i.a, Result(x, i, r)) else r
  }

  /** The registers with which a test takes its jump: a TESTSET that has its register copies the value. */
  function Taken(x: Ctx, i: Instr, r: Regs): Regs
    requires IsTest(i)
  {
    if i.TestSet? then Write(r, i.a, Reg(r, i.b)) else r
  }

  function Target(code: seq<Instr>, j: nat): int {
    if j < |code| && code[j].Jmp? then j + 1 + code[j].sbx else -1
  }

  function Take(x: Ctx, code: seq<Instr>, p: set<nat>, j: nat, r: Regs, end: nat): Out
    decreases if j < end then end - j else 0, 0
  {
    if j in p then Exit(j, r)
    else if j < Target(code, j) <= end && j < end then Exec(x, code, p, Target(code, j), r, end)
    else Bad
  }

  /** Where an exit taken in the old code continues in the new code. */
  function Cont(x: Ctx, code: seq<Instr>, p: set<nat>, n: nat, o: Out, end: nat): Out {
    match o
    case Fall(r) => Exec(x, code, p, n, r, end)
    case Exit(a, r) => Leave(x, code, p, a, r, end)
    case Bad => Bad
  }

  /** Taking the jump at a, with its control in the new code. */
  function Leave(x: Ctx, code: seq<Instr>, p: set<nat>, a: nat, r: Regs, end: nat): Out {
    if a in p then Exit(a, r)
    else if 0 <= Target(code, a) <= end then Exec(x, code, p, Target(code, a), Carry(code, a, r), end)
    else Bad
  }

  /** The value a patched TESTSET stores before its jump. */
  function Carry(code: seq<Instr>, a: nat, r: Regs): Regs {
    if Carries(code, a) then Write(r, code[a-1].a, Reg(r, code[a-1].b)) else r
  }

  /** A pending TESTSET may become a TEST, or get its register if its jump is patched with it. */
  ghost predicate TestPatched(i: Instr, k: Instr, settled: bool) {
    && Unset(i)
    && ((!settled && k == i) || k == Test(i.b, i.cond) ||
        (settled && k.TestSet? && !Unset(k) && k.b == i.b && k.cond == i.cond))
  }

  ghost predicate EvolvesAt(code: seq<Instr>, p: set<nat>, code2: seq<Instr>, p2: set<nat>, n: nat, i: nat)
    requires i < n <= |code| && n <= |code2|
  {
    if i in p then code[i].Jmp? && code2[i].Jmp? && (i !in p2 ==> Target(code2, i) >= n)
    else i !in p2 && ((code2[i] == code[i] && !(Unset(code[i]) && i + 1 < n && i + 1 in p && i + 1 !in p2))
                      || (i + 1 in p && i + 1 < n && TestPatched(code[i], code2[i], i + 1 !in p2)))
  }

  /** The first n instructions of code2 are those of code except for pending jumps, which may have been
      patched to targets from n on, and their TESTSETs. */
  ghost predicate Evolves(code: seq<Instr>, p: set<nat>, code2: seq<Instr>, p2: set<nat>, n: nat) {
    && n <= |code| && n <= |code2|
    && forall i :: 0 <= i < n ==> EvolvesAt(code, p, code2, p2, n, i)
  }

  /** A run of the old code, continued in the new. */
  lemma {:induction false} Resume(x: Ctx, code: seq<Instr>, p: set<nat>, code2: seq<Instr>, p2: set<nat>, n: nat,
                                  pc: nat, r: Regs, end: nat)
    requires Evolves(code, p, code2, p2, n) && pc <= n <= end
    requires Exec(x, code, p, pc, r, n) != Bad
    ensures Exec(x, code2, p2, pc, r, end) == Cont(x, code2, p2, n, Exec(x, code, p, pc, r, n), end)
    decreases n - pc, 1
  {
    if pc < n {
      var i, k := code[pc], code2[pc];
      assert EvolvesAt(code, p, code2, p2, n, pc);
      if IsTest(i) {
        if pc + 1 < n { assert EvolvesAt(code, p, code2, p2, n, pc + 1); }
        assert IsTest(k) && Passes(x, k, r) == Passes(x, i, r);
        if Passes(x, i, r) {
          ResumeTake(x, code, p, code2, p2, n, pc + 1, Taken(x, i, r), Taken(x, k, r), end);
        } else {
          Resume(x, code, p, code2, p2, n, pc + 2, r, end);
        }
      } else if i.Jmp? {
        assert Controlled(code2, pc) == Controlled(code, pc) by {
          if pc > 0 { assert EvolvesAt(code, p, code2, p2, n, pc - 1); }
        }
        ResumeTake(x, code, p, code2, p2, n, pc, r, r, end);
      } else {
        Resume(x, code, p, code2, p2, n, pc + Size(i), Stored(x, i, r), end);
      }
    }
  }

  lemma {:induction false} ResumeTake(x: Ctx, code: seq<Instr>, p: set<nat>, code2: seq<Instr>, p2: set<nat>, n: nat,
                                      j: nat, r: Regs, r2: Regs, end: nat)
    requires Evolves(code, p, code2, p2, n) && j < n <= end
    requires Take(x, code, p, j, r, n) != Bad
    requires r2 == if j in p && j !in p2 then Carry(code2, j, r) else r
    ensures Take(x, code2, p2, j, r2, end) == Cont(x, code2, p2, n, Take(x, code, p, j, r, n), end)
    decreases n - j, 0
  {
    assert EvolvesAt(code, p, code2, p2, n, j);
    if j !in p {
      Resume(x, code, p, code2, p2, n, Target(code, j), r, end);
    }
  }
}
