/** The code generator as the source has it: one code array, list heads in the generator and in expression
    descriptions, and every list threaded through the operands of its jumps. Each method is proved to do what
    the operation of the same name in LuaCode does to the lists themselves. */
module CodeGen {
  import opened LuaCode
  import L = LuaCode
  import opened CodeLists
  import opened CodeState
  import opened CodeLinks
  import opened CodeLinked

  function Head(l: seq<nat>): int { if l == [] then NO_JUMP else l[0] }

  class ExpDesc {
    var k: Kind
    var t: int
    var f: int

    constructor (k: Kind)
      ensures this.k == k && t == NO_JUMP && f == NO_JUMP
    {
      this.k, t, f := k, NO_JUMP, NO_JUMP;
    }

    ghost predicate Is(d: Desc)
      reads this
    {
      k == d.k && t == Head(d.t) && f == Head(d.f)
    }

    /** luaK_dischargevars. */
    method DischargeVars(ghost d: Desc)
      requires Is(d)
      modifies this
      ensures Is(L.DischargeVars(d))
    {
      if k.VLocal? { k := VNonReloc(k.r); }
    }
  }

  class FuncState {
    var code: seq<Instr>
    var jpc: int
    var freereg: nat
    var nactvar: nat
    var k: seq<Value>
    var err: bool

    /** The generator is in this state, whose list of jumps to here starts at jpc. */
    ghost predicate At(fs: FS)
      reads this
    {
      fs == FS(code, fs.jpc, freereg, nactvar, k, err) && jpc == Head(fs.jpc)
    }

    // ----- lists

    /** getjump. */
    method GetJump(pc: nat, ghost l: seq<nat>, ghost i: nat) returns (next: int)
      requires i < |l| && pc == l[i] && Threaded(code, l) && NoDup(l)
      ensures next == Head(l[i + 1..])
    {
      assert LinkAt(code, l, i);
      var offset := code[pc].sbx;
      if offset == NO_JUMP { next := NO_JUMP; } else { next := pc + 1 + offset; }
    }

    /** fixjump. */
    method FixJump(pc: nat, dest: nat)
      requires pc < |code| && code[pc].Jmp?
      modifies `code, `err
      ensures code == L.FixJump(old(code), pc, dest) && err == (old(err) || Far(pc, dest))
    {
      var offset := dest - (pc + 1);
      if offset > MAXARG_SBX || -offset > MAXARG_SBX { err := true; }
      code := code[pc := Jmp(offset)];
    }

    /** getjumpcontrol. */
    method GetJumpControl(pc: nat) returns (i: nat)
      requires pc < |code|
      ensures i == if Controlled(code, pc) then pc - 1 else pc
    {
      if pc >= 1 && IsTest(code[pc - 1]) { i := pc - 1; } else { i := pc; }
    }

    /** need_value. */
    method NeedValue(list: int, ghost l: seq<nat>) returns (r: bool)
      requires Threaded(code, l) && NoDup(l) && list == Head(l)
      ensures r == L.NeedValue(code, l)
    {
      var p := list;
      ghost var i := 0;
      while p != NO_JUMP
        invariant 0 <= i <= |l| && p == Head(l[i..])
        invariant forall j :: 0 <= j < i ==> Carries(code, l[j])
        decreases |l| - i
      {
        assert LinkAt(code, l, i);
        var c := GetJumpControl(p);
        if !code[c].TestSet? { return true; }
        p := GetJump(p, l, i);
        i := i + 1;
      }
      return false;
    }

    /** patchtestreg. */
    method PatchTestReg(node: nat, reg: nat) returns (r: bool)
      requires node < |code| && code[node].Jmp?
      modifies `code
      ensures r == Carries(old(code), node) && code == L.PatchTestReg(old(code), node, reg)
    {
      var i := GetJumpControl(node);
      if !code[i].TestSet? { return false; }
      var t := code[i];
      if reg != NO_REG && reg != t.b {
        code := code[i := TestSet(reg, t.b, t.cond)];
      } else {
        code := code[i := Test(t.b, t.cond)];
      }
      return true;
    }

    /** removevalues. */
    method RemoveValues(list: int, ghost l: seq<nat>)
      requires Threaded(code, l) && NoDup(l) && list == Head(l)
      modifies `code
      ensures code == L.RemoveValues(old(code), l)
    {
      var p := list;
      ghost var i := 0;
      while p != NO_JUMP
        invariant 0 <= i <= |l| && p == Head(l[i..]) && Threaded(code, l)
        invariant L.RemoveValues(code, l[i..]) == L.RemoveValues(old(code), l)
        decreases |l| - i
      {
        assert LinkAt(code, l, i) && l[i..][1..] == l[i + 1..];
        ghost var c := code;
        var _ := PatchTestReg(p, NO_REG);
        TestKeeps(c, l[i], NO_REG, l);
        p := GetJump(p, l, i);
        i := i + 1;
      }
    }

    /** patchlistaux. */
    method PatchListAux(list: int, vtarget: nat, reg: nat, dtarget: nat, ghost l: seq<nat>)
      requires Threaded(code, l) && NoDup(l) && list == Head(l)
      modifies `code, `err
      ensures code == PatchList(old(code), l, vtarget, reg, dtarget)
      ensures err == (old(err) || TooFar(old(code), l, vtarget, dtarget))
    {
      hide PatchList, L.PatchTestReg, L.FixJump, TooFar, FarBefore, SameControls, Threaded, PatchOne, NoDup;
      var p := list;
      ghost var i := 0;
      ghost var first := code;
      WholeList(first, l, vtarget, dtarget);
      while p != NO_JUMP
        invariant 0 <= i <= |l| && p == Head(l[i..])
        invariant Threaded(code, l[i..]) && SameControls(first, code, l[i..]) && NoDup(l[i..])
        invariant PatchList(code, l[i..], vtarget, reg, dtarget) == PatchList(first, l, vtarget, reg, dtarget)
        invariant err == (old(err) || FarBefore(first, l, i, vtarget, dtarget))
        decreases |l| - i
      {
        ghost var rest, c := l[i..], code;
        assert rest[0] == l[i] == p && rest[1..] == l[i + 1..];
        FirstJump(first, code, rest);
        var next := GetJump(p, rest, 0);
        var carries := PatchTestReg(p, reg);
        assert code[p].Jmp? by { TestPatchLeaves(c, p, reg); }
        if carries { FixJump(p, vtarget); } else { FixJump(p, dtarget); }
        assert code == PatchOne(c, p, vtarget, reg, dtarget) by { OneUnfold(c, p, vtarget, reg, dtarget); }
        PatchStep(first, c, l[i], rest, vtarget, reg, dtarget);
        PatchUnfold(c, rest, vtarget, reg, dtarget);
        FarStep(first, l, i, vtarget, dtarget);
        p := next;
        i := i + 1;
      }
      assert l[i..] == [] && i == |l|;
      PatchNone(code, vtarget, reg, dtarget);
    }

    /** luaK_concat, on the list that starts at l1; returns the head of the result. */
    method Concat(l1: int, l2: int, ghost a: seq<nat>, ghost b: seq<nat>) returns (head: int)
      requires Threaded(code, a) && Threaded(code, b) && NoDup(a) && l1 == Head(a) && l2 == Head(b)
      modifies `code, `err
      ensures head == Head(a + b) && code == L.Concat(old(code), a, b)
      ensures err == (old(err) || (a != [] && b != [] && Far(a[|a| - 1], b[0])))
    {
      if l2 == NO_JUMP {
        assert b == [] && a + b == a;
        return l1;
      } else if l1 == NO_JUMP {
        assert a == [] && a + b == b;
        return l2;
      }
      var list := l1;
      ghost var i := 0;
      assert LinkAt(code, a, 0);
      var next := GetJump(list, a, 0);
      while next != NO_JUMP
        invariant 0 <= i < |a| && list == a[i] && next == Head(a[i + 1..]) && code == old(code) && err == old(err)
        decreases |a| - i
      {
        list := next;
        i := i + 1;
        assert LinkAt(code, a, i);
        next := GetJump(list, a, i);
      }
      assert i + 1 == |a| && LinkAt(code, a, i);
      FixJump(list, l2);
      return l1;
    }

    // ----- emitting code

    /** luaK_code, after dischargejpc. */
    method Emit(i: Instr, ghost fs: FS) returns (pc: nat)
      requires At(fs) && Threaded(code, fs.jpc) && NoDup(fs.jpc)
      modifies this
      ensures At(L.Code(fs, i)) && pc == |fs.code|
    {
      PatchListAux(jpc, |code|, NO_REG, |code|, fs.jpc);
      jpc := NO_JUMP;
      pc := |code|;
      code := code + [i];
    }

    /** luaK_jump. */
    method NewJump(ghost fs: FS) returns (j: nat)
      requires At(fs) && Threaded(code, fs.jpc) && NoDup(fs.jpc)
      modifies this
      ensures At(L.Jump(fs).0) && j == Head(L.Jump(fs).1) == |fs.code|
    {
      var hold := jpc;
      jpc := NO_JUMP;
      j := Emit(Jmp(NO_JUMP), fs.(jpc := []));
      ThreadedJumps(fs.code, fs.jpc);
      assert JumpsKept(fs.code, code, {}, |fs.code|);
      ThreadedKept(fs.code, code, {}, |fs.code|, fs.jpc);
      ThreadedOne(code, j);
      var _ := Concat(j, hold, [j], fs.jpc);
    }

    /** luaK_patchtohere. */
    method PatchToHere(list: int, ghost l: seq<nat>, ghost fs: FS)
      requires At(fs) && Threaded(code, fs.jpc) && NoDup(fs.jpc) && Threaded(code, l) && list == Head(l)
      modifies this
      ensures At(L.PatchToHere(fs, l))
    {
      jpc := Concat(jpc, list, fs.jpc, l);
    }

    /** condjump. */
    method CondJump(i: Instr, ghost fs: FS) returns (j: nat)
      requires At(fs) && Threaded(code, fs.jpc) && NoDup(fs.jpc)
      modifies this
      ensures At(L.CondJump(fs, i).0) && j == Head(L.CondJump(fs, i).1) == |fs.code| + 1
    {
      var _ := Emit(i, fs);
      ThreadedNone(code);
      j := NewJump(L.Code(fs, i));
    }

    // ----- registers and constants

    /** luaK_reserveregs with luaK_checkstack. */
    method ReserveRegs(n: nat, ghost fs: FS)
      requires At(fs)
      modifies this
      ensures At(L.Reserve(fs, n))
    {
      if freereg + n >= MAXSTACK { err := true; }
      freereg := freereg + n;
    }

    /** freeexp. */
    method FreeExp(e: ExpDesc, ghost d: Desc, ghost fs: FS)
      requires At(fs) && e.Is(d)
      modifies this
      ensures At(L.FreeExp(fs, d))
    {
      if e.k.VNonReloc? && e.k.r < BITRK && e.k.r >= nactvar && freereg > 0 { freereg := freereg - 1; }
    }

    /** addk: a linear search stands for the table from constants to indices. */
    method AddK(v: Value, ghost fs: FS) returns (i: nat)
      requires At(fs)
      modifies this
      ensures At(L.AddK(fs, v).0) && i == L.AddK(fs, v).1
    {
      i := 0;
      while i < |k| && k[i] != v
        invariant 0 <= i <= |k|
        invariant IndexOf(k, v) == i + IndexOf(k[i..], v)
      {
        assert k[i..][1..] == k[i + 1..];
        i := i + 1;
      }
      if i == |k| { k := k + [v]; }
    }

    // ----- putting values into registers

    /** discharge2reg. */
    method Discharge2Reg(e: ExpDesc, reg: nat, ghost d: Desc, ghost fs: FS)
      requires At(fs) && e.Is(d) && Linked(fs, d)
      modifies this, e
      ensures At(L.Discharge2Reg(fs, d, reg).0) && e.Is(L.Discharge2Reg(fs, d, reg).1)
    {
      hide L.Code, Links;
      LinkedHere(fs, d);
      e.DischargeVars(d);
      if e.k.VJmp? || e.k.VCond? { return; }
      match e.k {
        case VTrue => var _ := Emit(LoadBool(reg, true, false), fs);
        case VFalse => var _ := Emit(LoadBool(reg, false, false), fs);
        case VK(i) => var _ := Emit(LoadK(reg, i), fs);
        case VReloc(pc) => code := code[pc := SetA(code[pc], reg)];
        case VNonReloc(r) => if r != reg { var _ := Emit(Move(reg, r), fs); }
        case _ =>
      }
      e.k := VNonReloc(reg);
    }

    /** discharge2anyreg. */
    method Discharge2AnyReg(e: ExpDesc, ghost d: Desc, ghost fs: FS)
      requires At(fs) && e.Is(d) && Linked(fs, d)
      modifies this, e
      ensures At(L.Discharge2AnyReg(fs, d).0) && e.Is(L.Discharge2AnyReg(fs, d).1)
    {
      hide L.Discharge2Reg, Linked;
      if !e.k.VNonReloc? {
        ghost var fs1 := L.Reserve(fs, 1);
        ScaleLinked(fs, d, fs1);
        ReserveRegs(1, fs);
        Discharge2Reg(e, freereg - 1, d, fs1);
      }
    }

    /** code_label. */
    method CodeLabel(reg: nat, val: bool, skip: bool, ghost fs: FS) returns (pc: nat)
      requires At(fs) && Threaded(code, fs.jpc) && NoDup(fs.jpc)
      modifies this
      ensures At(L.CodeLabel(fs, reg, val, skip)) && pc == |fs.code|
    {
      pc := Emit(LoadBool(reg, val, skip), fs);
    }

    /** The loads of false and true in exp2reg, and the jump over them. */
    method Materialize(jumped: bool, reg: nat, ghost fs: FS) returns (pf: nat, pt: nat)
      requires At(fs) && Threaded(code, fs.jpc) && NoDup(fs.jpc)
      modifies this
      ensures At(L.Materialize(fs, jumped, reg))
      ensures pf == |fs.code| + (if jumped then 0 else 1) && pt == pf + 1
    {
      hide L.Jump, L.CodeLabel, L.PatchToHere, NoDup, Threaded;
      var fj := NO_JUMP;
      ghost var fs1, l := fs, [];
      HereOnly(fs);
      if !jumped {
        var j := NewJump(fs);
        fj := j;
        fs1, l := L.Jump(fs).0, L.Jump(fs).1;
        JumpLinks(fs, [], []);
        JumpShape(fs);
      }
      LinksHere(fs1, l);
      pf := CodeLabel(reg, false, true, fs1);
      LabelThreads(fs1, reg, false, true, l);
      ghost var fs2 := L.CodeLabel(fs1, reg, false, true);
      pt := CodeLabel(reg, true, false, fs2);
      LabelThreads(fs2, reg, true, false, l);
      PatchToHere(fj, l, L.CodeLabel(fs2, reg, true, false));
    }

    /** exp2reg. */
    method Exp2Reg(e: ExpDesc, reg: nat, ghost d: Desc, ghost fs: FS)
      requires At(fs) && e.Is(d) && Linked(fs, d)
      modifies this, e
      ensures At(L.Exp2Reg(fs, d, reg).0) && e.Is(L.Exp2Reg(fs, d, reg).1)
    {
      hide L.Discharge2Reg, JoinJump, Linked, Linking, L.Materialize, L.NeedValue, CloseLists, Advances;
      Discharge2Reg(e, reg, d, fs);
      ghost var fs1, d1 := L.Discharge2Reg(fs, d, reg).0, L.Discharge2Reg(fs, d, reg).1;
      DischargeAdvances(fs, d, reg);
      var jumped := e.k.VJmp?;
      JoinOwn(e, d1, fs1);
      ghost var fs2, d2 := JoinJump(fs1, d1).0, JoinJump(fs1, d1).1;
      JoinAdvances(fs1, d1);
      AdvancesLinked(fs1, ListsOf(d1), fs2, Lists(d2.t, d2.f, []), |fs1.code|);
      Close(e.t, e.f, jumped, reg, d2, fs2);
      e.t, e.f, e.k := NO_JUMP, NO_JUMP, VNonReloc(reg);
    }

    /** A comparison's own jump joins the true exits. */
    method JoinOwn(e: ExpDesc, ghost d: Desc, ghost fs: FS)
      requires At(fs) && e.Is(d) && Linked(fs, d)
      modifies this, e
      ensures At(JoinJump(fs, d).0) && e.Is(JoinJump(fs, d).1)
    {
      hide L.Concat, Linked;
      LinkedThreads(fs, d);
      if e.k.VJmp? { e.t := Concat(e.t, e.k.pc, d.t, [d.k.pc]); }
    }

    /** The rest of exp2reg, when there are jumps. */
    method Close(t: int, f: int, jumped: bool, reg: nat, ghost d: Desc, ghost fs: FS)
      requires At(fs) && Linking(fs, Lists(d.t, d.f, [])) && t == Head(d.t) && f == Head(d.f)
      modifies this
      ensures At(CloseAll(fs, d, jumped, reg))
    {
      hide L.Materialize, L.NeedValue, CloseLists, Linking;
      JoinedThreads(fs, d);
      if t == f {
        NoJumps(d);
        return;
      }
      SomeJumps(d);
      var needed := NeedValue(t, d.t);
      if !needed { needed := NeedValue(f, d.f); }
      if needed {
        var pf, pt := Materialize(jumped, reg, fs);
        MaterializeThreads(fs, d, jumped, reg);
        CloseBoth(t, f, reg, pf, pt, d, L.Materialize(fs, jumped, reg));
      } else {
        CloseBoth(t, f, reg, 0, 0, d, fs);
      }
    }

    /** The end of exp2reg: both lists are patched. */
    method CloseBoth(t: int, f: int, reg: nat, pf: nat, pt: nat, ghost d: Desc, ghost fs: FS)
      requires At(fs) && Linking(fs, Lists(d.t, d.f, [])) && t == Head(d.t) && f == Head(d.f)
      modifies this
      ensures At(CloseLists(fs, d, reg, pf, pt))
    {
      hide PatchList, TooFar, Links, Threaded, NoDup;
      JoinedThreads(fs, d);
      var final := |code|;
      PatchListAux(f, final, reg, pf, d.f);
      PatchedOther(fs, d, final, reg, pf);
      PatchListAux(t, final, reg, pt, d.t);
    }

    /** luaK_exp2nextreg. */
    method Exp2NextReg(e: ExpDesc, ghost d: Desc, ghost fs: FS)
      requires At(fs) && e.Is(d) && Linked(fs, d)
      modifies this, e
      ensures At(L.Exp2NextReg(fs, d).0) && e.Is(L.Exp2NextReg(fs, d).1)
    {
      hide L.Exp2Reg, Linked;
      VarsLinked(fs, d);
      e.DischargeVars(d);
      ghost var d1 := L.DischargeVars(d);
      FreeExp(e, d1, fs);
      ghost var fs1 := L.FreeExp(fs, d1);
      ReserveRegs(1, fs1);
      ghost var fs2 := L.Reserve(fs1, 1);
      ScaleLinked(fs, d1, fs2);
      Exp2Reg(e, freereg - 1, d1, fs2);
    }

    /** luaK_exp2anyreg. */
    method Exp2AnyReg(e: ExpDesc, ghost d: Desc, ghost fs: FS)
      requires At(fs) && e.Is(d) && Linked(fs, d)
      modifies this, e
      ensures At(L.Exp2AnyReg(fs, d).0) && e.Is(L.Exp2AnyReg(fs, d).1)
    {
      hide L.Exp2Reg, Linked, L.Exp2NextReg;
      VarsLinked(fs, d);
      ListHeads(fs, d);
      e.DischargeVars(d);
      ghost var d1 := L.DischargeVars(d);
      if e.k.VNonReloc? {
        if e.t == e.f { return; }
        if e.k.r >= nactvar {
          Exp2Reg(e, e.k.r, d1, fs);
          return;
        }
      }
      assert L.Exp2NextReg(fs, d1) == L.Exp2NextReg(fs, d) by { NextVars(fs, d); }
      Exp2NextReg(e, d1, fs);
    }

    /** luaK_exp2val. */
    method Exp2Val(e: ExpDesc, ghost d: Desc, ghost fs: FS)
      requires At(fs) && e.Is(d) && Linked(fs, d)
      modifies this, e
      ensures At(L.Exp2Val(fs, d).0) && e.Is(L.Exp2Val(fs, d).1)
    {
      hide L.Exp2AnyReg, Linked;
      ListHeads(fs, d);
      if e.t != e.f { Exp2AnyReg(e, d, fs); } else { e.DischargeVars(d); }
    }

    /** luaK_exp2RK. */
    method Exp2RK(e: ExpDesc, ghost d: Desc, ghost fs: FS) returns (o: nat)
      requires At(fs) && e.Is(d) && Linked(fs, d)
      modifies this, e
      ensures At(L.Exp2RK(fs, d).0) && e.Is(L.Exp2RK(fs, d).1) && o == L.Exp2RK(fs, d).2
    {
      hide L.Exp2AnyReg, Linked, L.Exp2Val, L.AddK;
      Exp2Val(e, d, fs);
      ValAdvances(fs, d);
      ghost var fs1, d1 := L.Exp2Val(fs, d).0, L.Exp2Val(fs, d).1;
      if (e.k.VTrue? || e.k.VFalse?) && |k| <= MAXINDEXRK {
        var i := AddK(Bool(e.k.VTrue?), fs1);
        e.k := VK(i);
        return i + BITRK;
      } else if e.k.VK? && e.k.k <= MAXINDEXRK {
        return e.k.k + BITRK;
      }
      Exp2AnyReg(e, d1, fs1);
      return if e.k.VNonReloc? then e.k.r else 0;
    }

    // ----- conditions

    /** invertjump. */
    method InvertJump(pc: nat)
      modifies `code
      ensures code == L.InvertJump(old(code), pc)
    {
      if 1 <= pc <= |code| && code[pc - 1].Cmp? {
        var i := code[pc - 1];
        code := code[pc - 1 := Cmp(i.kind, !i.cond, i.b, i.c)];
      }
    }

    /** jumponcond. */
    method JumpOnCond(e: ExpDesc, cond: bool, ghost d: Desc, ghost fs: FS) returns (j: nat)
      requires At(fs) && e.Is(d) && Linked(fs, d)
      modifies this, e
      ensures At(L.JumpOnCond(fs, d, cond).0) && j == Head(L.JumpOnCond(fs, d, cond).1)
      ensures e.t == old(e.t) && e.f == old(e.f)
    {
      hide L.Discharge2AnyReg, L.CondJump, Linked, Links, JumpsKept, Members;
      if e.k.VReloc? && e.k.pc < |code| && code[e.k.pc].Not? {
        var b := code[e.k.pc].b;
        code := code[..|code| - 1];
        DropAdvances(fs, d);
        ghost var fs1 := fs.(code := fs.code[..|fs.code| - 1]);
        HereThreads(fs1, ListsOf(d));
        j := CondJump(Test(b, !cond), fs1);
        return;
      }
      Discharge2AnyReg(e, d, fs);
      AnyAdvances(fs, d);
      ghost var fs1, d1 := L.Discharge2AnyReg(fs, d).0, L.Discharge2AnyReg(fs, d).1;
      LinkedHere(fs1, d1);
      FreeExp(e, d1, fs1);
      j := CondJump(TestSet(NO_REG, if e.k.VNonReloc? then e.k.r else 0, cond), L.FreeExp(fs1, d1));
    }

    /** The jump luaK_goiftrue takes when the value is false. */
    method FalseJump(e: ExpDesc, ghost d: Desc, ghost fs: FS) returns (pc: int)
      requires At(fs) && e.Is(d) && Linked(fs, d)
      modifies this, e
      ensures At(L.FalseJump(fs, d).0) && pc == Head(L.FalseJump(fs, d).1) && e.t == old(e.t) && e.f == old(e.f)
    {
      hide Linked, L.JumpOnCond, L.InvertJump;
      LinkedHere(fs, d);
      match e.k {
        case VK(_) => pc := NO_JUMP;
        case VTrue => pc := NO_JUMP;
        case VFalse => pc := NewJump(fs);
        case VJmp(i) => InvertJump(i); pc := i;
        case _ => pc := JumpOnCond(e, false, d, fs);
      }
    }

    /** The jump luaK_goiffalse takes when the value is true. */
    method TrueJump(e: ExpDesc, ghost d: Desc, ghost fs: FS) returns (pc: int)
      requires At(fs) && e.Is(d) && Linked(fs, d)
      modifies this, e
      ensures At(L.TrueJump(fs, d).0) && pc == Head(L.TrueJump(fs, d).1) && e.t == old(e.t) && e.f == old(e.f)
    {
      hide Linked, L.JumpOnCond;
      LinkedHere(fs, d);
      match e.k {
        case VFalse => pc := NO_JUMP;
        case VTrue => pc := NewJump(fs);
        case VJmp(i) => pc := i;
        case _ => pc := JumpOnCond(e, true, d, fs);
      }
    }

    /** luaK_goiftrue. */
    method GoIfTrue(e: ExpDesc, ghost d: Desc, ghost fs: FS)
      requires At(fs) && e.Is(d) && Linked(fs, d)
      modifies this, e
      ensures At(L.GoIfTrue(fs, d).0) && e.Is(L.GoIfTrue(fs, d).1)
    {
      hide Linked, L.FalseJump, L.Chain, L.Concat, L.PatchToHere, Links, JumpsKept, Advances, Linking, Threaded, NoDup;
      VarsLinked(fs, d);
      e.DischargeVars(d);
      ghost var d1 := L.DischargeVars(d);
      ExitAdvances(fs, d1, false);
      ghost var r := L.FalseJump(fs, d1);
      var pc := FalseJump(e, d1, fs);
      ExitThreads(fs, d1, r.0, r.1);
      e.f := Concat(e.f, pc, d1.f, r.1);
      ghost var fs2 := L.Chain(r.0, d1.f, r.1);
      assert At(fs2) by { ChainIs(r.0, d1.f, r.1); }
      FalseThreads(r.0, d1, r.1);
      PatchToHere(e.t, d1.t, fs2);
      e.t, e.k := NO_JUMP, VCond(true);
    }

    /** luaK_goiffalse. */
    method GoIfFalse(e: ExpDesc, ghost d: Desc, ghost fs: FS)
      requires At(fs) && e.Is(d) && Linked(fs, d)
      modifies this, e
      ensures At(L.GoIfFalse(fs, d).0) && e.Is(L.GoIfFalse(fs, d).1)
    {
      hide Linked, L.TrueJump, L.Chain, L.Concat, L.PatchToHere, Links, JumpsKept, Advances, Linking, Threaded, NoDup;
      VarsLinked(fs, d);
      e.DischargeVars(d);
      ghost var d1 := L.DischargeVars(d);
      ExitAdvances(fs, d1, true);
      ghost var r := L.TrueJump(fs, d1);
      var pc := TrueJump(e, d1, fs);
      ExitThreads(fs, d1, r.0, r.1);
      e.t := Concat(e.t, pc, d1.t, r.1);
      ghost var fs2 := L.Chain(r.0, d1.t, r.1);
      assert At(fs2) by { ChainIs(r.0, d1.t, r.1); }
      TrueThreads(r.0, d1, r.1);
      PatchToHere(e.f, d1.f, fs2);
      e.f, e.k := NO_JUMP, VCond(false);
    }

    // ----- operators

    /** The part of codenot that negates the value. */
    method NegateValue(e: ExpDesc, ghost d: Desc, ghost fs: FS)
      requires At(fs) && e.Is(d) && Linked(fs, d)
      modifies this, e
      ensures At(NotValue(fs, d).0) && e.k == NotValue(fs, d).1 && e.t == old(e.t) && e.f == old(e.f)
    {
      hide Linked, L.Discharge2AnyReg, L.Code, L.InvertJump, Linking, Advances;
      match e.k {
        case VFalse => e.k := VTrue;
        case VK(_) => e.k := VFalse;
        case VTrue => e.k := VFalse;
        case VJmp(i) => InvertJump(i);
        case _ =>
          Discharge2AnyReg(e, d, fs);
          AnyAdvances(fs, d);
          ghost var fs1, d2 := L.Discharge2AnyReg(fs, d).0, L.Discharge2AnyReg(fs, d).1;
          LinkedHere(fs1, d2);
          FreeExp(e, d2, fs1);
          var pc := Emit(Not(0, if e.k.VNonReloc? then e.k.r else 0), L.FreeExp(fs1, d2));
          e.k := VReloc(pc);
      }
    }

    /** codenot. */
    method CodeNot(e: ExpDesc, ghost d: Desc, ghost fs: FS)
      requires At(fs) && e.Is(d) && Linked(fs, d)
      modifies this, e
      ensures At(L.CodeNot(fs, d).0) && e.Is(L.CodeNot(fs, d).1)
    {
      hide Linked, NotValue, L.RemoveValues, Advances;
      VarsLinked(fs, d);
      e.DischargeVars(d);
      ghost var d1 := L.DischargeVars(d);
      NegateValue(e, d1, fs);
      ghost var fs2, k2 := NotValue(fs, d1).0, NotValue(fs, d1).1;
      NotAdvances(fs, d1);
      LinkedThreads(fs2, d1.(k := k2));
      SwapThreads(fs2, d1);
      e.t, e.f := e.f, e.t;
      RemoveValues(e.f, d1.t);
      RemoveValues(e.t, d1.f);
    }

    /** codearith, on operands that are not both numerals. */
    method CodeArith(op: nat, e1: ExpDesc, e2: ExpDesc, ghost d1: Desc, ghost d2: Desc, ghost fs: FS)
      requires At(fs) && e1.Is(d1) && e2.Is(d2) && e1 != e2 && Linked(fs, d2)
      requires d1.t == [] && d1.f == [] && !d1.k.VReloc? && !d1.k.VJmp?
      modifies this, e1, e2
      ensures At(L.CodeArith(fs, op, d1, d2).0) && e1.Is(L.CodeArith(fs, op, d1, d2).1)
    {
      hide Linked, L.Exp2RK, L.Code, Links, JumpsKept;
      OperandAdvances(fs, d2);
      OperandEmpty(fs, d2);
      ghost var fs1, t2 := L.Exp2RK(fs, d2).0, L.Exp2RK(fs, d2).1;
      var o2 := Exp2RK(e2, d2, fs);
      assert Linking(fs1, None()) by { OperandNone(fs1, t2); }
      PlainKind(fs1, d1);
      OperandAdvances(fs1, d1);
      OperandEmpty(fs1, d1);
      ghost var fs2, t1 := L.Exp2RK(fs1, d1).0, L.Exp2RK(fs1, d1).1;
      var o1 := Exp2RK(e1, d1, fs1);
      LinkedHere(fs2, t1);
      ghost var fs3 := if o1 > o2 then L.Free2(fs2, t1, t2) else L.Free2(fs2, t2, t1);
      if o1 > o2 {
        FreeExp(e1, t1, fs2);
        FreeExp(e2, t2, L.FreeExp(fs2, t1));
      } else {
        FreeExp(e2, t2, fs2);
        FreeExp(e1, t1, L.FreeExp(fs2, t2));
      }
      FreeCode(fs2, t1, t2);
      FreeCode(fs2, t2, t1);
      var pc := Emit(Arith(op, 0, o1, o2), fs3);
      e1.k := VReloc(pc);
    }

    /** codecomp. */
    method CodeComp(kind: CmpKind, cond: bool, e1: ExpDesc, e2: ExpDesc, ghost d1: Desc, ghost d2: Desc, ghost fs: FS)
      requires At(fs) && e1.Is(d1) && e2.Is(d2) && e1 != e2 && Linked(fs, d2) && Linked(fs, d1)
      requires d1.t == [] && d1.f == []
      requires L.Exp2RK(fs, d1) == (fs, d1, L.Exp2RK(fs, d1).2)
      modifies this, e1, e2
      ensures At(L.CodeComp(fs, kind, cond, d1, d2).0) && e1.Is(L.CodeComp(fs, kind, cond, d1, d2).1)
    {
      hide Linked, L.Exp2RK, L.CondJump, Links, JumpsKept;
      var o1 := Exp2RK(e1, d1, fs);
      OperandAdvances(fs, d2);
      ghost var fs2, t2 := L.Exp2RK(fs, d2).0, L.Exp2RK(fs, d2).1;
      var o2 := Exp2RK(e2, d2, fs);
      LinkedHere(fs2, t2);
      FreeExp(e2, t2, fs2);
      FreeExp(e1, d1, L.FreeExp(fs2, t2));
      FreeCode(fs2, t2, d1);
      var c, b := cond, kind != EQ;
      if !c && b {
        o1, o2 := o2, o1;
        c := true;
      }
      var pc := CondJump(Cmp(kind, c, o1, o2), L.Free2(fs2, t2, d1));
      e1.k := VJmp(pc);
    }

    // ----- expressions

    /** The end of luaK_posfix for `and` (list f) and `or` (list t). */
    method JoinLists(e1: ExpDesc, e2: ExpDesc, truth: bool, ghost d1: Desc, ghost d2: Desc, ghost fs: FS)
      requires At(fs) && e1.Is(d1) && e2.Is(d2) && e1 != e2 && Linked(fs, d2)
      requires Threaded(fs.code, if truth then d1.f else d1.t)
      modifies this, e1, e2
      ensures var r := if truth then JoinFalse(fs, d1, d2) else JoinTrue(fs, d1, d2); At(r.0) && e1.Is(r.1)
    {
      hide Linked, L.Concat, Threaded, NoDup;
      LinkedThreads(fs, d2);
      e2.DischargeVars(d2);
      if truth {
        e2.f := Concat(e2.f, e1.f, d2.f, d1.f);
        ChainIs(fs, d2.f, d1.f);
      } else {
        e2.t := Concat(e2.t, e1.t, d2.t, d1.t);
        ChainIs(fs, d2.t, d1.t);
      }
      e1.k, e1.t, e1.f := e2.k, e2.t, e2.f;
    }

    /** The parser's calls for one expression, in order: luaK_prefix, luaK_infix and luaK_posfix. */
    method Expression(x: Expr, e: ExpDesc, ghost fs: FS)
      requires At(fs) && Linking(fs, None())
      modifies this, e
      ensures At(Compile(fs, x).0) && e.Is(Compile(fs, x).1)
      decreases x, 0
    {
      hide Linked, Linking, L.GoIfTrue, L.GoIfFalse, L.CodeNot, L.CodeArith, L.CodeComp, JoinFalse, JoinTrue, L.Exp2RK,
           L.AddK, Advances, Threaded, Comparison, ExpDesc.Is, At;
      match x {
        case Local(r) => Init(e, VLocal(r));
        case Const(n) =>
          assert At(fs);
          var i := AddK(Other(n), fs);
          Init(e, VK(i));
        case True => Init(e, VTrue);
        case False => Init(e, VFalse);
        case Negate(a) =>
          Expression(a, e, fs);
          CompileLinked(fs, a);
          CodeNot(e, Compile(fs, a).1, Compile(fs, a).0);
        case And(a, b) =>
          Expression(a, e, fs);
          CompileLinked(fs, a);
          ghost var fs1, d := Compile(fs, a).0, Compile(fs, a).1;
          GoIfTrue(e, d, fs1);
          SecondOperand(b, e, true, d, fs1, fs);
        case Or(a, b) =>
          Expression(a, e, fs);
          CompileLinked(fs, a);
          ghost var fs1, d := Compile(fs, a).0, Compile(fs, a).1;
          GoIfFalse(e, d, fs1);
          SecondOperand(b, e, false, d, fs1, fs);
        case Binary(op, a, b) =>
          Expression(a, e, fs);
          CompileLinked(fs, a);
          ghost var fs1, d := Compile(fs, a).0, Compile(fs, a).1;
          var _ := Exp2RK(e, d, fs1);
          OperandPlain(fs1, d, fs, None(), |fs.code|);
          OperandEmpty(fs1, d);
          ghost var fs2, d1 := L.Exp2RK(fs1, d).0, L.Exp2RK(fs1, d).1;
          var e2 := new ExpDesc(VTrue);
          Expression(b, e2, fs2);
          CompileLinked(fs2, b);
          CodeArith(op, e, e2, d1, Compile(fs2, b).1, Compile(fs2, b).0);
        case Relation(rel, a, b) =>
          Expression(a, e, fs);
          CompileLinked(fs, a);
          ghost var fs1, d := Compile(fs, a).0, Compile(fs, a).1;
          var _ := Exp2RK(e, d, fs1);
          OperandPlain(fs1, d, fs, None(), |fs.code|);
          OperandEmpty(fs1, d);
          ghost var fs2, d1 := L.Exp2RK(fs1, d).0, L.Exp2RK(fs1, d).1;
          var e2 := new ExpDesc(VTrue);
          Expression(b, e2, fs2);
          CompileLinked(fs2, b);
          ghost var fs3 := Compile(fs2, b).0;
          OperandTwice(fs1, d, fs3);
          assert Linked(fs3, d1) by { OperandStays(fs2, b, d1); }
          CodeComp(Comparison(rel).0, Comparison(rel).1, e, e2, d1, Compile(fs2, b).1, fs3);
      }
    }

    /** init_exp. */
    method Init(e: ExpDesc, k: Kind)
      modifies e
      ensures e.Is(Desc(k, [], []))
    {
      e.k, e.t, e.f := k, NO_JUMP, NO_JUMP;
    }

    /** The second operand of `and` or `or`. */
    method SecondOperand(b: Expr, e: ExpDesc, truth: bool, ghost d: Desc, ghost fs1: FS, ghost fs: FS)
      requires Linking(fs, None()) && Linked(fs1, d) && Base(fs1, d) >= |fs.code| &&
        Advances(fs, None(), fs1, ListsOf(d), |fs.code|)
      requires At(GoIf(fs1, d, truth).0) && e.Is(GoIf(fs1, d, truth).1)
      modifies this, e
      ensures var (fs2, d1) := GoIf(fs1, d, truth);
              var (fs3, d2) := Compile(fs2, b);
              var r := if truth then JoinFalse(fs3, d1, d2) else JoinTrue(fs3, d1, d2);
              At(r.0) && e.Is(r.1)
      decreases b, 1
    {
      hide Linked, Linking, GoIf, JoinFalse, JoinTrue, Advances, Threaded, ExpDesc.Is, At;
      ControlLinked(fs, fs1, d, truth, |fs.code|);
      ghost var fs2, d1 := GoIf(fs1, d, truth).0, GoIf(fs1, d, truth).1;
      var e2 := new ExpDesc(VTrue);
      Expression(b, e2, fs2);
      CompileLinked(fs2, b);
      FirstExits(fs1, d, truth, fs2, b);
      JoinLists(e, e2, truth, d1, Compile(fs2, b).1, Compile(fs2, b).0);
    }
  }

  // ----- steps of the loops

  /** What the control of each jump of the list is. */
  ghost predicate SameControls(code: seq<Instr>, code2: seq<Instr>, l: seq<nat>) {
    |code2| == |code| && forall j :: j in l ==> Carries(code2, j) == Carries(code, j)
  }

  lemma TestKeeps(code: seq<Instr>, j: nat, reg: nat, l: seq<nat>)
    requires Threaded(code, l)
    ensures Threaded(L.PatchTestReg(code, j, reg), l)
  {
    ThreadedJumps(code, l);
    ThreadedKept(code, L.PatchTestReg(code, j, reg), {}, |code|, l);
  }

  lemma PatchStep(first: seq<Instr>, code: seq<Instr>, j: nat, rest: seq<nat>, vtarget: nat, reg: nat, dtarget: nat)
    requires Threaded(code, rest) && NoDup(rest) && rest != [] && rest[0] == j && SameControls(first, code, rest)
    ensures Threaded(PatchOne(code, j, vtarget, reg, dtarget), rest[1..])
    ensures SameControls(first, PatchOne(code, j, vtarget, reg, dtarget), rest[1..])
  {
    var c, tail := PatchOne(code, j, vtarget, reg, dtarget), rest[1..];
    ThreadedJumps(code, rest);
    assert forall i :: i in tail ==> i in rest && i != j;
    assert j in rest;
    PatchOneAt(code, j, vtarget, reg, dtarget);
    PatchedRest(code, c, j, tail, vtarget, reg, dtarget);
    forall i: nat | i < |tail| ensures LinkAt(code, tail, i) {
      assert LinkAt(code, rest, i + 1);
    }
    assert JumpsKept(code, c, {j}, |code|) by { OneKept(code, j, vtarget, reg, dtarget); }
    ThreadedKept(code, c, {j}, |code|, tail);
  }

  lemma OneKept(code: seq<Instr>, j: nat, vtarget: nat, reg: nat, dtarget: nat)
    requires j < |code| && code[j].Jmp?
    ensures JumpsKept(code, PatchOne(code, j, vtarget, reg, dtarget), {j}, |code|)
  {
  }

  ghost predicate FarBefore(code: seq<Instr>, l: seq<nat>, i: nat, vtarget: nat, dtarget: nat) {
    exists j :: 0 <= j < i && j < |l| && Far(l[j], if Carries(code, l[j]) then vtarget else dtarget)
  }

  lemma FarStep(code: seq<Instr>, l: seq<nat>, i: nat, vtarget: nat, dtarget: nat)
    requires i < |l|
    ensures FarBefore(code, l, i + 1, vtarget, dtarget) ==
            (FarBefore(code, l, i, vtarget, dtarget) || Far(l[i], if Carries(code, l[i]) then vtarget else dtarget))
  {
    hide Far, Carries;
  }

  lemma WholeList(code: seq<Instr>, l: seq<nat>, vtarget: nat, dtarget: nat)
    ensures l[0..] == l && SameControls(code, code, l)
    ensures FarBefore(code, l, |l|, vtarget, dtarget) == TooFar(code, l, vtarget, dtarget)
    ensures !FarBefore(code, l, 0, vtarget, dtarget)
  {
    hide Far, Carries;
  }

  lemma FirstJump(first: seq<Instr>, code: seq<Instr>, rest: seq<nat>)
    requires Threaded(code, rest) && SameControls(first, code, rest) && rest != [] && NoDup(rest)
    ensures rest[0] < |code| && code[rest[0]].Jmp? && Carries(first, rest[0]) == Carries(code, rest[0])
    ensures NoDup(rest[1..])
  {
    assert LinkAt(code, rest, 0);
    assert rest[0] in rest;
  }

  lemma TestPatchLeaves(code: seq<Instr>, p: nat, reg: nat)
    requires p < |code| && code[p].Jmp?
    ensures L.PatchTestReg(code, p, reg)[p] == code[p]
  {
  }

  lemma OneUnfold(code: seq<Instr>, j: nat, vtarget: nat, reg: nat, dtarget: nat)
    ensures PatchOne(code, j, vtarget, reg, dtarget) ==
            L.FixJump(L.PatchTestReg(code, j, reg), j, if Carries(code, j) then vtarget else dtarget)
  {
  }

  lemma PatchUnfold(code: seq<Instr>, l: seq<nat>, vtarget: nat, reg: nat, dtarget: nat)
    requires l != []
    ensures PatchList(code, l, vtarget, reg, dtarget) ==
            PatchList(PatchOne(code, l[0], vtarget, reg, dtarget), l[1..], vtarget, reg, dtarget)
  {
  }

  lemma PatchNone(code: seq<Instr>, vtarget: nat, reg: nat, dtarget: nat)
    ensures PatchList(code, [], vtarget, reg, dtarget) == code
  {
  }

  // ----- what the methods need to know of the lists

  lemma HereThreads(fs: FS, l: Lists)
    requires Linking(fs, l)
    ensures Threaded(fs.code, fs.jpc) && NoDup(fs.jpc)
  {
    hide Threaded;
    Apart(l.t, l.f, fs.jpc, l.o);
  }

  lemma LinkedHere(fs: FS, d: Desc)
    requires Linked(fs, d)
    ensures Threaded(fs.code, fs.jpc) && NoDup(fs.jpc) && (d.k.VReloc? ==> d.k.pc < |fs.code|)
  {
    hide Threaded;
    HereThreads(fs, ListsOf(d));
  }

  lemma LinkedThreads(fs: FS, d: Desc)
    requires Linked(fs, d)
    ensures Threaded(fs.code, d.t) && Threaded(fs.code, d.f) && NoDup(d.t) && NoDup(d.f)
    ensures d.k.VJmp? ==> Threaded(fs.code, [d.k.pc])
    ensures Threaded(fs.code, fs.jpc) && NoDup(fs.jpc)
  {
    hide Threaded;
    Apart(d.t, d.f, fs.jpc, ListsOf(d).o);
  }

  lemma JoinedThreads(fs: FS, d: Desc)
    requires Linking(fs, Lists(d.t, d.f, []))
    ensures Threaded(fs.code, d.t) && Threaded(fs.code, d.f) && NoDup(d.t) && NoDup(d.f)
    ensures Threaded(fs.code, fs.jpc) && NoDup(fs.jpc)
    ensures forall j :: j in d.t ==> j !in d.f
    ensures d.t != [] && d.f != [] ==> d.t[0] != d.f[0]
  {
    hide Threaded;
    Apart(d.t, d.f, fs.jpc, []);
    if d.t != [] && d.f != [] { assert d.t[0] in d.t && d.f[0] in d.f; }
  }

  /** hasjumps compares the heads of the two lists: they are the same only if both are empty. */
  lemma ListHeads(fs: FS, d: Desc)
    requires Linked(fs, d)
    ensures Head(d.t) == Head(d.f) <==> d.t == [] && d.f == []
  {
    hide Threaded;
    Apart(d.t, d.f, fs.jpc, ListsOf(d).o);
    if d.t != [] && d.f != [] { assert d.t[0] in d.t && d.f[0] in d.f; }
  }

  lemma SomeJumps(d: Desc)
    requires Head(d.t) != Head(d.f)
    ensures !(d.t == [] && d.f == [])
  {
  }

  lemma NoJumps(d: Desc)
    requires Head(d.t) == Head(d.f) && (d.t != [] && d.f != [] ==> d.t[0] != d.f[0])
    ensures d.t == [] && d.f == []
  {
  }

  lemma HereOnly(fs: FS)
    requires Threaded(fs.code, fs.jpc) && NoDup(fs.jpc)
    ensures Links(fs.code, [], [], fs.jpc, [])
  {
    hide Threaded;
    ThreadedNone(fs.code);
    Apart([], [], fs.jpc, []);
  }

  lemma LinksHere(fs: FS, l: seq<nat>)
    requires Links(fs.code, [], [], fs.jpc, l)
    ensures Threaded(fs.code, fs.jpc) && NoDup(fs.jpc)
  {
    hide Threaded;
    Apart([], [], fs.jpc, l);
  }

  lemma LabelThreads(fs: FS, reg: nat, val: bool, skip: bool, l: seq<nat>)
    requires Links(fs.code, [], [], fs.jpc, l)
    ensures var fs2 := L.CodeLabel(fs, reg, val, skip);
            && Links(fs2.code, [], [], fs2.jpc, l) && fs2.jpc == [] && |fs2.code| == |fs.code| + 1
            && Threaded(fs2.code, l) && Threaded(fs2.code, fs2.jpc) && NoDup(fs2.jpc)
  {
    hide Threaded, L.Code;
    EmitLinks(fs, [], [], l, LoadBool(reg, val, skip));
    EmitAdvances(fs, Lists([], [], l), LoadBool(reg, val, skip));
  }

  lemma MaterializeThreads(fs: FS, d: Desc, jumped: bool, reg: nat)
    requires Linking(fs, Lists(d.t, d.f, []))
    ensures Linking(L.Materialize(fs, jumped, reg), Lists(d.t, d.f, []))
  {
    hide L.Materialize, Links, Advances;
    MaterializeAdvances(fs, Lists(d.t, d.f, []), jumped, reg);
    AdvancesLinked(fs, Lists(d.t, d.f, []), L.Materialize(fs, jumped, reg), Lists(d.t, d.f, []), |fs.code|);
  }

  lemma PatchedOther(fs: FS, d: Desc, end: nat, reg: nat, pf: nat)
    requires Linking(fs, Lists(d.t, d.f, []))
    ensures Threaded(PatchList(fs.code, d.f, end, reg, pf), d.t)
  {
    hide Threaded, PatchList;
    Apart(d.t, d.f, fs.jpc, []);
    PatchKeeps(fs.code, d.f, end, reg, pf);
    ThreadedJumps(fs.code, d.t);
    ThreadedKept(fs.code, PatchList(fs.code, d.f, end, reg, pf), Set(d.f), |fs.code|, d.t);
  }

  lemma NextVars(fs: FS, d: Desc)
    ensures L.Exp2NextReg(fs, L.DischargeVars(d)) == L.Exp2NextReg(fs, d)
  {
    hide L.Exp2Reg;
  }

  lemma ExitThreads(fs: FS, d: Desc, fs1: FS, l: seq<nat>)
    requires 0 <= Base(fs, d) && Advances(fs, ListsOf(d), fs1, Lists(d.t, d.f, l), Base(fs, d))
    ensures Linking(fs1, Lists(d.t, d.f, l))
    ensures Threaded(fs1.code, d.t) && Threaded(fs1.code, d.f) && Threaded(fs1.code, l) && NoDup(d.t) && NoDup(d.f)
  {
    hide Threaded, JumpsKept, Base;
    Apart(d.t, d.f, fs1.jpc, l);
  }

  lemma ChainIs(fs: FS, a: seq<nat>, b: seq<nat>)
    ensures L.Chain(fs, a, b) ==
            fs.(code := L.Concat(fs.code, a, b), err := fs.err || (a != [] && b != [] && Far(a[|a| - 1], b[0])))
  {
    hide L.Concat, Far;
  }

  lemma FalseThreads(fs1: FS, d: Desc, l: seq<nat>)
    requires Linking(fs1, Lists(d.t, d.f, l))
    ensures var fs2 := L.Chain(fs1, d.f, l);
            Threaded(fs2.code, d.t) && Threaded(fs2.code, fs2.jpc) && NoDup(fs2.jpc)
  {
    hide Threaded, L.Concat;
    MoveToFalse(fs1.code, d.t, d.f, fs1.jpc, l);
    Apart(d.t, d.f, fs1.jpc, l);
  }

  lemma TrueThreads(fs1: FS, d: Desc, l: seq<nat>)
    requires Linking(fs1, Lists(d.t, d.f, l))
    ensures var fs2 := L.Chain(fs1, d.t, l);
            Threaded(fs2.code, d.f) && Threaded(fs2.code, fs2.jpc) && NoDup(fs2.jpc)
  {
    hide Threaded, L.Concat;
    MoveToTrue(fs1.code, d.t, d.f, fs1.jpc, l);
    Apart(d.t, d.f, fs1.jpc, l);
  }

  lemma SwapThreads(fs: FS, d: Desc)
    requires Threaded(fs.code, d.t) && Threaded(fs.code, d.f)
    ensures Threaded(L.RemoveValues(fs.code, d.t), d.f)
  {
    ThreadedJumps(fs.code, d.f);
    RemoveKeeps(fs.code, d.t);
    ThreadedKept(fs.code, L.RemoveValues(fs.code, d.t), {}, |fs.code|, d.f);
  }

  lemma OperandNone(fs: FS, d: Desc)
    requires Linked(fs, d)
    ensures Linking(fs, None())
  {
    hide Links;
    LinksParts(fs, ListsOf(d));
  }

  /** An operand that waits in a register or as a constant is not touched by the code of the next. */
  lemma OperandStays(fs: FS, b: Expr, d: Desc)
    requires Linking(fs, None()) && d.t == [] && d.f == [] && !d.k.VReloc? && !d.k.VJmp?
    ensures Linked(Compile(fs, b).0, d)
  {
    hide Links, Advances, Linked, Linking;
    CompileLinked(fs, b);
    OperandNone(Compile(fs, b).0, Compile(fs, b).1);
    PlainKind(Compile(fs, b).0, d);
  }

  /** The first operand's exits stay threaded while the second is compiled. */
  lemma FirstExits(fs1: FS, d: Desc, truth: bool, fs2: FS, b: Expr)
    requires Linked(fs1, d) && fs2 == GoIf(fs1, d, truth).0 && Linking(fs2, None()) &&
      Linked(fs2, GoIf(fs1, d, truth).1)
    ensures var d1 := GoIf(fs1, d, truth).1; Threaded(Compile(fs2, b).0.code, if truth then d1.f else d1.t)
  {
    hide Advances, GoIf, Threaded, Links;
    var d1 := GoIf(fs1, d, truth).1;
    CompileLinked(fs2, b);
    LinksParts(fs2, ListsOf(d1));
    BesideLinks(fs2, if truth then d1.f else d1.t, Compile(fs2, b).0, ListsOf(Compile(fs2, b).1));
  }
}
