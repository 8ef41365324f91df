/** The lists of the generator stay threaded through every operation, and each operation changes only its own. */
module CodeLinked {
  import opened LuaCode
  import opened CodeExec
  import opened CodeLists
  import opened CodeState
  import opened CodeLinks

  lemma EmitAdvances(fs: FS, l: Lists, i: Instr)
    requires Linking(fs, l)
    ensures Advances(fs, l, Code(fs, i), l, |fs.code|)
    ensures Code(fs, i).jpc == [] && |Code(fs, i).code| == |fs.code| + 1 && Code(fs, i).code[|fs.code|] == i
  {
    hide Links, JumpsKept;
    EmitLinks(fs, l.t, l.f, l.o, i);
    KeptMore(fs.code, Code(fs, i).code, Set(fs.jpc), |fs.code|, Members(fs, l));
  }

  lemma JumpAdvances(fs: FS, l: Lists)
    requires Linking(fs, l) && l.o == []
    ensures var (fs2, j) := Jump(fs); Advances(fs, l, fs2, l.(o := j), |fs.code|)
    ensures Jump(fs).0.jpc == [] && |Jump(fs).0.code| == |fs.code| + 1
  {
    hide Links, JumpsKept, Jump;
    JumpLinks(fs, l.t, l.f);
    JumpShape(fs);
    KeptMore(fs.code, Jump(fs).0.code, {}, |fs.code|, Members(fs, l));
  }

  lemma ToTrueAdvances(fs: FS, l: Lists)
    requires Linking(fs, l)
    ensures Advances(fs, l, Chain(fs, l.t, l.o), Lists(l.t + l.o, l.f, []), |fs.code|)
  {
    hide Links, JumpsKept, Concat;
    MoveToTrue(fs.code, l.t, l.f, fs.jpc, l.o);
    KeptMore(fs.code, Concat(fs.code, l.t, l.o), Set(l.t), |fs.code|, Members(fs, l));
    assert Set(l.t + l.o) == Set(l.t) + Set(l.o);
  }

  lemma ToFalseAdvances(fs: FS, l: Lists)
    requires Linking(fs, l)
    ensures Advances(fs, l, Chain(fs, l.f, l.o), Lists(l.t, l.f + l.o, []), |fs.code|)
  {
    hide Links, JumpsKept, Concat;
    MoveToFalse(fs.code, l.t, l.f, fs.jpc, l.o);
    KeptMore(fs.code, Concat(fs.code, l.f, l.o), Set(l.f), |fs.code|, Members(fs, l));
    assert Set(l.f + l.o) == Set(l.f) + Set(l.o);
  }

  lemma ToHereAdvances(fs: FS, l: Lists)
    requires Linking(fs, l) && l.o == []
    ensures Advances(fs, l, PatchToHere(fs, l.t), Lists([], l.f, []), |fs.code|)
    ensures Advances(fs, l, PatchToHere(fs, l.f), Lists(l.t, [], []), |fs.code|)
  {
    hide Links, JumpsKept, Concat;
    MoveToHere(fs.code, l.t, l.f, fs.jpc);
    KeptMore(fs.code, Concat(fs.code, fs.jpc, l.t), Set(fs.jpc), |fs.code|, Members(fs, l));
    KeptMore(fs.code, Concat(fs.code, fs.jpc, l.f), Set(fs.jpc), |fs.code|, Members(fs, l));
    assert Set(fs.jpc + l.t) == Set(fs.jpc) + Set(l.t) && Set(fs.jpc + l.f) == Set(fs.jpc) + Set(l.f);
  }

  lemma CloseAdvances(fs: FS, d: Desc, l: Lists, reg: nat, pf: nat, pt: nat)
    requires Linking(fs, l) && l.o == [] && d.t == l.t && d.f == l.f
    ensures Advances(fs, l, CloseLists(fs, d, reg, pf, pt), Lists([], [], []), |fs.code|)
  {
    hide Links, JumpsKept, PatchList;
    CloseLinks(fs.code, l.t, l.f, fs.jpc, |fs.code|, reg, pf, pt);
    KeptMore(fs.code, CloseLists(fs, d, reg, pf, pt).code, Set(l.t) + Set(l.f), |fs.code|, Members(fs, l));
  }

  /** Instructions that are not jumps change. */
  lemma OtherAdvances(fs: FS, l: Lists, fs2: FS, n: nat)
    requires Linking(fs, l) && fs2.jpc == fs.jpc && JumpsKept(fs.code, fs2.code, {}, n)
    requires forall i :: n <= i < |fs.code| ==> !fs.code[i].Jmp?
    ensures Advances(fs, l, fs2, l, n)
  {
    hide Links;
    OtherLinks(fs.code, fs2.code, l.t, l.f, fs.jpc, l.o, n);
    KeptMore(fs.code, fs2.code, {}, n, Members(fs, l));
  }

  lemma ScaleAdvances(fs: FS, l: Lists, fs2: FS)
    requires Linking(fs, l) && fs2.code == fs.code && fs2.jpc == fs.jpc
    ensures Advances(fs, l, fs2, l, |fs.code|)
  {
  }

  // ----- putting values into registers

  lemma DischargeAdvances(fs: FS, d: Desc, reg: nat)
    requires Linked(fs, d)
    ensures var (fs2, d2) := Discharge2Reg(fs, d, reg);
            && 0 <= Base(fs, d) <= |fs2.code| && Advances(fs, ListsOf(d), fs2, ListsOf(d2), Base(fs, d)) &&
               Linked(fs2, d2)
            && !d2.k.VReloc? && ListsOf(d2) == ListsOf(d)
  {
    hide Code, Links, Advances, SetA;
    var l := ListsOf(d);
    match d.k
    case VTrue =>
      EmitAdvances(fs, l, LoadBool(reg, true, false));
      AdvancesLinked(fs, l, Code(fs, LoadBool(reg, true, false)), l, |fs.code|);
    case VFalse =>
      EmitAdvances(fs, l, LoadBool(reg, false, false));
      AdvancesLinked(fs, l, Code(fs, LoadBool(reg, false, false)), l, |fs.code|);
    case VK(k) => EmitAdvances(fs, l, LoadK(reg, k)); AdvancesLinked(fs, l, Code(fs, LoadK(reg, k)), l, |fs.code|);
    case VReloc(pc) =>
      var fs2 := fs.(code := fs.code[pc := SetA(fs.code[pc], reg)]);
      OtherAdvances(fs, l, fs2, pc);
      AdvancesLinked(fs, l, fs2, l, pc);
    case VNonReloc(r) =>
      AdvancesSelf(fs, l);
      if r != reg { EmitAdvances(fs, l, Move(reg, r)); AdvancesLinked(fs, l, Code(fs, Move(reg, r)), l, |fs.code|); }
    case VLocal(r) =>
      AdvancesSelf(fs, l);
      if r != reg { EmitAdvances(fs, l, Move(reg, r)); AdvancesLinked(fs, l, Code(fs, Move(reg, r)), l, |fs.code|); }
    case _ => AdvancesSelf(fs, l);
  }

  lemma AdvancesLinked(fs: FS, l: Lists, fs2: FS, l2: Lists, n: nat)
    requires Advances(fs, l, fs2, l2, n)
    ensures Linking(fs2, l2)
  {
    hide Linking, JumpsKept;
  }

  lemma LinkedParts(fs: FS, d: Desc)
    requires Linked(fs, d)
    ensures Linking(fs, ListsOf(d)) && 0 <= Base(fs, d) <= |fs.code|
    ensures forall i :: Base(fs, d) <= i < |fs.code| ==> !fs.code[i].Jmp?
  {
    hide Linking;
  }

  lemma ScaleLinked(fs: FS, d: Desc, fs2: FS)
    requires Linked(fs, d) && fs2.code == fs.code && fs2.jpc == fs.jpc
    ensures Linked(fs2, d) && Base(fs2, d) == Base(fs, d)
  {
    hide Links;
  }

  lemma AnyAdvances(fs: FS, d: Desc)
    requires Linked(fs, d)
    ensures var (fs2, d2) := Discharge2AnyReg(fs, d);
            && 0 <= Base(fs, d) <= |fs2.code| && Advances(fs, ListsOf(d), fs2, ListsOf(d2), Base(fs, d)) &&
               Linked(fs2, d2)
            && !d2.k.VReloc? && ListsOf(d2) == ListsOf(d)
  {
    hide Discharge2Reg, Advances, Linked;
    LinkedParts(fs, d);
    if d.k.VNonReloc? {
      AdvancesSelf(fs, ListsOf(d));
    } else {
      var fs1 := Reserve(fs, 1);
      assert fs1.code == fs.code && fs1.jpc == fs.jpc;
      ScaleLinked(fs, d, fs1);
      DischargeAdvances(fs1, d, fs.freereg);
      ScaleFrom(fs, fs1, ListsOf(d), Discharge2Reg(fs1, d, fs.freereg).0, ListsOf(d), Base(fs, d));
    }
  }

  lemma ScaleFrom(fs: FS, fs1: FS, l: Lists, fs2: FS, l2: Lists, n: nat)
    requires Advances(fs1, l, fs2, l2, n) && fs1.code == fs.code && fs1.jpc == fs.jpc
    ensures Advances(fs, l, fs2, l2, n)
  {
    hide Linking;
  }

  // ----- exp2reg

  lemma MaterializeAdvances(fs: FS, l: Lists, jumped: bool, reg: nat)
    requires Linking(fs, l) && l.o == []
    ensures Advances(fs, l, Materialize(fs, jumped, reg), l, |fs.code|)
  {
    hide Advances, Jump, Linking, Chain;
    var (fs1, fj) := if jumped then (fs, []) else Jump(fs);
    var l1 := l.(o := fj);
    AdvancesSelf(fs, l);
    if !jumped {
      JumpAdvances(fs, l);
      AdvancesLinked(fs, l, fs1, l1, |fs.code|);
    }
    LabelAdvances(fs1, l1, reg, false, true);
    var fs2 := CodeLabel(fs1, reg, false, true);
    AdvancesTrans(fs, l, fs1, l1, fs2, l1, |fs.code|, |fs1.code|);
    LabelAdvances(fs2, l1, reg, true, false);
    var fs3 := CodeLabel(fs2, reg, true, false);
    AdvancesTrans(fs, l, fs2, l1, fs3, l1, |fs.code|, |fs2.code|);
    HereList(fs3, l1);
    AdvancesTrans(fs, l, fs3, l1, PatchToHere(fs3, fj), l, |fs.code|, |fs3.code|);
  }

  lemma LabelAdvances(fs: FS, l: Lists, reg: nat, val: bool, skip: bool)
    requires Linking(fs, l)
    ensures Advances(fs, l, CodeLabel(fs, reg, val, skip), l, |fs.code|) && Linking(CodeLabel(fs, reg, val, skip), l)
    ensures CodeLabel(fs, reg, val, skip).jpc == [] && |CodeLabel(fs, reg, val, skip).code| == |fs.code| + 1
  {
    hide Advances, Links, Code;
    EmitAdvances(fs, l, LoadBool(reg, val, skip));
    AdvancesLinked(fs, l, CodeLabel(fs, reg, val, skip), l, |fs.code|);
  }

  /** A list that is on hold becomes the list of jumps to here. */
  lemma HereList(fs: FS, l: Lists)
    requires Linking(fs, l) && fs.jpc == []
    ensures Advances(fs, l, PatchToHere(fs, l.o), l.(o := []), |fs.code|)
  {
    assert PatchToHere(fs, l.o).code == fs.code && PatchToHere(fs, l.o).jpc == l.o by { assert [] + l.o == l.o; }
    assert l.t + l.f + [] + l.o == l.t + l.f + l.o + [];
  }

  lemma JoinAdvances(fs: FS, d: Desc)
    requires Linked(fs, d) && !d.k.VReloc?
    ensures var (fs2, d2) := JoinJump(fs, d);
            Advances(fs, ListsOf(d), fs2, Lists(d2.t, d2.f, []), |fs.code|) && |fs2.code| == |fs.code|
  {
    hide Advances, Links, Chain;
    if d.k.VJmp? {
      ToTrueAdvances(fs, ListsOf(d));
      assert |Chain(fs, d.t, [d.k.pc]).code| == |fs.code| by { ChainLength(fs, d.t, [d.k.pc]); }
    } else {
      AdvancesSelf(fs, ListsOf(d));
    }
  }

  lemma ChainLength(fs: FS, a: seq<nat>, b: seq<nat>)
    ensures |Chain(fs, a, b).code| == |fs.code| && Chain(fs, a, b).jpc == fs.jpc
  {
  }

  /** The closing half of exp2reg. */
  function CloseAll(fs: FS, d: Desc, jumped: bool, reg: nat): FS {
    if d.t == [] && d.f == [] then fs
    else if NeedValue(fs.code, d.t) || NeedValue(fs.code, d.f) then
      var n := |fs.code| + if jumped then 0 else 1;
      CloseLists(Materialize(fs, jumped, reg), d, reg, n, n + 1)
    else CloseLists(fs, d, reg, 0, 0)
  }

  lemma CloseAllAdvances(fs: FS, d: Desc, jumped: bool, reg: nat)
    requires Linking(fs, Lists(d.t, d.f, []))
    ensures Advances(fs, Lists(d.t, d.f, []), CloseAll(fs, d, jumped, reg), Lists([], [], []), |fs.code|)
  {
    hide Advances, Linking, Materialize, CloseLists, NeedValue;
    var l, n := Lists(d.t, d.f, []), |fs.code| + if jumped then 0 else 1;
    AdvancesSelf(fs, l);
    if d.t == [] && d.f == [] {
    } else if NeedValue(fs.code, d.t) || NeedValue(fs.code, d.f) {
      var fs1 := Materialize(fs, jumped, reg);
      MaterializeAdvances(fs, l, jumped, reg);
      AdvancesLinked(fs, l, fs1, l, |fs.code|);
      CloseAdvances(fs1, d, l, reg, n, n + 1);
      AdvancesLength(fs, l, fs1, l, |fs.code|);
      AdvancesTrans(fs, l, fs1, l, CloseLists(fs1, d, reg, n, n + 1), Lists([], [], []), |fs.code|, |fs1.code|);
    } else {
      CloseAdvances(fs, d, l, reg, 0, 0);
    }
  }

  lemma AdvancesLength(fs: FS, l: Lists, fs2: FS, l2: Lists, n: nat)
    requires Advances(fs, l, fs2, l2, n)
    ensures n <= |fs.code| && n <= |fs2.code|
  {
    hide Linking;
  }

  lemma Exp2RegAdvances(fs: FS, d: Desc, reg: nat)
    requires Linked(fs, d)
    ensures var (fs2, d2) := Exp2Reg(fs, d, reg);
            0 <= Base(fs, d) <= |fs2.code| && Advances(fs, ListsOf(d), fs2, ListsOf(d2), Base(fs, d)) && Linked(fs2, d2)
  {
    hide Advances, Linking, Discharge2Reg, JoinJump, CloseLists, Materialize, NeedValue, Linked;
    var (fs1, d1) := Discharge2Reg(fs, d, reg);
    DischargeAdvances(fs, d, reg);
    JoinAdvances(fs1, d1);
    var (fs2, d2) := JoinJump(fs1, d1);
    AdvancesTrans(fs, ListsOf(d), fs1, ListsOf(d1), fs2, Lists(d2.t, d2.f, []), Base(fs, d), |fs1.code|);
    AdvancesLinked(fs, ListsOf(d), fs2, Lists(d2.t, d2.f, []), Base(fs, d));
    var fs3 := CloseAll(fs2, d2, d1.k.VJmp?, reg);
    CloseAllAdvances(fs2, d2, d1.k.VJmp?, reg);
    AdvancesTrans(fs, ListsOf(d), fs2, Lists(d2.t, d2.f, []), fs3, Lists([], [], []), Base(fs, d), |fs2.code|);
    AdvancesLinked(fs, ListsOf(d), fs3, Lists([], [], []), Base(fs, d));
    AdvancesLength(fs, ListsOf(d), fs3, Lists([], [], []), Base(fs, d));
    PlainLinked(fs3, VNonReloc(reg));
  }

  lemma PlainLinked(fs: FS, k: Kind)
    requires Linking(fs, Lists([], [], [])) && !k.VReloc? && !k.VJmp?
    ensures Linked(fs, Desc(k, [], []))
  {
    hide Linking;
  }

  lemma VarsLinked(fs: FS, d: Desc)
    requires Linked(fs, d)
    ensures Linked(fs, DischargeVars(d)) && ListsOf(DischargeVars(d)) == ListsOf(d) &&
      Base(fs, DischargeVars(d)) == Base(fs, d)
  {
    hide Linking;
  }

  lemma NextAdvances(fs: FS, d: Desc)
    requires Linked(fs, d)
    ensures var (fs2, d2) := Exp2NextReg(fs, d);
            0 <= Base(fs, d) <= |fs2.code| && Advances(fs, ListsOf(d), fs2, ListsOf(d2), Base(fs, d)) && Linked(fs2, d2)
  {
    hide Advances, Exp2Reg, Linked;
    var d1 := DischargeVars(d);
    VarsLinked(fs, d);
    var fs1 := Reserve(FreeExp(fs, d1), 1);
    assert fs1.code == fs.code && fs1.jpc == fs.jpc;
    ScaleLinked(fs, d1, fs1);
    Exp2RegAdvances(fs1, d1, FreeExp(fs, d1).freereg);
    var (fs2, d2) := Exp2Reg(fs1, d1, FreeExp(fs, d1).freereg);
    ScaleFrom(fs, fs1, ListsOf(d), fs2, ListsOf(d2), Base(fs, d));
  }

  lemma AnyRegAdvances(fs: FS, d: Desc)
    requires Linked(fs, d)
    ensures var (fs2, d2) := Exp2AnyReg(fs, d);
            0 <= Base(fs, d) <= |fs2.code| && Advances(fs, ListsOf(d), fs2, ListsOf(d2), Base(fs, d)) && Linked(fs2, d2)
            && !d2.k.VReloc?
  {
    hide Advances, Linked, Exp2Reg;
    var d1 := DischargeVars(d);
    VarsLinked(fs, d);
    LinkedParts(fs, d);
    AdvancesSelf(fs, ListsOf(d));
    if d1.k.VNonReloc? && d1.t == [] && d1.f == [] {
    } else if d1.k.VNonReloc? && d1.k.r >= fs.nactvar {
      Exp2RegAdvances(fs, d1, d1.k.r);
      RegResult(fs, d1, d1.k.r);
    } else {
      NextAdvances(fs, d);
      RegResult(Reserve(FreeExp(fs, d1), 1), d1, FreeExp(fs, d1).freereg);
    }
  }

  lemma RegResult(fs: FS, d: Desc, reg: nat)
    ensures Exp2Reg(fs, d, reg).1.k == VNonReloc(reg)
  {
    hide Discharge2Reg, JoinJump, NeedValue, Materialize, CloseLists;
  }

  lemma ValAdvances(fs: FS, d: Desc)
    requires Linked(fs, d)
    ensures var (fs2, d2) := Exp2Val(fs, d);
            && 0 <= Base(fs, d) <= Base(fs2, d2) && Advances(fs, ListsOf(d), fs2, ListsOf(d2), Base(fs, d)) &&
               Linked(fs2, d2)
  {
    hide Advances, Linked, Exp2AnyReg;
    LinkedParts(fs, d);
    AdvancesSelf(fs, ListsOf(d));
    VarsLinked(fs, d);
    AdvancesLess(fs, ListsOf(d), fs, ListsOf(d), |fs.code|, Base(fs, d));
    AnyRegAdvances(fs, d);
  }

  lemma AdvancesLess(fs: FS, l: Lists, fs2: FS, l2: Lists, m: nat, n: nat)
    requires Advances(fs, l, fs2, l2, m) && n <= m
    ensures Advances(fs, l, fs2, l2, n)
  {
    hide Linking;
  }

  lemma OperandAdvances(fs: FS, d: Desc)
    requires Linked(fs, d)
    ensures var (fs2, d2, _) := Exp2RK(fs, d);
            && 0 <= Base(fs, d) <= |fs2.code| && Advances(fs, ListsOf(d), fs2, ListsOf(d2), Base(fs, d)) &&
               Linked(fs2, d2)
            && !d2.k.VReloc?
  {
    hide Advances, Linked, Exp2AnyReg, AddK, Exp2Val;
    var (fs1, d1) := Exp2Val(fs, d);
    ValAdvances(fs, d);
    AdvancesLength(fs, ListsOf(d), fs1, ListsOf(d1), Base(fs, d));
    if (d1.k.VTrue? || d1.k.VFalse?) && |fs1.k| <= MAXINDEXRK {
      var (fs2, i) := AddK(fs1, Bool(d1.k.VTrue?));
      ScaleTo(fs, ListsOf(d), fs1, ListsOf(d1), fs2, Base(fs, d));
      LiteralLinked(fs1, d1, fs2, i);
    } else if d1.k.VK? && d1.k.k <= MAXINDEXRK {
    } else {
      AnyRegAdvances(fs1, d1);
      var (fs2, d2) := Exp2AnyReg(fs1, d1);
      AdvancesTrans(fs, ListsOf(d), fs1, ListsOf(d1), fs2, ListsOf(d2), Base(fs, d), Base(fs1, d1));
      AdvancesLength(fs, ListsOf(d), fs2, ListsOf(d2), Base(fs, d));
    }
  }

  lemma LiteralLinked(fs: FS, d: Desc, fs2: FS, i: nat)
    requires Linked(fs, d) && fs2.code == fs.code && fs2.jpc == fs.jpc && (d.k.VTrue? || d.k.VFalse?)
    ensures Linked(fs2, d.(k := VK(i)))
  {
    hide Links;
  }

  lemma ScaleTo(fs: FS, l: Lists, fs1: FS, l1: Lists, fs2: FS, n: nat)
    requires Advances(fs, l, fs1, l1, n) && fs1.code == fs2.code && fs1.jpc == fs2.jpc
    ensures Advances(fs, l, fs2, l1, n)
  {
    hide Links;
  }

  // ----- conditions

  lemma CondJumpAdvances(fs: FS, l: Lists, i: Instr)
    requires Linking(fs, l) && l.o == []
    ensures var (fs2, j) := CondJump(fs, i);
            Advances(fs, l, fs2, l.(o := j), |fs.code|) && |fs2.code| == |fs.code| + 2 && fs2.jpc == []
  {
    hide Advances, Linking, Code, Jump;
    EmitAdvances(fs, l, i);
    var fs1 := Code(fs, i);
    AdvancesLinked(fs, l, fs1, l, |fs.code|);
    JumpAdvances(fs1, l);
    AdvancesTrans(fs, l, fs1, l, Jump(fs1).0, l.(o := Jump(fs1).1), |fs.code|, |fs1.code|);
  }

  /** Dropping a NOT that was just emitted. */
  lemma DropAdvances(fs: FS, d: Desc)
    requires Linked(fs, d) && d.k.VReloc?
    ensures var fs1 := fs.(code := fs.code[..|fs.code| - 1]);
            Advances(fs, ListsOf(d), fs1, ListsOf(d), Base(fs, d)) && Linking(fs1, ListsOf(d)) &&
              |fs1.code| == Base(fs, d)
  {
    hide Advances, Links;
    var fs1 := fs.(code := fs.code[..|fs.code| - 1]);
    assert JumpsKept(fs.code, fs1.code, {}, |fs1.code|);
    OtherAdvances(fs, ListsOf(d), fs1, |fs1.code|);
    AdvancesLinked(fs, ListsOf(d), fs1, ListsOf(d), |fs1.code|);
  }

  lemma OnCondAdvances(fs: FS, d: Desc, cond: bool)
    requires Linked(fs, d) && !d.k.VJmp?
    ensures var (fs2, j) := JumpOnCond(fs, d, cond);
            0 <= Base(fs, d) <= |fs2.code| && Advances(fs, ListsOf(d), fs2, Lists(d.t, d.f, j), Base(fs, d))
  {
    hide Advances, Linking, Discharge2AnyReg, CondJump, Linked;
    LinkedParts(fs, d);
    if d.k.VReloc? && d.k.pc < |fs.code| && fs.code[d.k.pc].Not? {
      DropAdvances(fs, d);
      var fs1 := fs.(code := fs.code[..|fs.code| - 1]);
      var i := Test(fs.code[d.k.pc].b, !cond);
      CondJumpAdvances(fs1, ListsOf(d), i);
      AdvancesTrans(fs, ListsOf(d), fs1, ListsOf(d), CondJump(fs1, i).0, Lists(d.t, d.f, CondJump(fs1, i).1),
                    Base(fs, d), |fs1.code|);
    } else {
      AnyAdvances(fs, d);
      var (fs1, d1) := Discharge2AnyReg(fs, d);
      LinkedParts(fs1, d1);
      var fs2 := FreeExp(fs1, d1);
      assert fs2.code == fs1.code && fs2.jpc == fs1.jpc;
      var i := TestSet(NO_REG, if d1.k.VNonReloc? then d1.k.r else 0, cond);
      ScaleAdvances(fs1, ListsOf(d), fs2);
      AdvancesLinked(fs1, ListsOf(d), fs2, ListsOf(d), |fs1.code|);
      CondJumpAdvances(fs2, ListsOf(d), i);
      ScaleTo(fs, ListsOf(d), fs1, ListsOf(d), fs2, Base(fs, d));
      AdvancesTrans(fs, ListsOf(d), fs2, ListsOf(d), CondJump(fs2, i).0, Lists(d.t, d.f, CondJump(fs2, i).1),
                    Base(fs, d), |fs1.code|);
    }
  }

  lemma InvertKept(code: seq<Instr>, pc: nat)
    ensures JumpsKept(code, InvertJump(code, pc), {}, |code|)
  {
  }

  lemma InvertAdvances(fs: FS, l: Lists, pc: nat)
    requires Linking(fs, l)
    ensures Advances(fs, l, fs.(code := InvertJump(fs.code, pc)), l, |fs.code|)
  {
    hide Linking, InvertJump;
    InvertKept(fs.code, pc);
    OtherAdvances(fs, l, fs.(code := InvertJump(fs.code, pc)), |fs.code|);
  }

  function CondJumpOf(fs: FS, d: Desc, cond: bool): (FS, seq<nat>) {
    if cond then TrueJump(fs, d) else FalseJump(fs, d)
  }

  lemma ExitAdvances(fs: FS, d: Desc, cond: bool)
    requires Linked(fs, d)
    ensures var (fs2, j) := CondJumpOf(fs, d, cond);
            0 <= Base(fs, d) <= |fs2.code| && Advances(fs, ListsOf(d), fs2, Lists(d.t, d.f, j), Base(fs, d))
  {
    hide Advances, Linking, JumpOnCond, Jump, InvertJump, Linked;
    LinkedParts(fs, d);
    AdvancesSelf(fs, ListsOf(d));
    if d.k.VJmp? {
      InvertAdvances(fs, ListsOf(d), d.k.pc);
    } else if d.k == (if cond then VTrue else VFalse) {
      JumpAdvances(fs, ListsOf(d));
    } else {
      OnCondAdvances(fs, d, cond);
    }
  }

  function GoIf(fs: FS, d: Desc, truth: bool): (FS, Desc) {
    if truth then GoIfTrue(fs, d) else GoIfFalse(fs, d)
  }

  lemma GoIfAdvances(fs: FS, d: Desc, truth: bool)
    requires Linked(fs, d)
    ensures var (fs2, d2) := GoIf(fs, d, truth);
            0 <= Base(fs, d) <= |fs2.code| && Advances(fs, ListsOf(d), fs2, ListsOf(d2), Base(fs, d)) && Linked(fs2, d2)
            && d2.k.VCond?
  {
    hide Advances, Linking, TrueJump, FalseJump, Linked, Chain;
    VarsLinked(fs, d);
    var d1 := DischargeVars(d);
    var (fs1, j) := CondJumpOf(fs, d1, !truth);
    ExitAdvances(fs, d1, !truth);
    var l1 := Lists(d1.t, d1.f, j);
    AdvancesLinked(fs, ListsOf(d), fs1, l1, Base(fs, d));
    var fs2 := Chain(fs1, if truth then d1.f else d1.t, j);
    var l2 := if truth then Lists(d1.t, d1.f + j, []) else Lists(d1.t + j, d1.f, []);
    ToTrueAdvances(fs1, l1);
    ToFalseAdvances(fs1, l1);
    AdvancesLinked(fs1, l1, fs2, l2, |fs1.code|);
    AdvancesTrans(fs, ListsOf(d), fs1, l1, fs2, l2, Base(fs, d), |fs1.code|);
    ChainLength(fs1, if truth then d1.f else d1.t, j);
    ToHereAdvances(fs2, l2);
    var (fs3, d3) := GoIf(fs, d, truth);
    AdvancesTrans(fs, ListsOf(d), fs2, l2, fs3, ListsOf(d3), Base(fs, d), |fs2.code|);
    AdvancesLinked(fs, ListsOf(d), fs3, ListsOf(d3), Base(fs, d));
    AdvancesLength(fs, ListsOf(d), fs3, ListsOf(d3), Base(fs, d));
    CondLinked(fs3, d3);
  }

  lemma CondLinked(fs: FS, d: Desc)
    requires Linking(fs, ListsOf(d)) && d.k.VCond?
    ensures Linked(fs, d)
  {
    hide Linking;
  }

  // ----- operators

  lemma SwapAdvances(fs: FS, l: Lists)
    requires Linking(fs, l)
    ensures var fs2 := fs.(code := RemoveValues(RemoveValues(fs.code, l.t), l.f));
            && Advances(fs, l, fs2, Lists(l.f, l.t, l.o), |fs.code|) && |fs2.code| == |fs.code|
            && forall i :: 0 <= i < |fs.code| && Relocatable(fs.code[i]) ==> fs2.code[i] == fs.code[i]
  {
    hide Links, RemoveValues, JumpsKept;
    SwapLinks(fs.code, l.t, l.f, fs.jpc, l.o);
    KeptMore(fs.code, RemoveValues(RemoveValues(fs.code, l.t), l.f), {}, |fs.code|, Members(fs, l));
  }

  lemma NotAdvances(fs: FS, d: Desc)
    requires Linked(fs, d)
    ensures var (fs2, k) := NotValue(fs, d);
            && 0 <= Base(fs, d) <= Base(fs2, d.(k := k)) &&
               Advances(fs, ListsOf(d), fs2, ListsOf(d.(k := k)), Base(fs, d))
            && Linked(fs2, d.(k := k))
  {
    hide Advances, Linking, Discharge2AnyReg, Code, InvertJump;
    LinkedParts(fs, d);
    AdvancesSelf(fs, ListsOf(d));
    if d.k.VFalse? || d.k.VK? || d.k.VTrue? {
    } else if d.k.VJmp? {
      InvertAdvances(fs, ListsOf(d), d.k.pc);
      AdvancesLinked(fs, ListsOf(d), fs.(code := InvertJump(fs.code, d.k.pc)), ListsOf(d), |fs.code|);
    } else {
      AnyAdvances(fs, d);
      var (fs1, d1) := Discharge2AnyReg(fs, d);
      LinkedParts(fs1, d1);
      var fs2 := FreeExp(fs1, d1);
      assert fs2.code == fs1.code && fs2.jpc == fs1.jpc;
      var i := Not(0, if d1.k.VNonReloc? then d1.k.r else 0);
      ScaleAdvances(fs1, ListsOf(d), fs2);
      AdvancesLinked(fs1, ListsOf(d), fs2, ListsOf(d), |fs1.code|);
      ScaleTo(fs, ListsOf(d), fs1, ListsOf(d), fs2, Base(fs, d));
      EmitAdvances(fs2, ListsOf(d), i);
      AdvancesLinked(fs2, ListsOf(d), Code(fs2, i), ListsOf(d), |fs2.code|);
      AdvancesTrans(fs, ListsOf(d), fs2, ListsOf(d), Code(fs2, i), ListsOf(d), Base(fs, d), |fs2.code|);
    }
  }

  lemma CodeNotAdvances(fs: FS, d: Desc)
    requires Linked(fs, d)
    ensures var (fs2, d2) := CodeNot(fs, d);
            0 <= Base(fs, d) <= Base(fs2, d2) && Advances(fs, ListsOf(d), fs2, ListsOf(d2), Base(fs, d)) &&
              Linked(fs2, d2)
  {
    hide Advances, NotValue, RemoveValues, Links;
    VarsLinked(fs, d);
    var d1 := DischargeVars(d);
    var (fs1, k) := NotValue(fs, d1);
    NotAdvances(fs, d1);
    SwapAdvances(fs1, ListsOf(d1.(k := k)));
    var (fs2, d2) := CodeNot(fs, d);
    AdvancesTrans(fs, ListsOf(d), fs1, ListsOf(d1.(k := k)), fs2, ListsOf(d2), Base(fs, d), |fs1.code|);
    AdvancesLinked(fs, ListsOf(d), fs2, ListsOf(d2), Base(fs, d));
  }

  // ----- two operands

  /** A list that a later piece of code does not know stays threaded beside that code's own. */
  lemma BesideLinks(fs1: FS, q: seq<nat>, fs2: FS, l2: Lists)
    requires Threaded(fs1.code, q) && NoDup(q) && (forall j :: j in q ==> j !in fs1.jpc)
    requires Advances(fs1, Lists([], [], []), fs2, l2, |fs1.code|)
    ensures Threaded(fs2.code, q) && forall j :: j in q ==> j !in Members(fs2, l2)
  {
    hide Links, Linking;
    ThreadedJumps(fs1.code, q);
    assert Members(fs1, Lists([], [], [])) == Set(fs1.jpc);
    ThreadedKept(fs1.code, fs2.code, Set(fs1.jpc), |fs1.code|, q);
  }

  lemma LinksParts(fs: FS, l: Lists)
    requires Linking(fs, l)
    ensures NoDup(l.t) && NoDup(l.f) && Threaded(fs.code, l.t) && Threaded(fs.code, l.f)
    ensures (forall j :: j in l.t ==> j !in fs.jpc) && (forall j :: j in l.f ==> j !in fs.jpc)
    ensures Linking(fs, Lists([], [], []))
  {
    hide Threaded;
    Apart(l.t, l.f, fs.jpc, l.o);
    Apart([], [], fs.jpc, []);
    ThreadedNone(fs.code);
  }

  /** The first operand's exits are appended to the second's. */
  lemma AppendLinks(fs: FS, l: Lists, q: seq<nat>)
    requires Linking(fs, l) && Threaded(fs.code, q) && NoDup(q) && forall j :: j in q ==> j !in Members(fs, l)
    ensures Linking(Chain(fs, l.t, q), l.(t := l.t + q)) && Linking(Chain(fs, l.f, q), l.(f := l.f + q))
    ensures JumpsKept(fs.code, Chain(fs, l.t, q).code, Set(l.t), |fs.code|)
    ensures JumpsKept(fs.code, Chain(fs, l.f, q).code, Set(l.f), |fs.code|)
  {
    hide Threaded, Concat;
    Apart(l.t, l.f, fs.jpc, l.o);
    Apart(l.t + q, l.f, fs.jpc, l.o);
    Apart(l.t, l.f + q, fs.jpc, l.o);
    ApartTwo(l.t, q);
    ApartTwo(l.f, q);
    ConcatThreads(fs.code, l.t, q);
    ConcatThreads(fs.code, l.f, q);
    ConcatKeeps(fs.code, l.t, q, l.f);
    ConcatKeeps(fs.code, l.t, q, fs.jpc);
    ConcatKeeps(fs.code, l.t, q, l.o);
    ConcatKeeps(fs.code, l.f, q, l.t);
    ConcatKeeps(fs.code, l.f, q, fs.jpc);
    ConcatKeeps(fs.code, l.f, q, l.o);
    ConcatKept(fs.code, l.t, q);
    ConcatKept(fs.code, l.f, q);
  }

  lemma ConcatKept(code: seq<Instr>, a: seq<nat>, b: seq<nat>)
    ensures JumpsKept(code, Concat(code, a, b), Set(a), |code|)
  {
    if a != [] { assert a[|a| - 1] in a; }
  }

  lemma AppendReloc(fs: FS, d: Desc, a: seq<nat>, q: seq<nat>)
    requires Linked(fs, d) && Threaded(fs.code, a) && d.k.VReloc?
    ensures Chain(fs, a, q).code[d.k.pc] == fs.code[d.k.pc]
  {
    hide Links;
    ThreadedJumps(fs.code, a);
    if a != [] { assert a[|a| - 1] in a; }
  }

  /** The end of `and` and `or`. */
  lemma JoinBothAdvances(fs0: FS, l0: Lists, fs1: FS, d1: Desc, fs2: FS, d2: Desc, truth: bool, n: nat)
    requires Advances(fs0, l0, fs1, ListsOf(d1), n) && Linked(fs1, d1) && d1.k.VCond? &&
      (if truth then d1.t else d1.f) == []
    requires Advances(fs1, Lists([], [], []), fs2, ListsOf(d2), |fs1.code|) && Linked(fs2, d2) &&
      n <= |fs1.code| <= Base(fs2, d2)
    ensures var (fs3, d3) := if truth then JoinFalse(fs2, d1, d2) else JoinTrue(fs2, d1, d2);
            n <= Base(fs3, d3) && Advances(fs0, l0, fs3, ListsOf(d3), n) && Linked(fs3, d3)
  {
    hide Advances, Links, Chain, Threaded;
    var q := if truth then d1.f else d1.t;
    LinksParts(fs1, ListsOf(d1));
    BesideLinks(fs1, q, fs2, ListsOf(d2));
    AppendLinks(fs2, ListsOf(d2), q);
    LinksParts(fs2, ListsOf(d2));
    var (fs3, d3) := if truth then JoinFalse(fs2, d1, d2) else JoinTrue(fs2, d1, d2);
    var a := if truth then d2.f else d2.t;
    if d2.k.VReloc? { AppendReloc(fs2, d2, a, q); }
    ChainLength(fs2, a, q);
    var l3 := if truth then ListsOf(d2).(f := d2.f + q) else ListsOf(d2).(t := d2.t + q);
    assert ListsOf(d3) == l3;
    BesideAdvances(fs0, l0, fs1, ListsOf(d1), fs2, ListsOf(d2), fs3, l3, q, n);
  }

  lemma BesideAdvances(fs0: FS, l0: Lists, fs1: FS, l1: Lists, fs2: FS, l2: Lists, fs3: FS, l3: Lists, q: seq<nat>,
                       n: nat)
    requires Advances(fs0, l0, fs1, l1, n) && Advances(fs1, Lists([], [], []), fs2, l2, |fs1.code|) && n <= |fs1.code|
    requires Linking(fs3, l3)
    requires JumpsKept(fs2.code, fs3.code, Set(l2.t), |fs2.code|) ||
      JumpsKept(fs2.code, fs3.code, Set(l2.f), |fs2.code|)
    requires Members(fs3, l3) == Members(fs2, l2) + Set(q) && Set(q) <= Members(fs1, l1)
    ensures Advances(fs0, l0, fs3, l3, n)
  {
    hide Linking;
    var m := Members(fs1, Lists([], [], []));
    assert m == Set(fs1.jpc) && m <= Members(fs1, l1);
    KeptTrans(fs0.code, fs1.code, fs2.code, Members(fs0, l0), m, n, |fs1.code|, Members(fs0, l0));
    if JumpsKept(fs2.code, fs3.code, Set(l2.t), |fs2.code|) {
      KeptMore(fs2.code, fs3.code, Set(l2.t), |fs2.code|, Members(fs2, l2));
    } else {
      KeptMore(fs2.code, fs3.code, Set(l2.f), |fs2.code|, Members(fs2, l2));
    }
    KeptTrans(fs0.code, fs2.code, fs3.code, Members(fs0, l0), Members(fs2, l2), n, |fs2.code|, Members(fs0, l0));
  }

  /** An operand has no exits left. */
  lemma OperandEmpty(fs: FS, d: Desc)
    ensures Exp2RK(fs, d).1.t == [] && Exp2RK(fs, d).1.f == []
    ensures !Exp2RK(fs, d).1.k.VJmp? && !Exp2RK(fs, d).1.k.VReloc?
  {
    hide Exp2Reg, AddK;
    RegEmpty(fs, d);
    RegEmpty(Exp2Val(fs, d).0, Exp2Val(fs, d).1);
  }

  lemma RegEmpty(fs: FS, d: Desc)
    ensures var d2 := Exp2AnyReg(fs, d).1; d2.t == [] && d2.f == [] && d2.k.VNonReloc?
  {
    hide Exp2Reg;
    var d1 := DischargeVars(d);
    RegShape(fs, d1, if d1.k.VNonReloc? then d1.k.r else 0);
    RegShape(Reserve(FreeExp(fs, d1), 1), d1, FreeExp(fs, d1).freereg);
  }

  lemma RegShape(fs: FS, d: Desc, reg: nat)
    ensures Exp2Reg(fs, d, reg).1 == Desc(VNonReloc(reg), [], [])
  {
    hide Discharge2Reg, JoinJump, NeedValue, Materialize, CloseLists;
  }

  function None(): Lists { Lists([], [], []) }

  /** luaK_exp2RK on an operand of an operator, as a whole. */
  lemma OperandPlain(fs: FS, d: Desc, fs0: FS, l0: Lists, n: nat)
    requires Linked(fs, d) && Advances(fs0, l0, fs, ListsOf(d), n) && n <= Base(fs, d)
    ensures var (fs2, d2, _) := Exp2RK(fs, d);
            && d2.t == [] && d2.f == [] && ListsOf(d2) == None() && !d2.k.VReloc?
            && n <= |fs2.code| && Advances(fs0, l0, fs2, None(), n) && Linking(fs2, None()) && Linked(fs2, d2)
  {
    hide Advances, Linking, Exp2RK, Linked;
    OperandEmpty(fs, d);
    OperandAdvances(fs, d);
    var (fs2, d2, _) := Exp2RK(fs, d);
    AdvancesTrans(fs0, l0, fs, ListsOf(d), fs2, None(), n, Base(fs, d));
    AdvancesLinked(fs0, l0, fs2, None(), n);
  }

  lemma ScalePlain(fs0: FS, l0: Lists, fs: FS, fs2: FS, n: nat)
    requires Advances(fs0, l0, fs, None(), n) && fs2.code == fs.code && fs2.jpc == fs.jpc
    ensures Advances(fs0, l0, fs2, None(), n) && Linking(fs2, None())
  {
    hide Links, JumpsKept;
  }

  lemma RelocLinked(fs: FS, i: Instr)
    requires Linking(fs, None()) && i.Arith?
    ensures Linked(Code(fs, i), Desc(VReloc(|fs.code|), [], [])) &&
      Base(Code(fs, i), Desc(VReloc(|fs.code|), [], [])) == |fs.code|
    ensures ListsOf(Desc(VReloc(|fs.code|), [], [])) == None()
  {
    hide Links, Code, Advances;
    EmitAdvances(fs, None(), i);
    AdvancesLinked(fs, None(), Code(fs, i), None(), |fs.code|);
  }

  lemma ArithAdvances(fs0: FS, l0: Lists, n: nat, fs: FS, d2: Desc, op: nat, d1: Desc)
    requires Linked(fs, d2) && Advances(fs0, l0, fs, ListsOf(d2), n) && n <= Base(fs, d2)
    requires d1.t == [] && d1.f == [] && !d1.k.VReloc? && !d1.k.VJmp?
    ensures var (fs3, d3) := CodeArith(fs, op, d1, d2);
            n <= Base(fs3, d3) && Advances(fs0, l0, fs3, ListsOf(d3), n) && Linked(fs3, d3)
  {
    hide Advances, Linking, Exp2RK, Code, Free2;
    var (fs1, e2, o2) := Exp2RK(fs, d2);
    OperandPlain(fs, d2, fs0, l0, n);
    PlainKind(fs1, d1);
    OperandPlain(fs1, d1, fs0, l0, n);
    var (fs2, e1, o1) := Exp2RK(fs1, d1);
    var fs3 := if o1 > o2 then Free2(fs2, e1, e2) else Free2(fs2, e2, e1);
    var i := Arith(op, 0, o1, o2);
    assert fs3.code == fs2.code && fs3.jpc == fs2.jpc by { FreeCode(fs2, e1, e2); FreeCode(fs2, e2, e1); }
    ScalePlain(fs0, l0, fs2, fs3, n);
    EmitAdvances(fs3, None(), i);
    RelocLinked(fs3, i);
    AdvancesTrans(fs0, l0, fs3, None(), Code(fs3, i), None(), n, |fs3.code|);
  }

  lemma PlainKind(fs: FS, d: Desc)
    requires Linking(fs, None()) && d.t == [] && d.f == [] && !d.k.VReloc? && !d.k.VJmp?
    ensures Linked(fs, d) && ListsOf(d) == None() && Base(fs, d) == |fs.code|
  {
    hide Linking;
  }

  lemma FreeCode(fs: FS, d1: Desc, d2: Desc)
    ensures Free2(fs, d1, d2).code == fs.code && Free2(fs, d1, d2).jpc == fs.jpc
  {
  }

  lemma CompLinked(fs: FS, i: Instr)
    requires Linking(fs, None())
    ensures Advances(fs, None(), CondJump(fs, i).0, Lists([], [], [|fs.code| + 1]), |fs.code|)
    ensures |CondJump(fs, i).0.code| == |fs.code| + 2
    ensures Linked(CondJump(fs, i).0, Desc(VJmp(|fs.code| + 1), [], []))
  {
    hide Links, Advances, CondJump, Linking;
    CondJumpAdvances(fs, None(), i);
    assert CondJump(fs, i).1 == [|fs.code| + 1] by { CondJumpOne(fs, i); }
    AdvancesLinked(fs, None(), CondJump(fs, i).0, Lists([], [], [|fs.code| + 1]), |fs.code|);
  }

  lemma CondJumpOne(fs: FS, i: Instr)
    ensures CondJump(fs, i).1 == [|fs.code| + 1]
  {
    assert [|fs.code| + 1] + [] == [|fs.code| + 1];
  }

  lemma CompAdvances(fs0: FS, l0: Lists, n: nat, fs: FS, d2: Desc, kind: CmpKind, cond: bool, d1: Desc)
    requires Linked(fs, d2) && Advances(fs0, l0, fs, ListsOf(d2), n) && n <= Base(fs, d2)
    requires d1.t == [] && d1.f == [] && !d1.k.VReloc? && !d1.k.VJmp?
    requires Exp2RK(fs, d1) == (fs, d1, Exp2RK(fs, d1).2)
    ensures var (fs3, d3) := CodeComp(fs, kind, cond, d1, d2);
            n <= Base(fs3, d3) && Advances(fs0, l0, fs3, ListsOf(d3), n) && Linked(fs3, d3)
  {
    hide Advances, Linking, Exp2RK, CondJump, Free2, Linked;
    var o1 := Exp2RK(fs, d1).2;
    var (fs2, e2, o2) := Exp2RK(fs, d2);
    OperandPlain(fs, d2, fs0, l0, n);
    var fs3 := Free2(fs2, e2, d1);
    var i := if !cond && kind != EQ then Cmp(kind, true, o2, o1) else Cmp(kind, cond, o1, o2);
    assert fs3.code == fs2.code && fs3.jpc == fs2.jpc by { FreeCode(fs2, e2, d1); }
    ScalePlain(fs0, l0, fs2, fs3, n);
    CompLinked(fs3, i);
    AdvancesTrans(fs0, l0, fs3, None(), CondJump(fs3, i).0, Lists([], [], [|fs3.code| + 1]), n, |fs3.code|);
  }

  /** Asking for an operand again changes nothing. */
  lemma OperandTwice(fs: FS, d: Desc, fs2: FS)
    ensures var (_, d1, o1) := Exp2RK(fs, d); Exp2RK(fs2, d1) == (fs2, d1, o1)
  {
    hide Exp2Reg, AddK;
    RegEmpty(fs, d);
    RegEmpty(Exp2Val(fs, d).0, Exp2Val(fs, d).1);
    var (fs1, v) := Exp2Val(fs, d);
    if (v.k.VTrue? || v.k.VFalse?) && |fs1.k| <= MAXINDEXRK { IndexSmall(fs1, Bool(v.k.VTrue?)); }
  }

  lemma IndexSmall(fs: FS, v: Value)
    ensures AddK(fs, v).1 <= |fs.k|
  {
  }

  // ----- every expression

  lemma ThenAdvances(fs0: FS, fs1: FS, l1: Lists, fs2: FS, d2: Desc, n: nat)
    requires Advances(fs0, None(), fs1, None(), n) && Advances(fs1, None(), fs2, ListsOf(d2), |fs1.code|)
    requires n <= |fs1.code| <= Base(fs2, d2)
    ensures Advances(fs0, None(), fs2, ListsOf(d2), n) && n <= Base(fs2, d2)
  {
    hide Linking;
    AdvancesTrans(fs0, None(), fs1, None(), fs2, ListsOf(d2), n, |fs1.code|);
  }

  /** Whatever the expression, its lists and the list of jumps to here are threaded, finite, without cycles and
      disjoint; and a jump of the code before is changed only if it was to come here. */
  lemma {:induction false} CompileLinked(fs0: FS, e: Expr)
    requires Linking(fs0, None())
    ensures var (fs, d) := Compile(fs0, e);
            Linked(fs, d) && |fs0.code| <= Base(fs, d) && Advances(fs0, None(), fs, ListsOf(d), |fs0.code|)
    decreases e
  {
    hide Advances, Linking, GoIfTrue, GoIfFalse, JoinFalse, JoinTrue, CodeNot, CodeArith, CodeComp, Exp2RK, AddK,
         Linked, Comparison;
    var n := |fs0.code|;
    match e
    case Local(r) => LeafLinked(fs0, fs0, VLocal(r));
    case Const(v) => LeafLinked(fs0, AddK(fs0, Other(v)).0, VK(AddK(fs0, Other(v)).1));
    case True => LeafLinked(fs0, fs0, VTrue);
    case False => LeafLinked(fs0, fs0, VFalse);
    case Negate(a) =>
      CompileLinked(fs0, a);
      var (fs1, d) := Compile(fs0, a);
      CodeNotAdvances(fs1, d);
      var (fs2, d2) := CodeNot(fs1, d);
      AdvancesTrans(fs0, None(), fs1, ListsOf(d), fs2, ListsOf(d2), n, Base(fs1, d));
    case And(a, b) =>
      CompileLinked(fs0, a);
      var (fs1, d) := Compile(fs0, a);
      ControlLinked(fs0, fs1, d, true, n);
      var (fs2, d1) := GoIf(fs1, d, true);
      CompileLinked(fs2, b);
      BothLinked(fs0, fs1, d, Compile(fs2, b).0, Compile(fs2, b).1, true, n);
    case Or(a, b) =>
      CompileLinked(fs0, a);
      var (fs1, d) := Compile(fs0, a);
      ControlLinked(fs0, fs1, d, false, n);
      var (fs2, d1) := GoIf(fs1, d, false);
      CompileLinked(fs2, b);
      BothLinked(fs0, fs1, d, Compile(fs2, b).0, Compile(fs2, b).1, false, n);
    case Binary(op, a, b) =>
      CompileLinked(fs0, a);
      var (fs1, d) := Compile(fs0, a);
      OperandPlain(fs1, d, fs0, None(), n);
      var (fs2, d1, _) := Exp2RK(fs1, d);
      OperandEmpty(fs1, d);
      CompileLinked(fs2, b);
      var (fs3, d2) := Compile(fs2, b);
      ThenAdvances(fs0, fs2, None(), fs3, d2, n);
      ArithAdvances(fs0, None(), n, fs3, d2, op, d1);
    case Relation(rel, a, b) =>
      CompileLinked(fs0, a);
      var (fs1, d) := Compile(fs0, a);
      OperandPlain(fs1, d, fs0, None(), n);
      var (fs2, d1, _) := Exp2RK(fs1, d);
      OperandEmpty(fs1, d);
      CompileLinked(fs2, b);
      var (fs3, d2) := Compile(fs2, b);
      ThenAdvances(fs0, fs2, None(), fs3, d2, n);
      OperandTwice(fs1, d, fs3);
      CompAdvances(fs0, None(), n, fs3, d2, Comparison(rel).0, Comparison(rel).1, d1);
  }

  lemma ControlLinked(fs0: FS, fs1: FS, d: Desc, truth: bool, n: nat)
    requires Linked(fs1, d) && Advances(fs0, None(), fs1, ListsOf(d), n) && n <= Base(fs1, d)
    ensures var (fs2, d1) := GoIf(fs1, d, truth);
            && Linking(fs2, None()) && Linked(fs2, d1) && n <= |fs2.code|
            && Advances(fs0, None(), fs2, ListsOf(d1), n)
  {
    hide Advances, Linking, GoIf, Linked;
    GoIfAdvances(fs1, d, truth);
    var (fs2, d1) := GoIf(fs1, d, truth);
    AdvancesTrans(fs0, None(), fs1, ListsOf(d), fs2, ListsOf(d1), n, Base(fs1, d));
    AdvancesLength(fs0, None(), fs2, ListsOf(d1), n);
    LinkedParts(fs2, d1);
    LinksParts(fs2, ListsOf(d1));
  }

  lemma BothLinked(fs0: FS, fs1: FS, d: Desc, fs3: FS, d2: Desc, truth: bool, n: nat)
    requires Linked(fs1, d) && Advances(fs0, None(), fs1, ListsOf(d), n) && n <= Base(fs1, d)
    requires var fs2 := GoIf(fs1, d, truth).0;
             Linked(fs3, d2) && |fs2.code| <= Base(fs3, d2) && Advances(fs2, None(), fs3, ListsOf(d2), |fs2.code|)
    ensures var d1 := GoIf(fs1, d, truth).1;
            var (fs4, d4) := if truth then JoinFalse(fs3, d1, d2) else JoinTrue(fs3, d1, d2);
            Linked(fs4, d4) && n <= Base(fs4, d4) && Advances(fs0, None(), fs4, ListsOf(d4), n)
  {
    hide Advances, Linking, GoIf, JoinFalse, JoinTrue, Linked;
    ControlLinked(fs0, fs1, d, truth, n);
    var (fs2, d1) := GoIf(fs1, d, truth);
    GoIfShape(fs1, d, truth);
    JoinBothAdvances(fs0, None(), fs2, d1, fs3, d2, truth, n);
  }

  lemma GoIfShape(fs: FS, d: Desc, truth: bool)
    ensures var d1 := GoIf(fs, d, truth).1; (if truth then d1.t else d1.f) == [] && d1.k == VCond(truth)
  {
    hide TrueJump, FalseJump;
  }

  lemma LeafLinked(fs0: FS, fs: FS, k: Kind)
    requires Linking(fs0, None()) && fs.code == fs0.code && fs.jpc == fs0.jpc && !k.VReloc? && !k.VJmp?
    ensures var d := Desc(k, [], []);
            Linked(fs, d) && |fs0.code| <= Base(fs, d) && Advances(fs0, None(), fs, ListsOf(d), |fs0.code|)
  {
    hide Links;
  }
}
