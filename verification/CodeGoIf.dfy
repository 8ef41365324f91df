/** Conditional control from any description: the two entry points of the parser for `and` and `or`. */
module CodeGoIf {
  import opened LuaCode
  import opened CodeExec
  import opened CodeLists
  import opened CodeMeaning
  import opened CodeState
  import opened CodeEvolve
  import opened CodeLoad
  import opened CodeClose
  import opened CodeExp2
  import opened CodeCond

  /** The registers in use: those from before, and one more if the value is in a temporary. */
  ghost predicate Tidy(free: nat, fs: FS, d: Desc) {
    && fs.nactvar <= free < MAXSTACK && fs.freereg < MAXSTACK
    && match d.k
       case VNonReloc(r) => (r < fs.nactvar && fs.freereg == free) || (r == free && fs.freereg == free + 1)
       case VLocal(r) => r < fs.nactvar && fs.freereg == free
       case _ => fs.freereg == free
  }

  /** Constants that are not nil or false. */
  ghost predicate Solid(x: Ctx, d: Desc) { d.k.VK? ==> Truthy(Kst(x, d.k.k)) }

  /** The description is of the form the expression has. */
  ghost predicate FormIs(fs: FS, d: Desc, f: Form) {
    match f
    case AsTrue => d.k.VTrue?
    case AsFalse => d.k.VFalse?
    case AsConst(_) => d.k.VK?
    case AsLocal => d.k.VLocal? || (d.k.VNonReloc? && d.k.r < fs.nactvar)
    case AsNot => d.k.VReloc? && d.k.pc < |fs.code| && fs.code[d.k.pc].Not?
    case AsResult => d.k.VReloc? && d.k.pc < |fs.code| && !fs.code[d.k.pc].Not?
    case AsJump => d.k.VJmp?
  }

  /** What leaving when the value has the truth cond makes of a meaning. */
  function Guarded(s: Sem, f: Form, cond: bool): Sem {
    if Never(f, cond) then s
    else if Always(f, cond) then Jumping(s, cond)
    else Branching(s, cond, !f.AsNot? && !f.AsJump?)
  }

  function Going(s: Sem, f: Form, truth: bool): Sem { Coming(Guarded(s, f, !truth), truth) }

  lemma MeansGoing(ops: Ops, s: Sem, f: Form, truth: bool, r: Regs, h: Held)
    ensures Means(ops, Going(s, f, truth), r, h) == GoOn(f, truth, Means(ops, s, r, h))
  {
  }

  lemma Equal(x: Ctx, fs0: FS, fs: FS, d: Desc, s: Sem, s2: Sem)
    requires Correct(x, fs0, fs, d, s)
    requires forall r: Regs, h :: Means(x.ops, s2, r, h) == Means(x.ops, s, r, h)
    ensures Correct(x, fs0, fs, d, s2)
  {
    hide Correct, Means, Good;
    Remean(x, fs0, fs, d, s, s2);
  }

  function CondJumpOf(fs: FS, d: Desc, cond: bool): (FS, seq<nat>) {
    if cond then TrueJump(fs, d) else FalseJump(fs, d)
  }

  /** No jump is needed. */
  lemma NoJumpStep(x: Ctx, fs0: FS, fs: FS, d: Desc, s: Sem, cond: bool)
    requires Correct(x, fs0, fs, d, s) && Solid(x, d)
    requires if cond then d.k.VFalse? else d.k.VK? || d.k.VTrue?
    ensures Correct(x, fs0, fs, Exiting(d, cond, []), s)
  {
    hide Correct;
    WellFormed(x, fs0, fs, d, s);
    assert d.t + [] == d.t && d.f + [] == d.f;
    SameCode(x, fs0, fs, d, s, fs, Exiting(d, cond, []));
  }

  lemma FreeOnly(fs: FS, d: Desc)
    ensures FreeExp(fs, d) == fs.(freereg := FreeExp(fs, d).freereg)
    ensures Reserve(fs, 1) == fs.(freereg := fs.freereg + 1, err := Reserve(fs, 1).err)
  {
  }

  function AnyRegSem(s: Sem, k: Kind): Sem { if k.VNonReloc? then s else Emitted(s) }

  lemma AnyReg(x: Ctx, fs0: FS, fs: FS, d: Desc, s: Sem)
    requires Correct(x, fs0, fs, d, s) && Tidy(fs0.freereg, fs, d) && !d.k.VJmp? && !d.k.VCond? && !d.k.VLocal?
    requires !Discharge2AnyReg(fs, d).0.err
    ensures var (fs1, d1) := Discharge2AnyReg(fs, d);
            && d1.k.VNonReloc? && d1 == d.(k := d1.k)
            && Correct(x, fs0, fs1, d1, AnyRegSem(s, d.k))
            && fs1.nactvar == fs.nactvar && Tidy(fs0.freereg, fs1, d1)
  {
    hide Correct, Code;
    if !d.k.VNonReloc? {
      var fs1 := Reserve(fs, 1);
      WellFormed(x, fs0, fs, d, s);
      DischargeErr(fs1, d, fs.freereg);
      Rescale(x, fs0, fs, d, s, fs1);
      Discharged(x, fs0, fs1, d, s, fs.freereg);
      assert Discharge2Reg(fs1, d, fs.freereg).0.freereg == fs1.freereg by { DischargeFree(fs1, d, fs.freereg); }
    }
  }

  lemma DischargeErr(fs: FS, d: Desc, reg: nat)
    requires !Discharge2Reg(fs, d, reg).0.err
    ensures !fs.err
  {
  }

  lemma DischargeFree(fs: FS, d: Desc, reg: nat)
    ensures Discharge2Reg(fs, d, reg).0.freereg == fs.freereg
  {
  }

  /** jumponcond. */
  lemma OnCondStep(x: Ctx, fs0: FS, fs: FS, d: Desc, s: Sem, f: Form, cond: bool)
    requires Correct(x, fs0, fs, d, s) && Tidy(fs0.freereg, fs, d) && !d.k.VJmp? && !d.k.VCond? && !d.k.VLocal?
    requires FormIs(fs, d, f) && !JumpOnCond(fs, d, cond).0.err
    ensures Correct(x, fs0, JumpOnCond(fs, d, cond).0, Exiting(d, cond, JumpOnCond(fs, d, cond).1),
                    Branching(s, cond, !f.AsNot?))
    ensures JumpOnCond(fs, d, cond).0.freereg == fs0.freereg
  {
    hide Correct, CondJump, Discharge2AnyReg, KindOK, Means;
    WellFormed(x, fs0, fs, d, s);
    if f.AsNot? {
      assert d.k.pc + 1 == |fs.code| by { LastOne(fs, d); }
      NotStep(x, fs0, fs, d, s, cond);
      CondFree(Unemitted(fs), Test(fs.code[d.k.pc].b, !cond));
    } else {
      var (fs1, d1) := Discharge2AnyReg(fs, d);
      var i, s1 := TestSet(NO_REG, if d1.k.VNonReloc? then d1.k.r else 0, cond), AnyRegSem(s, d.k);
      var fs2 := FreeExp(fs1, d1);
      FreeOnly(fs1, d1);
      CondErr(fs2, i);
      AnyReg(x, fs0, fs, d, s);
      WellFormed(x, fs0, fs1, d1, s1);
      Rescale(x, fs0, fs1, d1, s1, fs2);
      TestSetStep(x, fs0, fs2, d1, s1, d1.k.r, cond);
      var fs3, d3 := CondJump(fs2, i).0, Exiting(d, cond, CondJump(fs2, i).1);
      assert Exiting(d1, cond, CondJump(fs2, i).1) == d3;
      forall r: Regs, h
        ensures Means(x.ops, Branching(s, cond, true), r, h) == Means(x.ops, Branching(s1, cond, true), r, h)
      {
        BranchingAny(x.ops, s, d.k, cond, r, h);
      }
      Equal(x, fs0, fs3, d3, Branching(s1, cond, true), Branching(s, cond, true));
      CondFree(fs2, i);
    }
  }

  lemma BranchingAny(ops: Ops, s: Sem, k: Kind, cond: bool, r: Regs, h: Held)
    ensures Means(ops, Branching(s, cond, true), r, h) == Means(ops, Branching(AnyRegSem(s, k), cond, true), r, h)
  {
  }

  lemma LastOne(fs: FS, d: Desc)
    requires WF(fs, d) && d.k.VReloc?
    ensures d.k.pc + 1 == |fs.code|
  {
  }

  lemma CondErr(fs: FS, i: Instr)
    requires !CondJump(fs, i).0.err
    ensures !fs.err
  {
  }

  lemma CondFree(fs: FS, i: Instr)
    ensures CondJump(fs, i).0.freereg == fs.freereg
  {
  }

  /** The jump taken when the value has the truth cond, from any description. */
  lemma ExitStep(x: Ctx, fs0: FS, fs: FS, d: Desc, s: Sem, f: Form, cond: bool)
    requires Correct(x, fs0, fs, d, s) && Tidy(fs0.freereg, fs, d) && Solid(x, d) && !d.k.VCond? && !d.k.VLocal?
    requires FormIs(fs, d, f) && !CondJumpOf(fs, d, cond).0.err
    ensures Correct(x, fs0, CondJumpOf(fs, d, cond).0, Exiting(d, cond, CondJumpOf(fs, d, cond).1), Guarded(s, f, cond))
    ensures CondJumpOf(fs, d, cond).0.freereg == fs0.freereg
  {
    hide Correct, JumpOnCond, Jump, InvertJump, Exiting;
    if d.k.VJmp? {
      JumpCond(x, fs0, fs, d, s, cond);
    } else if d.k == (if cond then VTrue else VFalse) {
      LiteralStep(x, fs0, fs, d, s, cond);
      LiteralShape(fs);
    } else if if cond then d.k.VFalse? else d.k.VK? || d.k.VTrue? {
      NoJumpStep(x, fs0, fs, d, s, cond);
    } else {
      OnCondStep(x, fs0, fs, d, s, f, cond);
    }
  }

  // ----- luaK_patchtohere

  lemma HereNoDup(t: seq<nat>, f: seq<nat>, jpc: seq<nat>)
    requires NoDup(t + f + jpc) && NoDup(t) && NoDup(f) && NoDup(jpc)
    requires (forall j :: j in t + f ==> j !in jpc) && (forall j :: j in t ==> j !in f)
    ensures NoDup(f + (jpc + t)) && NoDup(t + (jpc + f))
  {
    assert forall j :: j in t || j in f ==> j in t + f;
    NoDupConcat(jpc, t);
    NoDupConcat(jpc, f);
    NoDupConcat(f, jpc + t);
    NoDupConcat(t, jpc + f);
  }

  /** The exits of the truth that falls through are made to come here. */
  function HereDesc(d: Desc, truth: bool): Desc {
    if truth then Desc(VCond(true), [], d.f) else Desc(VCond(false), d.t, [])
  }

  function HereList(d: Desc, truth: bool): seq<nat> { if truth then d.t else d.f }

  lemma HereGood(x: Ctx, fs: FS, d: Desc, truth: bool, fs2: FS, w: Way, free: nat, r: Regs, o: Out)
    requires d.k == VCond(truth) && fs2 == fs.(jpc := fs.jpc + HereList(d, truth))
    requires forall j :: j in d.t ==> j !in d.f
    requires Good(x, fs, d, w, free, r, o)
    ensures Good(x, fs2, HereDesc(d, truth), ComeHere(w, truth), free, r, o)
  {
  }

  lemma MeansComing(ops: Ops, s: Sem, truth: bool, r: Regs, h: Held)
    ensures Means(ops, Coming(s, truth), r, h) == ComeHere(Means(ops, s, r, h), truth)
  {
  }

  lemma HereStep(x: Ctx, fs0: FS, fs: FS, d: Desc, s: Sem, truth: bool)
    requires Correct(x, fs0, fs, d, s) && d.k == VCond(truth) && !PatchToHere(fs, HereList(d, truth)).err
    ensures Correct(x, fs0, PatchToHere(fs, HereList(d, truth)), HereDesc(d, truth), Coming(s, truth))
  {
    hide Correct, Chain, Good, Pending, Evolves, Means;
    WellFormed(x, fs0, fs, d, s);
    Split(fs, d);
    var l, d2 := HereList(d, truth), HereDesc(d, truth);
    var fs1 := fs.(jpc := fs.jpc + l);
    forall r: Regs, h, o | Good(x, fs, d, Means(x.ops, s, r, h), fs0.freereg, r, o)
      ensures Good(x, fs1, d2, Means(x.ops, Coming(s, truth), r, h), fs0.freereg, r, o)
    {
      HereGood(x, fs, d, truth, fs1, Means(x.ops, s, r, h), fs0.freereg, r, o);
      MeansComing(x.ops, s, truth, r, h);
    }
    PendingJumps(fs.code, All(fs, d));
    PendingJumps(fs.code, d.t);
    PendingJumps(fs.code, d.f);
    PendingJumps(fs.code, fs.jpc);
    HereNoDup(d.t, d.f, fs.jpc);
    assert [] + d.f + fs1.jpc == d.f + fs1.jpc && d.t + [] + fs1.jpc == d.t + fs1.jpc;
    assert Pend(fs1, d2) == Pend(fs, d);
    Redescribe(x, fs0, fs, d, s, fs1, d2, Coming(s, truth));
    assert fs.jpc != [] ==> fs.jpc[|fs.jpc|-1] in fs1.jpc;
    assert Chain(fs1, fs.jpc, l) == PatchToHere(fs, l) by { HereChain(fs, l); }
    ChainStep(x, fs0, fs1, d2, Coming(s, truth), fs.jpc, l);
  }

  lemma HereChain(fs: FS, l: seq<nat>)
    ensures Chain(fs.(jpc := fs.jpc + l), fs.jpc, l) == PatchToHere(fs, l)
  {
  }

  // ----- luaK_goiftrue and luaK_goiffalse

  function GoIf(fs: FS, d: Desc, truth: bool): (FS, Desc) {
    if truth then GoIfTrue(fs, d) else GoIfFalse(fs, d)
  }

  /** Control goes on exactly when the value has the given truth; otherwise an exit of the other list is taken. */
  lemma GoIfCorrect(x: Ctx, fs0: FS, fs: FS, d: Desc, s: Sem, f: Form, truth: bool)
    requires Correct(x, fs0, fs, d, s) && Tidy(fs0.freereg, fs, d) && Solid(x, d) && !d.k.VCond? && FormIs(fs, d, f)
    requires !GoIf(fs, d, truth).0.err
    ensures Correct(x, fs0, GoIf(fs, d, truth).0, GoIf(fs, d, truth).1, Going(s, f, truth))
    ensures GoIf(fs, d, truth).1.k == VCond(truth) &&
      (if truth then GoIf(fs, d, truth).1.t else GoIf(fs, d, truth).1.f) == []
    ensures GoIf(fs, d, truth).0.freereg == fs0.freereg
  {
    hide Correct, TrueJump, FalseJump, Chain, Guarded;
    var d1 := DischargeVars(d);
    DischargeVarsStep(x, fs0, fs, d, s);
    var (fs1, l) := CondJumpOf(fs, d1, !truth);
    var own := if truth then d1.f else d1.t;
    var fs2 := Chain(fs1, own, l);
    ChainJpc(fs1, own, l);
    GoIfErr(fs1, own, l, HereList(d1, truth));
    ExitStep(x, fs0, fs, d1, s, f, !truth);
    var d2, s2 := Exiting(d1, !truth, l), Guarded(s, f, !truth);
    assert own != [] ==> own[|own|-1] in All(fs1, d2);
    ChainStep(x, fs0, fs1, d2, s2, own, l);
    HereStep(x, fs0, fs2, d2, s2, truth);
    assert PatchToHere(fs2, HereList(d1, truth)).freereg == fs1.freereg by {
      HereFree(fs1, own, l, HereList(d1, truth));
    }
  }

  lemma HereFree(fs: FS, a: seq<nat>, b: seq<nat>, c: seq<nat>)
    ensures PatchToHere(Chain(fs, a, b), c).freereg == fs.freereg
  {
  }

  lemma GoIfErr(fs: FS, a: seq<nat>, b: seq<nat>, c: seq<nat>)
    requires !PatchToHere(Chain(fs, a, b), c).err
    ensures !Chain(fs, a, b).err && !fs.err
  {
  }

  /** luaK_dischargevars. */
  lemma DischargeVarsStep(x: Ctx, fs0: FS, fs: FS, d: Desc, s: Sem)
    requires Correct(x, fs0, fs, d, s) && Tidy(fs0.freereg, fs, d)
    ensures Correct(x, fs0, fs, DischargeVars(d), s) && Tidy(fs0.freereg, fs, DischargeVars(d))
    ensures Solid(x, d) ==> Solid(x, DischargeVars(d))
    ensures forall f :: FormIs(fs, d, f) ==> FormIs(fs, DischargeVars(d), f)
  {
    hide Correct;
    if d.k.VLocal? {
      WellFormed(x, fs0, fs, d, s);
      SameCode(x, fs0, fs, d, s, fs, DischargeVars(d));
    }
  }
}
