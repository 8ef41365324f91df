/** Putting a value into a register: discharge2reg. */
module CodeLoad {
  import opened LuaCode
  import opened CodeExec
  import opened CodeLists
  import opened CodeMeaning
  import opened CodeState
  import opened CodeEvolve

  /** The jumps of l land at n and carry nothing. */
  ghost predicate LandAt(code: seq<Instr>, p: set<nat>, l: seq<nat>, n: nat) {
    forall a :: a in l ==> a !in p && Target(code, a) == n && !Carries(code, a)
  }

  /** What luaK_code does to an expression that ends here. */
  lemma CodeStatic(fs: FS, d: Desc, i: Instr)
    requires WF(fs, d) && End(fs, d) == |fs.code|
    ensures var fs2 := Code(fs, i);
            && |fs2.code| == |fs.code| + 1 && fs2.code[|fs.code|] == i
            && Evolves(fs.code, Pend(fs, d), fs2.code, Set(d.t + d.f), |fs.code|)
            && Untouched(fs.code, fs2.code, d.t + d.f)
            && LandAt(fs2.code, Set(d.t + d.f), fs.jpc, |fs.code|)
            && Pending(fs2.code, d.t + d.f)
            && Below(d.t + d.f, |fs.code|)
  {
    var n := |fs.code|;
    var q := d.t + d.f;
    var fs2 := Code(fs, i);
    Split(fs, d);
    EvolvesPatch(fs.code, fs.jpc, n, NO_REG, n, fs2.code, n);
    EvolvesMore(fs.code, Set(fs.jpc), fs2.code, {}, n, q);
    assert Pend(fs, d) == Set(fs.jpc) + Set(q) && Set(q) == {} + Set(q);
    EvolvesUntouched(fs.code, Set(fs.jpc), fs2.code, {}, n, q);
    forall a | a in fs.jpc ensures a !in Set(q) && Target(fs2.code, a) == n && !Carries(fs2.code, a) {
      PatchedJump(fs.code, fs.jpc, n, NO_REG, n, a);
    }
    StillJumps(fs.code, Pend(fs, d), fs2.code, Set(q), n, q);
    PendingMove(fs.code, q, fs2.code, q);
  }

  /** The exits and the jumps to here of a description are separate lists. */
  lemma Split(fs: FS, d: Desc)
    requires WF(fs, d)
    ensures Pending(fs.code, fs.jpc) && Pending(fs.code, d.t + d.f) && Pending(fs.code, d.t) && Pending(fs.code, d.f)
    ensures Below(fs.jpc, End(fs, d)) && Below(d.t + d.f, End(fs, d))
    ensures forall j :: j in d.t + d.f ==> j !in fs.jpc
    ensures forall j :: j in d.t ==> j !in d.f
  {
    var l := All(fs, d);
    var q := d.t + d.f;
    PendingPart(fs.code, l, q, 0);
    PendingPart(fs.code, l, fs.jpc, |q|);
    PendingPart(fs.code, l, d.t, 0);
    PendingPart(fs.code, l, d.f, |d.t|);
  }

  lemma PendingPart(code: seq<Instr>, l: seq<nat>, q: seq<nat>, k: nat)
    requires Pending(code, l) && k + |q| <= |l| && q == l[k..k + |q|]
    ensures Pending(code, q) && forall i :: 0 <= i < |q| ==> q[i] == l[k + i] && q[i] in l
  {
    assert forall i :: 0 <= i < |q| ==> q[i] == l[k + i] && q[i] in l;
  }

  lemma StillJumps(code: seq<Instr>, p: set<nat>, code2: seq<Instr>, p2: set<nat>, n: nat, q: seq<nat>)
    requires Evolves(code, p, code2, p2, n)
    requires Below(q, n) && forall j :: j in q ==> j in p
    ensures Jumps(code2, q)
  {
    forall j | j in q ensures j < |code2| && code2[j].Jmp? {
      assert EvolvesAt(code, p, code2, p2, n, j);
    }
  }

  /** Emitting an instruction: an outcome that arrives goes on with it, the exits stay. */
  lemma EmitGood(x: Ctx, fs: FS, d: Desc, w: Way, fs2: FS, d2: Desc, w2: Way, free: nat, r: Regs, o: Out)
    requires 0 <= End(fs, d) <= End(fs2, d2)
    requires forall j :: j in d.t ==> j in d2.t
    requires forall j :: j in d.f ==> j in d2.f && j !in d2.t
    requires Untouched(fs.code, fs2.code, d.t + d.f)
    requires LandAt(fs2.code, Pend(fs2, d2), fs.jpc, End(fs, d))
    requires w.Exits? ==> w2.Exits? && w2.truth == w.truth && w2.h == w.h
    requires forall r2: Regs :: w.Falls? && Same(r, r2, free) && FallGood(x, fs, d, w.v, r2) ==>
               Good(x, fs2, d2, w2, free, r, Exec(x, fs2.code, Pend(fs2, d2), End(fs, d), r2, End(fs2, d2)))
    ensures StepGood(x, fs, d, w, fs2, d2, w2, free, r, o)
  {
    hide FallGood, Same, Exec, Carries;
    if Good(x, fs, d, w, free, r, o) && o.Exit? {
      if o.pc in d.t || o.pc in d.f {
        assert o.pc in d.t + d.f;
        HeldSame(fs.code, fs2.code, o.pc, o.r, d.t + d.f);
        assert o.pc in All(fs2, d2);
      } else {
        CarriesNothing(fs2.code, o.pc, o.r);
      }
    }
  }

  lemma CarriesNothing(code: seq<Instr>, a: nat, r: Regs)
    requires !Carries(code, a)
    ensures Carry(code, a, r) == r
  {
  }

  lemma HeldSame(code: seq<Instr>, code2: seq<Instr>, j: nat, r: Regs, q: seq<nat>)
    requires Untouched(code, code2, q) && j in q
    ensures HeldBy(code2, j, r) == HeldBy(code, j, r)
  {
  }

  lemma LoadMoves(fs: FS, d: Desc, i: Instr, reg: nat)
    requires WF(fs, d) && End(fs, d) == |fs.code| && reg < MAXSTACK && Stores(i) && !Code(fs, i).err
    ensures Moves(fs, d, Code(fs, i), d.(k := VNonReloc(reg)))
  {
    hide Code, Evolves, Pending;
    CodeStatic(fs, d, i);
    LoadShape(fs, i);
    assert d.t + d.f + [] == d.t + d.f;
  }

  lemma LoadShape(fs: FS, i: Instr)
    ensures Code(fs, i).jpc == [] && Code(fs, i).k == fs.k
  {
  }

  lemma LoadGood(x: Ctx, fs: FS, d: Desc, v: Value, i: Instr, reg: nat, free: nat, r: Regs, r2: Regs)
    requires WF(fs, d) && End(fs, d) == |fs.code| && free <= reg < MAXSTACK && Stores(i) && i.a == reg && Size(i) == 1
    requires Same(r, r2, free) && Result(x, i, r2) == v
    ensures var fs2, d2 := Code(fs, i), d.(k := VNonReloc(reg));
            Good(x, fs2, d2, Falls(v, Nothing), free, r, Exec(x, fs2.code, Pend(fs2, d2), |fs.code|, r2, |fs.code| + 1))
  {
    var fs2, d2 := Code(fs, i), d.(k := VNonReloc(reg));
    var n := |fs.code|;
    assert fs2.code[n] == i && |fs2.code| == n + 1;
    assert Exec(x, fs2.code, Pend(fs2, d2), n, r2, n + 1) == Fall(Stored(x, i, r2));
  }

  /** One instruction that stores the value in reg. */
  lemma LoadStep(x: Ctx, fs0: FS, fs: FS, d: Desc, s: Sem, i: Instr, reg: nat)
    requires Correct(x, fs0, fs, d, s) && End(fs, d) == |fs.code|
    requires fs0.freereg <= reg < MAXSTACK && Stores(i) && i.a == reg && Size(i) == 1 && !Code(fs, i).err
    requires forall v, r :: FallGood(x, fs, d, v, r) ==> Result(x, i, r) == v
    ensures Correct(x, fs0, Code(fs, i), d.(k := VNonReloc(reg)), Emitted(s))
  {
    hide Runs, Evolves, Code, FallGood, Same, Exec, Pending, Means, KindOK, Result, StepGood, LandAt;
    var fs2, d2 := Code(fs, i), d.(k := VNonReloc(reg));
    LoadMoves(fs, d, i, reg);
    CodeStatic(fs, d, i);
    LoadShape(fs, i);
    assert All(fs2, d2) == d.t + d.f;
    Split(fs, d);
    forall r: Regs, h: Held, o: Out
      ensures StepGood(x, fs, d, Means(x.ops, s, r, h), fs2, d2, Means(x.ops, Emitted(s), r, h), fs0.freereg, r, o)
    {
      var w, w2 := Means(x.ops, s, r, h), Means(x.ops, Emitted(s), r, h);
      assert w2 == Emit(w) by { MeansEmitted(x.ops, s, r, h); }
      forall r2: Regs | w.Falls? && Same(r, r2, fs0.freereg) && FallGood(x, fs, d, w.v, r2)
        ensures Good(x, fs2, d2, w2, fs0.freereg, r, Exec(x, fs2.code, Pend(fs2, d2), End(fs, d), r2, End(fs2, d2)))
      {
        LoadGood(x, fs, d, w.v, i, reg, fs0.freereg, r, r2);
      }
      EmitGood(x, fs, d, w, fs2, d2, w2, fs0.freereg, r, o);
    }
    Transfer(x, fs0, fs, d, s, fs2, d2, Emitted(s));
  }

  lemma MeansEmitted(ops: Ops, s: Sem, r: Regs, h: Held)
    ensures Means(ops, Emitted(s), r, h) == Emit(Means(ops, s, r, h))
  {
  }

  /** A step that changes only the description or the generator's counters. */
  lemma SameCode(x: Ctx, fs0: FS, fs: FS, d: Desc, s: Sem, fs2: FS, d2: Desc)
    requires Correct(x, fs0, fs, d, s)
    requires fs2.code == fs.code && fs2.jpc == fs.jpc && !fs2.err && fs2.nactvar == fs.nactvar && fs.k <= fs2.k
    requires d2.t == d.t && d2.f == d.f && End(fs2, d2) == End(fs, d) && KindOK(fs2, d2)
    requires forall v, r :: FallGood(x, fs, d, v, r) ==> FallGood(x, fs2, d2, v, r)
    ensures Correct(x, fs0, fs2, d2, s)
  {
    hide FallGood, Evolves, Exec, Pending, Same, Means, KindOK, HeldBy;
    forall r: Regs ensures Runs(x, fs0, fs2, d2, s, r) {
      assert Runs(x, fs0, fs, d, s, r);
    }
  }

  /** Another meaning that agrees with every outcome there can be. */
  lemma Remean(x: Ctx, fs0: FS, fs: FS, d: Desc, s: Sem, s2: Sem)
    requires Correct(x, fs0, fs, d, s)
    requires forall r: Regs, h, o ::
               Good(x, fs, d, Means(x.ops, s, r, h), fs0.freereg, r, o) ==>
                 Good(x, fs, d, Means(x.ops, s2, r, h), fs0.freereg, r, o)
    ensures Correct(x, fs0, fs, d, s2)
  {
    hide Good, Shape, Exec, Means, HeldBy, Leave;
    forall r: Regs ensures Runs(x, fs0, fs, d, s2, r) {
      assert Runs(x, fs0, fs, d, s, r);
    }
  }

  /** With no jumps to here, nothing is brought along. */
  lemma EmittedPlain(x: Ctx, fs0: FS, fs: FS, d: Desc, s: Sem)
    requires Correct(x, fs0, fs, d, s) && fs.jpc == []
    ensures Correct(x, fs0, fs, d, Emitted(s))
  {
    hide Correct, Means;
    forall r: Regs, h, o | Good(x, fs, d, Means(x.ops, s, r, h), fs0.freereg, r, o)
      ensures Good(x, fs, d, Means(x.ops, Emitted(s), r, h), fs0.freereg, r, o)
    {
      MeansEmitted(x.ops, s, r, h);
    }
    Remean(x, fs0, fs, d, s, Emitted(s));
  }

  /** The generator's counters are free to change. */
  lemma Rescale(x: Ctx, fs0: FS, fs: FS, d: Desc, s: Sem, fs2: FS)
    requires Correct(x, fs0, fs, d, s)
    requires fs2.code == fs.code && fs2.jpc == fs.jpc && !fs2.err && fs2.nactvar == fs.nactvar && fs.k <= fs2.k
    ensures Correct(x, fs0, fs2, d, s)
  {
    hide Correct;
    assert KindOK(fs2, d) && End(fs2, d) == End(fs, d) by { ScaleKind(x, fs0, fs, d, s, fs2); }
    SameCode(x, fs0, fs, d, s, fs2, d);
  }

  lemma ScaleKind(x: Ctx, fs0: FS, fs: FS, d: Desc, s: Sem, fs2: FS)
    requires Correct(x, fs0, fs, d, s)
    requires fs2.code == fs.code && fs2.jpc == fs.jpc && fs.k <= fs2.k
    ensures KindOK(fs2, d)
  {
    hide Runs, Evolves;
  }

  // ----- the instruction waits for its register

  function Located(fs: FS, reg: nat): FS
    requires fs.code != []
  {
    fs.(code := fs.code[|fs.code| - 1 := SetA(fs.code[|fs.code| - 1], reg)])
  }

  lemma LocateMoves(fs: FS, d: Desc, reg: nat)
    requires WF(fs, d) && d.k.VReloc? && reg < MAXSTACK
    ensures Moves(fs, d, Located(fs, reg), d.(k := VNonReloc(reg)))
    ensures Untouched(fs.code, Located(fs, reg).code, d.t + d.f)
  {
    hide Pending, Evolves;
    var fs2, d2, n, q := Located(fs, reg), d.(k := VNonReloc(reg)), |fs.code| - 1, d.t + d.f;
    Split(fs, d);
    EvolvesSelf(fs.code, fs2.code, n);
    PendingJumps(fs.code, q);
    EvolvesMore(fs.code, {}, fs2.code, {}, n, q);
    assert All(fs, d) == q && All(fs2, d2) == q && {} + Set(q) == Set(q);
    EvolvesUntouched(fs.code, {}, fs2.code, {}, n, q);
    StillJumps(fs.code, Set(q), fs2.code, Set(q), n, q);
    SamePart(fs.code, fs2.code, q);
    PendingMove(fs.code, q, fs2.code, q);
    assert fs2.code[n] == SetA(fs.code[n], reg) && !IsTest(fs2.code[n]);
  }

  lemma PendingJumps(code: seq<Instr>, l: seq<nat>)
    requires Pending(code, l)
    ensures Jumps(code, l) && NoDup(l)
  {
  }

  lemma SamePart(code: seq<Instr>, code2: seq<Instr>, q: seq<nat>)
    requires Untouched(code, code2, q)
    ensures forall j :: j in q ==> Untouched(code, code2, [j])
  {
  }

  lemma LocateGood(x: Ctx, fs: FS, d: Desc, v: Value, reg: nat, free: nat, r: Regs, r2: Regs)
    requires WF(fs, d) && d.k.VReloc? && free <= reg < MAXSTACK
    requires Same(r, r2, free) && FallGood(x, fs, d, v, r2)
    ensures var fs2, d2 := Located(fs, reg), d.(k := VNonReloc(reg));
            Good(x, fs2, d2, Falls(v, Nothing), free, r, Exec(x, fs2.code, Pend(fs2, d2), |fs.code| - 1, r2, |fs.code|))
  {
    var fs2, d2, n := Located(fs, reg), d.(k := VNonReloc(reg)), |fs.code| - 1;
    var i := SetA(fs.code[n], reg);
    assert Result(x, i, r2) == v;
    assert Exec(x, fs2.code, Pend(fs2, d2), n, r2, n + 1) == Fall(Stored(x, i, r2));
  }

  lemma LocateStep(x: Ctx, fs0: FS, fs: FS, d: Desc, s: Sem, reg: nat)
    requires Correct(x, fs0, fs, d, s) && d.k.VReloc? && fs0.freereg <= reg < MAXSTACK
    ensures Correct(x, fs0, Located(fs, reg), d.(k := VNonReloc(reg)), Emitted(s))
  {
    var fs2, d2 := Located(fs, reg), d.(k := VNonReloc(reg));
    LocateMoves(fs, d, reg);
    hide Runs, Evolves, FallGood, Same, Exec, Pending, Means, Result, StepGood;
    Split(fs, d);
    assert fs.jpc == [];
    assert LandAt(fs2.code, Pend(fs2, d2), fs.jpc, End(fs, d));
    forall r: Regs, h: Held, o: Out
      ensures StepGood(x, fs, d, Means(x.ops, s, r, h), fs2, d2, Means(x.ops, Emitted(s), r, h), fs0.freereg, r, o)
    {
      var w, w2 := Means(x.ops, s, r, h), Means(x.ops, Emitted(s), r, h);
      assert w2 == Emit(w) by { MeansEmitted(x.ops, s, r, h); }
      forall r2: Regs | w.Falls? && Same(r, r2, fs0.freereg) && FallGood(x, fs, d, w.v, r2)
        ensures Good(x, fs2, d2, w2, fs0.freereg, r, Exec(x, fs2.code, Pend(fs2, d2), End(fs, d), r2, End(fs2, d2)))
      {
        LocateGood(x, fs, d, w.v, reg, fs0.freereg, r, r2);
      }
      EmitGood(x, fs, d, w, fs2, d2, w2, fs0.freereg, r, o);
    }
    Transfer(x, fs0, fs, d, s, fs2, d2, Emitted(s));
  }

  /** discharge2reg leaves the value in reg, whatever described it. */
  lemma Discharged(x: Ctx, fs0: FS, fs: FS, d: Desc, s: Sem, reg: nat)
    requires Correct(x, fs0, fs, d, s) && !d.k.VJmp? && !d.k.VCond? && d.k != VNonReloc(reg) && d.k != VLocal(reg)
    requires fs0.freereg <= reg < MAXSTACK && !Discharge2Reg(fs, d, reg).0.err
    ensures Discharge2Reg(fs, d, reg).1 == d.(k := VNonReloc(reg))
    ensures Correct(x, fs0, Discharge2Reg(fs, d, reg).0, d.(k := VNonReloc(reg)), Emitted(s))
  {
    hide Code, Means;
    assert KindOK(fs, d) by { hide Runs, Evolves; }
    hide Correct;
    match d.k
    case VTrue => LoadStep(x, fs0, fs, d, s, LoadBool(reg, true, false), reg);
    case VFalse => LoadStep(x, fs0, fs, d, s, LoadBool(reg, false, false), reg);
    case VK(k) => LoadStep(x, fs0, fs, d, s, LoadK(reg, k), reg);
    case VReloc(pc) => LocateStep(x, fs0, fs, d, s, reg);
    case VNonReloc(r) => LoadStep(x, fs0, fs, d, s, Move(reg, r), reg);
    case VLocal(r) => LoadStep(x, fs0, fs, d, s, Move(reg, r), reg);
    case _ =>
  }

  lemma WellFormed(x: Ctx, fs0: FS, fs: FS, d: Desc, s: Sem)
    requires Correct(x, fs0, fs, d, s)
    ensures WF(fs, d)
  {
    hide Runs;
  }
}
