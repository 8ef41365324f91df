/** luaK_goiftrue and luaK_goiffalse: a value becomes a conditional jump. */
module CodeCond {
  import opened LuaCode
  import opened CodeExec
  import opened CodeLists
  import opened CodeMeaning
  import opened CodeState
  import opened CodeEvolve
  import opened CodeLoad
  import opened CodeClose
  import opened CodeExp2

  // ----- steps that keep the code, and luaK_concat

  /** The same code under another description of the same jumps, and another meaning. */
  lemma Redescribe(x: Ctx, fs0: FS, fs: FS, d: Desc, s: Sem, fs2: FS, d2: Desc, s2: Sem)
    requires Correct(x, fs0, fs, d, s)
    requires fs2.code == fs.code && !fs2.err && fs2.nactvar == fs.nactvar && fs.k <= fs2.k
    requires End(fs2, d2) == End(fs, d) && KindOK(fs2, d2) && Pend(fs2, d2) == Pend(fs, d) && NoDup(All(fs2, d2))
    requires forall r: Regs, h, o ::
               Good(x, fs, d, Means(x.ops, s, r, h), fs0.freereg, r, o) ==>
                 Good(x, fs2, d2, Means(x.ops, s2, r, h), fs0.freereg, r, o)
    ensures Correct(x, fs0, fs2, d2, s2)
  {
    hide FallGood, Evolves, Exec, Same, Means, KindOK, HeldBy, Good;
    assert forall j :: j in All(fs2, d2) ==> j in Pend(fs2, d2);
    forall r: Regs ensures Runs(x, fs0, fs2, d2, s2, r) {
      assert Runs(x, fs0, fs, d, s, r);
    }
  }

  lemma ChainMoves(fs: FS, d: Desc, a: seq<nat>, b: seq<nat>)
    requires WF(fs, d) && (a != [] ==> a[|a|-1] in All(fs, d)) && !Chain(fs, a, b).err
    ensures Moves(fs, d, Chain(fs, a, b), d)
    ensures Untouched(fs.code, Chain(fs, a, b).code, All(fs, d))
    ensures |Chain(fs, a, b).code| == |fs.code|
    ensures forall i :: End(fs, d) <= i < |fs.code| ==> Chain(fs, a, b).code[i] == fs.code[i]
  {
    hide Evolves;
    var fs2, q, n := Chain(fs, a, b), All(fs, d), End(fs, d);
    PendingJumps(fs.code, q);
    EvolvesConcat(fs.code, a, b, q, n);
    ConcatUntouched(fs.code, a, b, q);
    SamePart(fs.code, fs2.code, q);
    PendingMove(fs.code, q, fs2.code, q);
    StillEnds(fs.code, Set(q), fs2.code, Set(q), n);
  }

  lemma ChainFall(x: Ctx, fs: FS, d: Desc, a: seq<nat>, b: seq<nat>, v: Value, r: Regs)
    requires WF(fs, d) && FallGood(x, fs, d, v, r)
    requires forall i :: End(fs, d) <= i < |fs.code| ==> Chain(fs, a, b).code[i] == fs.code[i]
    ensures FallGood(x, Chain(fs, a, b), d, v, r)
  {
    hide Pending, Evolves, Concat;
    assert |Chain(fs, a, b).code| == |fs.code|;
  }

  /** Linking two lists does not change what the code does. */
  lemma ChainStep(x: Ctx, fs0: FS, fs: FS, d: Desc, s: Sem, a: seq<nat>, b: seq<nat>)
    requires Correct(x, fs0, fs, d, s) && (a != [] ==> a[|a|-1] in All(fs, d)) && !Chain(fs, a, b).err
    ensures Correct(x, fs0, Chain(fs, a, b), d, s)
  {
    hide Runs, Evolves, FallGood, Same, Pending, Means, KindOK, Chain, Carries;
    var fs2 := Chain(fs, a, b);
    ChainMoves(fs, d, a, b);
    ChainJpc(fs, a, b);
    forall r: Regs, h: Held, o: Out
      ensures StepGood(x, fs, d, Means(x.ops, s, r, h), fs2, d, Means(x.ops, s, r, h), fs0.freereg, r, o)
    {
      var w := Means(x.ops, s, r, h);
      if Good(x, fs, d, w, fs0.freereg, r, o) {
        if o.Exit? {
          assert o.pc in All(fs, d);
          HeldSame(fs.code, fs2.code, o.pc, o.r, All(fs, d));
          if w.Falls? && FallGood(x, fs, d, w.v, o.r) { ChainFall(x, fs, d, a, b, w.v, o.r); }
        } else {
          ChainFall(x, fs, d, a, b, w.v, o.r);
        }
      }
    }
    Transfer(x, fs0, fs, d, s, fs2, d, s);
  }

  // ----- exits taken when the value has the truth cond

  function Exiting(d: Desc, cond: bool, l: seq<nat>): Desc {
    if cond then Desc(VCond(false), d.t + l, d.f) else Desc(VCond(true), d.t, d.f + l)
  }

  lemma ExitingLists(d: Desc, cond: bool, pc: nat, n: nat)
    requires NoDup(d.t + d.f) && Below(d.t + d.f, n) && n <= pc && forall j :: j in d.t ==> j !in d.f
    ensures var d2 := Exiting(d, cond, [pc]);
            && NoDup(d2.t + d2.f)
            && (forall j :: j in d2.t + d2.f <==> j in d.t + d.f || j == pc)
            && (forall j :: j in d.t ==> j in d2.t)
            && (forall j :: j in d.f ==> j in d2.f && j !in d2.t)
  {
    if cond {
      JoinNoDup(d.t, d.f, pc, n);
      NotIn(d.t, d.f, pc, n);
    } else {
      assert d.t + (d.f + [pc]) == d.t + d.f + [pc];
      NoDupConcat(d.t + d.f, [pc]);
    }
  }

  /** The code continues with a test that jumps when the value has the truth cond, and its jump, which brings
      the value along or not. */
  ghost predicate TestsAt(x: Ctx, fs: FS, d: Desc, fs2: FS, cond: bool, keeps: bool) {
    var n := End(fs, d);
    && 0 <= n && |fs2.code| == n + 2 && IsTest(fs2.code[n]) && fs2.code[n + 1].Jmp?
    && (fs2.code[n].TestSet? ==> fs2.code[n].a == NO_REG)
    && forall v, r :: FallGood(x, fs, d, v, r) ==>
         && (Passes(x, fs2.code[n], r) <==> Truthy(v) == cond)
         && HeldBy(fs2.code, n + 1, r) == if keeps then Holding(v) else Nothing
  }

  ghost predicate TestStatic(fs: FS, d: Desc, fs2: FS) {
    var q := d.t + d.f;
    && 0 <= End(fs, d)
    && Evolves(fs.code, Pend(fs, d), fs2.code, Set(q), End(fs, d))
    && Untouched(fs.code, fs2.code, q)
    && LandAt(fs2.code, Set(q), fs.jpc, End(fs, d))
    && fs2.jpc == [] && !fs2.err && fs2.nactvar == fs.nactvar && fs.k <= fs2.k
  }

  lemma TestMoves(x: Ctx, fs: FS, d: Desc, fs2: FS, cond: bool, keeps: bool)
    requires WF(fs, d) && TestsAt(x, fs, d, fs2, cond, keeps) && TestStatic(fs, d, fs2)
    ensures Moves(fs, d, fs2, Exiting(d, cond, [End(fs, d) + 1]))
  {
    hide Evolves, Pending, FallGood, LandAt;
    var n, q := End(fs, d), d.t + d.f;
    var d2 := Exiting(d, cond, [n + 1]);
    Split(fs, d);
    PendingJumps(fs.code, q);
    ExitingLists(d, cond, n + 1, n);
    assert All(fs2, d2) == d2.t + d2.f;
    EvolvesAbove(fs.code, Pend(fs, d), fs2.code, Set(q), n, Pend(fs2, d2));
    StillJumps(fs.code, Pend(fs, d), fs2.code, Set(q), n, q);
    TestPending(fs.code, q, fs2.code, All(fs2, d2), n);
  }

  lemma TestPending(code: seq<Instr>, q: seq<nat>, code2: seq<Instr>, l2: seq<nat>, n: nat)
    requires Pending(code, q) && NoDup(l2) && Untouched(code, code2, q) && Jumps(code2, q) && Below(q, n)
    requires |code2| == n + 2 && code2[n + 1].Jmp? && (code2[n].TestSet? ==> code2[n].a == NO_REG)
    requires forall j :: j in l2 <==> j in q || j == n + 1
    ensures Pending(code2, l2)
  {
    forall j | j in l2 ensures j < |code2| && code2[j].Jmp? && (Carries(code2, j) ==> code2[j-1].a == NO_REG) {
    }
  }

  lemma TestGood(x: Ctx, fs: FS, d: Desc, w: Way, fs2: FS, cond: bool, keeps: bool, free: nat, r: Regs, r2: Regs)
    requires TestsAt(x, fs, d, fs2, cond, keeps) && 0 <= End(fs, d)
    requires Same(r, r2, free) && w.Falls? && FallGood(x, fs, d, w.v, r2)
    requires Below(d.t + d.f, End(fs, d))
    ensures var d2 := Exiting(d, cond, [End(fs, d) + 1]);
            Good(x, fs2, d2, Branch(w, cond, keeps), free, r,
                 Exec(x, fs2.code, Pend(fs2, d2), End(fs, d), r2, |fs2.code|))
  {
    var n := End(fs, d);
    var d2 := Exiting(d, cond, [n + 1]);
    hide FallGood, Same;
    assert TestsAt(x, fs, d, fs2, cond, keeps) && FallGood(x, fs, d, w.v, r2);
    ExitingHas(fs2, d, cond, n + 1, n);
    assert FallGood(x, fs2, d2, w.v, r2) <==> Truthy(w.v) != cond by { CondFall(x, fs2, d, w.v, cond, n + 1, r2); }
    if Truthy(w.v) == cond {
      assert Taken(x, fs2.code[n], r2) == r2;
      assert Exec(x, fs2.code, Pend(fs2, d2), n, r2, n + 2) == Exit(n + 1, r2);
    } else {
      assert Exec(x, fs2.code, Pend(fs2, d2), n, r2, n + 2) == Exec(x, fs2.code, Pend(fs2, d2), n + 2, r2, n + 2);
    }
  }

  lemma CondFall(x: Ctx, fs2: FS, d: Desc, v: Value, cond: bool, pc: nat, r: Regs)
    ensures FallGood(x, fs2, Exiting(d, cond, [pc]), v, r) <==> Truthy(v) != cond
  {
  }

  lemma ExitingHas(fs2: FS, d: Desc, cond: bool, pc: nat, n: nat)
    requires Below(d.t + d.f, n) && n <= pc
    ensures var d2 := Exiting(d, cond, [pc]);
            pc in All(fs2, d2) && if cond then pc in d2.t else pc in d2.f && pc !in d2.t
  {
    var d2 := Exiting(d, cond, [pc]);
    if cond { assert d2.t[|d.t|] == pc; } else { assert d2.f[|d.f|] == pc; }
    assert forall j :: j in d.t ==> j in d.t + d.f;
  }

  /** A test and its jump turn the value into control. */
  lemma TestStep(x: Ctx, fs0: FS, fs: FS, d: Desc, s: Sem, fs2: FS, cond: bool, keeps: bool)
    requires Correct(x, fs0, fs, d, s) && TestsAt(x, fs, d, fs2, cond, keeps) && TestStatic(fs, d, fs2)
    ensures Correct(x, fs0, fs2, Exiting(d, cond, [End(fs, d) + 1]), Branching(s, cond, keeps))
  {
    hide Runs, Evolves, FallGood, Same, Exec, Pending, Means, StepGood, TestsAt, LandAt, KindOK, Exiting;
    WellFormed(x, fs0, fs, d, s);
    var n, s2 := End(fs, d), Branching(s, cond, keeps);
    var d2 := Exiting(d, cond, [n + 1]);
    TestMoves(x, fs, d, fs2, cond, keeps);
    Split(fs, d);
    PendingJumps(fs.code, d.t + d.f);
    ExitingLists(d, cond, n + 1, n);
    TestLand(fs, d, fs2, d2, n);
    assert End(fs2, d2) == |fs2.code| by { hide *; TestEnd(x, fs, d, fs2, cond); }
    forall r: Regs, h: Held, o: Out
      ensures StepGood(x, fs, d, Means(x.ops, s, r, h), fs2, d2, Means(x.ops, s2, r, h), fs0.freereg, r, o)
    {
      var w := Means(x.ops, s, r, h);
      MeansBranching(x.ops, s, cond, keeps, r, h);
      forall r2: Regs | w.Falls? && Same(r, r2, fs0.freereg) && FallGood(x, fs, d, w.v, r2)
        ensures Good(x, fs2, d2, Branch(w, cond, keeps), fs0.freereg, r,
                     Exec(x, fs2.code, Pend(fs2, d2), End(fs, d), r2, End(fs2, d2)))
      {
        TestGood(x, fs, d, w, fs2, cond, keeps, fs0.freereg, r, r2);
      }
      EmitGood(x, fs, d, w, fs2, d2, Branch(w, cond, keeps), fs0.freereg, r, o);
    }
    Transfer(x, fs0, fs, d, s, fs2, d2, s2);
  }

  lemma TestEnd(x: Ctx, fs: FS, d: Desc, fs2: FS, cond: bool)
    ensures End(fs2, Exiting(d, cond, [if End(fs, d) + 1 >= 0 then End(fs, d) + 1 else 0])) == |fs2.code|
  {
  }

  lemma TestLand(fs: FS, d: Desc, fs2: FS, d2: Desc, n: nat)
    requires LandAt(fs2.code, Set(d.t + d.f), fs.jpc, n) && fs2.jpc == [] && Below(fs.jpc, n)
    requires forall j :: j in d2.t + d2.f <==> j in d.t + d.f || j == n + 1
    ensures LandAt(fs2.code, Pend(fs2, d2), fs.jpc, n)
  {
    assert All(fs2, d2) == d2.t + d2.f;
  }

  // ----- a comparison

  lemma InvertStatic(fs: FS, d: Desc, cond: bool)
    requires WF(fs, d) && d.k.VJmp?
    ensures TestStatic(fs, d, if cond then fs else fs.(code := InvertJump(fs.code, d.k.pc)))
  {
    hide Evolves, Pending;
    var fs2, q, n := if cond then fs else fs.(code := InvertJump(fs.code, d.k.pc)), d.t + d.f, End(fs, d);
    Split(fs, d);
    PendingJumps(fs.code, q);
    assert fs.code[..n] == fs2.code[..n];
    EvolvesSelf(fs.code, fs2.code, n);
    EvolvesMore(fs.code, {}, fs2.code, {}, n, q);
    EvolvesUntouched(fs.code, {}, fs2.code, {}, n, q);
    assert All(fs, d) == q && {} + Set(q) == Set(q);
  }

  lemma InvertTests(x: Ctx, fs: FS, d: Desc, cond: bool)
    requires WF(fs, d) && d.k.VJmp?
    ensures TestsAt(x, fs, d, if cond then fs else fs.(code := InvertJump(fs.code, d.k.pc)), cond, false)
  {
    hide Pending;
  }

  lemma JumpCond(x: Ctx, fs0: FS, fs: FS, d: Desc, s: Sem, cond: bool)
    requires Correct(x, fs0, fs, d, s) && d.k.VJmp?
    ensures Correct(x, fs0, if cond then fs else fs.(code := InvertJump(fs.code, d.k.pc)), Exiting(d, cond, [d.k.pc]),
                    Branching(s, cond, false))
  {
    hide Correct, TestStatic, TestsAt, InvertJump;
    WellFormed(x, fs0, fs, d, s);
    InvertStatic(fs, d, cond);
    InvertTests(x, fs, d, cond);
    TestStep(x, fs0, fs, d, s, if cond then fs else fs.(code := InvertJump(fs.code, d.k.pc)), cond, false);
    assert End(fs, d) + 1 == d.k.pc;
  }

  // ----- a value in a register

  lemma EvolvesPrefix(code: seq<Instr>, p: set<nat>, c: seq<Instr>, p2: set<nat>, n: nat, c2: seq<Instr>)
    requires Evolves(code, p, c, p2, n) && n <= |c2| && c2[..n] == c[..n]
    ensures Evolves(code, p, c2, p2, n)
  {
    forall i | 0 <= i < n ensures EvolvesAt(code, p, c2, p2, n, i) {
      assert EvolvesAt(code, p, c, p2, n, i);
      assert c2[..n][i] == c[..n][i];
    }
  }

  lemma PrefixLists(code: seq<Instr>, c: seq<Instr>, c2: seq<Instr>, q: seq<nat>, p: set<nat>, l: seq<nat>, n: nat)
    requires n <= |c| && n <= |c2| && c2[..n] == c[..n] && Below(q, n) && Below(l, n)
    requires Untouched(code, c, q) && LandAt(c, p, l, n)
    ensures Untouched(code, c2, q) && LandAt(c2, p, l, n)
  {
    assert forall i :: 0 <= i < n ==> c2[i] == c2[..n][i] && c[i] == c[..n][i];
  }

  lemma CondJumpCode(fs: FS, i: Instr)
    ensures var fs2 := CondJump(fs, i).0;
            && fs2 == Code(fs, i).(code := Code(fs, i).code + [Jmp(NO_JUMP)])
            && CondJump(fs, i).1 == [|fs.code| + 1]
            && Code(fs, i).jpc == []
  {
    assert [|fs.code| + 1] + [] == [|fs.code| + 1];
  }

  lemma CondJumpStatic(fs: FS, d: Desc, i: Instr)
    requires WF(fs, d) && End(fs, d) == |fs.code| && !CondJump(fs, i).0.err
    ensures TestStatic(fs, d, CondJump(fs, i).0)
    ensures CondJump(fs, i).0.code[|fs.code|] == i && |CondJump(fs, i).0.code| == |fs.code| + 2
    ensures CondJump(fs, i).0.code[|fs.code| + 1].Jmp?
  {
    hide Evolves, Pending, Code, Untouched, LandAt, CondJump, KindOK;
    var n, q, fs2 := |fs.code|, d.t + d.f, CondJump(fs, i).0;
    CondJumpCode(fs, i);
    CodeStatic(fs, d, i);
    LoadShape(fs, i);
    Split(fs, d);
    var c := Code(fs, i).code;
    assert fs2.code[..n] == c[..n];
    EvolvesPrefix(fs.code, Pend(fs, d), c, Set(q), n, fs2.code);
    PrefixLists(fs.code, c, fs2.code, q, Set(q), fs.jpc, n);
  }

  lemma TestSetTests(x: Ctx, fs: FS, d: Desc, fs2: FS, reg: nat, cond: bool)
    requires d.k == VNonReloc(reg) && |fs2.code| == |fs.code| + 2
    requires fs2.code[|fs.code|] == TestSet(NO_REG, reg, cond) && fs2.code[|fs.code| + 1].Jmp?
    ensures TestsAt(x, fs, d, fs2, cond, true)
  {
  }

  lemma TestSetStep(x: Ctx, fs0: FS, fs: FS, d: Desc, s: Sem, reg: nat, cond: bool)
    requires Correct(x, fs0, fs, d, s) && d.k == VNonReloc(reg) && !CondJump(fs, TestSet(NO_REG, reg, cond)).0.err
    ensures CondJump(fs, TestSet(NO_REG, reg, cond)).1 == [|fs.code| + 1]
    ensures Correct(x, fs0, CondJump(fs, TestSet(NO_REG, reg, cond)).0, Exiting(d, cond, [|fs.code| + 1]),
                    Branching(s, cond, true))
  {
    hide Correct, TestStatic, TestsAt, CondJump;
    var i := TestSet(NO_REG, reg, cond);
    WellFormed(x, fs0, fs, d, s);
    CondJumpStatic(fs, d, i);
    CondJumpCode(fs, i);
    TestSetTests(x, fs, d, CondJump(fs, i).0, reg, cond);
    TestStep(x, fs0, fs, d, s, CondJump(fs, i).0, cond, true);
  }

  // ----- a negation that was just emitted

  function Unemitted(fs: FS): FS
    requires fs.code != []
  {
    fs.(code := fs.code[..|fs.code| - 1])
  }

  lemma NotCode(fs: FS, i: Instr)
    requires fs.code != [] && fs.jpc == []
    ensures CondJump(Unemitted(fs), i).0.code == fs.code[..|fs.code| - 1] + [i, Jmp(NO_JUMP)]
    ensures CondJump(Unemitted(fs), i).1 == [|fs.code|]
    ensures CondJump(Unemitted(fs), i).0.jpc == []
    ensures CondJump(Unemitted(fs), i).0.k == fs.k
  {
    CondJumpCode(Unemitted(fs), i);
  }

  lemma NotStatic(fs: FS, d: Desc, i: Instr)
    requires WF(fs, d) && d.k.VReloc? && !CondJump(Unemitted(fs), i).0.err
    ensures TestStatic(fs, d, CondJump(Unemitted(fs), i).0)
  {
    hide Evolves, Pending, CondJump;
    var fs2, q, n := CondJump(Unemitted(fs), i).0, d.t + d.f, End(fs, d);
    NotCode(fs, i);
    Split(fs, d);
    PendingJumps(fs.code, q);
    assert fs.code[..n] == fs2.code[..n];
    EvolvesSelf(fs.code, fs2.code, n);
    EvolvesMore(fs.code, {}, fs2.code, {}, n, q);
    EvolvesUntouched(fs.code, {}, fs2.code, {}, n, q);
    assert All(fs, d) == q && {} + Set(q) == Set(q);
  }

  lemma NotTests(x: Ctx, fs: FS, d: Desc, cond: bool)
    requires WF(fs, d) && d.k.VReloc? && fs.code[d.k.pc].Not?
    ensures TestsAt(x, fs, d, CondJump(Unemitted(fs), Test(fs.code[d.k.pc].b, !cond)).0, cond, false)
  {
    hide Evolves, Pending, CondJump;
    NotCode(fs, Test(fs.code[d.k.pc].b, !cond));
  }

  lemma NotStep(x: Ctx, fs0: FS, fs: FS, d: Desc, s: Sem, cond: bool)
    requires Correct(x, fs0, fs, d, s) && d.k.VReloc? && d.k.pc + 1 == |fs.code| && fs.code[d.k.pc].Not?
    requires !CondJump(Unemitted(fs), Test(fs.code[d.k.pc].b, !cond)).0.err
    ensures var i := Test(fs.code[d.k.pc].b, !cond);
            && CondJump(Unemitted(fs), i).1 == [|fs.code|]
            && Correct(x, fs0, CondJump(Unemitted(fs), i).0, Exiting(d, cond, [|fs.code|]), Branching(s, cond, false))
  {
    hide Correct, TestStatic, TestsAt, CondJump;
    var i := Test(fs.code[d.k.pc].b, !cond);
    WellFormed(x, fs0, fs, d, s);
    NotStatic(fs, d, i);
    NotTests(x, fs, d, cond);
    TestStep(x, fs0, fs, d, s, CondJump(Unemitted(fs), i).0, cond, false);
    NotCode(fs, i);
  }

  // ----- a literal

  lemma LiteralNoDup(t: seq<nat>, f: seq<nat>, jpc: seq<nat>, n: nat, cond: bool)
    requires NoDup(t + f + jpc) && Below(t + f + jpc, n)
    requires NoDup(t) && NoDup(f) && NoDup(jpc)
    requires (forall j :: j in t + f ==> j !in jpc) && (forall j :: j in t ==> j !in f)
    ensures var d2 := Exiting(Desc(VTrue, t, f), cond, [n] + jpc);
            && NoDup(d2.t + d2.f)
            && (forall j :: j in d2.t + d2.f <==> j in t + f + jpc || j == n)
            && (forall j :: j in t ==> j in d2.t)
            && (forall j :: j in f ==> j in d2.f && j !in d2.t)
            && (forall j :: j in jpc || j == n ==> if cond then j in d2.t else j in d2.f && j !in d2.t)
  {
    var l := [n] + jpc;
    assert forall j :: j in t || j in f || j in jpc ==> j in t + f + jpc;
    assert forall j :: j in t || j in f ==> j in t + f;
    NoDupConcat([n], jpc);
    if cond {
      NoDupConcat(t, l);
      NoDupConcat(t + l, f);
    } else {
      NoDupConcat(f, l);
      NoDupConcat(t, f + l);
    }
  }

  lemma LiteralShape(fs: FS)
    ensures var fs2 := Jump(fs).0;
            && |fs2.code| == |fs.code| + 1 && fs2.code[..|fs.code|] == fs.code && fs2.code[|fs.code|].Jmp?
            && fs2.jpc == [] && fs2.k == fs.k && fs2.nactvar == fs.nactvar && fs2.freereg == fs.freereg
            && Jump(fs).1 == [|fs.code|] + fs.jpc
  {
  }

  lemma LiteralMoves(fs: FS, d: Desc, cond: bool)
    requires WF(fs, d) && End(fs, d) == |fs.code| && !Jump(fs).0.err
    ensures Moves(fs, d, Jump(fs).0, Exiting(d, cond, Jump(fs).1))
    ensures Untouched(fs.code, Jump(fs).0.code, All(fs, d))
  {
    hide Evolves, Pending, Jump, Carries;
    var fs2, l, n := Jump(fs).0, Jump(fs).1, |fs.code|;
    var d2 := Exiting(d, cond, l);
    LiteralShape(fs);
    Split(fs, d);
    PendingJumps(fs.code, All(fs, d));
    PendingJumps(fs.code, d.t);
    PendingJumps(fs.code, d.f);
    PendingJumps(fs.code, fs.jpc);
    LiteralNoDup(d.t, d.f, fs.jpc, n, cond);
    assert All(fs2, d2) == d2.t + d2.f;
    PrefixSame(fs.code, fs2.code, All(fs, d));
    EndsPrefix(fs.code, fs2.code);
    EvolvesSelf(fs.code, fs2.code, n);
    EvolvesMore(fs.code, {}, fs2.code, {}, n, All(fs, d));
    assert {} + Set(All(fs, d)) == Pend(fs, d);
    EvolvesAbove(fs.code, Pend(fs, d), fs2.code, Pend(fs, d), n, Pend(fs2, d2));
    SamePart(fs.code, fs2.code, All(fs, d));
    PendingJumps(fs2.code, All(fs, d));
    assert !Carries(fs2.code, n) by { NotCarried(fs2.code, n); }
    PendingMove(fs.code, All(fs, d), fs2.code, All(fs2, d2));
  }

  lemma NotCarried(code: seq<Instr>, n: nat)
    requires Ends(code, n)
    ensures !Carries(code, n) && !Controlled(code, n)
  {
  }

  lemma LiteralExit(x: Ctx, fs: FS, d: Desc, h: Held, cond: bool, free: nat, r: Regs, r2: Regs, j: nat)
    requires WF(fs, d) && End(fs, d) == |fs.code| && !Jump(fs).0.err
    requires (j == |fs.code| && h == Nothing) || (j in fs.jpc && h == HeldBy(fs.code, j, r2))
    requires Same(r, r2, free)
    ensures Good(x, Jump(fs).0, Exiting(d, cond, Jump(fs).1), Exits(cond, h, true), free, r, Exit(j, r2))
    ensures j in Pend(Jump(fs).0, Exiting(d, cond, Jump(fs).1))
  {
    hide Evolves, Pending, Jump, Same, FallGood, HeldBy;
    var fs2, l, n := Jump(fs).0, Jump(fs).1, |fs.code|;
    LiteralShape(fs);
    Split(fs, d);
    PendingJumps(fs.code, All(fs, d));
    PendingJumps(fs.code, d.t);
    PendingJumps(fs.code, d.f);
    PendingJumps(fs.code, fs.jpc);
    LiteralNoDup(d.t, d.f, fs.jpc, n, cond);
    PrefixSame(fs.code, fs2.code, All(fs, d));
    EndsPrefix(fs.code, fs2.code);
    NotCarried(fs2.code, n);
    assert j != n ==> j in All(fs, d);
    if j == n {
      assert HeldBy(fs2.code, j, r2) == Nothing by { HeldNothing(fs2.code, j, r2); }
    } else {
      HeldSame(fs.code, fs2.code, j, r2, All(fs, d));
    }
    assert j in All(fs2, Exiting(d, cond, l));
  }

  lemma HeldNothing(code: seq<Instr>, j: nat, r: Regs)
    requires !Carries(code, j)
    ensures HeldBy(code, j, r) == Nothing
  {
  }

  lemma LiteralFall(x: Ctx, fs: FS, d: Desc, cond: bool, r: Regs, p: set<nat>)
    requires WF(fs, d) && End(fs, d) == |fs.code| && |fs.code| in p
    ensures Exec(x, Jump(fs).0.code, p, |fs.code|, r, |fs.code| + 1) == Exit(|fs.code|, r)
  {
    hide Evolves, Pending, Jump;
    LiteralShape(fs);
    EndsPrefix(fs.code, Jump(fs).0.code);
    NotCarried(Jump(fs).0.code, |fs.code|);
  }

  lemma LiteralKeeps(x: Ctx, fs: FS, d: Desc, w: Way, cond: bool, free: nat, r: Regs, r2: Regs, j: nat)
    requires WF(fs, d) && End(fs, d) == |fs.code| && !Jump(fs).0.err
    requires (j in d.t || j in d.f) && w.Exits?
    requires Good(x, fs, d, w, free, r, Exit(j, r2))
    ensures Good(x, Jump(fs).0, Exiting(d, cond, Jump(fs).1), w, free, r, Exit(j, r2))
    ensures j in Pend(Jump(fs).0, Exiting(d, cond, Jump(fs).1))
  {
    hide Evolves, Pending, Jump, Carries, Same, FallGood, HeldBy;
    var fs2, l, n := Jump(fs).0, Jump(fs).1, |fs.code|;
    LiteralShape(fs);
    Split(fs, d);
    PendingJumps(fs.code, All(fs, d));
    PendingJumps(fs.code, d.t);
    PendingJumps(fs.code, d.f);
    PendingJumps(fs.code, fs.jpc);
    LiteralNoDup(d.t, d.f, fs.jpc, n, cond);
    LiteralMoves(fs, d, cond);
    assert j in All(fs, d);
    HeldSame(fs.code, fs2.code, j, r2, All(fs, d));
    assert j in All(fs2, Exiting(d, cond, l));
  }

  lemma MeansJumping(ops: Ops, s: Sem, cond: bool, r: Regs, h: Held)
    ensures Means(ops, Jumping(s, cond), r, h) == JumpAlways(Means(ops, s, r, h), cond)
  {
  }

  /** A literal operand jumps always, and takes over the jumps to here with what they bring along. */
  lemma LiteralStep(x: Ctx, fs0: FS, fs: FS, d: Desc, s: Sem, cond: bool)
    requires Correct(x, fs0, fs, d, s) && d.k == (if cond then VTrue else VFalse)
    requires !Jump(fs).0.err
    ensures Correct(x, fs0, Jump(fs).0, Exiting(d, cond, Jump(fs).1), Jumping(s, cond))
  {
    hide Correct, Jump, Evolves, Pending, Same, Exec, Good, KindOK, Exiting, Ends, Carries, HeldBy, Means;
    WellFormed(x, fs0, fs, d, s);
    var fs2, d2, n := Jump(fs).0, Exiting(d, cond, Jump(fs).1), |fs.code|;
    LiteralMoves(fs, d, cond);
    LiteralShape(fs);
    assert End(fs2, d2) == n + 1 by { CondEnd(fs2, d, cond, Jump(fs).1); }
    forall r: Regs, h: Held, o: Out
      ensures StepGood(x, fs, d, Means(x.ops, s, r, h), fs2, d2, Means(x.ops, Jumping(s, cond), r, h), fs0.freereg, r,
                       o)
    {
      var w := Means(x.ops, s, r, h);
      MeansJumping(x.ops, s, cond, r, h);
      if Good(x, fs, d, w, fs0.freereg, r, o) {
        if o.Fall? {
          GoodFall(x, fs, d, w, fs0.freereg, r, o.r);
          LiteralExit(x, fs, d, Nothing, cond, fs0.freereg, r, o.r, n);
          LiteralFall(x, fs, d, cond, o.r, Pend(fs2, d2));
        } else {
          GoodExit(x, fs, d, w, fs0.freereg, r, o);
          if o.pc in d.t || o.pc in d.f {
            LiteralKeeps(x, fs, d, w, cond, fs0.freereg, r, o.r, o.pc);
          } else {
            LiteralExit(x, fs, d, w.h, cond, fs0.freereg, r, o.r, o.pc);
          }
        }
      }
    }
    Transfer(x, fs0, fs, d, s, fs2, d2, Jumping(s, cond));
  }

  lemma CondEnd(fs: FS, d: Desc, cond: bool, l: seq<nat>)
    ensures End(fs, Exiting(d, cond, l)) == |fs.code|
  {
  }

  lemma GoodFall(x: Ctx, fs: FS, d: Desc, w: Way, free: nat, r: Regs, r2: Regs)
    requires Good(x, fs, d, w, free, r, Fall(r2))
    ensures w.Falls? && w.h == Nothing && FallGood(x, fs, d, w.v, r2) && Same(r, r2, free)
  {
  }

  lemma GoodExit(x: Ctx, fs: FS, d: Desc, w: Way, free: nat, r: Regs, o: Out)
    requires Good(x, fs, d, w, free, r, o) && !o.Fall?
    ensures o.Exit? && Same(r, o.r, free) && w.h == HeldBy(fs.code, o.pc, o.r)
    ensures w.Exits? <==> o.pc in d.t || o.pc in d.f
    ensures o.pc !in d.t && o.pc !in d.f ==> o.pc in fs.jpc && FallGood(x, fs, d, w.v, o.r)
  {
  }
}
