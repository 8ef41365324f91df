/** codenot: the lists of exits are exchanged, their values removed, and the value that falls through negated. */
module CodeNegate {
  import opened LuaCode
  import opened CodeExec
  import opened CodeLists
  import opened CodeMeaning
  import opened CodeState
  import opened CodeEvolve
  import opened CodeLoad
  import opened CodeClose
  import opened CodeExp2
  import opened CodeCond
  import opened CodeGoIf

  function Without(code: seq<Instr>, t: seq<nat>, f: seq<nat>): seq<Instr> {
    RemoveValues(RemoveValues(code, t), f)
  }

  lemma RemoveStatic(code: seq<Instr>, l: seq<nat>, n: nat)
    requires Pending(code, l) && Below(l, n) && n <= |code|
    ensures var c := RemoveValues(code, l);
            && Evolves(code, Set(l), c, Set(l), n)
            && c[n..] == code[n..]
            && forall j :: j in l ==> !Carries(c, j)
  {
    var c := RemoveValues(code, l);
    RemoveValuesAt(code, l);
    forall i | 0 <= i < n ensures EvolvesAt(code, Set(l), c, Set(l), n, i) {
    }
  }

  lemma RemoveOther(code: seq<Instr>, l: seq<nat>, q: seq<nat>, n: nat)
    requires Pending(code, l) && Below(l, n) && n <= |code|
    requires Pending(code, q) && Below(q, n) && forall j :: j in q ==> j !in l
    ensures var c := RemoveValues(code, l);
            && Evolves(code, Set(l) + Set(q), c, Set(l) + Set(q), n)
            && Untouched(code, c, q) && Pending(c, q)
  {
    hide RemoveValues;
    var c := RemoveValues(code, l);
    RemoveStatic(code, l, n);
    PendingJumps(code, q);
    PendingJumps(code, l);
    EvolvesMore(code, Set(l), c, Set(l), n, q);
    EvolvesUntouched(code, Set(l), c, Set(l), n, q);
    StillJumps(code, Set(l) + Set(q), c, Set(l) + Set(q), n, q);
    SamePart(code, c, q);
    PendingMove(code, q, c, q);
  }

  lemma RemoveSelf(code: seq<Instr>, l: seq<nat>, n: nat)
    requires Pending(code, l) && Below(l, n) && n <= |code|
    ensures Pending(RemoveValues(code, l), l)
  {
    hide RemoveValues;
    RemoveStatic(code, l, n);
    PendingJumps(code, l);
    StillJumps(code, Set(l), RemoveValues(code, l), Set(l), n, l);
    PendingMove(code, l, RemoveValues(code, l), l);
  }

  /** Removing the values of both lists, with the jumps to here untouched. */
  lemma WithoutStatic(code: seq<Instr>, t: seq<nat>, f: seq<nat>, jpc: seq<nat>, n: nat)
    requires Pending(code, t) && Pending(code, f) && Pending(code, jpc) && n <= |code|
    requires Below(t, n) && Below(f, n) && Below(jpc, n) && Ends(code, n)
    requires forall j :: j in t ==> j !in f
    requires forall j :: j in t + f ==> j !in jpc
    ensures var c, p := Without(code, t, f), Set(t) + Set(f) + Set(jpc);
            && |c| == |code| && Evolves(code, p, c, p, n) && c[n..] == code[n..] && Ends(c, n)
            && (forall j :: j in t || j in f ==> !Carries(c, j))
            && Pending(c, t) && Pending(c, f) && Pending(c, jpc) && Untouched(code, c, jpc)
  {
    hide Evolves, Pending, RemoveValues, Ends;
    var c1, c, p := RemoveValues(code, t), Without(code, t, f), Set(t) + Set(f) + Set(jpc);
    assert forall j :: j in f + jpc <==> j in f || j in jpc;
    assert forall j :: j in t + jpc <==> j in t || j in jpc;
    assert forall j :: j in t + f <==> j in t || j in f;
    RemoveStatic(code, t, n);
    RemoveOther(code, t, f, n);
    RemoveOther(code, t, jpc, n);
    RemoveSelf(code, t, n);
    PendingJumps(code, f);
    PendingJumps(code, jpc);
    EvolvesMore(code, Set(t), c1, Set(t), n, f + jpc);
    assert Set(t) + Set(f + jpc) == p;
    RemoveStatic(c1, f, n);
    RemoveOther(c1, f, t, n);
    RemoveOther(c1, f, jpc, n);
    RemoveSelf(c1, f, n);
    PendingJumps(c1, t);
    PendingJumps(c1, jpc);
    EvolvesMore(c1, Set(f), c, Set(f), n, t + jpc);
    assert Set(f) + Set(t + jpc) == p;
    EvolvesTrans(code, p, c1, p, c, p, n, n);
    StillEnds(code, p, c, p, n);
    SameCarries(c1, c, t);
    assert Untouched(code, c, jpc) by { UntouchedTrans(code, c1, c, jpc); }
  }

  lemma UntouchedTrans(code: seq<Instr>, c1: seq<Instr>, c2: seq<Instr>, q: seq<nat>)
    requires Untouched(code, c1, q) && Untouched(c1, c2, q)
    ensures Untouched(code, c2, q)
  {
  }

  // ----- the fall-through value

  ghost predicate Negates(x: Ctx, fs: FS, d: Desc, fs2: FS, k: Kind) {
    forall v, r :: FallGood(x, fs, d, v, r) ==> FallGood(x, fs2, Desc(k, d.f, d.t), Neg(v), r)
  }

  /** The static result of codenot on a state whose fall-through value is already negated in code1. */
  ghost predicate NegStatic(fs: FS, d: Desc, fs1: FS, k: Kind, emits: bool) {
    && 0 <= End(fs, d) <= |fs1.code|
    && Evolves(fs.code, Pend(fs, d), fs1.code, Set(d.t + d.f + fs1.jpc), End(fs, d))
    && Pending(fs1.code, d.t + d.f + fs1.jpc) && Below(d.t + d.f + fs1.jpc, End(fs, d))
    && (if emits then fs1.jpc == [] && LandAt(fs1.code, Set(d.t + d.f), fs.jpc, End(fs, d))
        else fs1.jpc == fs.jpc && Untouched(fs.code, fs1.code, fs.jpc))
    && End(fs1, Desc(k, d.f, d.t)) == End(fs, d)
    && KindOK(fs1, Desc(k, d.f, d.t))
    && !fs1.err && fs1.nactvar == fs.nactvar && fs.k <= fs1.k
  }

  function NegState(fs1: FS, d: Desc): FS { fs1.(code := Without(fs1.code, d.t, d.f)) }

  lemma NegParts(fs: FS, d: Desc, fs1: FS, k: Kind, emits: bool)
    requires WF(fs, d) && NegStatic(fs, d, fs1, k, emits)
    ensures var n, c := End(fs, d), Without(fs1.code, d.t, d.f);
            && Pending(fs1.code, d.t) && Pending(fs1.code, d.f) && Pending(fs1.code, fs1.jpc)
            && Below(d.t, n) && Below(d.f, n) && Below(fs1.jpc, n) && Ends(fs1.code, n)
            && (forall j :: j in d.t ==> j !in d.f)
            && (forall j :: j in d.t + d.f ==> j !in fs1.jpc)
  {
    var l := d.t + d.f + fs1.jpc;
    Split(fs, d);
    PendingPart(fs1.code, l, d.t, 0);
    PendingPart(fs1.code, l, d.f, |d.t|);
    PendingPart(fs1.code, l, fs1.jpc, |d.t| + |d.f|);
    StillEnds(fs.code, Pend(fs, d), fs1.code, Set(l), End(fs, d));
  }

  lemma NegKind(c: seq<Instr>, fs1: FS, d: Desc, k: Kind, n: nat)
    requires |c| == |fs1.code| && n <= |c| && c[n..] == fs1.code[n..]
    requires KindOK(fs1, Desc(k, d.f, d.t)) && n <= End(fs1, Desc(k, d.f, d.t))
    ensures KindOK(fs1.(code := c), Desc(k, d.f, d.t))
    ensures forall i :: n <= i < |c| ==> c[i] == fs1.code[i]
  {
    assert forall i :: n <= i < |c| ==> c[i] == c[n..][i - n] && fs1.code[i] == fs1.code[n..][i - n];
  }

  lemma SwapNoDup(t: seq<nat>, f: seq<nat>, jpc: seq<nat>)
    requires NoDup(t) && NoDup(f) && NoDup(jpc)
    requires forall j :: j in t ==> j !in f
    requires forall j :: j in t + f ==> j !in jpc
    ensures NoDup(f + t + jpc)
  {
    assert forall j :: j in f + t <==> j in t + f;
    NoDupConcat(f, t);
    NoDupConcat(f + t, jpc);
  }

  lemma NegMoves(fs: FS, d: Desc, fs1: FS, k: Kind, emits: bool)
    requires WF(fs, d) && NegStatic(fs, d, fs1, k, emits)
    ensures Moves(fs, d, NegState(fs1, d), Desc(k, d.f, d.t))
    ensures forall j :: j in d.t || j in d.f ==> !Carries(NegState(fs1, d).code, j)
  {
    hide Evolves, Pending, Without, KindOK, LandAt, Carries, Ends;
    var n, fs2, d2 := End(fs, d), NegState(fs1, d), Desc(k, d.f, d.t);
    NegParts(fs, d, fs1, k, emits);
    WithoutStatic(fs1.code, d.t, d.f, fs1.jpc, n);
    NegKind(fs2.code, fs1, d, k, n);
    var p := Set(d.t) + Set(d.f) + Set(fs1.jpc);
    assert Set(d.t + d.f + fs1.jpc) == p == Pend(fs2, d2);
    EvolvesTrans(fs.code, Pend(fs, d), fs1.code, p, fs2.code, p, n, n);
    PendingJumps(fs2.code, d.t);
    PendingJumps(fs2.code, d.f);
    PendingJumps(fs2.code, fs1.jpc);
    SwapNoDup(d.t, d.f, fs1.jpc);
    JoinPending(fs2.code, d.t, d.f, fs1.jpc);
  }

  lemma JoinPending(code: seq<Instr>, t: seq<nat>, f: seq<nat>, jpc: seq<nat>)
    requires Pending(code, t) && Pending(code, f) && Pending(code, jpc) && NoDup(f + t + jpc)
    ensures Pending(code, f + t + jpc)
  {
    forall j | j in f + t + jpc
      ensures j < |code| && code[j].Jmp? && (Carries(code, j) ==> code[j-1].a == NO_REG)
    {
      assert j in f || j in t || j in jpc;
    }
  }

  lemma NegFall(x: Ctx, fs: FS, d: Desc, fs1: FS, k: Kind, emits: bool, v: Value, r: Regs)
    requires WF(fs, d) && NegStatic(fs, d, fs1, k, emits) && Negates(x, fs, d, fs1, k) && FallGood(x, fs, d, v, r)
    ensures FallGood(x, NegState(fs1, d), Desc(k, d.f, d.t), Neg(v), r)
  {
    hide Evolves, Pending, Without, LandAt, Ends, NegStatic;
    var n, c := End(fs, d), Without(fs1.code, d.t, d.f);
    NegParts(fs, d, fs1, k, emits);
    WithoutStatic(fs1.code, d.t, d.f, fs1.jpc, n);
    assert KindOK(fs1, Desc(k, d.f, d.t)) && End(fs1, Desc(k, d.f, d.t)) == n by {
      NegStaticKind(fs, d, fs1, k, emits);
    }
    NegKind(c, fs1, d, k, n);
    assert FallGood(x, fs1, Desc(k, d.f, d.t), Neg(v), r);
  }

  lemma NegStaticKind(fs: FS, d: Desc, fs1: FS, k: Kind, emits: bool)
    requires NegStatic(fs, d, fs1, k, emits)
    ensures KindOK(fs1, Desc(k, d.f, d.t)) && End(fs1, Desc(k, d.f, d.t)) == End(fs, d)
  {
    hide KindOK;
  }

  /** A jump to here still comes here, or waits to. */
  lemma NegLand(x: Ctx, fs: FS, d: Desc, fs1: FS, k: Kind, emits: bool, j: nat, r: Regs)
    requires WF(fs, d) && NegStatic(fs, d, fs1, k, emits) && j in fs.jpc
    ensures var fs2, d2 := NegState(fs1, d), Desc(k, d.f, d.t);
            && Leave(x, fs2.code, Pend(fs2, d2), j, r, End(fs, d)) == (if emits then Fall(r) else Exit(j, r))
            && (!emits ==> HeldBy(fs2.code, j, r) == HeldBy(fs.code, j, r))
  {
    hide Evolves, Pending, Without, Ends;
    var n, fs2, d2 := End(fs, d), NegState(fs1, d), Desc(k, d.f, d.t);
    NegParts(fs, d, fs1, k, emits);
    Split(fs, d);
    WithoutStatic(fs1.code, d.t, d.f, fs1.jpc, n);
    assert All(fs2, d2) == d.f + d.t + fs1.jpc;
    assert forall i :: i in d.f + d.t <==> i in d.t + d.f;
    if emits {
      assert Target(fs1.code, j) == n && !Carries(fs1.code, j);
      NegStays(fs1.code, d.t, d.f, n, j);
    } else {
      assert j in fs1.jpc;
      HeldSame(fs.code, fs1.code, j, r, fs.jpc);
      HeldSame(fs1.code, fs2.code, j, r, fs1.jpc);
    }
  }

  /** Removing values leaves jumps that are on neither list alone. */
  lemma NegStays(code: seq<Instr>, t: seq<nat>, f: seq<nat>, n: nat, j: nat)
    requires Pending(code, t) && Pending(code, f) && j < |code| && j !in t && j !in f
    ensures Target(Without(code, t, f), j) == Target(code, j)
    ensures !Carries(code, j) ==> !Carries(Without(code, t, f), j)
  {
    hide RemoveValues;
    var c1 := RemoveValues(code, t);
    RemoveValuesAt(code, t);
    PendingJumps(code, t);
    PendingJumps(code, f);
    RemoveValuesAt(c1, f);
  }

  lemma NegGood(x: Ctx, fs: FS, d: Desc, fs1: FS, k: Kind, emits: bool, w: Way, free: nat, r: Regs, o: Out)
    requires WF(fs, d) && NegStatic(fs, d, fs1, k, emits) && Negates(x, fs, d, fs1, k)
    requires 0 <= End(NegState(fs1, d), Desc(k, d.f, d.t)) == End(fs, d)
    requires forall j :: j in d.t || j in d.f ==> !Carries(NegState(fs1, d).code, j)
    ensures StepGood(x, fs, d, w, NegState(fs1, d), Desc(k, d.f, d.t), Invert(if emits then Emit(w) else w), free, r, o)
  {
    hide FallGood, WF, NegStatic, Negates, Without, Same, Carries, HeldBy;
    var fs2, d2 := NegState(fs1, d), Desc(k, d.f, d.t);
    if Good(x, fs, d, w, free, r, o) {
      if o.Fall? {
        NegFall(x, fs, d, fs1, k, emits, w.v, o.r);
      } else if o.pc in d.t || o.pc in d.f {
        assert o.pc in All(fs2, d2);
        Split(fs, d);
        HeldNothing(fs2.code, o.pc, o.r);
      } else {
        NegFall(x, fs, d, fs1, k, emits, w.v, o.r);
        NegLand(x, fs, d, fs1, k, emits, o.pc, o.r);
        Split(fs, d);
        if !emits {
          assert fs1.jpc == fs.jpc by { NegJpc(fs, d, fs1, k); }
        }
        assert o.pc !in d.t && o.pc !in d.f;
      }
    }
  }

  lemma NegJpc(fs: FS, d: Desc, fs1: FS, k: Kind)
    requires NegStatic(fs, d, fs1, k, false)
    ensures fs1.jpc == fs.jpc
  {
    hide KindOK;
  }

  function Negation(s: Sem, emits: bool): Sem { Negating(if emits then Emitted(s) else s) }

  lemma MeansNegation(ops: Ops, s: Sem, emits: bool, r: Regs, h: Held)
    ensures var w := Means(ops, s, r, h); Means(ops, Negation(s, emits), r, h) == Invert(if emits then Emit(w) else w)
  {
  }

  lemma NegStep(x: Ctx, fs0: FS, fs: FS, d: Desc, s: Sem, fs1: FS, k: Kind, emits: bool)
    requires Correct(x, fs0, fs, d, s) && NegStatic(fs, d, fs1, k, emits) && Negates(x, fs, d, fs1, k)
    ensures Correct(x, fs0, NegState(fs1, d), Desc(k, d.f, d.t), Negation(s, emits))
  {
    hide Correct, NegStatic, Negates, StepGood, Evolves, WF, NegState, Means;
    WellFormed(x, fs0, fs, d, s);
    var fs2, d2, s2 := NegState(fs1, d), Desc(k, d.f, d.t), Negation(s, emits);
    NegMoves(fs, d, fs1, k, emits);
    NegEnd(fs, d, fs1, k, emits);
    forall r: Regs, h: Held, o: Out
      ensures StepGood(x, fs, d, Means(x.ops, s, r, h), fs2, d2, Means(x.ops, s2, r, h), fs0.freereg, r, o)
    {
      NegGood(x, fs, d, fs1, k, emits, Means(x.ops, s, r, h), fs0.freereg, r, o);
      MeansNegation(x.ops, s, emits, r, h);
    }
    Transfer(x, fs0, fs, d, s, fs2, d2, s2);
  }

  lemma NegEnd(fs: FS, d: Desc, fs1: FS, k: Kind, emits: bool)
    requires NegStatic(fs, d, fs1, k, emits)
    ensures End(NegState(fs1, d), Desc(k, d.f, d.t)) == End(fs, d)
  {
    hide KindOK;
    WithoutLength(fs1.code, d.t, d.f);
  }

  lemma WithoutLength(code: seq<Instr>, t: seq<nat>, f: seq<nat>)
    ensures |Without(code, t, f)| == |code|
  {
  }

  // ----- the kinds of values

  lemma NegSame(x: Ctx, fs: FS, d: Desc, k: Kind)
    requires WF(fs, d) && Solid(x, d)
    requires (d.k.VFalse? && k == VTrue) || ((d.k.VTrue? || d.k.VK?) && k == VFalse)
    ensures NegStatic(fs, d, fs, k, false) && Negates(x, fs, d, fs, k)
  {
    hide Evolves, Pending;
    PendingJumps(fs.code, All(fs, d));
    EvolvesSelf(fs.code, fs.code, |fs.code|);
    EvolvesMore(fs.code, {}, fs.code, {}, |fs.code|, All(fs, d));
    assert {} + Set(All(fs, d)) == Pend(fs, d);
  }

  lemma NegInvert(x: Ctx, fs: FS, d: Desc)
    requires WF(fs, d) && d.k.VJmp?
    ensures var fs1 := fs.(code := InvertJump(fs.code, d.k.pc));
            NegStatic(fs, d, fs1, d.k, false) && Negates(x, fs, d, fs1, d.k)
  {
    hide Evolves, Pending;
    var fs1 := fs.(code := InvertJump(fs.code, d.k.pc));
    InvertStatic(fs, d, false);
    assert d.t + d.f + fs1.jpc == d.t + d.f;
    Split(fs, d);
    PendingJumps(fs.code, d.t + d.f);
    StillJumps(fs.code, Pend(fs, d), fs1.code, Set(d.t + d.f), End(fs, d), d.t + d.f);
    SamePart(fs.code, fs1.code, d.t + d.f);
    PendingMove(fs.code, d.t + d.f, fs1.code, d.t + d.f);
  }

  lemma NegEmit(x: Ctx, fs: FS, d: Desc, reg: nat)
    requires WF(fs, d) && d.k == VNonReloc(reg) && !Code(fs, Not(0, reg)).err
    ensures var fs1, k := Code(fs, Not(0, reg)), VReloc(|fs.code|);
            NegStatic(fs, d, fs1, k, true) && Negates(x, fs, d, fs1, k)
  {
    hide Evolves, Pending, Code;
    CodeStatic(fs, d, Not(0, reg));
    LoadShape(fs, Not(0, reg));
    assert d.t + d.f + [] == d.t + d.f;
  }

  lemma NegForm(fs: FS, d: Desc, fs1: FS, k: Kind, f: Form)
    requires WF(fs, d) && FormIs(fs, d, f) && !d.k.VLocal?
    requires (Literal(f) || f.AsJump?) && (fs1, k) == NotValue(fs, d)
    ensures FormIs(NegState(fs1, d), Desc(k, d.f, d.t), NotForm(f))
  {
    hide Pending, Evolves, Without;
  }

  lemma NegAbove(fs: FS, d: Desc, fs1: FS, k: Kind, emits: bool)
    requires WF(fs, d) && NegStatic(fs, d, fs1, k, emits)
    ensures End(fs, d) <= |fs1.code|
    ensures forall i :: End(fs, d) <= i < |fs1.code| ==> NegState(fs1, d).code[i] == fs1.code[i]
  {
    hide Evolves, Pending, Without, KindOK, LandAt, Ends, Untouched;
    NegParts(fs, d, fs1, k, emits);
    WithoutStatic(fs1.code, d.t, d.f, fs1.jpc, End(fs, d));
    NegKind(NegState(fs1, d).code, fs1, d, k, End(fs, d));
  }

  /** codenot. */
  lemma CodeNotCorrect(x: Ctx, fs0: FS, fs: FS, d: Desc, s: Sem, f: Form)
    requires Correct(x, fs0, fs, d, s) && Tidy(fs0.freereg, fs, d) && Solid(x, d) && !d.k.VCond? && FormIs(fs, d, f)
    requires !CodeNot(fs, d).0.err
    ensures Correct(x, fs0, CodeNot(fs, d).0, CodeNot(fs, d).1, Negation(s, !Literal(f)))
    ensures Tidy(fs0.freereg, CodeNot(fs, d).0, CodeNot(fs, d).1)
    ensures !CodeNot(fs, d).1.k.VK? && !CodeNot(fs, d).1.k.VCond? &&
      FormIs(CodeNot(fs, d).0, CodeNot(fs, d).1, NotForm(f))
  {
    hide Correct, NegStatic, Negates, Code, Discharge2AnyReg, InvertJump, RemoveValues, KindOK, Means, WF;
    var d1 := DischargeVars(d);
    DischargeVarsStep(x, fs0, fs, d, s);
    WellFormed(x, fs0, fs, d1, s);
    var (fs1, k) := NotValue(fs, d1);
    if d1.k.VFalse? || d1.k.VK? || d1.k.VTrue? {
      NegSame(x, fs, d1, k);
      NegStep(x, fs0, fs, d1, s, fs1, k, false);
      NegForm(fs, d1, fs1, k, f);
    } else if d1.k.VJmp? {
      NegInvert(x, fs, d1);
      EmittedJump(x, fs0, fs, d1, s);
      NegStep(x, fs0, fs, d1, Emitted(s), fs1, k, false);
      NegForm(fs, d1, fs1, k, f);
    } else {
      NotEmitted(x, fs0, fs, d1, s, f);
    }
    assert CodeNot(fs, d) == (NegState(fs1, d1), Desc(k, d1.f, d1.t));
  }

  lemma EmittedJump(x: Ctx, fs0: FS, fs: FS, d: Desc, s: Sem)
    requires Correct(x, fs0, fs, d, s) && d.k.VJmp?
    ensures Correct(x, fs0, fs, d, Emitted(s))
  {
    WellFormed(x, fs0, fs, d, s);
    assert fs.jpc == [];
    hide Correct;
    EmittedPlain(x, fs0, fs, d, s);
  }

  /** codenot on a value that needs an instruction. */
  lemma NotEmitted(x: Ctx, fs0: FS, fs: FS, d: Desc, s: Sem, f: Form)
    requires Correct(x, fs0, fs, d, s) && Tidy(fs0.freereg, fs, d) && FormIs(fs, d, f)
    requires !Literal(f) && !f.AsJump? && !d.k.VLocal?
    requires !NotValue(fs, d).0.err
    ensures var (fs1, k) := NotValue(fs, d);
            && Correct(x, fs0, NegState(fs1, d), Desc(k, d.f, d.t), Negation(s, true))
            && Tidy(fs0.freereg, NegState(fs1, d), Desc(k, d.f, d.t))
            && FormIs(NegState(fs1, d), Desc(k, d.f, d.t), NotForm(f)) && k.VReloc?
  {
    hide Correct, NegStatic, Negates, Code, Discharge2AnyReg, KindOK, Means, WF;
    var (fs1, k) := NotValue(fs, d);
    var (fs2, d2) := Discharge2AnyReg(fs, d);
    var fs3, s2 := FreeExp(fs2, d2), AnyRegSem(s, d.k);
    var i := Not(0, if d2.k.VNonReloc? then d2.k.r else 0);
    assert fs1 == Code(fs3, i) && k == VReloc(|fs3.code|);
    FreeOnly(fs2, d2);
    assert !Code(fs3, i).err ==> !fs3.err by { CodeErr(fs3, i); }
    AnyReg(x, fs0, fs, d, s);
    WellFormed(x, fs0, fs2, d2, s2);
    assert !fs2.err by { WFErr(fs2, d2); }
    Rescale(x, fs0, fs2, d2, s2, fs3);
    WellFormed(x, fs0, fs3, d2, s2);
    NegEmit(x, fs3, d2, d2.k.r);
    NegStep(x, fs0, fs3, d2, s2, fs1, k, true);
    NegAbove(fs3, d2, fs1, k, true);
    CodeFree(fs3, i);
    assert NegState(fs1, d2) == NegState(fs1, d);
    NotForms(fs3, d2, i, k);
    forall r: Regs, h ensures Means(x.ops, Negation(s, true), r, h) == Means(x.ops, Negation(s2, true), r, h) {
      NegationAny(x.ops, s, d.k, r, h);
    }
    Equal(x, fs0, NegState(fs1, d), Desc(k, d.f, d.t), Negation(s2, true), Negation(s, true));
  }

  lemma NegationAny(ops: Ops, s: Sem, k: Kind, r: Regs, h: Held)
    ensures Means(ops, Negation(s, true), r, h) == Means(ops, Negation(AnyRegSem(s, k), true), r, h)
  {
  }

  lemma WFErr(fs: FS, d: Desc)
    requires WF(fs, d)
    ensures !fs.err
  {
  }

  lemma CodeErr(fs: FS, i: Instr)
    requires !Code(fs, i).err
    ensures !fs.err
  {
  }

  lemma NotForms(fs: FS, d: Desc, i: Instr, k: Kind)
    requires End(fs, d) == |fs.code| && i.Not? && k == VReloc(|fs.code|)
    requires forall j :: |fs.code| <= j < |Code(fs, i).code| ==> NegState(Code(fs, i), d).code[j] == Code(fs, i).code[j]
    ensures FormIs(NegState(Code(fs, i), d), Desc(k, d.f, d.t), AsNot)
  {
    hide PatchList, RemoveValues;
    WithoutLength(Code(fs, i).code, d.t, d.f);
  }

  lemma CodeFree(fs: FS, i: Instr)
    ensures Code(fs, i).freereg == fs.freereg
  {
  }
}
