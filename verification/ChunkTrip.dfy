/** Reading back what was written: which functions survive the round trip, and what they become. */
module ChunkTrip {
  import opened Wrappers
  import opened Prototypes
  import opened ChunkFormat
  import Checker

  // ----- words

  lemma WordTrip(n: nat)
    requires n < 0x1_0000_0000
    ensures WordAt(PutWord(n)) == n
  {
    var q1, q2, q3 := n / 0x100, n / 0x1_0000, n / 0x100_0000;
    assert q2 == q1 / 0x100;
    assert q3 == q2 / 0x100;
    assert n == 0x100 * q1 + n % 0x100;
    assert q1 == 0x100 * q2 + q1 % 0x100;
    assert q2 == 0x100 * q3 + q2 % 0x100;
  }

  lemma IntTrip(i: Int32)
    ensures IntAt(PutInt(i)) == i
  {
    WordTrip(if i < 0 then i + 0x1_0000_0000 else i);
  }

  lemma GetWordTrip(w: Word, rest: seq<Byte>)
    ensures GetWord(PutWord(w) + rest) == Success((w, rest))
  {
    WordTrip(w);
    assert (PutWord(w) + rest)[..4] == PutWord(w) && (PutWord(w) + rest)[4..] == rest;
  }

  lemma GetRawIntTrip(i: Int32, rest: seq<Byte>)
    ensures GetRawInt(PutInt(i) + rest) == Success((i, rest))
  {
    IntTrip(i);
    assert (PutInt(i) + rest)[..4] == PutInt(i) && (PutInt(i) + rest)[4..] == rest;
  }

  lemma GetIntTrip(i: Int32, rest: seq<Byte>)
    ensures GetInt(PutInt(i) + rest) == if i < 0 then Failure(BadInteger) else Success((i, rest))
  {
    IntTrip(i);
    assert (PutInt(i) + rest)[..4] == PutInt(i) && (PutInt(i) + rest)[4..] == rest;
  }

  // ----- strings

  /** The size of the string with its zero fits a size_t. */
  predicate StringFits(s: Option<seq<Byte>>) { s.Some? ==> |s.value| + 1 < 0x1_0000_0000 }

  lemma StringTrip(s: Option<seq<Byte>>, rest: seq<Byte>)
    requires StringFits(s)
    ensures GetString(PutString(s) + rest) == Success((s, rest))
  {
    if s.None? {
      GetWordTrip(0, rest);
    } else {
      var t := s.value + [0];
      GetWordTrip(|t|, t + rest);
      assert PutString(s) + rest == PutWord(|t|) + (t + rest);
      assert (t + rest)[..|t|] == t && (t + rest)[|t|..] == rest && t[..|t| - 1] == s.value;
    }
  }

  predicate ConstFits(c: Const) { c.KStr? ==> StringFits(c.s) }

  lemma ConstTrip(c: Const, rest: seq<Byte>)
    requires ConstFits(c)
    ensures GetConst(PutConst(c) + rest) == Success((c, rest))
  {
    match c
    case KNil => assert (PutConst(c) + rest)[1..] == rest;
    case KBool(b) => assert (PutConst(c) + rest)[1..][1..] == rest;
    case KNum(bits) =>
      assert (PutConst(c) + rest)[1..] == bits + rest;
      assert (bits + rest)[..8] == bits && (bits + rest)[8..] == rest;
    case KStr(s) =>
      assert (PutConst(c) + rest)[1..] == PutString(s) + rest;
      StringTrip(s, rest);
  }

  predicate LocVarFits(v: LocVar) { StringFits(v.varname) }

  predicate LocVarReads(v: LocVar) { v.startpc >= 0 && v.endpc >= 0 }

  lemma LocVarTrip(v: LocVar, rest: seq<Byte>)
    requires LocVarFits(v)
    ensures LocVarReads(v) ==> GetLocVar(PutLocVar(v) + rest) == Success((v, rest))
    ensures !LocVarReads(v) ==> GetLocVar(PutLocVar(v) + rest).Failure?
  {
    var b1 := PutInt(v.startpc) + (PutInt(v.endpc) + rest);
    assert PutLocVar(v) + rest == PutString(v.varname) + b1;
    StringTrip(v.varname, b1);
    GetIntTrip(v.startpc, PutInt(v.endpc) + rest);
    GetIntTrip(v.endpc, rest);
  }

  // ----- vectors

  /** Whatever follows, the element comes back if it can be read, and is an error otherwise. */
  ghost predicate Trips<T>(x: T, put: T -> seq<Byte>, get: seq<Byte> -> Got<T>, readable: bool) {
    forall rest: seq<Byte> :: if readable then get(put(x) + rest) == Success((x, rest)) else get(put(x) + rest).Failure?
  }

  predicate All<T>(xs: seq<T>, p: T -> bool) { forall i :: 0 <= i < |xs| ==> p(xs[i]) }

  lemma {:induction false} ManyTrip<T(!new)>(xs: seq<T>, put: T -> seq<Byte>, get: seq<Byte> -> Got<T>,
                                             readable: T -> bool, rest: seq<Byte>)
    requires forall i :: 0 <= i < |xs| ==> Trips(xs[i], put, get, readable(xs[i]))
    ensures if All(xs, readable) then GetMany(PutAll(xs, put) + rest, |xs|, get) == Success((xs, rest))
            else GetMany(PutAll(xs, put) + rest, |xs|, get).Failure?
  {
    if xs == [] {
      assert [] + rest == rest;
    } else {
      var init, last := xs[..|xs| - 1], xs[|xs| - 1];
      forall i | 0 <= i < |init| ensures Trips(init[i], put, get, readable(init[i])) {
        assert init[i] == xs[i];
      }
      ManyTrip(init, put, get, readable, put(last) + rest);
      assert PutAll(xs, put) + rest == PutAll(init, put) + (put(last) + rest);
      assert init + [last] == xs;
      assert Trips(last, put, get, readable(last));
      if All(init, readable) {
        assert All(xs, readable) <==> readable(last) by {
          if readable(last) {
            forall i | 0 <= i < |xs| ensures readable(xs[i]) { if i < |init| { assert readable(init[i]); } }
          }
        }
      } else if All(xs, readable) {
        forall i | 0 <= i < |init| ensures readable(init[i]) { assert init[i] == xs[i]; }
      }
    }
  }

  lemma VectorTrip<T(!new)>(xs: seq<T>, size: nat, put: T -> seq<Byte>, get: seq<Byte> -> Got<T>, readable: T -> bool,
                     rest: seq<Byte>)
    requires 4 <= size && |xs| + 1 <= MAX_SIZET / size
    requires forall i :: 0 <= i < |xs| ==> Trips(xs[i], put, get, readable(xs[i]))
    ensures if All(xs, readable) then GetVector(PutVector(xs, put) + rest, size, get) == Success((xs, rest))
            else GetVector(PutVector(xs, put) + rest, size, get).Failure?
  {
    CountFits(|xs|, size);
    GetIntTrip(|xs|, PutAll(xs, put) + rest);
    assert PutVector(xs, put) + rest == PutInt(|xs|) + (PutAll(xs, put) + rest);
    ManyTrip(xs, put, get, readable, rest);
  }

  lemma CountFits(n: nat, size: nat)
    requires 4 <= size && n + 1 <= MAX_SIZET / size
    ensures n < 0x8000_0000
  {
    assert MAX_SIZET / size <= MAX_SIZET / 4;
  }

  // ----- functions

  /** The vectors and strings of a function are ones that the allocator can have made. */
  predicate Storable(f: Proto)
    decreases f
  {
    && StringFits(f.source)
    && |f.code| + 1 <= MAX_SIZET / 4
    && |f.k| + 1 <= MAX_SIZET / 16 && All(f.k, ConstFits)
    && |f.p| + 1 <= MAX_SIZET / 4 && (forall i :: 0 <= i < |f.p| ==> Storable(f.p[i]))
    && |f.lineinfo| + 1 <= MAX_SIZET / 4
    && |f.locvars| + 1 <= MAX_SIZET / 12 && All(f.locvars, LocVarFits)
    && |f.upvalues| + 1 <= MAX_SIZET / 4 && All(f.upvalues, StringFits)
  }

  /** The function a chunk gives back: sources left out come from the function around it. */
  function Loaded(f: Proto, dumpedIn: Option<seq<Byte>>, loadedIn: Option<seq<Byte>>, strip: bool): Proto
    decreases f, |f.p| + 1
  {
    var source := SourceRead(f, dumpedIn, loadedIn, strip);
    Shown(f, strip).(source := source, p := LoadedChildren(f, |f.p|, source, strip))
  }

  function SourceRead(f: Proto, dumpedIn: Option<seq<Byte>>, loadedIn: Option<seq<Byte>>,
                      strip: bool): Option<seq<Byte>> {
    if SourceToPut(f, dumpedIn, strip).None? then loadedIn else SourceToPut(f, dumpedIn, strip)
  }

  function LoadedChildren(f: Proto, n: nat, source: Option<seq<Byte>>, strip: bool): (ps: seq<Proto>)
    requires n <= |f.p|
    ensures |ps| == n && forall i :: 0 <= i < n ==> ps[i] == Loaded(f.p[i], f.source, source, strip)
    decreases f, n
  {
    if n == 0 then [] else LoadedChildren(f, n - 1, source, strip) + [Loaded(f.p[n - 1], f.source, source, strip)]
  }

  /** What a caller can check before dumping: nesting, lines and positions that are not negative, and the checker. */
  predicate Loadable(f: Proto, strip: bool, calls: nat)
    decreases f, |f.p| + 1
  {
    && calls + 1 <= MAXCCALLS
    && f.linedefined >= 0 && f.lastlinedefined >= 0
    && (strip || All(f.locvars, LocVarReads))
    && ChildrenLoadable(f, |f.p|, strip, calls + 1)
    && Checker.Accepts(Shown(f, strip))
  }

  predicate ChildrenLoadable(f: Proto, n: nat, strip: bool, calls: nat)
    requires n <= |f.p|
    decreases f, n
  {
    n > 0 ==> ChildrenLoadable(f, n - 1, strip, calls) && Loadable(f.p[n - 1], strip, calls)
  }

  lemma HeadTrip(f: Proto, parent: Option<seq<Byte>>, strip: bool, rest: seq<Byte>)
    requires StringFits(f.source)
    ensures var r := GetHead(PutHead(f, parent, strip) + rest);
            if f.linedefined >= 0 && f.lastlinedefined >= 0 then
              r == Success((Head(SourceToPut(f, parent, strip), f.linedefined, f.lastlinedefined,
                                 [f.nups, f.numparams, f.isVararg, f.maxstacksize]), rest))
            else r.Failure?
  {
    var bytes := [f.nups, f.numparams, f.isVararg, f.maxstacksize];
    var b3 := bytes + rest;
    var b2 := PutInt(f.lastlinedefined) + b3;
    var b1 := PutInt(f.linedefined) + b2;
    assert PutHead(f, parent, strip) + rest == PutString(SourceToPut(f, parent, strip)) + b1;
    StringTrip(SourceToPut(f, parent, strip), b1);
    GetIntTrip(f.linedefined, b2);
    GetIntTrip(f.lastlinedefined, b3);
    assert b3[..4] == bytes && b3[4..] == rest;
  }

  lemma CodeTrip(code: seq<Word>, rest: seq<Byte>)
    requires |code| + 1 <= MAX_SIZET / 4
    ensures GetVector(PutVector(code, PutInstruction) + rest, 4, GetWord) == Success((code, rest))
  {
    forall i | 0 <= i < |code| ensures Trips(code[i], PutInstruction, GetWord, true) {
      forall rest: seq<Byte> { GetWordTrip(code[i], rest); }
    }
    VectorTrip(code, 4, PutInstruction, GetWord, _ => true, rest);
  }

  lemma ConstantsTrip(k: seq<Const>, rest: seq<Byte>)
    requires |k| + 1 <= MAX_SIZET / 16 && All(k, ConstFits)
    ensures GetVector(PutVector(k, PutConst) + rest, 16, GetConst) == Success((k, rest))
  {
    forall i | 0 <= i < |k| ensures Trips(k[i], PutConst, GetConst, true) {
      forall rest: seq<Byte> { ConstTrip(k[i], rest); }
    }
    VectorTrip(k, 16, PutConst, GetConst, _ => true, rest);
  }

  lemma LineInfoTrip(lines: seq<Int32>, rest: seq<Byte>)
    requires |lines| + 1 <= MAX_SIZET / 4
    ensures GetVector(PutVector(lines, PutInt) + rest, 4, GetRawInt) == Success((lines, rest))
  {
    forall i | 0 <= i < |lines| ensures Trips(lines[i], PutInt, GetRawInt, true) {
      forall rest: seq<Byte> { GetRawIntTrip(lines[i], rest); }
    }
    VectorTrip(lines, 4, PutInt, GetRawInt, _ => true, rest);
  }

  lemma LocVarsTrip(vars: seq<LocVar>, rest: seq<Byte>)
    requires |vars| + 1 <= MAX_SIZET / 12 && All(vars, LocVarFits)
    ensures if All(vars, LocVarReads) then
      GetVector(PutVector(vars, PutLocVar) + rest, 12, GetLocVar) == Success((vars, rest))
            else GetVector(PutVector(vars, PutLocVar) + rest, 12, GetLocVar).Failure?
  {
    forall i | 0 <= i < |vars| ensures Trips(vars[i], PutLocVar, GetLocVar, LocVarReads(vars[i])) {
      forall rest: seq<Byte> { LocVarTrip(vars[i], rest); }
    }
    VectorTrip(vars, 12, PutLocVar, GetLocVar, LocVarReads, rest);
  }

  lemma UpvaluesTrip(names: seq<Option<seq<Byte>>>, rest: seq<Byte>)
    requires |names| + 1 <= MAX_SIZET / 4 && All(names, StringFits)
    ensures GetVector(PutVector(names, PutString) + rest, 4, GetString) == Success((names, rest))
  {
    forall i | 0 <= i < |names| ensures Trips(names[i], PutString, GetString, true) {
      forall rest: seq<Byte> { StringTrip(names[i], rest); }
    }
    VectorTrip(names, 4, PutString, GetString, _ => true, rest);
  }

  lemma DebugTrip(f: Proto, rest: seq<Byte>)
    requires |f.lineinfo| + 1 <= MAX_SIZET / 4
    requires |f.locvars| + 1 <= MAX_SIZET / 12 && All(f.locvars, LocVarFits)
    requires |f.upvalues| + 1 <= MAX_SIZET / 4 && All(f.upvalues, StringFits)
    ensures if All(f.locvars, LocVarReads) then
              GetDebug(PutDebug(f) + rest) == Success((Debug(f.lineinfo, f.locvars, f.upvalues), rest))
            else GetDebug(PutDebug(f) + rest).Failure?
  {
    hide GetVector, PutVector;
    var b2 := PutVector(f.upvalues, PutString) + rest;
    var b1 := PutVector(f.locvars, PutLocVar) + b2;
    assert PutDebug(f) + rest == PutVector(f.lineinfo, PutInt) + b1;
    LineInfoTrip(f.lineinfo, b1);
    LocVarsTrip(f.locvars, b2);
    UpvaluesTrip(f.upvalues, rest);
  }

  // ----- the checker sees the same function

  /** What the checker looks at in the code. */
  predicate SameCode(f: Proto, g: Proto) {
    && f.code == g.code && f.k == g.k && f.nups == g.nups && f.numparams == g.numparams && f.isVararg == g.isVararg
    && f.maxstacksize == g.maxstacksize && |f.p| == |g.p| && (forall i :: 0 <= i < |f.p| ==> f.p[i].nups == g.p[i].nups)
  }

  predicate SameForChecker(f: Proto, g: Proto) {
    SameCode(f, g) && |f.upvalues| == |g.upvalues| && |f.lineinfo| == |g.lineinfo|
  }

  lemma PseudoSame(f: Proto, g: Proto, pc: nat, nup: nat)
    requires SameCode(f, g) && pc + nup < |f.code|
    ensures Checker.PseudoOK(f, pc, nup) <==> Checker.PseudoOK(g, pc, nup)
  {
    if Checker.PseudoOK(f, pc, nup) {
      forall q: nat | pc < q <= pc + nup ensures Checker.Captures(g, q) { assert Checker.Captures(f, q); }
    }
    if Checker.PseudoOK(g, pc, nup) {
      forall q: nat | pc < q <= pc + nup ensures Checker.Captures(f, q) { assert Checker.Captures(g, q); }
    }
  }

  lemma FormatSame(f: Proto, g: Proto, pc: nat)
    requires SameCode(f, g) && pc < |f.code|
    ensures Checker.FormatOK(f, pc) <==> Checker.FormatOK(g, pc)
  {
  }

  lemma OpcodeSame(f: Proto, g: Proto, pc: nat)
    requires SameCode(f, g) && pc < |f.code| && Checker.FormatOK(f, pc) && Checker.FormatOK(g, pc)
    requires Op(f.code[pc]) != OP_RETURN ==> pc + 1 < |f.code|
    ensures Checker.OpcodeOK(f, pc) <==> Checker.OpcodeOK(g, pc)
  {
    hide Checker.FormatOK, Checker.PseudoOK, Checker.OpenOK, Checker.TakesWord, Checker.Bit, Op, A, B, C, Bx, SBx;
    var w := f.code[pc];
    if Op(w) == OP_CLOSURE && Bx(w) < |f.p| && pc + f.p[Bx(w)].nups < |f.code| {
      PseudoSame(f, g, pc, f.p[Bx(w)].nups);
    }
  }

  lemma InstrSame(f: Proto, g: Proto, pc: nat)
    requires SameCode(f, g) && pc < |f.code| && Op(f.code[|f.code| - 1]) == OP_RETURN
    ensures Checker.InstrOK(f, pc) <==> Checker.InstrOK(g, pc)
  {
    hide Checker.FormatOK, Checker.OpcodeOK;
    FormatSame(f, g, pc);
    if Checker.FormatOK(f, pc) { OpcodeSame(f, g, pc); }
  }

  lemma AcceptsSame(f: Proto, g: Proto)
    requires SameForChecker(f, g)
    ensures Checker.Accepts(f) <==> Checker.Accepts(g)
  {
    hide Checker.InstrOK, Checker.Real;
    if Checker.PreCheck(f) {
      forall pc: nat | pc < |f.code| ensures Checker.InstrOK(f, pc) <==> Checker.InstrOK(g, pc) { InstrSame(f, g, pc); }
    }
  }

  /** A stripped function passes the checker if the whole one does. */
  lemma AcceptsBare(f: Proto)
    requires Checker.Accepts(f)
    ensures Checker.Accepts(Bare(f))
  {
    var g := Bare(f);
    hide Checker.InstrOK, Checker.Real;
    forall pc: nat | pc < |f.code| ensures Checker.InstrOK(f, pc) <==> Checker.InstrOK(g, pc) { InstrSame(f, g, pc); }
  }

  // ----- functions

  lemma {:induction false} ChildrenTrip(f: Proto, n: nat, source: Option<seq<Byte>>, strip: bool, calls: nat,
                                        rest: seq<Byte>)
    requires calls <= MAXCCALLS && n <= |f.p| && forall i :: 0 <= i < |f.p| ==> Storable(f.p[i])
    ensures var r := GetChildren(PutChildren(f, n, strip) + rest, n, source, calls);
            if ChildrenLoadable(f, n, strip, calls) then r == Success((LoadedChildren(f, n, source, strip), rest))
              else r.Failure?
    decreases f, n, 0
  {
    hide PutFunction, GetFunction, Loaded, Loadable, Storable;
    if n == 0 {
      assert PutChildren(f, n, strip) + rest == rest;
    } else {
      var last := PutFunction(f.p[n - 1], f.source, strip);
      ChildrenTrip(f, n - 1, source, strip, calls, last + rest);
      assert PutChildren(f, n, strip) + rest == PutChildren(f, n - 1, strip) + (last + rest);
      FunctionTrip(f.p[n - 1], f.source, source, strip, calls, rest);
    }
  }

  lemma InnerTrip(f: Proto, source: Option<seq<Byte>>, strip: bool, calls: nat, rest: seq<Byte>)
    requires calls <= MAXCCALLS && |f.p| + 1 <= MAX_SIZET / 4 && forall i :: 0 <= i < |f.p| ==> Storable(f.p[i])
    ensures var r := GetInner(PutCount(|f.p|) + (PutChildren(f, |f.p|, strip) + rest), source, calls);
            if ChildrenLoadable(f, |f.p|, strip, calls) then
              r == Success((LoadedChildren(f, |f.p|, source, strip), rest))
            else r.Failure?
    decreases f, |f.p|, 1
  {
    hide PutChildren, GetChildren, LoadedChildren, ChildrenLoadable, Storable;
    CountFits(|f.p|, 4);
    GetIntTrip(|f.p|, PutChildren(f, |f.p|, strip) + rest);
    ChildrenTrip(f, |f.p|, source, strip, calls, rest);
  }

  /** The pieces DumpFunction writes, one after the other. */
  lemma Pieces(f: Proto, dumpedIn: Option<seq<Byte>>, strip: bool, rest: seq<Byte>)
    ensures PutFunction(f, dumpedIn, strip) + rest ==
            PutHead(f, dumpedIn, strip) + (PutVector(f.code, PutInstruction) + (PutVector(f.k, PutConst)
            + (PutCount(|f.p|) + (PutChildren(f, |f.p|, strip) + (PutDebug(Shown(f, strip)) + rest)))))
  {
    hide PutHead, PutVector, PutCount, PutChildren, PutDebug;
  }

  /** LoadFunction, when its parts up to the constants can be read. */
  lemma Reads(b: seq<Byte>, parent: Option<seq<Byte>>, calls: nat, head: Head, b1: seq<Byte>, code: seq<Word>,
              b2: seq<Byte>, k: seq<Const>, b3: seq<Byte>)
    requires calls + 1 <= MAXCCALLS && GetHead(b) == Success((head, b1)) && |head.bytes| == 4
    requires GetVector(b1, 4, GetWord) == Success((code, b2)) && GetVector(b2, 16, GetConst) == Success((k, b3))
    ensures var source := if head.source.None? then parent else head.source;
            var inner := GetInner(b3, source, calls + 1);
            GetFunction(b, parent, calls) ==
              if inner.Failure? then Failure(inner.error)
              else match GetDebug(inner.value.1)
                   case Failure(e) => Failure(e)
                   case Success((d, b5)) =>
                     var f := Build(head, parent, code, k, inner.value.0, d);
                     if Checker.Accepts(f) then Success((f, b5)) else Failure(BadCode)
  {
    hide GetVector, GetHead, GetInner, GetDebug, Checker.Accepts, Build;
  }

  lemma HeadStops(b: seq<Byte>, parent: Option<seq<Byte>>, calls: nat)
    requires GetHead(b).Failure?
    ensures GetFunction(b, parent, calls).Failure?
  {
    hide GetVector, GetHead, GetInner, GetDebug, Checker.Accepts, Build;
  }

  lemma LoadedBuilt(f: Proto, dumpedIn: Option<seq<Byte>>, loadedIn: Option<seq<Byte>>, strip: bool)
    ensures var g := Shown(f, strip);
            var source := SourceRead(f, dumpedIn, loadedIn, strip);
            Loaded(f, dumpedIn, loadedIn, strip) ==
              Build(HeadOf(f, dumpedIn, strip), loadedIn, f.code, f.k, LoadedChildren(f, |f.p|, source, strip),
                    Debug(g.lineinfo, g.locvars, g.upvalues))
  {
    hide LoadedChildren;
  }

  function HeadOf(f: Proto, dumpedIn: Option<seq<Byte>>, strip: bool): Head {
    Head(SourceToPut(f, dumpedIn, strip), f.linedefined, f.lastlinedefined,
         [f.nups, f.numparams, f.isVararg, f.maxstacksize])
  }

  /** A function with a head that can be read: what remains to be checked. */
  lemma BodyTrip(f: Proto, dumpedIn: Option<seq<Byte>>, loadedIn: Option<seq<Byte>>, strip: bool, calls: nat,
                 rest: seq<Byte>)
    requires Storable(f) && calls + 1 <= MAXCCALLS && f.linedefined >= 0 && f.lastlinedefined >= 0
    ensures var r := GetFunction(PutFunction(f, dumpedIn, strip) + rest, loadedIn, calls);
            var source := SourceRead(f, dumpedIn, loadedIn, strip);
            var inner := GetInner(PutCount(|f.p|) + (PutChildren(f, |f.p|, strip) + (PutDebug(Shown(f, strip)) + rest)),
                                  source, calls + 1);
            r == if inner.Failure? then Failure(inner.error)
                 else match GetDebug(inner.value.1)
                      case Failure(e) => Failure(e)
                      case Success((d, b5)) =>
                        var g := Build(HeadOf(f, dumpedIn, strip), loadedIn, f.code, f.k, inner.value.0, d);
                        if Checker.Accepts(g) then Success((g, b5)) else Failure(BadCode)
  {
    hide GetVector, PutVector, GetHead, PutHead, GetFunction, PutFunction, PutChildren, GetInner, GetDebug, PutDebug,
         PutCount, Checker.Accepts, All, StringFits, PutWord, SourceToPut, Build;
    var b3 := PutCount(|f.p|) + (PutChildren(f, |f.p|, strip) + (PutDebug(Shown(f, strip)) + rest));
    var b2 := PutVector(f.k, PutConst) + b3;
    var b1 := PutVector(f.code, PutInstruction) + b2;
    Pieces(f, dumpedIn, strip, rest);
    HeadTrip(f, dumpedIn, strip, b1);
    CodeTrip(f.code, b2);
    ConstantsTrip(f.k, b3);
    Reads(PutHead(f, dumpedIn, strip) + b1, loadedIn, calls, HeadOf(f, dumpedIn, strip), b1, f.code, b2, f.k, b3);
  }

  lemma BadHead(f: Proto, dumpedIn: Option<seq<Byte>>, loadedIn: Option<seq<Byte>>, strip: bool, calls: nat,
                rest: seq<Byte>)
    requires Storable(f) && (f.linedefined < 0 || f.lastlinedefined < 0)
    ensures GetFunction(PutFunction(f, dumpedIn, strip) + rest, loadedIn, calls).Failure?
  {
    hide GetVector, PutVector, GetHead, PutHead, GetFunction, PutFunction, PutChildren, GetInner, GetDebug, PutDebug,
         PutCount, All;
    var b1 := PutVector(f.code, PutInstruction) + (PutVector(f.k, PutConst)
              + (PutCount(|f.p|) + (PutChildren(f, |f.p|, strip) + (PutDebug(Shown(f, strip)) + rest))));
    Pieces(f, dumpedIn, strip, rest);
    HeadTrip(f, dumpedIn, strip, b1);
    HeadStops(PutHead(f, dumpedIn, strip) + b1, loadedIn, calls);
  }

  lemma TooDeepStops(b: seq<Byte>, parent: Option<seq<Byte>>, calls: nat)
    requires calls + 1 > MAXCCALLS
    ensures GetFunction(b, parent, calls) == Failure(TooDeep)
  {
  }

  /** Reading what DumpFunction wrote succeeds exactly for loadable functions, and then gives the loaded form. */
  lemma {:induction false} FunctionTrip(f: Proto, dumpedIn: Option<seq<Byte>>, loadedIn: Option<seq<Byte>>, strip: bool,
                                  calls: nat, rest: seq<Byte>)
    requires Storable(f)
    ensures var r := GetFunction(PutFunction(f, dumpedIn, strip) + rest, loadedIn, calls);
            if Loadable(f, strip, calls) then r == Success((Loaded(f, dumpedIn, loadedIn, strip), rest)) else r.Failure?
    decreases f, |f.p| + 1
  {
    hide GetFunction, PutFunction, PutChildren, GetInner, GetDebug, PutDebug, PutCount, Checker.Accepts, All,
         LoadedChildren, ChildrenLoadable, SourceRead, Build, HeadOf, Loaded, Shown, StringFits;
    if calls + 1 > MAXCCALLS {
      TooDeepStops(PutFunction(f, dumpedIn, strip) + rest, loadedIn, calls);
    } else if f.linedefined < 0 || f.lastlinedefined < 0 {
      BadHead(f, dumpedIn, loadedIn, strip, calls, rest);
    } else {
      var source := SourceRead(f, dumpedIn, loadedIn, strip);
      InnerTrip(f, source, strip, calls + 1, PutDebug(Shown(f, strip)) + rest);
      BodyTrip(f, dumpedIn, loadedIn, strip, calls, rest);
      DebugShown(f, strip, rest);
      CheckerShown(f, dumpedIn, loadedIn, strip);
      LoadedBuilt(f, dumpedIn, loadedIn, strip);
    }
  }

  lemma DebugShown(f: Proto, strip: bool, rest: seq<Byte>)
    requires Storable(f)
    ensures var g := Shown(f, strip);
            if strip || All(f.locvars, LocVarReads) then
              GetDebug(PutDebug(g) + rest) == Success((Debug(g.lineinfo, g.locvars, g.upvalues), rest))
            else GetDebug(PutDebug(g) + rest).Failure?
  {
    DebugTrip(Shown(f, strip), rest);
  }

  lemma CheckerShown(f: Proto, dumpedIn: Option<seq<Byte>>, loadedIn: Option<seq<Byte>>, strip: bool)
    ensures Checker.Accepts(Loaded(f, dumpedIn, loadedIn, strip)) <==> Checker.Accepts(Shown(f, strip))
  {
    var g := Loaded(f, dumpedIn, loadedIn, strip);
    forall i | 0 <= i < |f.p| ensures g.p[i].nups == f.p[i].nups {
      assert g.p[i] == Loaded(f.p[i], f.source, g.source, strip);
    }
    AcceptsSame(g, Shown(f, strip));
  }

  // ----- the whole chunk

  /** Every function names its source. */
  predicate SourcesSet(f: Proto)
    decreases f
  {
    f.source.Some? && forall i :: 0 <= i < |f.p| ==> SourcesSet(f.p[i])
  }

  lemma {:induction false} LoadedSame(f: Proto, parent: Option<seq<Byte>>)
    requires SourcesSet(f)
    ensures Loaded(f, parent, parent, false) == f
    decreases f
  {
    forall i | 0 <= i < |f.p|
      ensures Loaded(f.p[i], f.source, f.source, false) == f.p[i]
    {
      LoadedSame(f.p[i], f.source);
    }
    assert Loaded(f, parent, parent, false).p == f.p;
  }

  lemma {:induction false} LoadedNamed(f: Proto, dumpedIn: Option<seq<Byte>>, loadedIn: Option<seq<Byte>>, strip: bool)
    requires loadedIn.Some?
    ensures SourcesSet(Loaded(f, dumpedIn, loadedIn, strip))
    decreases f
  {
    var g := Loaded(f, dumpedIn, loadedIn, strip);
    forall i | 0 <= i < |g.p| ensures SourcesSet(g.p[i]) { LoadedNamed(f.p[i], f.source, g.source, strip); }
  }

  /** Dumping with debug information and loading gives the same function back if and only if every function in it
      names its source; a source that is missing comes back as the enclosing one. */
  lemma SameExact(f: Proto)
    ensures Loaded(f, None, Some(UNKNOWN), false) == f <==> SourcesSet(f)
  {
    if SourcesSet(f) {
      forall i | 0 <= i < |f.p|
        ensures Loaded(f.p[i], f.source, f.source, false) == f.p[i]
      {
        LoadedSame(f.p[i], f.source);
      }
      assert Loaded(f, None, Some(UNKNOWN), false).p == f.p;
    }
    LoadedNamed(f, None, Some(UNKNOWN), false);
  }

  /** Undump inverts dump: for every function the allocator can hold, loading succeeds exactly under the conditions of
      Loadable, consumes exactly the bytes written, and gives back the function itself if its sources are set. */
  lemma ChunkRoundTrip(f: Proto, strip: bool, calls: nat, rest: seq<Byte>)
    requires Storable(f)
    ensures var r := GetChunk(PutChunk(f, strip) + rest, calls);
            if Loadable(f, strip, calls) then r == Success((Loaded(f, None, Some(UNKNOWN), strip), rest))
              else r.Failure?
    ensures Loadable(f, false, calls) && SourcesSet(f) ==>
      GetChunk(PutChunk(f, false) + rest, calls) == Success((f, rest))
  {
    SameExact(f);
    ChunkTripFor(f, strip, calls, rest);
    ChunkTripFor(f, false, calls, rest);
  }

  lemma ChunkTripFor(f: Proto, strip: bool, calls: nat, rest: seq<Byte>)
    requires Storable(f)
    ensures var r := GetChunk(PutChunk(f, strip) + rest, calls);
            if Loadable(f, strip, calls) then r == Success((Loaded(f, None, Some(UNKNOWN), strip), rest))
              else r.Failure?
  {
    hide Storable, Loadable, Loaded, GetFunction, PutFunction;
    var b := PutFunction(f, None, strip) + rest;
    assert PutChunk(f, strip) + rest == HEADER + b;
    assert (HEADER + b)[..|HEADER|] == HEADER && (HEADER + b)[|HEADER|..] == b;
    FunctionTrip(f, None, Some(UNKNOWN), strip, calls, rest);
  }
}
