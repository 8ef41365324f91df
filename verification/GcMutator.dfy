/** The running program as the collector sees it: allocation, barriered stores, upvalues, and their
    interleaving with collector steps. */
module GcMutator {
  import opened Wrappers
  import opened GcHeap
  import opened GcMark
  import opened GcSweep
  import opened GcInvariant
  import opened GcClose
  import opened GcSweepKeeps

  /** What happens between two observations of the heap. Addresses in New events are the ones the
      allocator returns; whatever is allocated or found is held on the running thread's stack. */
  datatype Event =
    | New(a: Addr, body: Body)
    | NewUdata(a: Addr, metatable: Option<Addr>, env: Addr)
    | NewString(a: Addr, hash: nat)
    | FindString(a: Addr)
    | StoreTable(t: Addr, body: Body, v: Value)
    | StoreObject(o: Addr, body: Body, v: Value)
    | StoreStack(th: Addr, gt: Value, stack: seq<Value>)
    | SetOpenUpval(uv: Addr, v: Value)
    | Capture(a: Addr, level: nat)
    | CloseFrom(level: nat)
    | Resume(th: Addr)
    | SetMetatable(i: nat, mt: Option<Addr>)
    | Step

  // ----- the events as functions

  /** The running thread holds v. */
  function Push(s: State, v: Value): State {
    if !IsThread(s.heap, s.running) then s
    else
      var t := s.heap[s.running].body;
      s.(heap := SetBody(s.heap, s.running, t.(stack := t.stack + [v])))
  }

  function Insert(s: State, a: Addr, body: Body): State {
    s.(heap := s.heap[a := Obj(White(s.white), false, body)])
  }

  function IndexOf(l: seq<Addr>, a: Addr): (i: nat)
    ensures i <= |l| && (a in l ==> i < |l| && l[i] == a)
  {
    if l == [] then 0 else if l[0] == a then 0 else 1 + IndexOf(l[1..], a)
  }

  /** luaS_newudata chains userdata after the main thread. */
  function LinkAfterMain(s: State, a: Addr): State {
    var i := IndexOf(s.rootgc, s.mainthread);
    if i >= |s.rootgc| then s
    else s.(rootgc := s.rootgc[..i+1] + [a] + s.rootgc[i+1..],
            sweepgc := if s.sweepgc <= i + 1 then s.sweepgc else s.sweepgc + 1)
  }

  function LinkString(s: State, a: Addr, hash: nat): State {
    if s.strt == [] then s
    else var i := hash % |s.strt|; s.(strt := s.strt[i := [a] + s.strt[i]])
  }

  /** changewhite on an object that is still waiting for the sweep. */
  function Resurrect(s: State, a: Addr): State {
    if OtherWhite(s, a) then s.(heap := SetMark(s.heap, a, White(s.white))) else s
  }

  /** Where luaF_findupval stops in the list of open upvalues: at the first below or at the level. */
  function FindPos(h: Heap, l: seq<Addr>, level: nat): (i: nat)
    ensures i <= |l|
  {
    if l == [] || Level(h, l[0]) <= level then 0 else 1 + FindPos(h, l[1..], level)
  }

  /** A new open upvalue at position i of the running thread's list and at the head of the ring. */
  function NewUpval(s: State, a: Addr, level: nat, i: nat): State
    requires IsThread(s.heap, s.running) && i <= |s.heap[s.running].body.openupval|
  {
    var t := s.heap[s.running].body;
    var h := SetBody(s.heap, s.running, t.(openupval := t.openupval[..i] + [a] + t.openupval[i..]));
    s.(heap := h[a := Obj(White(s.white), false, UpOpen(s.running, level))], uvhead := [a] + s.uvhead)
  }

  /** luaF_findupval: the upvalue that shares the slot, resurrected if it is dead, or a new one. */
  function FindUpval(s: State, level: nat, a: Addr): (State, Addr)
    requires IsThread(s.heap, s.running)
  {
    var l := s.heap[s.running].body.openupval;
    var i := FindPos(s.heap, l, level);
    if i < |l| && Level(s.heap, l[i]) == level then (Resurrect(s, l[i]), l[i])
    else (NewUpval(s, a, level, i), a)
  }

  function Store(s: State, o: Addr, body: Body): State
    requires o in s.heap
  {
    s.(heap := SetBody(s.heap, o, body))
  }

  function Apply(s: State, e: Event): State
    requires Legal(s, e)
  {
    match e
    case New(a, body) => Push(Link(Insert(s, a, body), a), Ref(a))
    case NewUdata(a, mt, env) => Push(LinkAfterMain(Insert(s, a, Udata(mt, env)), a), Ref(a))
    case NewString(a, hash) => Push(LinkString(Insert(s, a, Str(hash)), a, hash), Ref(a))
    case FindString(a) => Push(Resurrect(s, a), Ref(a))
    case StoreTable(t, body, v) => BarrierT(Store(s, t, body), t, v)
    case StoreObject(o, body, v) => Barrier(Store(s, o, body), o, v)
    case StoreStack(th, gt, stack) => Store(s, th, s.heap[th].body.(gt := gt, stack := stack))
    case SetOpenUpval(uv, v) =>
      var th, level := s.heap[uv].body.thread, s.heap[uv].body.level;
      var t := s.heap[th].body;
      Barrier(Store(s, th, t.(stack := t.stack[level := v])), uv, v)
    case Capture(a, level) => var (r, uv) := FindUpval(s, level, a); Push(r, Ref(uv))
    case CloseFrom(level) => Close(s, s.running, level)
    case Resume(th) => s.(running := th)
    case SetMetatable(i, mt) => s.(mt := s.mt[i := mt])
    case Step => SingleStep(s)
  }

  // ----- what the program may do: it only touches what it can reach

  ghost predicate Holds(s: State, v: Value) {
    v.Ref? ==> Reachable(s, v.addr)
  }

  /** The body a store leaves refers to nothing new but v. */
  ghost predicate AddsOnly(old_: Body, new_: Body, v: Value) {
    forall c :: c in BodyRefs(new_) ==> c in BodyRefs(old_) || v == Ref(c)
  }

  ghost predicate Legal(s: State, e: Event) {
    && IsThread(s.heap, s.running) && IsThread(s.heap, s.mainthread)
    && match e
       case New(a, body) =>
         && a !in s.heap && !body.Str? && !body.UpOpen? && !body.Udata?
         && (body.Thread? ==> body.openupval == [])
         && (forall c :: c in BodyRefs(body) ==> Reachable(s, c))
       case NewUdata(a, mt, env) =>
         a !in s.heap && forall c :: c in BodyRefs(Udata(mt, env)) ==> Reachable(s, c)
       case NewString(a, _) => a !in s.heap
       case FindString(a) => a in s.heap && s.heap[a].body.Str?
       case StoreTable(t, body, v) =>
         && t in s.heap && Reachable(s, t) && s.heap[t].body.Table? && body.Table?
         && Holds(s, v) && AddsOnly(s.heap[t].body, body, v)
       case StoreObject(o, body, v) =>
         && o in s.heap && Reachable(s, o) && SameShape(s.heap[o].body, body)
         && Holds(s, v) && AddsOnly(s.heap[o].body, body, v)
       case StoreStack(th, gt, stack) =>
         && IsThread(s.heap, th) && Reachable(s, th)
         && Holds(s, gt) && (forall v :: v in stack ==> Holds(s, v))
         && (forall uv :: uv in s.heap[th].body.openupval ==> Level(s.heap, uv) < |stack|)
       case SetOpenUpval(uv, v) =>
         uv in s.heap && Reachable(s, uv) && s.heap[uv].body.UpOpen? && Holds(s, v)
         && OpenOn(s.heap, uv, s.heap[uv].body.thread)
       case Capture(a, level) => a !in s.heap && level < |s.heap[s.running].body.stack|
       case CloseFrom(_) => true
       case Resume(th) => IsThread(s.heap, th) && Reachable(s, th)
       case SetMetatable(i, mt) => i < |s.mt| && (mt.Some? ==> Reachable(s, mt.value))
       case Step =>
         && (s.phase == Propagate ==> Queued(s))
         && (s.phase == SweepString ==> s.sweepstr < |s.strt|)
  }

  /** Stores that the forward barrier guards: userdata, closed upvalues, closures and prototypes. */
  predicate SameShape(b: Body, c: Body) {
    || (b.Udata? && c.Udata?) || (b.UpClosed? && c.UpClosed?) || (b.CClosure? && c.CClosure?)
    || (b.LClosure? && c.LClosure?) || (b.Proto? && c.Proto?)
  }
}
