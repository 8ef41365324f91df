/** Every mutator event keeps the collector invariant. */
module GcMutatorKeeps {
  import opened Wrappers
  import opened GcHeap
  import opened GcMark
  import opened GcSweep
  import opened GcInvariant
  import opened GcClose
  import opened GcSweepKeeps
  import opened GcMutator

  lemma Parts(s: State)
    requires Inv(s)
    ensures Lists(s) && Kinds(s) && Cursors(s) && Colours(s) && LiveClosed(s)
    ensures s.phase == Propagate ==> TriColour(s) && NoOtherWhite(s)
  {
  }

  lemma Whole(s: State)
    requires Lists(s) && Kinds(s) && Cursors(s) && Colours(s) && LiveClosed(s)
    requires s.phase == Propagate ==> TriColour(s)
    ensures Inv(s)
  {
  }

  // ----- writing a thread's stack

  /** t is s with another stack and global table for th; open upvalues keep their slots. */
  ghost predicate StackWritten(s: State, t: State, th: Addr) {
    && IsThread(s.heap, th) && IsThread(t.heap, th)
    && t == s.(heap := SetBody(s.heap, th, t.heap[th].body))
    && t.heap[th].body.openupval == s.heap[th].body.openupval
    && (forall uv :: uv in s.heap[th].body.openupval ==> Level(s.heap, uv) < |t.heap[th].body.stack|)
  }

  lemma StackLists(s: State, t: State, th: Addr)
    requires Lists(s) && StackWritten(s, t, th)
    ensures Lists(t)
  {
    assert RootList(t, {}) by { hide StringTable, Ring, OpenLists; }
    assert Ring(t) by { hide StringTable, RootList, OpenLists; }
    assert StringTable(t) by { hide RootList, Ring, OpenLists, Bucket; }
    hide RootList, Ring, StringTable;
    forall u | IsThread(t.heap, u) ensures OpenList(t.heap, u) {
      assert OpenList(s.heap, u);
      var l := s.heap[u].body.openupval;
      forall a | a in l ensures OpenOn(t.heap, a, u) && t.heap[a].body == s.heap[a].body {
        assert OpenOn(s.heap, a, u);
      }
      SameOpenSeq(s.heap, t.heap, l, u);
    }
  }

  lemma StackViews(s: State, t: State, th: Addr)
    requires StackWritten(s, t, th)
    ensures forall a :: a in s.heap && a != th && !(s.heap[a].body.UpOpen? && s.heap[a].body.thread == th) ==>
              View(t.heap, a) == View(s.heap, a)
  {
    forall u, level | u != th ensures Slot(s.heap, u, level) == Slot(t.heap, u, level) {}
  }

  lemma StackLive(s: State, t: State, th: Addr)
    requires LiveClosed(s) && StackWritten(s, t, th)
    requires Live(s, th) ==> forall c :: c in Edges(t.heap, th) ==> Live(s, c)
    requires forall uv, c ::
      (Live(s, uv) && s.heap[uv].body.UpOpen? && s.heap[uv].body.thread == th && c in Edges(t.heap, uv)) ==> Live(s, c)
    ensures LiveClosed(t)
  {
    StackViews(s, t, th);
    forall a ensures Live(t, a) <==> Live(s, a) {}
    assert Roots(t) == Roots(s);
    hide View, Roots, Live;
    forall a, c | Live(t, a) && c in Edges(t.heap, a) ensures Live(t, c) {
      assert a in s.heap by { LiveIn(s, a); }
      if a != th && !(s.heap[a].body.UpOpen? && s.heap[a].body.thread == th) {
        assert Edges(t.heap, a) == Edges(s.heap, a);
      }
    }
  }

  lemma LiveIn(s: State, a: Addr)
    requires Live(s, a)
    ensures a in s.heap
  {
  }

  lemma StackTriColour(s: State, t: State, th: Addr)
    requires TriColour(s) && Kinds(s) && StackWritten(s, t, th)
    ensures TriColour(t)
  {
    StackViews(s, t, th);
    hide View;
    assert GrayLists(t) && GrayQueued(t) && RootsMarked(t) by { hide BlackSettled; }
    hide GrayLists, GrayQueued, RootsMarked;
    forall a | a in t.heap && t.heap[a].mark.Black? ensures Settled(t.heap, a) {
      assert Settled(s.heap, a) && Edges(t.heap, a) == Edges(s.heap, a);
      hide Edges;
    }
  }

  lemma StackKindsColours(s: State, t: State, th: Addr)
    requires Kinds(s) && Colours(s) && Cursors(s) && StackWritten(s, t, th)
    ensures Kinds(t) && Colours(t) && Cursors(t)
  {
    hide Bucket;
    forall a ensures CurrentWhite(s, a) <==> CurrentWhite(t, a) {}
    forall a ensures OtherWhite(s, a) <==> OtherWhite(t, a) {}
  }

  lemma StackWriteKeeps(s: State, t: State, th: Addr)
    requires Inv(s) && StackWritten(s, t, th)
    requires Live(s, th) ==> forall c :: c in Edges(t.heap, th) ==> Live(s, c)
    requires forall uv, c ::
      (Live(s, uv) && s.heap[uv].body.UpOpen? && s.heap[uv].body.thread == th && c in Edges(t.heap, uv)) ==> Live(s, c)
    ensures Inv(t)
  {
    hide Inv, Edges, Live;
    Parts(s);
    hide Lists, Kinds, Cursors, Colours, LiveClosed, TriColour;
    StackLists(s, t, th);
    StackKindsColours(s, t, th);
    StackLive(s, t, th);
    if s.phase == Propagate { StackTriColour(s, t, th); }
    Whole(t);
  }

  // ----- references of a stack

  lemma ThreadEdges(h: Heap, th: Addr)
    requires IsThread(h, th)
    ensures forall c :: c in Edges(h, th) <==> Ref(c) == h[th].body.gt || Ref(c) in h[th].body.stack
  {
    ValueRefsIn(h[th].body.stack);
    hide ValueRefs;
    var b := h[th].body;
    assert Edges(h, th) == ValueRef(b.gt) + ValueRefs(b.stack);
  }

  lemma UpvalEdges(h: Heap, uv: Addr)
    requires uv in h && h[uv].body.UpOpen?
    ensures Edges(h, uv) == ValueRef(Slot(h, h[uv].body.thread, h[uv].body.level))
  {
  }

  lemma PushKeeps(s: State, v: Value)
    requires Inv(s) && (v.Ref? ==> Live(s, v.addr))
    ensures Inv(Push(s, v)) && IsThread(s.heap, s.running)
  {
    hide Inv, Edges;
    Parts(s);
    var th, t := s.running, Push(s, v);
    assert Live(s, th) by { assert th in Roots(s); }
    assert OpenList(s.heap, th);
    hide Lists, Kinds, Colours, TriColour, Roots;
    ThreadEdges(s.heap, th);
    ThreadEdges(t.heap, th);
    forall uv | uv in s.heap[th].body.openupval ensures Level(s.heap, uv) < |t.heap[th].body.stack| {
      assert OpenOn(s.heap, uv, th);
    }
    assert StackWritten(s, t, th);
    forall uv, c | Live(s, uv) && s.heap[uv].body.UpOpen? && s.heap[uv].body.thread == th && c in Edges(t.heap, uv)
      ensures Live(s, c)
    {
      UpvalEdges(t.heap, uv);
      assert Ref(c) in t.heap[th].body.stack;
    }
    forall c | c in Edges(t.heap, th) ensures Live(s, c) {
      if v != Ref(c) { assert c in Edges(s.heap, th); }
    }
    StackWriteKeeps(s, t, th);
  }

  // ----- new objects

  /** t is s with a new white object at a; besides only lists may differ, the thread's own included. */
  ghost predicate Inserted(s: State, t: State, a: Addr, body: Body) {
    && a !in s.heap && a in t.heap && t.heap[a] == Obj(White(s.white), false, body)
    && (forall x :: x != a ==> (x in t.heap <==> x in s.heap))
    && (forall x :: x in s.heap ==>
          && t.heap[x] == s.heap[x].(body := t.heap[x].body)
          && SameKind(s.heap[x].body, t.heap[x].body) && View(t.heap, x) == View(s.heap, x))
    && t == s.(heap := t.heap, rootgc := t.rootgc, strt := t.strt, uvhead := t.uvhead, sweepgc := t.sweepgc)
  }

  lemma InsertViews(h: Heap, a: Addr, o: Obj)
    requires OpenLists(h) && a !in h
    ensures forall x :: x in h ==> View(h[a := o], x) == View(h, x)
  {
    var k := h[a := o];
    forall u, level | u != a ensures Slot(h, u, level) == Slot(k, u, level) {}
  }

  lemma InsertedLive(s: State, t: State, a: Addr, body: Body)
    requires LiveClosed(s) && Inserted(s, t, a, body)
    requires forall c :: c in Edges(t.heap, a) ==> Live(s, c)
    ensures LiveClosed(t)
  {
    forall x ensures Live(t, x) <==> Live(s, x) || x == a {}
    assert Roots(t) == Roots(s);
    hide View, Roots;
    forall x, c | Live(t, x) && c in Edges(t.heap, x) ensures Live(t, c) {
      if x != a { assert Edges(t.heap, x) == Edges(s.heap, x); }
    }
  }

  lemma InsertedTriColour(s: State, t: State, a: Addr, body: Body)
    requires LiveClosed(s) && NoOtherWhite(s) && TriColour(s) && Inserted(s, t, a, body)
    ensures TriColour(t)
  {
    assert Live(s, s.mainthread) && (s.registry.Ref? ==> Live(s, s.registry.addr)) by {
      assert s.mainthread in Roots(s) && (s.registry.Ref? ==> s.registry.addr in Roots(s));
    }
    hide View, Roots;
    forall x | x in t.heap && t.heap[x].mark.Black? ensures Settled(t.heap, x) {
      assert Settled(s.heap, x) && Edges(t.heap, x) == Edges(s.heap, x);
      assert Live(s, x);
      hide Edges;
      forall c | c in Edges(t.heap, x) ensures !IsWhite(t.heap, c) { assert c in Edges(s.heap, x) && Live(s, c); }
    }
    hide LiveClosed, Settled, Edges;
    assert GrayLists(t) && GrayQueued(t) && RootsMarked(t);
  }

  lemma InsertedKinds(s: State, t: State, a: Addr, body: Body)
    requires Kinds(s) && Cursors(s) && Inserted(s, t, a, body) && t.sweepgc <= |t.rootgc|
    ensures Kinds(t) && Cursors(t)
  {
    hide View;
  }

  /** The old prefix the sweep has passed, plus possibly the new object. */
  ghost predicate PrefixGrows(s: State, t: State, a: Addr) {
    && s.sweepgc <= |s.rootgc| && t.sweepgc <= |t.rootgc|
    && (s.sweepgc == 0 ==> t.sweepgc == 0)
    && forall x :: x in t.rootgc[..t.sweepgc] ==> x in s.rootgc[..s.sweepgc] || x == a
  }

  lemma InsertedColours(s: State, t: State, a: Addr, body: Body)
    requires Colours(s) && OpenLists(s.heap) && Inserted(s, t, a, body) && PrefixGrows(s, t, a)
    requires |t.strt| == |s.strt| > 0
    ensures Colours(t)
  {
    hide Bucket, View;
    forall x | x in s.heap ensures CurrentWhite(s, x) <==> CurrentWhite(t, x) {}
    if s.phase == Sweep {
      forall i | 0 <= i < t.sweepgc ensures CurrentWhite(t, t.rootgc[i]) {
        assert t.rootgc[i] in t.rootgc[..t.sweepgc];
        if t.rootgc[i] != a {
          var j :| 0 <= j < s.sweepgc && s.rootgc[j] == t.rootgc[i];
          assert CurrentWhite(s, s.rootgc[j]);
        }
      }
      forall uv | uv in t.heap && t.heap[uv].body.UpOpen? && t.heap[uv].body.thread in t.rootgc[..t.sweepgc]
        ensures CurrentWhite(t, uv)
      {
        if uv != a { assert IsThread(s.heap, s.heap[uv].body.thread); }
      }
    }
  }

  lemma InsertedKeeps(s: State, t: State, a: Addr, body: Body)
    requires Inv(s) && Inserted(s, t, a, body) && Lists(t) && PrefixGrows(s, t, a) && |t.strt| == |s.strt|
    requires forall c :: c in Edges(t.heap, a) ==> Live(s, c)
    ensures Inv(t) && Live(t, a)
  {
    assert Live(t, a);
    hide Inv, Edges, Live;
    Parts(s);
    assert OpenLists(s.heap) && |s.strt| > 0;
    hide Lists, Kinds, Cursors, Colours, LiveClosed, TriColour, OpenLists, NoOtherWhite;
    InsertedLive(s, t, a, body);
    InsertedKinds(s, t, a, body);
    InsertedColours(s, t, a, body);
    if s.phase == Propagate { InsertedTriColour(s, t, a, body); }
    Whole(t);
  }

  lemma InsertedOpenLists(h: Heap, a: Addr, o: Obj)
    requires OpenLists(h) && a !in h && !o.body.UpOpen? && (o.body.Thread? ==> o.body.openupval == [])
    ensures OpenLists(h[a := o])
  {
    var k := h[a := o];
    forall th | IsThread(k, th) ensures OpenList(k, th) {
      if th != a {
        assert OpenList(h, th);
        forall u | u in h[th].body.openupval ensures OpenOn(k, u, th) && k[u].body == h[u].body {
          assert OpenOn(h, u, th);
        }
        SameOpenSeq(h, k, h[th].body.openupval, th);
      }
    }
  }

  /** Everything but the list a new object is linked to. */
  lemma NewListed(s: State, t: State, a: Addr, body: Body)
    requires Lists(s) && a !in s.heap && !body.Str? && !body.UpOpen? && (body.Thread? ==> body.openupval == [])
    requires t.heap == s.heap[a := Obj(White(s.white), false, body)] && t.strt == s.strt && t.uvhead == s.uvhead
    requires RootList(t, {})
    ensures Lists(t)
  {
    hide RootList;
    InsertedOpenLists(s.heap, a, Obj(White(s.white), false, body));
    assert Ring(t) by { hide OpenLists, StringTable; }
    assert StringTable(t) by { hide OpenLists, Ring, Bucket; }
  }

  lemma NewInserted(s: State, t: State, a: Addr, body: Body)
    requires OpenLists(s.heap) && a !in s.heap && t.heap == s.heap[a := Obj(White(s.white), false, body)]
    requires t == s.(heap := t.heap, rootgc := t.rootgc, strt := t.strt, uvhead := t.uvhead, sweepgc := t.sweepgc)
    ensures Inserted(s, t, a, body)
  {
    InsertViews(s.heap, a, Obj(White(s.white), false, body));
    hide OpenLists, View;
  }

  lemma LinkedRoot(s: State, t: State, a: Addr, body: Body)
    requires RootList(s, {}) && a !in s.heap && !body.Str? && !body.UpOpen? && t == Link(Insert(s, a, body), a)
    requires s.sweepgc <= |s.rootgc|
    ensures RootList(t, {}) && PrefixGrows(s, t, a)
  {
    assert a !in s.rootgc;
    if 0 < s.sweepgc { assert t.rootgc[..t.sweepgc] == [a] + s.rootgc[..s.sweepgc]; }
  }

  lemma NewEdgesLive(s: State, t: State, a: Addr, body: Body)
    requires a in t.heap && t.heap[a].body == body && !body.UpOpen?
    requires forall c :: c in BodyRefs(body) ==> Live(s, c)
    ensures forall c :: c in Edges(t.heap, a) ==> Live(s, c)
  {
    NewEdges(t, a, body);
    hide Edges, BodyRefs, Live;
  }

  lemma NewKeeps(s: State, a: Addr, body: Body)
    requires Inv(s) && a !in s.heap && !body.Str? && !body.UpOpen? && (body.Thread? ==> body.openupval == [])
    requires forall c :: c in BodyRefs(body) ==> Live(s, c)
    ensures var t := Link(Insert(s, a, body), a); Inv(t) && Live(t, a)
  {
    var t := Link(Insert(s, a, body), a);
    hide Inv, BodyRefs, Live, Kinds, Colours, LiveClosed, TriColour, OpenLists, StringTable, Ring, Inserted,
         PrefixGrows, Edges, RootList;
    Parts(s);
    LinkedRoot(s, t, a, body);
    NewListed(s, t, a, body);
    NewInserted(s, t, a, body);
    NewEdgesLive(s, t, a, body);
    hide Lists;
    InsertedKeeps(s, t, a, body);
  }

  lemma NewEdges(t: State, a: Addr, body: Body)
    requires a in t.heap && t.heap[a].body == body && !body.UpOpen?
    ensures Edges(t.heap, a) == BodyRefs(body)
  {
  }

  lemma LinkStringKeeps(s: State, a: Addr, hash: nat)
    requires Inv(s) && a !in s.heap
    ensures var t := LinkString(Insert(s, a, Str(hash)), a, hash); Inv(t) && Live(t, a)
  {
    var t := LinkString(Insert(s, a, Str(hash)), a, hash);
    hide Inv, Live, Kinds, Colours, LiveClosed, TriColour, OpenLists, StringTable, Ring, Inserted, Edges, RootList;
    Parts(s);
    LinkStringTable(s, t, a, hash);
    LinkStringRest(s, t, a, hash);
    NewInserted(s, t, a, Str(hash));
    NewEdgesLive(s, t, a, Str(hash));
    assert PrefixGrows(s, t, a);
    hide Lists;
    InsertedKeeps(s, t, a, Str(hash));
  }

  lemma LinkStringRest(s: State, t: State, a: Addr, hash: nat)
    requires Lists(s) && a !in s.heap && t == LinkString(Insert(s, a, Str(hash)), a, hash) && StringTable(t)
    ensures Lists(t)
  {
    hide StringTable;
    InsertedOpenLists(s.heap, a, Obj(White(s.white), false, Str(hash)));
    assert RootList(t, {}) by { hide OpenLists, Ring; }
    assert Ring(t) by { hide OpenLists, RootList; }
  }

  lemma LinkStringTable(s: State, t: State, a: Addr, hash: nat)
    requires StringTable(s) && a !in s.heap && t == LinkString(Insert(s, a, Str(hash)), a, hash)
    ensures StringTable(t)
  {
    var i := hash % |s.strt|;
    assert Bucket(Str(hash), |s.strt|) == i;
    assert t.strt[i] == [a] + s.strt[i];
    hide Bucket;
    assert a !in s.strt[i];
  }

  lemma LinkAfterMainKeeps(s: State, a: Addr, mt: Option<Addr>, env: Addr)
    requires Inv(s) && a !in s.heap && forall c :: c in BodyRefs(Udata(mt, env)) ==> Live(s, c)
    ensures var t := LinkAfterMain(Insert(s, a, Udata(mt, env)), a); Inv(t) && Live(t, a)
  {
    var body := Udata(mt, env);
    var t := LinkAfterMain(Insert(s, a, body), a);
    hide Inv, BodyRefs, Live, Kinds, Colours, LiveClosed, TriColour, OpenLists, StringTable, Ring, Inserted,
         PrefixGrows, Edges;
    Parts(s);
    assert s.mainthread in s.rootgc;
    hide RootList;
    AfterMainList(s, t, a, body);
    NewListed(s, t, a, body);
    NewInserted(s, t, a, body);
    NewEdgesLive(s, t, a, body);
    hide Lists;
    InsertedKeeps(s, t, a, body);
  }

  lemma InsertAt(l: seq<Addr>, i: nat, a: Addr)
    requires i <= |l| && NoDup(l) && a !in l
    ensures var m := l[..i] + [a] + l[i..];
      NoDup(m) && (forall x :: x in m <==> x in l || x == a)
  {
    var m := l[..i] + [a] + l[i..];
    assert l == l[..i] + l[i..];
    forall j, k | 0 <= j < k < |m| ensures m[j] != m[k] {
      assert j != i ==> m[j] == l[if j < i then j else j-1];
      assert k != i ==> m[k] == l[if k < i then k else k-1];
    }
  }

  lemma InsertPrefix(l: seq<Addr>, i: nat, a: Addr, n: nat, x: Addr)
    requires i <= |l| && n <= |l| && x in (l[..i] + [a] + l[i..])[..if n <= i then n else n + 1]
    ensures x in l[..n] || x == a
  {
    var m := l[..i] + [a] + l[i..];
    var k := if n <= i then n else n + 1;
    var j :| 0 <= j < k && m[j] == x;
    if j < i { assert l[..n][j] == x; }
    else if j > i { assert l[..n][j-1] == x; }
  }

  lemma AfterMainList(s: State, t: State, a: Addr, body: Body)
    requires RootList(s, {}) && a !in s.heap && s.mainthread in s.rootgc && s.sweepgc <= |s.rootgc|
    requires body.Udata? && t == LinkAfterMain(Insert(s, a, body), a)
    ensures RootList(t, {}) && PrefixGrows(s, t, a)
  {
    var i := IndexOf(s.rootgc, s.mainthread) + 1;
    assert t.rootgc == s.rootgc[..i] + [a] + s.rootgc[i..];
    assert t.sweepgc == if s.sweepgc <= i then s.sweepgc else s.sweepgc + 1;
    assert t.heap == s.heap[a := Obj(White(s.white), false, body)];
    hide LinkAfterMain, Insert;
    InsertAt(s.rootgc, i, a);
    forall x | x in t.rootgc[..t.sweepgc] ensures x in s.rootgc[..s.sweepgc] || x == a {
      InsertPrefix(s.rootgc, i, a, s.sweepgc, x);
    }
  }

  // ----- resurrecting

  /** t is s with a, which waited for the sweep, white again. */
  ghost predicate Revived(s: State, t: State, a: Addr) {
    OtherWhite(s, a) && t == s.(heap := SetMark(s.heap, a, White(s.white)))
  }

  lemma RevivedColours(s: State, t: State, a: Addr)
    requires Revived(s, t, a) && Colours(s) && |s.strt| > 0
    ensures Colours(t) && s.phase != Propagate
  {
    hide Bucket;
    forall x | CurrentWhite(s, x) ensures CurrentWhite(t, x) {}
  }

  lemma RevivedKinds(s: State, t: State, a: Addr)
    requires Revived(s, t, a) && Kinds(s) && Cursors(s)
    ensures Kinds(t) && Cursors(t)
  {
  }

  lemma RevivedLive(s: State, t: State, a: Addr)
    requires Revived(s, t, a) && LiveClosed(s) && forall c :: c in Edges(s.heap, a) ==> Live(s, c)
    ensures LiveClosed(t) && Live(t, a)
  {
    SameEdges(s.heap, t.heap);
    assert Roots(t) == Roots(s);
    forall x ensures Live(t, x) <==> Live(s, x) || x == a {}
    hide Live, Roots, Edges;
  }

  lemma ResurrectKeeps(s: State, a: Addr)
    requires Inv(s) && a in s.heap && !s.heap[a].body.Thread?
    requires forall c :: c in Edges(s.heap, a) ==> Live(s, c)
    ensures var t := Resurrect(s, a); Inv(t) && Live(t, a) && SameBodies(s.heap, t.heap)
  {
    var t := Resurrect(s, a);
    if OtherWhite(s, a) {
      hide Inv, Edges;
      Parts(s);
      SameLists(s, t);
      assert Revived(s, t, a) && |s.strt| > 0;
      hide Lists, Kinds, Colours, Cursors, LiveClosed, TriColour, Resurrect, NoOtherWhite, Live;
      RevivedColours(s, t, a);
      RevivedKinds(s, t, a);
      RevivedLive(s, t, a);
      Whole(t);
    }
  }

  // ----- stores

  /** t is s with another body for o, which is no thread and no open upvalue. */
  ghost predicate Stored(s: State, t: State, o: Addr) {
    && o in s.heap && o in t.heap && t == s.(heap := SetBody(s.heap, o, t.heap[o].body))
    && SameConstructor(s.heap[o].body, t.heap[o].body)
  }

  predicate SameConstructor(b: Body, c: Body) {
    SameShape(b, c) || (b.Table? && c.Table?)
  }

  lemma StoredLists(s: State, t: State, o: Addr)
    requires Lists(s) && Stored(s, t, o)
    ensures Lists(t)
  {
    assert RootList(t, {}) by { hide StringTable, Ring, OpenLists; }
    assert Ring(t) by { hide StringTable, RootList, OpenLists; }
    assert StringTable(t) by { hide RootList, Ring, OpenLists, Bucket; }
    hide RootList, Ring, StringTable;
    forall u | IsThread(t.heap, u) ensures OpenList(t.heap, u) {
      assert OpenList(s.heap, u);
      forall a | a in s.heap[u].body.openupval ensures OpenOn(t.heap, a, u) && t.heap[a].body == s.heap[a].body {
        assert OpenOn(s.heap, a, u);
      }
      SameOpenSeq(s.heap, t.heap, s.heap[u].body.openupval, u);
    }
  }

  lemma StoredViews(s: State, t: State, o: Addr)
    requires Stored(s, t, o)
    ensures forall a :: a != o ==> Edges(t.heap, a) == Edges(s.heap, a)
    ensures Edges(t.heap, o) == BodyRefs(t.heap[o].body) && Edges(s.heap, o) == BodyRefs(s.heap[o].body)
  {
    forall u, level ensures Slot(s.heap, u, level) == Slot(t.heap, u, level) {}
    forall a | a in s.heap && a != o ensures View(t.heap, a) == View(s.heap, a) {}
  }

  lemma StoredKinds(s: State, t: State, o: Addr)
    requires Kinds(s) && Colours(s) && Cursors(s) && Stored(s, t, o)
    ensures Kinds(t) && Colours(t) && Cursors(t)
  {
    hide Bucket;
    forall a ensures CurrentWhite(s, a) <==> CurrentWhite(t, a) {}
    forall a ensures OtherWhite(s, a) <==> OtherWhite(t, a) {}
  }

  /** The body refers to nothing new but v and objects that are live and, while marking, not white if o is black. */
  ghost predicate AddsLive(s: State, o: Addr, body: Body, v: Value)
    requires o in s.heap
  {
    forall c :: c in BodyRefs(body) ==> c in BodyRefs(s.heap[o].body) || v == Ref(c) || AddsSafely(s, o, c)
  }

  predicate AddsSafely(s: State, o: Addr, c: Addr)
    requires o in s.heap
  {
    Live(s, c) && (s.phase == Propagate && s.heap[o].mark.Black? ==> !IsWhite(s.heap, c))
  }

  lemma AddsOnlyLive(s: State, o: Addr, body: Body, v: Value)
    requires o in s.heap && AddsOnly(s.heap[o].body, body, v)
    ensures AddsLive(s, o, body, v)
  {
  }

  lemma StoredLive(s: State, t: State, o: Addr, v: Value)
    requires LiveClosed(s) && Stored(s, t, o) && Live(s, o) && (v.Ref? ==> Live(s, v.addr))
    requires AddsLive(s, o, t.heap[o].body, v)
    ensures LiveClosed(t)
  {
    StoredViews(s, t, o);
    assert Roots(t) == Roots(s);
    forall a ensures Live(s, a) <==> Live(t, a) {}
    hide Edges, BodyRefs, Live, Roots;
    forall a, c | Live(t, a) && c in Edges(t.heap, a) ensures Live(t, c) {
      if a == o && v != Ref(c) && !AddsSafely(s, o, c) { assert c in Edges(s.heap, o); }
    }
  }

  /** Before the barrier only the object stored into may break the tri-colour invariant. */
  lemma StoredBlack(s: State, t: State, o: Addr, v: Value)
    requires TriColour(s) && s.phase == Propagate && Stored(s, t, o) && AddsLive(s, o, t.heap[o].body, v)
    ensures GrayLists(t) && GrayQueued(t) && RootsMarked(t)
    ensures forall a :: a in t.heap && a != o && t.heap[a].mark.Black? ==> Settled(t.heap, a)
    ensures t.heap[o].mark.Black? && !(v.Ref? && IsWhite(t.heap, v.addr)) ==> Settled(t.heap, o)
  {
    StoredViews(s, t, o);
    forall a ensures IsWhite(s.heap, a) <==> IsWhite(t.heap, a) {}
    hide Edges, BodyRefs, IsWhite, Live;
    forall a | a in t.heap && t.heap[a].mark.Black? && (a == o ==> !(v.Ref? && IsWhite(t.heap, v.addr)))
      ensures Settled(t.heap, a)
    {
      assert Settled(s.heap, a);
      forall c | c in Edges(t.heap, a) ensures !IsWhite(t.heap, c) {
        if a == o && v != Ref(c) && !AddsSafely(s, o, c) { assert c in Edges(s.heap, o); }
      }
    }
  }

  /** The state between a store and its barrier. */
  ghost predicate HalfStored(s: State, t: State, o: Addr, v: Value) {
    && Stored(s, t, o) && Live(s, o) && (v.Ref? ==> Live(s, v.addr))
    && AddsLive(s, o, t.heap[o].body, v)
  }

  lemma HalfStoredParts(s: State, t: State, o: Addr, v: Value)
    requires Inv(s) && HalfStored(s, t, o, v)
    ensures Lists(t) && Kinds(t) && Cursors(t) && Colours(t) && LiveClosed(t) && t.phase == s.phase
    ensures o in t.heap && (v.Ref? ==> v.addr in t.heap)
    ensures s.phase == Propagate ==>
      && NoOtherWhite(t) && GrayLists(t) && GrayQueued(t) && RootsMarked(t)
      && (forall a :: a in t.heap && a != o && t.heap[a].mark.Black? ==> Settled(t.heap, a))
      && (t.heap[o].mark.Black? && !(v.Ref? && IsWhite(t.heap, v.addr)) ==> Settled(t.heap, o))
      && (t.heap[o].mark.Black? ==>
            forall c :: c in Edges(t.heap, o) ==> c in Edges(s.heap, o) || v == Ref(c) || !IsWhite(s.heap, c))
      && (t.heap[o].mark.Black? ==> Settled(s.heap, o))
  {
    hide Inv, Live;
    Parts(s);
    StoredViews(s, t, o);
    hide Lists, Kinds, Cursors, Colours, LiveClosed, Edges, BodyRefs, GrayLists, GrayQueued, RootsMarked, NoOtherWhite;
    StoredLists(s, t, o);
    StoredKinds(s, t, o);
    StoredLive(s, t, o, v);
    if s.phase == Propagate {
      StoredBlack(s, t, o, v);
      StoredNoOther(s, t, o);
    }
    assert v.Ref? ==> v.addr in t.heap by { if v.Ref? { LiveIn(s, v.addr); } }
  }

  lemma StoredNoOther(s: State, t: State, o: Addr)
    requires NoOtherWhite(s) && Stored(s, t, o)
    ensures NoOtherWhite(t)
  {
  }

  /** A store that needs no barrier. */
  lemma StoreKeeps(s: State, t: State, o: Addr, v: Value)
    requires Inv(s) && HalfStored(s, t, o, v)
    requires !(v.Ref? && IsWhite(t.heap, v.addr) && t.heap[o].mark.Black?)
    ensures Inv(t)
  {
    hide Inv, HalfStored;
    HalfStoredParts(s, t, o, v);
    hide Lists, Kinds, Cursors, Colours, LiveClosed, Edges, Settled, GrayLists, GrayQueued, RootsMarked, NoOtherWhite;
    Whole(t);
  }

  // ----- the backward barrier

  lemma BackKeeps(s: State, t: State, o: Addr, v: Value)
    requires Inv(s) && HalfStored(s, t, o, v) && t.heap[o].body.Table? && t.heap[o].mark.Black?
    ensures var r := t.(heap := SetMark(t.heap, o, Gray), grayagain := [o] + t.grayagain); Inv(r)
  {
    var r := t.(heap := SetMark(t.heap, o, Gray), grayagain := [o] + t.grayagain);
    hide Inv, HalfStored, Lists, Edges, Kinds, Cursors, Colours, NoOtherWhite, LiveClosed, GrayLists, GrayQueued,
         RootsMarked, Settled, TriColour;
    HalfStoredParts(s, t, o, v);
    BackShape(t, r, o);
    BackMarks(t, r, o);
    RemarkedLive(t, r, o);
    if s.phase == Propagate { BackGray(t, r, o); }
    Whole(r);
  }

  lemma BackShape(t: State, r: State, o: Addr)
    requires Lists(t) && o in t.heap && t.heap[o].mark.Black?
    requires r == t.(heap := SetMark(t.heap, o, Gray), grayagain := [o] + t.grayagain)
    ensures Lists(r) && SameBodies(t.heap, r.heap) && !OtherWhite(t, o) && !OtherWhite(r, o) && Roots(r) == Roots(t)
    ensures forall a :: a in t.heap && a != o ==> r.heap[a].mark == t.heap[a].mark
  {
    hide Lists;
    SameLists(t, r);
  }

  lemma BackMarks(t: State, r: State, o: Addr)
    requires Kinds(t) && Colours(t) && Cursors(t) && o in t.heap && t.heap[o].body.Table? && t.heap[o].mark.Black?
    requires r == t.(heap := SetMark(t.heap, o, Gray), grayagain := [o] + t.grayagain)
    ensures Kinds(r) && Colours(r) && Cursors(r)
  {
    hide Bucket;
    forall a | CurrentWhite(t, a) ensures CurrentWhite(r, a) {}
  }

  lemma RemarkedLive(t: State, r: State, o: Addr)
    requires LiveClosed(t) && SameBodies(t.heap, r.heap) && Roots(r) == Roots(t) && r.white == t.white
    requires o in t.heap && (forall a :: a in t.heap && a != o ==> r.heap[a].mark == t.heap[a].mark)
    requires !OtherWhite(t, o) && !OtherWhite(r, o)
    ensures LiveClosed(r)
  {
    SameEdges(t.heap, r.heap);
    forall a ensures Live(t, a) <==> Live(r, a) {}
    hide Edges, Live, Roots;
  }

  lemma BackGray(t: State, r: State, o: Addr)
    requires GrayLists(t) && GrayQueued(t) && RootsMarked(t) && o in t.heap
    requires t.heap[o].body.Table? && t.heap[o].mark.Black?
    requires r == t.(heap := SetMark(t.heap, o, Gray), grayagain := [o] + t.grayagain)
    requires forall a :: a in t.heap && a != o && t.heap[a].mark.Black? ==> Settled(t.heap, a)
    ensures TriColour(r)
  {
    SameEdges(t.heap, r.heap);
    forall a ensures IsWhite(t.heap, a) <==> IsWhite(r.heap, a) {}
    forall a | Settled(t.heap, a) ensures Settled(r.heap, a) { hide Edges; }
    hide Settled, Edges;
    assert GrayLists(r) && GrayQueued(r) && RootsMarked(r) && BlackSettled(r.heap);
  }

  // ----- the forward barrier

  lemma ForwardInMark(s: State, t: State, o: Addr, v: Addr)
    requires Inv(s) && HalfStored(s, t, o, Ref(v)) && t.heap[o].mark.Black? && IsWhite(t.heap, v)
    requires s.phase == Propagate
    ensures Inv(MarkAll(t, [v]))
  {
    hide Inv, MarkAll, HalfStored, Lists, Kinds, Cursors, Colours, LiveClosed, GrayLists, GrayQueued, RootsMarked,
         NoOtherWhite;
    hide Edges, Settled, Marked, SameWhites, TriColour;
    var r := MarkAll(t, [v]);
    HalfStoredParts(s, t, o, Ref(v));
    assert o in t.heap && t.phase == s.phase && SameWhites(s.heap, t.heap) by { HalfStoredWhites(s, t, o, Ref(v)); }
    MarkAllMarks(t, [v]);
    assert v in [v];
    ForwardSettled(s, t, r, o, v);
    MarkedLists(t, r);
    MarkedRest(t, r);
    Whole(r);
  }

  lemma HalfStoredWhites(s: State, t: State, o: Addr, v: Value)
    requires HalfStored(s, t, o, v)
    ensures o in t.heap && t.phase == s.phase && SameWhites(s.heap, t.heap)
  {
    hide Edges, View;
  }

  lemma MarkedRest(t: State, r: State)
    requires Marked(t, r) && t.phase == Propagate
    requires Kinds(t) && Cursors(t) && LiveClosed(t) && NoOtherWhite(t)
    ensures Kinds(r) && Cursors(r) && LiveClosed(r) && Colours(r) && r.phase == Propagate
  {
    hide Edges, Settled, Marked, LiveClosed, Kinds, Cursors, Colours, NoOtherWhite;
    MarkedKinds(t, r);
    MarkedLive(t, r);
    MarkedCursors(t, r);
    MarkedColours(t, r);
  }

  lemma MarkedLists(t: State, r: State)
    requires Marked(t, r) && Lists(t)
    ensures Lists(r)
  {
    hide Settled;
    SameLists(t, r);
  }

  lemma ForwardKeeps(s: State, t: State, o: Addr, v: Addr)
    requires Inv(s) && HalfStored(s, t, o, Ref(v)) && t.heap[o].mark.Black? && IsWhite(t.heap, v)
    ensures Inv(BarrierF(t, o, v))
  {
    hide Inv, MarkAll, HalfStored;
    HalfStoredWhites(s, t, o, Ref(v));
    if s.phase == Propagate {
      ForwardInMark(s, t, o, v);
    } else {
      hide Lists, Edges, Kinds, Cursors, Colours, NoOtherWhite, LiveClosed, GrayLists, GrayQueued, RootsMarked, Settled,
           TriColour;
      HalfStoredParts(s, t, o, Ref(v));
      var r := t.(heap := SetMark(t.heap, o, White(t.white)));
      assert BarrierF(t, o, v) == r;
      hide BarrierF;
      WhitenedShape(t, r, o);
      WhitenedMarks(t, r, o);
      RemarkedLive(t, r, o);
      Whole(r);
    }
  }

  lemma WhitenedShape(t: State, r: State, o: Addr)
    requires Lists(t) && o in t.heap && t.heap[o].mark.Black? && r == t.(heap := SetMark(t.heap, o, White(t.white)))
    ensures Lists(r) && SameBodies(t.heap, r.heap) && !OtherWhite(t, o) && !OtherWhite(r, o) && Roots(r) == Roots(t)
    ensures forall a :: a in t.heap && a != o ==> r.heap[a].mark == t.heap[a].mark
  {
    hide Lists;
    SameLists(t, r);
  }

  lemma MarkedCursors(t: State, r: State)
    requires Marked(t, r) && Cursors(t)
    ensures Cursors(r) && r.phase == t.phase
  {
    hide Settled;
  }

  lemma MarkedColours(t: State, r: State)
    requires NoOtherWhite(r) && r.phase == Propagate
    ensures Colours(r)
  {
  }

  lemma WhitenedMarks(t: State, r: State, o: Addr)
    requires Kinds(t) && Colours(t) && Cursors(t) && o in t.heap && t.phase != Propagate
    requires r == t.(heap := SetMark(t.heap, o, White(t.white)))
    ensures Kinds(r) && Colours(r) && Cursors(r)
  {
    hide Bucket;
    forall a | CurrentWhite(t, a) ensures CurrentWhite(r, a) {}
  }

  lemma ForwardSettled(s: State, t: State, r: State, o: Addr, v: Addr)
    requires Marked(t, r) && o in t.heap && t.heap[o].mark.Black? && !IsWhite(r.heap, v)
    requires SameWhites(s.heap, t.heap)
    requires forall c :: c in Edges(t.heap, o) ==> c in Edges(s.heap, o) || Ref(v) == Ref(c) || !IsWhite(s.heap, c)
    requires Settled(s.heap, o)
    requires GrayLists(t) && GrayQueued(t) && RootsMarked(t)
    requires forall a :: a in t.heap && a != o && t.heap[a].mark.Black? ==> Settled(t.heap, a)
    ensures TriColour(r)
  {
    SettledStays(t.heap, r.heap);
    SameEdges(t.heap, r.heap);
    assert Settled(r.heap, o) by {
      forall c | c in Edges(r.heap, o) ensures !IsWhite(r.heap, c) {
        if c != v { assert !IsWhite(s.heap, c) && !IsWhite(t.heap, c); }
      }
    }
    MarkedGrayLists(t, r);
    MarkedGray(t, r);
    hide Edges, Settled, GrayLists;
    assert GrayQueued(r) && RootsMarked(r) && BlackSettled(r.heap);
  }

  ghost predicate SameWhites(h: Heap, k: Heap) {
    forall a :: IsWhite(h, a) <==> IsWhite(k, a)
  }

  // ----- capturing a local variable

  lemma {:induction false} FindPosSplits(h: Heap, l: seq<Addr>, th: Addr, level: nat)
    requires OpenSeq(h, l, th)
    ensures var i := FindPos(h, l, level);
      && (forall j :: 0 <= j < i ==> Level(h, l[j]) > level)
      && (forall j :: i <= j < |l| ==> Level(h, l[j]) <= level)
  {
    if l != [] && Level(h, l[0]) > level {
      var t := l[1..];
      assert l == [l[0]] + t;
      assert OpenSeq(h, t, th) by {
        forall i, j | 0 <= i < j < |t| ensures Level(h, t[i]) > Level(h, t[j]) {
          assert l[i+1] == t[i] && l[j+1] == t[j];
        }
      }
      FindPosSplits(h, t, th, level);
    }
  }

  /** h with a new upvalue a for slot level of th at position i of its list. */
  ghost predicate Captured(h: Heap, k: Heap, th: Addr, a: Addr, level: nat, i: nat) {
    && IsThread(h, th) && IsThread(k, th) && a !in h && a in k && k[a].body == UpOpen(th, level)
    && level < |h[th].body.stack| && i <= |h[th].body.openupval|
    && (forall x :: x != a ==> (x in k <==> x in h))
    && (forall x :: x in h && x != th ==> k[x] == h[x])
    && k[th].body == h[th].body.(openupval := h[th].body.openupval[..i] + [a] + h[th].body.openupval[i..])
    && (forall j :: 0 <= j < i ==> Level(h, h[th].body.openupval[j]) > level)
    && (forall j :: i <= j < |h[th].body.openupval| ==> Level(h, h[th].body.openupval[j]) < level)
  }

  lemma CapturedOwn(h: Heap, k: Heap, th: Addr, a: Addr, level: nat, i: nat)
    requires OpenLists(h) && Captured(h, k, th, a, level, i)
    ensures OpenList(k, th)
  {
    var l, m := h[th].body.openupval, k[th].body.openupval;
    assert OpenList(h, th);
    forall x | x in m ensures OpenOn(k, x, th) {
      if x != a { assert x in l; assert OpenOn(h, x, th); }
    }
    forall j | 0 <= j < |m| ensures
      m[j] == (if j < i then l[j] else if j == i then a else l[j-1])
    {}
    forall j, n | 0 <= j < n < |m| ensures Level(k, m[j]) > Level(k, m[n]) {
      assert j != i ==> m[j] in l && OpenOn(h, m[j], th) && Level(k, m[j]) == Level(h, m[j]);
      assert n != i ==> m[n] in l && OpenOn(h, m[n], th) && Level(k, m[n]) == Level(h, m[n]);
    }
  }

  lemma CapturedOpenLists(h: Heap, k: Heap, th: Addr, a: Addr, level: nat, i: nat)
    requires OpenLists(h) && Captured(h, k, th, a, level, i)
    ensures OpenLists(k)
  {
    CapturedOwn(h, k, th, a, level, i);
    forall u | IsThread(k, u) ensures OpenList(k, u) {
      if u != th {
        assert IsThread(h, u) && OpenList(h, u);
        forall x | x in h[u].body.openupval ensures OpenOn(k, x, u) && k[x].body == h[x].body {
          assert OpenOn(h, x, u);
        }
        SameOpenSeq(h, k, h[u].body.openupval, u);
      }
    }
    hide OpenList;
    var l, m := h[th].body.openupval, k[th].body.openupval;
    assert l == l[..i] + l[i..];
    forall x ensures x in m <==> x in l || x == a {}
  }

  lemma CapturedViews(h: Heap, k: Heap, th: Addr, a: Addr, level: nat, i: nat)
    requires OpenLists(h) && Captured(h, k, th, a, level, i)
    ensures forall x :: x in h ==> View(k, x) == View(h, x)
    ensures Edges(k, a) == ValueRef(h[th].body.stack[level])
  {
    forall u, n | u != a ensures Slot(h, u, n) == Slot(k, u, n) {}
  }

  lemma CapturedEdgesLive(s: State, t: State, a: Addr, level: nat, i: nat)
    requires LiveClosed(s) && OpenLists(s.heap) && Captured(s.heap, t.heap, s.running, a, level, i)
    requires t.heap[a] == Obj(White(s.white), false, UpOpen(s.running, level))
    requires t.heap[s.running] == s.heap[s.running].(body := t.heap[s.running].body)
    ensures forall c :: c in Edges(t.heap, a) ==> Live(s, c)
  {
    var th := s.running;
    assert Live(s, th) by { assert th in Roots(s); }
    ThreadEdges(s.heap, th);
    CapturedViews(s.heap, t.heap, th, a, level, i);
    forall c | c in Edges(t.heap, a) ensures Live(s, c) {
      assert Ref(c) in s.heap[th].body.stack;
      assert c in Edges(s.heap, th);
    }
  }

  lemma CapturedInserted(s: State, t: State, a: Addr, level: nat, i: nat)
    requires OpenLists(s.heap) && Captured(s.heap, t.heap, s.running, a, level, i) && s.sweepgc <= |s.rootgc|
    requires t == s.(heap := t.heap, uvhead := [a] + s.uvhead)
    requires t.heap[a] == Obj(White(s.white), false, UpOpen(s.running, level))
    requires t.heap[s.running] == s.heap[s.running].(body := t.heap[s.running].body)
    ensures Inserted(s, t, a, UpOpen(s.running, level)) && PrefixGrows(s, t, a)
  {
    CapturedViews(s.heap, t.heap, s.running, a, level, i);
    hide View;
  }

  lemma CaptureNewKeeps(s: State, t: State, a: Addr, level: nat, i: nat)
    requires Inv(s) && Captured(s.heap, t.heap, s.running, a, level, i)
    requires t == s.(heap := t.heap, uvhead := [a] + s.uvhead)
    requires t.heap[a] == Obj(White(s.white), false, UpOpen(s.running, level))
    requires t.heap[s.running] == s.heap[s.running].(body := t.heap[s.running].body)
    ensures Inv(t) && Live(t, a)
  {
    hide Inv, OpenLists, LiveClosed, Kinds, Colours, TriColour, Edges, View, Inserted, PrefixGrows, Live, RootList,
         Ring, StringTable;
    Parts(s);
    CapturedEdgesLive(s, t, a, level, i);
    CapturedInserted(s, t, a, level, i);
    CapturedOpenLists(s.heap, t.heap, s.running, a, level, i);
    CapturedLists(s, t, a, level, i);
    hide Lists, Captured;
    InsertedKeeps(s, t, a, UpOpen(s.running, level));
  }

  lemma CapturedLists(s: State, t: State, a: Addr, level: nat, i: nat)
    requires Lists(s) && Captured(s.heap, t.heap, s.running, a, level, i) && OpenLists(t.heap)
    requires t == s.(heap := t.heap, uvhead := [a] + s.uvhead)
    ensures Lists(t)
  {
    hide OpenLists;
    assert RootList(t, {}) by { hide StringTable, Ring; }
    assert Ring(t) by { hide StringTable, RootList; }
    assert StringTable(t) by { hide RootList, Ring, Bucket; }
  }

  lemma CaptureFoundKeeps(s: State, uv: Addr)
    requires Inv(s) && IsThread(s.heap, s.running) && OpenOn(s.heap, uv, s.running)
    ensures var t := Resurrect(s, uv);
      Inv(t) && Live(t, uv) && t.heap[uv].body == s.heap[uv].body
  {
    hide Inv, Edges;
    Parts(s);
    SlotLive(s, uv);
    ResurrectKeeps(s, uv);
  }

  lemma FindPosBelow(s: State, th: Addr, level: nat)
    requires OpenLists(s.heap) && IsThread(s.heap, th)
    requires var l := s.heap[th].body.openupval; var i := FindPos(s.heap, l, level);
      i < |l| ==> Level(s.heap, l[i]) != level
    ensures var l := s.heap[th].body.openupval; var i := FindPos(s.heap, l, level);
      && (forall j :: 0 <= j < i ==> Level(s.heap, l[j]) > level)
      && (forall j :: i <= j < |l| ==> Level(s.heap, l[j]) < level)
  {
    var l := s.heap[th].body.openupval;
    assert OpenList(s.heap, th);
    FindPosSplits(s.heap, l, th, level);
    var i := FindPos(s.heap, l, level);
    hide OpenLists, FindPos;
    forall j | i <= j < |l| ensures Level(s.heap, l[j]) < level {
      if j > i { assert Level(s.heap, l[i]) > Level(s.heap, l[j]); }
    }
  }

  lemma NewUpvalCaptured(s: State, a: Addr, level: nat, i: nat)
    requires IsThread(s.heap, s.running) && a !in s.heap && level < |s.heap[s.running].body.stack|
    requires i <= |s.heap[s.running].body.openupval|
    requires var l := s.heap[s.running].body.openupval;
      && (forall j :: 0 <= j < i ==> Level(s.heap, l[j]) > level)
      && (forall j :: i <= j < |l| ==> Level(s.heap, l[j]) < level)
    ensures var t := NewUpval(s, a, level, i);
      && Captured(s.heap, t.heap, s.running, a, level, i)
      && t == s.(heap := t.heap, uvhead := [a] + s.uvhead)
      && t.heap[a] == Obj(White(s.white), false, UpOpen(s.running, level))
      && t.heap[s.running] == s.heap[s.running].(body := t.heap[s.running].body)
  {
  }

  /** luaF_findupval keeps the invariant and returns a live upvalue that shares the slot. */
  lemma FindUpvalKeeps(s: State, level: nat, a: Addr)
    requires Inv(s) && a !in s.heap && IsThread(s.heap, s.running)
    requires level < |s.heap[s.running].body.stack|
    ensures var (t, uv) := FindUpval(s, level, a);
      Inv(t) && Live(t, uv) && t.heap[uv].body == UpOpen(s.running, level)
  {
    var th := s.running;
    var l := s.heap[th].body.openupval;
    assert OpenList(s.heap, th);
    var i := FindPos(s.heap, l, level);
    hide Inv, Live, FindPos, OpenSeq, Captured;
    if i < |l| && Level(s.heap, l[i]) == level {
      assert l[i] in l && OpenOn(s.heap, l[i], th) by { Parts(s); OpenElement(s.heap, th, i); }
      CaptureFoundKeeps(s, l[i]);
    } else {
      assert OpenLists(s.heap) by { Parts(s); }
      FindPosBelow(s, th, level);
      NewUpvalCaptured(s, a, level, i);
      CaptureNewKeeps(s, NewUpval(s, a, level, i), a, level, i);
    }
  }

  lemma OpenElement(h: Heap, th: Addr, i: nat)
    requires OpenLists(h) && IsThread(h, th) && i < |h[th].body.openupval|
    ensures OpenOn(h, h[th].body.openupval[i], th)
  {
    assert OpenList(h, th);
    assert h[th].body.openupval[i] in h[th].body.openupval;
  }

  /** What an open upvalue of the running thread refers to is live, even if the upvalue is not. */
  lemma SlotLive(s: State, uv: Addr)
    requires LiveClosed(s) && IsThread(s.heap, s.running) && OpenOn(s.heap, uv, s.running)
    ensures forall c :: c in Edges(s.heap, uv) ==> Live(s, c)
  {
    assert Live(s, s.running) by { assert s.running in Roots(s); }
    ThreadEdges(s.heap, s.running);
    UpvalEdges(s.heap, uv);
    hide Edges;
    forall c | c in Edges(s.heap, uv) ensures Live(s, c) {
      assert Ref(c) in s.heap[s.running].body.stack;
      assert c in Edges(s.heap, s.running);
    }
  }
}
