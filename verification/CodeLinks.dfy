/** Jump lists threaded through the jumps' own operands: they stay finite, acyclic and disjoint in every
    operation of the generator, whatever the expression. */
module CodeLinks {
  import opened LuaCode
  import opened CodeExec
  import opened CodeLists
  import opened CodeState

  /** The operand of the i-th jump of a list: the way to the next, or NO_JUMP in the last. */
  function LinkOf(l: seq<nat>, i: nat): int
    requires i < |l|
  {
    if i + 1 < |l| then l[i + 1] - (l[i] + 1) else NO_JUMP
  }

  ghost predicate LinkAt(code: seq<Instr>, l: seq<nat>, i: nat)
    requires i < |l|
  {
    l[i] < |code| && code[l[i]] == Jmp(LinkOf(l, i))
  }

  /** Following the operands from the head of l visits exactly l. */
  ghost predicate Threaded(code: seq<Instr>, l: seq<nat>) {
    forall i: nat :: i < |l| ==> LinkAt(code, l, i)
  }

  /** Four disjoint threaded lists: both lists of exits, the jumps to here, and a jump of one's own. */
  ghost predicate Links(code: seq<Instr>, t: seq<nat>, f: seq<nat>, jpc: seq<nat>, o: seq<nat>) {
    Threaded(code, t) && Threaded(code, f) && Threaded(code, jpc) && Threaded(code, o) && NoDup(t + f + jpc + o)
  }

  /** Jumps before n that are not in s are the same. */
  ghost predicate JumpsKept(code: seq<Instr>, code2: seq<Instr>, s: set<nat>, n: nat) {
    && n <= |code| && n <= |code2|
    && forall i :: 0 <= i < n && code[i].Jmp? && i !in s ==> code2[i] == code[i]
  }

  lemma ThreadedJumps(code: seq<Instr>, l: seq<nat>)
    requires Threaded(code, l)
    ensures Jumps(code, l)
  {
    forall j | j in l ensures j < |code| && code[j].Jmp? {
      var i: nat :| i < |l| && l[i] == j;
      assert LinkAt(code, l, i);
    }
  }

  lemma ThreadedKept(code: seq<Instr>, code2: seq<Instr>, s: set<nat>, n: nat, l: seq<nat>)
    requires Threaded(code, l) && JumpsKept(code, code2, s, n) && forall j :: j in l ==> j !in s && j < n
    ensures Threaded(code2, l)
  {
    forall i: nat | i < |l| ensures LinkAt(code2, l, i) {
      assert LinkAt(code, l, i) && l[i] in l;
    }
  }

  /** Lists that share no element can be told apart. */
  lemma Apart(t: seq<nat>, f: seq<nat>, jpc: seq<nat>, o: seq<nat>)
    ensures NoDup(t + f + jpc + o) <==>
            && NoDup(t) && NoDup(f) && NoDup(jpc) && NoDup(o)
            && (forall j :: j in t ==> j !in f && j !in jpc && j !in o)
            && (forall j :: j in f ==> j !in jpc && j !in o)
            && (forall j :: j in jpc ==> j !in o)
  {
    ApartTwo(t, f);
    ApartTwo(t + f, jpc);
    ApartTwo(t + f + jpc, o);
    assert forall j :: j in t + f <==> j in t || j in f;
    assert forall j :: j in t + f + jpc <==> j in t || j in f || j in jpc;
  }

  lemma ApartTwo(a: seq<nat>, b: seq<nat>)
    ensures NoDup(a + b) <==> NoDup(a) && NoDup(b) && forall j :: j in a ==> j !in b
  {
    var l := a + b;
    if NoDup(l) {
      assert forall i :: 0 <= i < |a| ==> l[i] == a[i];
      assert forall i :: 0 <= i < |b| ==> l[|a| + i] == b[i];
      forall j | j in a ensures j !in b {
        var i :| 0 <= i < |a| && a[i] == j;
        forall k | 0 <= k < |b| ensures b[k] != j {
          assert l[|a| + k] == b[k] && l[i] == j;
        }
      }
    } else if NoDup(a) && NoDup(b) && forall j :: j in a ==> j !in b {
      NoDupConcat(a, b);
    }
  }

  // ----- luaK_concat

  /** luaK_concat appends exactly the second list. */
  lemma ConcatThreads(code: seq<Instr>, a: seq<nat>, b: seq<nat>)
    requires Threaded(code, a) && Threaded(code, b) && NoDup(a + b)
    ensures Threaded(Concat(code, a, b), a + b)
    ensures a != [] ==> JumpsKept(code, Concat(code, a, b), {a[|a| - 1]}, |code|)
    ensures a == [] ==> Concat(code, a, b) == code
  {
    var c, l := Concat(code, a, b), a + b;
    ApartTwo(a, b);
    forall i: nat | i < |l| ensures LinkAt(c, l, i) {
      if i < |a| {
        assert LinkAt(code, a, i);
        if i + 1 < |a| { assert a[i] != a[|a| - 1]; }
      } else {
        assert LinkAt(code, b, i - |a|);
        assert b[i - |a|] in b;
        if a != [] { assert a[|a| - 1] in a; }
      }
    }
  }

  lemma ConcatKeeps(code: seq<Instr>, a: seq<nat>, b: seq<nat>, q: seq<nat>)
    requires Threaded(code, a) && Threaded(code, b) && NoDup(a + b) && Threaded(code, q)
    requires forall j :: j in q ==> j !in a
    ensures Threaded(Concat(code, a, b), q)
    ensures JumpsKept(code, Concat(code, a, b), Set(a), |code|)
  {
    ConcatThreads(code, a, b);
    ThreadedJumps(code, q);
    if a != [] {
      assert a[|a| - 1] in a;
      ThreadedKept(code, Concat(code, a, b), {a[|a| - 1]}, |code|, q);
    }
  }

  // ----- patching, removing values, appending

  lemma PatchKeeps(code: seq<Instr>, l: seq<nat>, vtarget: nat, reg: nat, dtarget: nat)
    requires Threaded(code, l) && NoDup(l)
    ensures JumpsKept(code, PatchList(code, l, vtarget, reg, dtarget), Set(l), |code|)
  {
    var c := PatchList(code, l, vtarget, reg, dtarget);
    ThreadedJumps(code, l);
    PatchListAt(code, l, vtarget, reg, dtarget);
    forall i | 0 <= i < |code| && code[i].Jmp? && i !in Set(l) ensures c[i] == code[i] {
      assert PatchedAt(code, c, l, vtarget, reg, dtarget, i);
    }
  }

  lemma {:induction false} RemoveKeeps(code: seq<Instr>, l: seq<nat>)
    ensures JumpsKept(code, RemoveValues(code, l), {}, |code|)
    decreases |l|
  {
    if l != [] { RemoveKeeps(PatchTestReg(code, l[0], NO_REG), l[1..]); }
  }

  lemma KeptTrans(code: seq<Instr>, c: seq<Instr>, code2: seq<Instr>, s: set<nat>, s2: set<nat>, n: nat, m: nat,
                  w: set<nat>)
    requires JumpsKept(code, c, s, n) && JumpsKept(c, code2, s2, m) && n <= m
    requires forall i :: 0 <= i < n && (i in s || i in s2) ==> i in w
    ensures JumpsKept(code, code2, w, n)
  {
  }

  // ----- what one operation does to the lists

  /** The lists of exits, and the jump or list that is on neither yet. */
  datatype Lists = Lists(t: seq<nat>, f: seq<nat>, o: seq<nat>)

  function ListsOf(d: Desc): Lists { Lists(d.t, d.f, if d.k.VJmp? then [d.k.pc] else []) }

  function Base(fs: FS, d: Desc): int { if d.k.VReloc? then |fs.code| - 1 else |fs.code| }

  ghost predicate Linking(fs: FS, l: Lists) { Links(fs.code, l.t, l.f, fs.jpc, l.o) }

  ghost predicate Linked(fs: FS, d: Desc) {
    && Linking(fs, ListsOf(d))
    && (d.k.VReloc? ==> d.k.pc + 1 == |fs.code| && Relocatable(fs.code[d.k.pc]))
  }

  function Members(fs: FS, l: Lists): set<nat> { Set(l.t) + Set(l.f) + Set(fs.jpc) + Set(l.o) }

  /** Before n, only jumps on the lists change, and the lists take up no others. */
  ghost predicate Advances(fs: FS, l: Lists, fs2: FS, l2: Lists, n: nat) {
    && Linking(fs2, l2)
    && JumpsKept(fs.code, fs2.code, Members(fs, l), n)
    && forall j: nat :: j in Members(fs2, l2) && j < n ==> j in Members(fs, l)
  }

  lemma AdvancesTrans(fs: FS, l: Lists, fs1: FS, l1: Lists, fs2: FS, l2: Lists, n: nat, m: nat)
    requires Advances(fs, l, fs1, l1, n) && Advances(fs1, l1, fs2, l2, m) && n <= m
    ensures Advances(fs, l, fs2, l2, n)
  {
    hide Linking, Members;
    KeptTrans(fs.code, fs1.code, fs2.code, Members(fs, l), Members(fs1, l1), n, m, Members(fs, l));
  }

  lemma AdvancesSelf(fs: FS, l: Lists)
    requires Linking(fs, l)
    ensures Advances(fs, l, fs, l, |fs.code|)
  {
  }

  lemma KeptMore(code: seq<Instr>, code2: seq<Instr>, s: set<nat>, n: nat, w: set<nat>)
    requires JumpsKept(code, code2, s, n) && s <= w
    ensures JumpsKept(code, code2, w, n)
  {
  }

  // ----- the operations on lists

  /** Emitting an instruction: the jumps to here are patched and gone. */
  lemma EmitLinks(fs: FS, t: seq<nat>, f: seq<nat>, o: seq<nat>, i: Instr)
    requires Links(fs.code, t, f, fs.jpc, o)
    ensures Links(Code(fs, i).code, t, f, [], o)
    ensures JumpsKept(fs.code, Code(fs, i).code, Set(fs.jpc), |fs.code|)
  {
    hide Threaded, LinkAt;
    var n, c2 := |fs.code|, Code(fs, i).code;
    var c := PatchList(fs.code, fs.jpc, n, NO_REG, n);
    Apart(t, f, fs.jpc, o);
    Apart(t, f, [], o);
    PatchKeeps(fs.code, fs.jpc, n, NO_REG, n);
    assert JumpsKept(c, c2, {}, n);
    KeptTrans(fs.code, c, c2, Set(fs.jpc), {}, n, n, Set(fs.jpc));
    ThreadedJumps(fs.code, t);
    ThreadedJumps(fs.code, f);
    ThreadedJumps(fs.code, o);
    ThreadedKept(fs.code, c2, Set(fs.jpc), n, t);
    ThreadedKept(fs.code, c2, Set(fs.jpc), n, f);
    ThreadedKept(fs.code, c2, Set(fs.jpc), n, o);
    ThreadedNone(c2);
  }

  lemma ThreadedNone(code: seq<Instr>)
    ensures Threaded(code, [])
  {
  }

  lemma JumpShape(fs: FS)
    ensures var (fs2, l) := Jump(fs);
            && l == [|fs.code|] + fs.jpc && fs2.jpc == []
            && fs2.code == Concat(fs.code + [Jmp(NO_JUMP)], [|fs.code|], fs.jpc) && |fs2.code| == |fs.code| + 1
  {
  }

  /** luaK_jump: the new jump heads the list of those that were to come here. */
  lemma JumpLinks(fs: FS, t: seq<nat>, f: seq<nat>)
    requires Links(fs.code, t, f, fs.jpc, [])
    ensures var (fs2, l) := Jump(fs); Links(fs2.code, t, f, [], l) && JumpsKept(fs.code, fs2.code, {}, |fs.code|)
  {
    hide Threaded, LinkAt, Jump, Concat;
    JumpShape(fs);
    var n, l, fs2 := |fs.code|, Jump(fs).1, Jump(fs).0;
    var c := fs.code + [Jmp(NO_JUMP)];
    Apart(t, f, fs.jpc, []);
    ThreadedJumps(fs.code, t);
    ThreadedJumps(fs.code, f);
    ThreadedJumps(fs.code, fs.jpc);
    assert JumpsKept(fs.code, c, {}, n);
    ThreadedKept(fs.code, c, {}, n, t);
    ThreadedKept(fs.code, c, {}, n, f);
    ThreadedKept(fs.code, c, {}, n, fs.jpc);
    ThreadedOne(c, n);
    ApartTwo([n], fs.jpc);
    ConcatThreads(c, [n], fs.jpc);
    ConcatKeeps(c, [n], fs.jpc, t);
    ConcatKeeps(c, [n], fs.jpc, f);
    assert Set([n]) == {n};
    assert JumpsKept(c, fs2.code, {n}, n + 1);
    KeptTrans(fs.code, c, fs2.code, {}, {n}, n, n + 1, {});
    ThreadedNone(fs2.code);
    Apart(t, f, [], l);
  }

  lemma ThreadedOne(code: seq<Instr>, n: nat)
    requires n < |code| && code[n] == Jmp(NO_JUMP)
    ensures Threaded(code, [n])
  {
  }

  lemma MoveToTrue(code: seq<Instr>, t: seq<nat>, f: seq<nat>, jpc: seq<nat>, o: seq<nat>)
    requires Links(code, t, f, jpc, o)
    ensures Links(Concat(code, t, o), t + o, f, jpc, []) && JumpsKept(code, Concat(code, t, o), Set(t), |code|)
  {
    hide Threaded, LinkAt, Concat;
    Apart(t, f, jpc, o);
    ApartTwo(t, o);
    ConcatThreads(code, t, o);
    ConcatKeeps(code, t, o, f);
    ConcatKeeps(code, t, o, jpc);
    ThreadedNone(Concat(code, t, o));
    Apart(t + o, f, jpc, []);
  }

  lemma MoveToFalse(code: seq<Instr>, t: seq<nat>, f: seq<nat>, jpc: seq<nat>, o: seq<nat>)
    requires Links(code, t, f, jpc, o)
    ensures Links(Concat(code, f, o), t, f + o, jpc, []) && JumpsKept(code, Concat(code, f, o), Set(f), |code|)
  {
    hide Threaded, LinkAt, Concat;
    Apart(t, f, jpc, o);
    ApartTwo(f, o);
    ConcatThreads(code, f, o);
    ConcatKeeps(code, f, o, t);
    ConcatKeeps(code, f, o, jpc);
    ThreadedNone(Concat(code, f, o));
    Apart(t, f + o, jpc, []);
  }

  /** luaK_patchtohere for either list of exits. */
  lemma MoveToHere(code: seq<Instr>, t: seq<nat>, f: seq<nat>, jpc: seq<nat>)
    requires Links(code, t, f, jpc, [])
    ensures Links(Concat(code, jpc, t), [], f, jpc + t, []) && Links(Concat(code, jpc, f), t, [], jpc + f, [])
    ensures JumpsKept(code, Concat(code, jpc, t), Set(jpc), |code|) &&
      JumpsKept(code, Concat(code, jpc, f), Set(jpc), |code|)
  {
    hide Threaded, LinkAt, Concat;
    Apart(t, f, jpc, []);
    ApartTwo(jpc, t);
    ApartTwo(jpc, f);
    ConcatThreads(code, jpc, t);
    ConcatThreads(code, jpc, f);
    ConcatKeeps(code, jpc, t, f);
    ConcatKeeps(code, jpc, f, t);
    ThreadedNone(Concat(code, jpc, t));
    ThreadedNone(Concat(code, jpc, f));
    Apart([], f, jpc + t, []);
    Apart(t, [], jpc + f, []);
  }

  /** Both lists of exits patched. */
  lemma CloseLinks(code: seq<Instr>, t: seq<nat>, f: seq<nat>, jpc: seq<nat>, end: nat, reg: nat, pf: nat, pt: nat)
    requires Links(code, t, f, jpc, [])
    ensures var c := PatchList(PatchList(code, f, end, reg, pf), t, end, reg, pt);
            Links(c, [], [], jpc, []) && JumpsKept(code, c, Set(t) + Set(f), |code|)
  {
    hide Threaded, LinkAt, PatchList;
    var c1 := PatchList(code, f, end, reg, pf);
    var c := PatchList(c1, t, end, reg, pt);
    Apart(t, f, jpc, []);
    ThreadedJumps(code, t);
    ThreadedJumps(code, jpc);
    PatchKeeps(code, f, end, reg, pf);
    ThreadedKept(code, c1, Set(f), |code|, t);
    ThreadedKept(code, c1, Set(f), |code|, jpc);
    PatchKeeps(c1, t, end, reg, pt);
    ThreadedKept(c1, c, Set(t), |code|, jpc);
    KeptTrans(code, c1, c, Set(f), Set(t), |code|, |code|, Set(t) + Set(f));
    ThreadedNone(c);
    Apart([], [], jpc, []);
  }

  lemma SwapLinks(code: seq<Instr>, t: seq<nat>, f: seq<nat>, jpc: seq<nat>, o: seq<nat>)
    requires Links(code, t, f, jpc, o)
    ensures var c := RemoveValues(RemoveValues(code, t), f);
            && |c| == |code| && Links(c, f, t, jpc, o) && JumpsKept(code, c, {}, |code|)
            && forall i :: 0 <= i < |code| && Relocatable(code[i]) ==> c[i] == code[i]
  {
    hide Threaded, LinkAt, RemoveValues;
    var c1 := RemoveValues(code, t);
    var c := RemoveValues(c1, f);
    Apart(t, f, jpc, o);
    ThreadedJumps(code, t);
    ThreadedJumps(code, f);
    ThreadedJumps(code, jpc);
    ThreadedJumps(code, o);
    RemoveKeeps(code, t);
    RemoveKeeps(c1, f);
    KeptTrans(code, c1, c, {}, {}, |code|, |code|, {});
    RemoveReloc(code, t);
    RemoveReloc(c1, f);
    ThreadedKept(code, c, {}, |code|, t);
    ThreadedKept(code, c, {}, |code|, f);
    ThreadedKept(code, c, {}, |code|, jpc);
    ThreadedKept(code, c, {}, |code|, o);
    Apart(f, t, jpc, o);
  }

  lemma {:induction false} RemoveReloc(code: seq<Instr>, l: seq<nat>)
    ensures forall i :: 0 <= i < |code| && Relocatable(code[i]) ==> RemoveValues(code, l)[i] == code[i]
    decreases |l|
  {
    if l != [] { RemoveReloc(PatchTestReg(code, l[0], NO_REG), l[1..]); }
  }

  /** A change of instructions that are not jumps. */
  lemma OtherLinks(code: seq<Instr>, code2: seq<Instr>, t: seq<nat>, f: seq<nat>, jpc: seq<nat>, o: seq<nat>, n: nat)
    requires Links(code, t, f, jpc, o) && JumpsKept(code, code2, {}, n)
    requires forall i :: n <= i < |code| ==> !code[i].Jmp?
    ensures Links(code2, t, f, jpc, o)
  {
    hide Threaded, LinkAt;
    ThreadedJumps(code, t);
    ThreadedJumps(code, f);
    ThreadedJumps(code, jpc);
    ThreadedJumps(code, o);
    ThreadedKept(code, code2, {}, n, t);
    ThreadedKept(code, code2, {}, n, f);
    ThreadedKept(code, code2, {}, n, jpc);
    ThreadedKept(code, code2, {}, n, o);
  }
}
