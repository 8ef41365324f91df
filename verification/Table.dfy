/** ltable.c: the table object, with its array and node vectors updated in place. */
module Table {
  import opened TableModel
  import opened TableInsert
  import opened TableCount
  import opened TableRehash
  import opened TableSupport
  import opened TableNext

  class LuaTable {
    const hash: Hasher
    var arr: array<Value>
    var node: array<Node>
    var lsizenode: nat
    var dummy: bool
    var lastfree: int
    ghost var layout: Layout

    ghost function S(): T
      reads this, arr, node
    {
      T(arr[..], node[..], dummy, lastfree)
    }

    ghost predicate Valid()
      reads this, arr, node
    {
      Brent(hash, S(), layout) && arr.Length <= MAXASIZE && node.Length == Pow2(lsizenode) && lsizenode <= MAXBITS
    }

    /** luaH_new. */
    constructor (hash: Hasher, narray: nat, nhash: nat)
      requires narray <= MAXASIZE && nhash <= MAXASIZE
      ensures Valid() && this.hash == hash && fresh(arr) && fresh(node)
      ensures arr.Length == narray && nhash <= node.Length
      ensures forall k :: Lookup(S(), k) == Nil
    {
      this.hash := hash;
      arr := new Value[narray](_ => Nil);
      node := new Node[1](_ => FreeNode());
      lsizenode, dummy, lastfree := 0, true, 0;
      layout := FreeLayout(1);
      new;
      var ok := SetNodeVector(nhash);
      FreeBrent(hash, S(), layout);
      forall k ensures Lookup(S(), k) == Nil { FreeLookup(S(), k); }
    }

    // ----- searching

    /** The search along a chain that luaH_getnum, luaH_getstr and luaH_get share. */
    method FindInChain(key: Key) returns (i: int)
      requires Valid() && key != NilKey
      ensures i == -1 ==> forall j :: !Holds(node[..], j, key)
      ensures i != -1 ==> Holds(node[..], i, key)
    {
      hide Brent, Ordered, Homes, Ahead, Deeper;
      BrentParts(hash, S(), layout);
      i := MainPos(hash, key, node.Length);
      ChainStart(hash, node[..], layout, key);
      while i != -1
        invariant i != -1 ==> 0 <= i < node.Length && Ahead(node[..], layout, i, key)
        invariant i == -1 ==> forall j :: !Holds(node[..], j, key)
        decreases i != -1, if 0 <= i < node.Length then Deeper(node[..], layout, i) else {}
      {
        if node[i].key == key { return; }
        assert Sized(node[..], layout);
        ChainNext(node[..], layout, i, key);
        i := node[i].next;
      }
    }

    /** luaH_getnum. */
    method GetNum(k: int) returns (s: Slot)
      requires Valid() && -0x8000_0000 <= k < 0x8000_0000
      ensures SlotOf(S(), IntKey(k), s)
    {
      if 1 <= k <= arr.Length { return InArr(k - 1); }
      var i := FindInChain(IntKey(k));
      return if i == -1 then Absent else InNode(i);
    }

    /** luaH_getstr. */
    method GetStr(str: nat) returns (s: Slot)
      requires Valid()
      ensures SlotOf(S(), Str(str), s)
    {
      var i := FindInChain(Str(str));
      return if i == -1 then Absent else InNode(i);
    }

    /** luaH_get. */
    method Get(key: Key) returns (s: Slot)
      requires Valid()
      ensures SlotOf(S(), key, s)
    {
      if key == NilKey { return Absent; }
      if key.Str? {
        s := GetStr(key.s);
        return;
      }
      if key.Num? {
        var k := ArrayIndex(key);
        if k as real == key.r {
          s := GetNum(k);
          return;
        }
      }
      var i := FindInChain(key);
      return if i == -1 then Absent else InNode(i);
    }

    /** The value luaH_get finds for a key. */
    method Read(key: Key) returns (v: Value)
      requires Valid()
      ensures v == Lookup(S(), key)
    {
      var s := Get(key);
      SlotValue(S(), key, s);
      match s
      case Absent => return Nil;
      case InArr(i) => return arr[i];
      case InNode(i) => return node[i].val;
    }

    // ----- inserting

    /** getfreepos: -1 if there is no free place. Until the place is taken it is the one free node at lastfree. */
    method GetFreePos() returns (n: int)
      requires Valid()
      modifies `lastfree
      ensures n == -1 ==> Valid() && (dummy || !HasFree(node[..]))
      ensures n != -1 ==> 0 <= n < node.Length && !dummy && !Live(node[..], n) && lastfree == n
      ensures n != -1 ==> Packed(node[..], n + 1)
    {
      var more := lastfree > 0;
      lastfree := lastfree - 1;
      while more
        invariant more ==> 0 <= lastfree < node.Length && !dummy
        invariant !dummy ==> Packed(node[..], lastfree + 1)
        invariant !more ==> lastfree < 0
        decreases more, lastfree
      {
        if node[lastfree].key == NilKey { return lastfree; }
        more := lastfree > 0;
        lastfree := lastfree - 1;
      }
      return -1;
    }

    /** The node before mp on the chain that starts at othern. */
    method FindBefore(first: nat, mp: nat) returns (o: nat)
      requires first < node.Length && Sized(node[..], layout) && Ordered(node[..], layout) &&
        Before(node[..], layout, first, mp)
      ensures o < node.Length && Live(node[..], o) && node[o].next == mp
    {
      hide Ordered, Deeper, Before;
      o := first;
      while node[o].next != mp
        invariant o < node.Length && Before(node[..], layout, o, mp)
        decreases Deeper(node[..], layout, o)
      {
        BeforeNext(node[..], layout, o, mp);
        o := node[o].next;
      }
      BeforeLive(node[..], layout, o, mp);
    }

    /** The colliding node is out of its main position: it moves to n, and the key takes its place. */
    method MoveColliding(mp: nat, n: nat, key: Key)
      requires Valid1(n) && Missing(S(), key) && mp == MainPos(hash, key, node.Length)
      requires node[mp].val != Nil && MainPos(hash, node[mp].key, node.Length) != mp
      modifies node, `layout
      ensures Valid() && Placed(old(S()), S(), mp, key)
    {
      hide Brent, Entered, Move, MoveLayout, Lookup, Ordered, Homes, Before, Missing, Placed, Unique, Apart;
      ghost var t, y := S().(lastfree := n + 1), layout;
      BrentParts(hash, t, y);
      LastfreeOnly(S(), n + 1);
      MainLive(hash, t, y, mp);
      var othern := FindBefore(MainPos(hash, node[mp].key, node.Length), mp);
      MissingNot(t, key);
      MoveKeeps(hash, t, y, mp, n, othern, key);
      MoveShape(t.node, mp, n, othern, key);
      node[othern] := node[othern].(next := n);
      node[n] := node[mp];
      node[mp] := node[mp].(next := -1, val := Nil);
      node[mp] := node[mp].(key := key);
      layout := MoveLayout(t.node, y, mp, n);
      MoveIs(t.node, node[..], mp, n, othern, key);
      Taken(hash, t, y, node[..], layout, mp, key, n);
    }

    /** The colliding node is in its main position: the key goes to n, after it. */
    method InsertAfter(mp: nat, n: nat, key: Key)
      requires Valid1(n) && Missing(S(), key) && mp == MainPos(hash, key, node.Length)
      requires node[mp].val != Nil && MainPos(hash, node[mp].key, node.Length) == mp
      modifies node, `layout
      ensures Valid() && Placed(old(S()), S(), n, key)
    {
      hide Brent, Entered, Insert, InsertLayout, Lookup, Ordered, Homes, Missing, Placed, Unique, Apart;
      ghost var t, y := S().(lastfree := n + 1), layout;
      BrentParts(hash, t, y);
      LastfreeOnly(S(), n + 1);
      MainLive(hash, t, y, mp);
      MissingNot(t, key);
      InsertKeeps(hash, t, y, mp, n, key);
      node[n] := node[n].(next := node[mp].next);
      node[mp] := node[mp].(next := n);
      node[n] := node[n].(key := key);
      layout := InsertLayout(t.node, y, mp, n);
      InsertIs(t.node, node[..], mp, n, key);
      Taken(hash, t, y, node[..], layout, n, key, n);
    }

    /** The key replaces one whose value is nil, which may still be linked, or takes a free main position. */
    method Replace(mp: nat, key: Key)
      requires Valid() && Missing(S(), key) && mp == MainPos(hash, key, node.Length) && node[mp].val == Nil && !dummy
      modifies node, `layout
      ensures Valid() && Placed(old(S()), S(), mp, key)
    {
      hide Brent, Overwrite, OverwriteLayout, Lookup, Entered, Ordered, Homes, Missing, Placed, Unique, Apart;
      ghost var t, y := S(), layout;
      BrentParts(hash, t, y);
      OverwriteKeeps(hash, t, y, mp, key);
      node[mp] := node[mp].(key := key);
      layout := OverwriteLayout(t.node, y, mp);
      OverwriteIs(t.node, node[..], mp, key);
      Replaced(hash, t, y, node[..], layout, mp, key);
    }

    /** The table after getfreepos has found n. */
    ghost predicate Valid1(n: int)
      reads this, arr, node
    {
      && Brent(hash, S().(lastfree := n + 1), layout) && arr.Length <= MAXASIZE && node.Length == Pow2(lsizenode)
      && lsizenode <= MAXBITS && !dummy && 0 <= n < node.Length && !Live(node[..], n) && lastfree == n
    }

    /** newkey: the key gets a node, whose value the caller then sets. With room for it the vectors stay. */
    method NewKey(key: Key, ghost room: bool) returns (s: Slot, ok: bool)
      requires Valid() && Missing(S(), key)
      requires room ==> !dummy && HasFree(node[..])
      modifies this, arr, node
      ensures Valid() && SameMap(old(S()), S())
      ensures ok ==> SlotOf(S(), key, s) && s != Absent
      ensures ok && !s.InArr? ==> !dummy
      ensures !ok <==> Crowded(hash, old(S()), key)
      ensures !ok ==> Enlarged(old(S()), S(), BestSize(Keys(old(S())) + {key}))
      ensures arr == old(arr) || fresh(arr)
      ensures node == old(node) || fresh(node)
      ensures room ==>
        ok && s.InNode? && Placed(old(S()).(lastfree := lastfree), S(), s.i, key) && arr == old(arr) &&
          node == old(node)
      decreases if room then 0 else 1, 0
    {
      hide Brent, Lookup, Only, NodesNeeded, BestSize, Enlarged;
      var mp := MainPos(hash, key, node.Length);
      if node[mp].val != Nil || dummy {
        ghost var t := S();
        var n := GetFreePos();
        if n == -1 {
          LastfreeOnly(t, lastfree);
          NodesNeededOnly(t, lastfree, key);
          assert S() == t.(lastfree := lastfree);
          ok := Rehash(key);
          assert ok <==> !Crowded(hash, t, key);
          if !ok { return Absent, false; }
          var r := Set(key, true);
          return r.slot, true;
        }
        assert HasFree(t.node);
        NotPackedYet(hash, t, layout, n);
        LastfreeOnly(t, lastfree);
        var othern := MainPos(hash, node[mp].key, node.Length);
        if othern != mp {
          MoveColliding(mp, n, key);
        } else {
          InsertAfter(mp, n, key);
          mp := n;
        }
      } else {
        Replace(mp, key);
      }
      return InNode(mp), true;
    }

    /** luaH_set and, when the key is a string or an integer, luaH_setstr and luaH_setnum. */
    method Set(key: Key, ghost room: bool) returns (r: SetResult)
      requires Valid()
      requires room ==>
        InArray(arr[..], key) || (key != NilKey && !dummy && (HasFree(node[..]) || exists i :: Holds(node[..], i, key)))
      modifies this, arr, node
      ensures r.NilIndex? <==> key == NilKey
      ensures Valid() && SameMap(old(S()), S())
      ensures r.NilIndex? ==> S() == old(S())
      ensures r.At? ==> SlotOf(S(), key, r.slot) && r.slot != Absent
      ensures r.At? && r.slot.InNode? ==> !dummy
      ensures r.Overflow? <==> Missing(old(S()), key) && Crowded(hash, old(S()), key)
      ensures r.Overflow? ==> Enlarged(old(S()), S(), BestSize(Keys(old(S())) + {key}))
      ensures arr == old(arr) || fresh(arr)
      ensures node == old(node) || fresh(node)
      ensures room ==>
        r.At? && arr == old(arr) && node == old(node) && dummy == old(dummy) && Only(old(node[..]), node[..], key)
      decreases if room then 0 else 1, 1
    {
      hide Brent, Lookup, NodesNeeded, BestSize, Enlarged;
      var s := Get(key);
      if s != Absent {
        OnlySelf(node[..], key);
        if s.InNode? { NotDummy(hash, S(), layout, s.i); }
        return At(s);
      }
      if key == NilKey { return NilIndex; }
      var slot, ok := NewKey(key, room);
      return if ok then At(slot) else Overflow;
    }

    /** A place found by Set gets its value. */
    method Store(key: Key, s: Slot, v: Value)
      requires Valid() && SlotOf(S(), key, s) && s != Absent && (s.InNode? ==> !dummy)
      modifies arr, node
      ensures Valid() && forall k :: Lookup(S(), k) == if k == key then v else old(Lookup(S(), k))
      ensures forall i :: Live(node[..], i) <==> old(Live(node[..], i))
      ensures forall i :: Live(node[..], i) ==> node[i].key == old(node[..])[i].key
    {
      ghost var t := S();
      match s {
        case InArr(i) =>
          arr[i] := v;
          assert StoredIn(t, S(), s, v);
        case InNode(i) =>
          assert Live(t.node, i);
          StoreNode(hash, t, layout, i, v);
          node[i] := node[i].(val := v);
          assert StoredIn(t, S(), s, v);
      }
      forall k ensures Lookup(S(), k) == if k == key then v else Lookup(t, k) { StoreLookup(t, S(), key, s, v, k); }
    }

    /** t[key] = v, as the virtual machine does it. The error "table overflow" occurs exactly when the key has no node
        and gets none, and more nodes would be needed than a table can have; neither error changes the map. */
    method Put(key: Key, v: Value) returns (r: SetResult)
      requires Valid()
      modifies this, arr, node
      ensures Valid()
      ensures forall k :: Lookup(S(), k) == if r.At? && k == key then v else old(Lookup(S(), k))
      ensures r.NilIndex? <==> key == NilKey
      ensures r.NilIndex? ==> S() == old(S())
      ensures r.Overflow? <==> Missing(old(S()), key) && Crowded(hash, old(S()), key)
    {
      hide Brent, Lookup, Crowded;
      r := Set(key, false);
      if r.At? { Store(key, r.slot, v); }
    }

    // ----- resizing

    /** setarrayvector. */
    method SetArrayVector(size: nat)
      modifies `arr
      ensures fresh(arr) && arr.Length == size
      ensures forall i :: 0 <= i < size ==> arr[i] == if i < old(arr.Length) then old(arr[..])[i] else Nil
    {
      var was := arr;
      arr := new Value[size](_ => Nil);
      for i := 0 to size
        invariant fresh(arr) && arr.Length == size && was == old(arr) && was[..] == old(arr[..])
        invariant forall j :: 0 <= j < i ==> arr[j] == if j < was.Length then was[j] else Nil
        invariant forall j :: i <= j < size ==> arr[j] == Nil
      {
        if i < was.Length { arr[i] := was[i]; }
      }
    }

    /** setnodevector; false is the error "table overflow". */
    method SetNodeVector(size: nat) returns (ok: bool)
      modifies `node, `lsizenode, `dummy, `lastfree, `layout
      ensures ok <==> size <= MAXASIZE
      ensures ok ==> fresh(node) && AllFree(node[..]) && size <= node.Length == Pow2(lsizenode) && lsizenode <= MAXBITS
      ensures ok ==> layout == FreeLayout(node.Length) && dummy == (size == 0) && (size > 0 ==> node.Length < 2 * size)
      ensures ok ==> if dummy then node.Length == 1 && lastfree == 0 else lastfree == node.Length
      ensures !ok ==> node == old(node) && dummy == old(dummy) && lsizenode == old(lsizenode)
      ensures !ok ==> lastfree == old(lastfree) && layout == old(layout)
    {
      if size == 0 {
        lsizenode, dummy, lastfree := 0, true, 0;
        node := new Node[1](_ => FreeNode());
        layout := FreeLayout(1);
        return true;
      }
      LogFits(size);
      var lsize := CeilLog2(size);
      if lsize > MAXBITS { return false; }
      lsizenode, dummy := lsize, false;
      node := new Node[Pow2(lsize)](_ => FreeNode());
      lastfree := node.Length;
      layout := FreeLayout(node.Length);
      return true;
    }

    /** resize: every entry is inserted again, and none of the insertions rehashes. */
    method Resize(nasize: nat, nhsize: nat) returns (ok: bool)
      requires Valid() && nasize <= MAXASIZE && |HashKeys(S(), nasize)| <= nhsize
      modifies this, arr
      ensures ok <==> nhsize <= MAXASIZE
      ensures !ok ==> Enlarged(old(S()), S(), nasize) && node == old(node) && lsizenode == old(lsizenode)
      ensures !ok ==> lastfree == old(lastfree) && layout == old(layout)
      ensures arr == old(arr) || fresh(arr)
      ensures node == old(node) || fresh(node)
      ensures ok ==> Valid() && fresh(node) && arr.Length == nasize && SameMap(old(S()), S())
      ensures ok ==>
        nhsize <= node.Length && (nhsize == 0 ==> dummy) && (nhsize > 0 ==> !dummy && node.Length < 2 * nhsize)
      ensures ok ==> forall i :: Live(node[..], i) ==> node[i].key in HashKeys(old(S()), nasize)
      decreases 0, 4
    {
      hide Brent, Lookup, HashKeys, AllFree, Partly;
      ghost var t, y := S(), layout;
      BrentParts(hash, t, y);
      var oarr, onode := arr, node;
      if nasize > arr.Length { SetArrayVector(nasize); }
      ok := SetNodeVector(nhsize);
      if !ok { return; }
      if nasize < oarr.Length { SetArrayVector(nasize); }
      FreeBrent(hash, S(), layout);
      assert Cleared(t, S(), nasize);
      ClearedPartly(t, S(), nasize);
      if nasize < oarr.Length { MoveSlots(oarr, nasize, nhsize, t, y); } else { KeptSlots(t, S(), nasize); }
      MoveNodes(onode, nasize, nhsize, t, y);
      AllMoved(t, S(), nasize);
      PartlyKeys(t, S(), nasize, |t.arr|, 0);
    }

    /** The entries of the slice the array part loses. */
    method MoveSlots(oarr: array<Value>, nasize: nat, nhsize: nat, ghost t: T, ghost y: Layout)
      requires Valid() && arr.Length == nasize < oarr.Length <= MAXASIZE && oarr != arr && oarr[..] == t.arr &&
        Brent(hash, t, y)
      requires Partly(t, S(), nasize, nasize, |t.node|)
      requires |HashKeys(t, nasize)| <= nhsize <= node.Length && (nhsize > 0 ==> !dummy)
      modifies this, arr, node
      ensures Valid() && arr == old(arr) && node == old(node) && dummy == old(dummy)
      ensures Partly(t, S(), nasize, |t.arr|, |t.node|)
      decreases 0, 3
    {
      hide Brent, Lookup, HashKeys, Partly, Unique, Apart, Ordered, Homes;
      BrentParts(hash, t, y);
      for i := nasize to oarr.Length
        invariant Valid() && arr == old(arr) && node == old(node) && dummy == old(dummy) && oarr[..] == t.arr
        invariant Partly(t, S(), nasize, i, |t.node|)
      {
        ghost var cur := S();
        BrentParts(hash, cur, layout);
        PartlyKeys(t, cur, nasize, i, |t.node|);
        if oarr[i] != Nil {
          SlotKey(t, i);
          MovedRoom(hash, t, y, cur, nasize, IntKey(i + 1));
          SomeRoom(t, nasize, IntKey(i + 1));
          Reinsert(IntKey(i + 1), oarr[i], nasize, nhsize, t);
          MovedSlot(t, cur, S(), nasize, i);
        } else {
          SkipSlot(t, cur, nasize, i);
        }
      }
    }

    /** The entries of the old node vector. */
    method MoveNodes(onode: array<Node>, nasize: nat, nhsize: nat, ghost t: T, ghost y: Layout)
      requires Valid() && arr.Length == nasize && onode != node && onode[..] == t.node && Brent(hash, t, y) &&
        |t.arr| <= MAXASIZE
      requires Partly(t, S(), nasize, |t.arr|, |t.node|)
      requires |HashKeys(t, nasize)| <= nhsize <= node.Length && (nhsize > 0 ==> !dummy)
      modifies this, arr, node
      ensures Valid() && arr == old(arr) && node == old(node) && dummy == old(dummy)
      ensures Partly(t, S(), nasize, |t.arr|, 0)
      decreases 0, 3
    {
      hide Brent, Lookup, HashKeys, Partly, Unique, Apart, Ordered, Homes;
      BrentParts(hash, t, y);
      var i := onode.Length;
      while i > 0
        invariant Valid() && arr == old(arr) && node == old(node) && dummy == old(dummy) && onode[..] == t.node
        invariant 0 <= i <= |t.node| && Partly(t, S(), nasize, |t.arr|, i)
      {
        i := i - 1;
        ghost var cur := S();
        BrentParts(hash, cur, layout);
        PartlyKeys(t, cur, nasize, |t.arr|, i + 1);
        if onode[i].val != Nil {
          NodeKey(hash, t, y, i);
          MovedRoom(hash, t, y, cur, nasize, onode[i].key);
          SomeRoom(t, nasize, onode[i].key);
          Reinsert(onode[i].key, onode[i].val, nasize, nhsize, t);
          MovedNode(t, cur, S(), nasize, i);
        } else {
          SkipNode(t, cur, nasize, i);
        }
      }
    }

    /** One entry inserted again. */
    method Reinsert(key: Key, v: Value, nasize: nat, nhsize: nat, ghost t: T)
      requires Valid() && arr.Length == nasize && key != NilKey
      requires InArray(arr[..], key) ||
        (key in HashKeys(t, nasize) && !dummy && (HasFree(node[..]) || exists i :: Holds(node[..], i, key)))
      requires forall i :: Live(node[..], i) ==> node[i].key in HashKeys(t, nasize)
      modifies this, arr, node
      ensures Valid() && arr == old(arr) && node == old(node) && dummy == old(dummy)
      ensures forall k :: Lookup(S(), k) == if k == key then v else old(Lookup(S(), k))
      ensures forall i :: Live(node[..], i) ==> node[i].key in HashKeys(t, nasize)
      decreases 0, 2
    {
      ghost var was, wasDummy := node[..], dummy;
      var r := Set(key, true);
      OnlyInside(was, node[..], key, HashKeys(t, nasize));
      Store(key, r.slot, v);
    }

    /** luaH_resizearray, for an array part that grows. */
    method ResizeArray(nasize: nat) returns (ok: bool)
      requires Valid() && arr.Length <= nasize <= MAXASIZE
      modifies this, arr
      ensures ok && Valid() && arr.Length == nasize && SameMap(old(S()), S())
    {
      NodesFit(lsizenode);
      var nsize := if dummy then 0 else node.Length;
      GrowingKeys(S(), nasize);
      ok := Resize(nasize, nsize);
    }

    // ----- rehash

    /** numusearray. */
    method NumUseArray(nums: array<nat>) returns (ause: nat)
      requires Valid() && nums.Length == MAXBITS + 1 && nums[..] == seq(MAXBITS + 1, _ => 0)
      modifies nums
      ensures Counted(nums[..], ArrayKeys(arr[..], arr.Length)) && ause == |ArrayKeys(arr[..], arr.Length)|
    {
      hide Brent, InSlices, ArrayKeys, Counted, Pow2;
      var lg, ttlg, i := 0, 1, 1;
      ause := 0;
      SliceStart(arr[..]);
      assert Pow2(0) == 1 by { PowFirst(); }
      while lg <= MAXBITS
        invariant 0 <= lg <= MAXBITS + 1 && ttlg == Pow2(lg)
        invariant InSlices(arr[..], nums[..], lg, i, ause)
        decreases MAXBITS + 1 - lg
      {
        SliceBounds(arr[..], nums[..], lg, i, ause);
        var lim := ttlg;
        if lim > arr.Length {
          lim := arr.Length;
          if i > lim {
            SlicesEnd(arr[..], nums[..], lg, i, ause);
            return;
          }
        }
        var lc := 0;
        ghost var first, counts := i, nums[..];
        while i <= lim
          invariant first <= i <= lim + 1 && nums[..] == counts
          invariant lc == |ArrayKeys(arr[..], i - 1)| - |ArrayKeys(arr[..], first - 1)|
        {
          NextKey(arr[..], i - 1);
          if arr[i - 1] != Nil { lc := lc + 1; }
          i := i + 1;
        }
        SliceDone(arr[..], nums[..], lg, first, i, ause, lc);
        nums[lg] := nums[lg] + lc;
        ause := ause + lc;
        lg, ttlg := lg + 1, ttlg * 2;
      }
      SlicesAll(arr[..], nums[..], i, ause);
    }

    /** numusehash: the nodes with a value, and how many of their keys may go to the array part. */
    method NumUseHash(nums: array<nat>, ghost s: set<Key>) returns (totaluse: nat, ause: nat)
      requires Valid() && nums.Length == MAXBITS + 1 && Counted(nums[..], s) && s !! NodeKeys(node[..], 0)
      modifies nums
      ensures Counted(nums[..], s + NodeKeys(node[..], 0))
      ensures totaluse == |NodeKeys(node[..], 0)| && ause == |Upto(NodeKeys(node[..], 0), MAXASIZE)|
    {
      hide Brent, Counted, Upto, NodeKeys, CountInt;
      totaluse, ause := 0, 0;
      var i := node.Length;
      BrentParts(hash, S(), layout);
      hide Ordered, Homes, Unique, Apart;
      NoKeys(node[..]);
      assert s + NodeKeys(node[..], i) == s;
      while i > 0
        invariant 0 <= i <= node.Length
        invariant Counted(nums[..], s + NodeKeys(node[..], i))
        invariant totaluse == |NodeKeys(node[..], i)| && ause == |Upto(NodeKeys(node[..], i), MAXASIZE)|
      {
        i := i - 1;
        NodeKeysStep(node[..], layout, i, s);
        if node[i].val != Nil {
          CountIntCounts(nums[..], s + NodeKeys(node[..], i + 1), node[i].key);
          assert s + NodeKeys(node[..], i + 1) + {node[i].key} == s + NodeKeys(node[..], i);
          var c := CountKey(node[i].key, nums);
          ause := ause + c;
          totaluse := totaluse + 1;
        }
      }
    }

    /** countint. */
    static method CountKey(key: Key, nums: array<nat>) returns (c: nat)
      requires nums.Length == MAXBITS + 1
      modifies nums
      ensures nums[..] == CountInt(key, old(nums[..])) && c == if 1 <= ArrayIndex(key) <= MAXASIZE then 1 else 0
    {
      var k := ArrayIndex(key);
      if 0 < k && k <= MAXASIZE {
        SmallLog(k);
        var l := CeilLog2(k);
        nums[l] := nums[l] + 1;
        return 1;
      }
      return 0;
    }

    /** rehash: both parts get the sizes the keys call for, counting the key to be inserted. */
    method Rehash(key: Key) returns (ok: bool)
      requires Valid() && Missing(S(), key)
      modifies this, arr
      ensures arr == old(arr) || fresh(arr)
      ensures node == old(node) || fresh(node)
      ensures Valid() && SameMap(old(S()), S())
      ensures ok ==> InArray(arr[..], key) || (!dummy && HasFree(node[..]))
      ensures ok ==> arr.Length == BestSize(Keys(old(S())) + {key})
      ensures ok ==> var needed := NodesNeeded(old(S()), key); needed <= node.Length < 2 * needed + 2
      ensures ok <==> NodesNeeded(old(S()), key) <= MAXASIZE
      ensures !ok ==> Enlarged(old(S()), S(), BestSize(Keys(old(S())) + {key}))
      decreases 0, 5
    {
      hide Brent, Enlarged, BestSize, Counted, Upto, NodeKeys, CountInt, ArrayKeys, HashKeys, Fits, Best, Sum, Lookup;
      ghost var t := S();
      var nums := new nat[MAXBITS + 1](_ => 0);
      var nasize := NumUseArray(nums);
      ghost var a, b := ArrayKeys(arr[..], arr.Length), NodeKeys(node[..], 0);
      KeysApart(hash, t, layout);
      var u, i := NumUseHash(nums, a);
      MissingKey(t, key);
      CountIntCounts(nums[..], a + b, key);
      var c := CountKey(key, nums);
      ghost var s := a + b + {key};
      CountedFits(nums[..], s);
      TotalUse(t, key);
      var n, na := ComputeSizes(nums[..], nasize + i + c);
      SizesOfKeys(nums[..], s, n, na);
      HashUse(t, key, n);
      ok := Resize(n, nasize + u + 1 - na);
      if ok {
        BrentParts(hash, S(), layout);
        RoomForKey(t, S(), n, key);
      } else {
        NodesFit(lsizenode);
        OverflowKeeps(hash, t, S(), layout, key);
      }
    }

    // ----- traversal

    /** luaH_next. */
    method Next(key: Key) returns (r: NextResult)
      requires Valid()
      ensures r == BadKey <==> !Known(S(), key)
      ensures r != BadKey ==> NextOf(S(), PosOf(S(), key), r)
    {
      hide Brent, Lookup;
      ghost var t := S();
      var p, ok := FindIndex(key);
      if !ok { return BadKey; }
      var i := p + 1;
      while i < arr.Length
        invariant p < i && 0 <= i <= Total(t)
        invariant EmptyBetween(t, p, i)
      {
        if arr[i] != Nil {
          assert IsEntry(t, i, IntKey(i + 1), arr[i]);
          return Entry(IntKey(i + 1), arr[i]);
        }
        i := i + 1;
      }
      i := i - arr.Length;
      while i < node.Length
        invariant 0 <= i <= node.Length && p < i + arr.Length
        invariant EmptyBetween(t, p, i + arr.Length)
      {
        if node[i].val != Nil {
          assert IsEntry(t, i + arr.Length, node[i].key, node[i].val);
          return Entry(node[i].key, node[i].val);
        }
        i := i + 1;
      }
      return Done;
    }

    /** findindex. */
    method FindIndex(key: Key) returns (i: int, ok: bool)
      requires Valid()
      ensures ok <==> Known(S(), key)
      ensures ok ==> i == PosOf(S(), key) && -1 <= i < Total(S())
    {
      hide Brent, Lookup;
      if key == NilKey { return -1, true; }
      var k := ArrayIndex(key);
      if 0 < k && k <= arr.Length { return k - 1, true; }
      var n := FindInChain(key);
      if n == -1 { return 0, false; }
      BrentParts(hash, S(), layout);
      assert Live(node[..], n) && Live(node[..], Find(node[..], key));
      return n + arr.Length, true;
    }

    // ----- the border

    /** The value of an integer key. */
    method NumValue(k: int) returns (v: Value)
      requires Valid() && -0x8000_0000 <= k < 0x8000_0000
      ensures v == Lookup(S(), IntKey(k))
    {
      hide Brent, Lookup;
      BrentParts(hash, S(), layout);
      var s := GetNum(k);
      SlotValue(S(), IntKey(k), s);
      match s
      case Absent => return Nil;
      case InArr(i) => return arr[i];
      case InNode(i) => return node[i].val;
    }

    /** luaH_getn. */
    method GetN() returns (r: int)
      requires Valid()
      ensures Border(S(), r)
    {
      hide Brent, Lookup;
      var j := arr.Length;
      if j > 0 && arr[j - 1] == Nil {
        var i := 0;
        while j - i > 1
          invariant 0 <= i < j <= arr.Length && arr[j - 1] == Nil && (i > 0 ==> arr[i - 1] != Nil)
        {
          var m := (i + j) / 2;
          if arr[m - 1] == Nil { j := m; } else { i := m; }
        }
        SlotKey(S(), i);
        if i > 0 { SlotKey(S(), i - 1); }
        return i;
      } else if dummy {
        if j > 0 { SlotKey(S(), j - 1); }
        DummyBorder(hash, S(), layout);
        return j;
      }
      if j > 0 { SlotKey(S(), j - 1); }
      r := UnboundSearch(j);
    }

    /** unbound_search. */
    method UnboundSearch(first: nat) returns (r: int)
      requires Valid() && first <= MAXASIZE && (first > 0 ==> Lookup(S(), IntKey(first)) != Nil)
      ensures Border(S(), r)
    {
      hide Brent, Lookup;
      var i, j := first, first + 1;
      var v := NumValue(j);
      while v != Nil
        invariant 0 <= i < j < 0x8000_0000 && v == Lookup(S(), IntKey(j))
        invariant i > 0 ==> Lookup(S(), IntKey(i)) != Nil
        decreases 0x8000_0000 - j
      {
        i := j;
        j := j * 2;
        if j > 0x7fff_ffff {
          r := LinearSearch();
          return;
        }
        v := NumValue(j);
      }
      while j - i > 1
        invariant 0 <= i < j < 0x8000_0000 && Lookup(S(), IntKey(j)) == Nil
        invariant i > 0 ==> Lookup(S(), IntKey(i)) != Nil
      {
        var m := (i + j) / 2;
        v := NumValue(m);
        if v == Nil { j := m; } else { i := m; }
      }
      return i;
    }

    /** The linear search of unbound_search, for a table whose keys overflow its doubling. */
    method LinearSearch() returns (r: int)
      requires Valid()
      ensures Border(S(), r)
    {
      hide Brent, Lookup;
      BrentSound(hash, S(), layout);
      NodesFit(lsizenode);
      var i := 1;
      var v := NumValue(1);
      while v != Nil
        invariant 1 <= i <= Total(S()) + 1 && v == Lookup(S(), IntKey(i))
        invariant forall q: int :: 1 <= q < i ==> Lookup(S(), IntKey(q)) != Nil
        decreases Total(S()) + 1 - i
      {
        FewKeys(S(), i);
        i := i + 1;
        v := NumValue(i);
      }
      return i - 1;
    }
  }
}
