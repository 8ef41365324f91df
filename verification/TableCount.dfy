/** Counting for rehash: how many keys go to the array part, and how many nodes the hash part needs. */
module TableCount {
  import opened TableModel

  function Pow2(n: nat): (r: nat)
    ensures r > 0
  {
    if n == 0 then 1 else 2 * Pow2(n - 1)
  }

  /** ceillog2. */
  function CeilLog2(x: nat): (l: nat)
    requires x > 0
    ensures x <= Pow2(l) && (l > 0 ==> Pow2(l - 1) < x)
  {
    if x == 1 then 0 else 1 + CeilLog2((x + 1) / 2)
  }

  lemma {:induction false} Pow2Grows(i: nat, j: nat)
    requires i <= j
    ensures Pow2(i) <= Pow2(j)
    decreases j - i
  {
    if i < j { Pow2Grows(i, j - 1); }
  }

  lemma CeilLog2Unique(x: nat, l: nat)
    requires x > 0 && x <= Pow2(l) && (l > 0 ==> Pow2(l - 1) < x)
    ensures CeilLog2(x) == l
  {
    var c := CeilLog2(x);
    if c < l { Pow2Grows(c, l - 1); } else if l < c { Pow2Grows(l, c - 1); }
  }

  // ----- slices

  /** The integer keys between 2^(i-1) and 2^i. */
  ghost function Slice(s: set<Key>, i: nat): set<Key> {
    set k | k in s && 1 <= ArrayIndex(k) && CeilLog2(ArrayIndex(k)) == i
  }

  /** The integer keys from 1 to x. */
  ghost function Upto(s: set<Key>, x: nat): set<Key> {
    set k | k in s && 1 <= ArrayIndex(k) <= x
  }

  ghost predicate Counted(nums: seq<nat>, s: set<Key>) {
    |nums| == MAXBITS + 1 && forall i :: 0 <= i <= MAXBITS ==> nums[i] == |Slice(s, i)|
  }

  /** What countint adds to the counts. */
  function CountInt(k: Key, nums: seq<nat>): seq<nat>
    requires |nums| == MAXBITS + 1
  {
    if 1 <= ArrayIndex(k) <= MAXASIZE then
      var i := CeilLog2(ArrayIndex(k));
      if i <= MAXBITS then nums[i := nums[i] + 1] else nums
    else nums
  }

  lemma MaxSize()
    ensures Pow2(MAXBITS) == MAXASIZE
  {
    assert Pow2(10) == 1024;
    assert Pow2(20) == 1024 * 1024 by { assert Pow2(15) == 32768; }
    assert Pow2(26) == 64 * Pow2(20);
  }

  lemma CountIntSlice(s: set<Key>, k: Key, i: nat)
    requires k !in s
    ensures |Slice(s + {k}, i)| == |Slice(s, i)| + if 1 <= ArrayIndex(k) && CeilLog2(ArrayIndex(k)) == i then 1 else 0
  {
    hide CeilLog2;
    if 1 <= ArrayIndex(k) && CeilLog2(ArrayIndex(k)) == i {
      assert Slice(s + {k}, i) == Slice(s, i) + {k};
    } else {
      assert Slice(s + {k}, i) == Slice(s, i);
    }
  }

  lemma CountIntCounts(nums: seq<nat>, s: set<Key>, k: Key)
    requires Counted(nums, s) && k !in s
    ensures Counted(CountInt(k, nums), s + {k})
  {
    hide Slice, CeilLog2, ArrayIndex;
    var x := ArrayIndex(k);
    if x > MAXASIZE { BigLog(x); }
    if 1 <= x <= MAXASIZE { SmallLog(x); }
    forall i | 0 <= i <= MAXBITS ensures CountInt(k, nums)[i] == |Slice(s + {k}, i)| {
      CountIntSlice(s, k, i);
    }
  }

  lemma SmallLog(x: nat)
    requires 1 <= x <= MAXASIZE
    ensures CeilLog2(x) <= MAXBITS
  {
    MaxSize();
    if CeilLog2(x) > MAXBITS { Pow2Grows(MAXBITS, CeilLog2(x) - 1); }
  }

  lemma BigLog(x: nat)
    requires x > MAXASIZE
    ensures CeilLog2(x) > MAXBITS
  {
    MaxSize();
    if CeilLog2(x) <= MAXBITS { Pow2Grows(CeilLog2(x), MAXBITS); }
  }

  // ----- how many integer keys there are up to a power of two

  function Sum(nums: seq<nat>, n: nat): nat
    requires n <= |nums|
  {
    if n == 0 then 0 else Sum(nums, n - 1) + nums[n - 1]
  }

  lemma SliceRange(x: int, n: nat)
    requires x >= 1
    ensures CeilLog2(x) == n <==> (n > 0 ==> Pow2(n - 1) < x) && x <= Pow2(n)
  {
    if (n > 0 ==> Pow2(n - 1) < x) && x <= Pow2(n) { CeilLog2Unique(x, n); }
  }

  lemma FirstSlice(s: set<Key>)
    ensures Slice(s, 0) == Upto(s, Pow2(0))
  {
    forall k | k in s && ArrayIndex(k) >= 1 ensures k in Slice(s, 0) <==> k in Upto(s, Pow2(0)) {
      SliceRange(ArrayIndex(k), 0);
    }
  }

  lemma NextSlice(s: set<Key>, n: nat)
    requires n > 0
    ensures Upto(s, Pow2(n)) == Upto(s, Pow2(n - 1)) + Slice(s, n) && Upto(s, Pow2(n - 1)) !! Slice(s, n)
  {
    Pow2Grows(n - 1, n);
    hide Pow2, CeilLog2;
    forall k | k in s && ArrayIndex(k) >= 1
      ensures k in Upto(s, Pow2(n)) <==> k in Upto(s, Pow2(n - 1)) || k in Slice(s, n)
      ensures !(k in Upto(s, Pow2(n - 1)) && k in Slice(s, n))
    {
      SliceRange(ArrayIndex(k), n);
    }
  }

  lemma {:induction false} SumUpto(nums: seq<nat>, s: set<Key>, n: nat)
    requires Counted(nums, s) && n <= MAXBITS
    ensures Sum(nums, n + 1) == |Upto(s, Pow2(n))|
  {
    hide Slice, Upto;
    if n == 0 {
      FirstSlice(s);
      assert Sum(nums, 1) == Sum(nums, 0) + nums[0];
    } else {
      SumUpto(nums, s, n - 1);
      NextSlice(s, n);
    }
  }

  /** The keys 1 to x. */
  ghost function Range(x: nat): set<Key> {
    set i: int | 1 <= i <= x :: IntKey(i)
  }

  lemma {:induction false} RangeSize(x: nat)
    ensures |Range(x)| <= x
  {
    if x > 0 {
      RangeSize(x - 1);
      assert Range(x) == Range(x - 1) + {IntKey(x)};
    }
  }

  lemma {:induction false} SubsetSize<A>(a: set<A>, b: set<A>)
    requires a <= b
    ensures |a| <= |b|
    decreases |a|
  {
    if a != {} {
      var x :| x in a;
      SubsetSize(a - {x}, b - {x});
    }
  }

  lemma UptoSize(s: set<Key>, x: nat)
    ensures |Upto(s, x)| <= x
  {
    forall k | k in Upto(s, x) ensures k in Range(x) {
      assert k == IntKey(ArrayIndex(k));
    }
    RangeSize(x);
    SubsetSize(Upto(s, x), Range(x));
  }

  lemma {:induction false} SumGrows(nums: seq<nat>, i: nat, j: nat)
    requires i <= j <= |nums|
    ensures Sum(nums, i) <= Sum(nums, j)
    decreases j - i
  {
    if i < j { SumGrows(nums, i, j - 1); }
  }

  // ----- computesizes

  /** More than half of the slots 1 to 2^i would be in use. */
  predicate Dense(nums: seq<nat>, i: nat)
    requires i < |nums|
  {
    Sum(nums, i + 1) > Pow2(i) / 2
  }

  /** No slice has more keys than it has slots. */
  ghost predicate Fits(nums: seq<nat>) {
    |nums| == MAXBITS + 1 && forall i :: 0 <= i <= MAXBITS ==> Sum(nums, i + 1) <= Pow2(i)
  }

  /** Of the first i powers of two, n is the largest one more than half in use, by na keys; 0 if there is none. */
  ghost predicate Best(nums: seq<nat>, i: nat, n: nat, na: nat)
    requires i <= |nums|
  {
    && (n == 0 ==> na == 0)
    && (n > 0 ==> exists j :: 0 <= j < i && n == Pow2(j) && Dense(nums, j) && na == Sum(nums, j + 1))
    && forall j :: 0 <= j < i && Dense(nums, j) ==> Pow2(j) <= n
  }

  lemma BestTake(nums: seq<nat>, i: nat, n: nat, na: nat)
    requires i < |nums| && Best(nums, i, n, na) && Dense(nums, i)
    ensures Best(nums, i + 1, Pow2(i), Sum(nums, i + 1))
  {
    hide Dense, Sum;
    forall j | 0 <= j < i + 1 && Dense(nums, j) ensures Pow2(j) <= Pow2(i) { Pow2Grows(j, i); }
  }

  lemma BestSkip(nums: seq<nat>, i: nat, i2: nat, n: nat, na: nat)
    requires i <= i2 <= |nums| && Best(nums, i, n, na) && forall j :: i <= j < i2 ==> !Dense(nums, j)
    ensures Best(nums, i2, n, na)
  {
    hide Dense, Sum, Pow2;
  }

  lemma BestSame(nums: seq<nat>, i: nat, n: nat, na: nat)
    requires i < |nums| && Best(nums, i, n, na) && !Dense(nums, i)
    ensures Best(nums, i + 1, n, na)
  {
    hide Dense, Sum, Pow2, Best;
    BestSkip(nums, i, i + 1, n, na);
  }

  lemma SumStep(nums: seq<nat>, i: nat)
    requires i < |nums|
    ensures Sum(nums, i + 1) == Sum(nums, i) + nums[i] && Pow2(i + 1) == 2 * Pow2(i)
    ensures Dense(nums, i) <==> Sum(nums, i + 1) > Pow2(i) / 2
  {
  }

  /** computesizes: the largest power of two n such that more than half of the slots 1 to n are in use, and how
      many keys those are. */
  method ComputeSizes(nums: seq<nat>, narray: nat) returns (n: nat, na: nat)
    requires Fits(nums) && narray == Sum(nums, MAXBITS + 1)
    ensures Best(nums, MAXBITS + 1, n, na)
  {
    assert |nums| == MAXBITS + 1;
    hide *;
    var i, twotoi, a := 0, 1, 0;
    n, na := 0, 0;
    FirstBest(nums);
    while twotoi / 2 < narray
      invariant 0 <= i <= MAXBITS + 1 && twotoi == Pow2(i) && a == Sum(nums, i)
      invariant Best(nums, i, n, na)
      decreases MAXBITS + 1 - i
    {
      InBounds(nums, i);
      SumStep(nums, i);
      if nums[i] > 0 {
        a := a + nums[i];
        if a > twotoi / 2 {
          BestTake(nums, i, n, na);
          n := twotoi;
          na := a;
        } else {
          BestSame(nums, i, n, na);
        }
      } else {
        EmptySlice(nums, i);
        BestSame(nums, i, n, na);
      }
      assert a == Sum(nums, i + 1) && Best(nums, i + 1, n, na);
      if a == narray {
        CountedEnd(nums, i, n, na);
        return;
      }
      i, twotoi := i + 1, twotoi * 2;
    }
    SparseEnd(nums, i, n, na);
  }

  lemma SparseEnd(nums: seq<nat>, i: nat, n: nat, na: nat)
    requires |nums| == MAXBITS + 1 && i <= MAXBITS + 1 && Best(nums, i, n, na) && Pow2(i) / 2 >= Sum(nums, MAXBITS + 1)
    ensures Best(nums, MAXBITS + 1, n, na)
  {
    hide Sum, Pow2, Dense, Best;
    forall j | i <= j <= MAXBITS ensures !Dense(nums, j) { Sparse(nums, i, j); }
    BestSkip(nums, i, MAXBITS + 1, n, na);
  }

  lemma CountedEnd(nums: seq<nat>, i: nat, n: nat, na: nat)
    requires Fits(nums) && i <= MAXBITS && Best(nums, i + 1, n, na) && Sum(nums, i + 1) == Sum(nums, MAXBITS + 1)
    ensures Best(nums, MAXBITS + 1, n, na)
  {
    AllCounted(nums, i);
    hide Sum, Pow2, Dense, Best;
    BestSkip(nums, i + 1, MAXBITS + 1, n, na);
  }

  lemma FirstBest(nums: seq<nat>)
    requires |nums| == MAXBITS + 1
    ensures Best(nums, 0, 0, 0) && Pow2(0) == 1 && Sum(nums, 0) == 0
  {
  }

  /** The loop of computesizes stays within nums. */
  lemma InBounds(nums: seq<nat>, i: nat)
    requires Fits(nums) && i <= MAXBITS + 1 && Pow2(i) / 2 < Sum(nums, MAXBITS + 1)
    ensures i <= MAXBITS && |nums| == MAXBITS + 1
  {
    assert Pow2(MAXBITS + 1) == 2 * Pow2(MAXBITS);
    assert Sum(nums, MAXBITS + 1) <= Pow2(MAXBITS);
  }

  lemma EmptySlice(nums: seq<nat>, i: nat)
    requires Fits(nums) && i <= MAXBITS && nums[i] == 0
    ensures !Dense(nums, i)
  {
    if i > 0 { assert Sum(nums, i - 1 + 1) <= Pow2(i - 1); } else { assert Sum(nums, 0) == 0; }
  }

  /** Once every key is counted, no larger size is half full. */
  lemma AllCounted(nums: seq<nat>, i: nat)
    requires Fits(nums) && i <= MAXBITS && Sum(nums, i + 1) == Sum(nums, MAXBITS + 1)
    ensures forall j :: i < j <= MAXBITS ==> !Dense(nums, j)
  {
    forall j | i < j <= MAXBITS ensures !Dense(nums, j) {
      SumGrows(nums, i + 1, j + 1);
      SumGrows(nums, j + 1, MAXBITS + 1);
      Pow2Grows(i, j - 1);
    }
  }

  lemma Sparse(nums: seq<nat>, i: nat, j: nat)
    requires |nums| == MAXBITS + 1 && i <= j <= MAXBITS && Pow2(i) / 2 >= Sum(nums, MAXBITS + 1)
    ensures !Dense(nums, j)
  {
    SumGrows(nums, j + 1, MAXBITS + 1);
    Pow2Grows(i, j);
  }

  lemma CountedFits(nums: seq<nat>, s: set<Key>)
    requires Counted(nums, s)
    ensures Fits(nums) && Sum(nums, MAXBITS + 1) == |Upto(s, MAXASIZE)|
  {
    forall i | 0 <= i <= MAXBITS ensures Sum(nums, i + 1) <= Pow2(i) {
      SumUpto(nums, s, i);
      UptoSize(s, Pow2(i));
    }
    SumUpto(nums, s, MAXBITS);
    MaxSize();
  }

  /** The largest of the first i powers of two that is more than half in use, or 0. */
  ghost function BestBelow(s: set<Key>, i: nat): nat {
    if i == 0 then 0 else if |Upto(s, Pow2(i - 1))| > Pow2(i - 1) / 2 then Pow2(i - 1) else BestBelow(s, i - 1)
  }

  /** The size of the array part that a set of keys calls for. */
  ghost function BestSize(s: set<Key>): nat { BestBelow(s, MAXBITS + 1) }

  lemma {:induction false} BestUnique(s: set<Key>, i: nat, n: nat)
    requires n > 0 ==> exists j :: 0 <= j < i && n == Pow2(j) && |Upto(s, n)| > n / 2
    requires forall j :: 0 <= j < i && |Upto(s, Pow2(j))| > Pow2(j) / 2 ==> Pow2(j) <= n
    ensures n == BestBelow(s, i)
  {
    if i > 0 {
      hide Upto;
      if n > 0 {
        var j :| 0 <= j < i && n == Pow2(j) && |Upto(s, n)| > n / 2;
        if |Upto(s, Pow2(i - 1))| > Pow2(i - 1) / 2 {
          if j < i - 1 { Pow2Grows(j, i - 1); }
        } else {
          assert j < i - 1;
          BestUnique(s, i - 1, n);
        }
      } else {
        BestUnique(s, i - 1, n);
      }
    }
  }

  /** Said of the keys: the size chosen is the largest power of two more than half in use. */
  lemma SizesOfKeys(nums: seq<nat>, s: set<Key>, n: nat, na: nat)
    requires Counted(nums, s) && Best(nums, MAXBITS + 1, n, na)
    ensures na == |Upto(s, n)| && n <= MAXASIZE && n == BestSize(s)
    ensures n > 0 ==> |Upto(s, n)| > n / 2
    ensures forall i :: 0 <= i <= MAXBITS && |Upto(s, Pow2(i))| > Pow2(i) / 2 ==> Pow2(i) <= n
  {
    if n == 0 {
      assert Upto(s, 0) == {};
    } else {
      var i :| 0 <= i <= MAXBITS && n == Pow2(i) && Dense(nums, i) && na == Sum(nums, i + 1);
      SumUpto(nums, s, i);
      Pow2Grows(i, MAXBITS);
      MaxSize();
    }
    forall i | 0 <= i <= MAXBITS && |Upto(s, Pow2(i))| > Pow2(i) / 2 ensures Pow2(i) <= n {
      SumUpto(nums, s, i);
    }
    hide Upto, Pow2, Counted, Best;
    BestUnique(s, MAXBITS + 1, n);
  }

  // ----- the keys of a table

  /** The keys with a value in the first n slots of the array part. */
  ghost function ArrayKeys(arr: seq<Value>, n: nat): set<Key>
    requires n <= |arr|
  {
    set i: int | 0 <= i < n && arr[i] != Nil :: IntKey(i + 1)
  }

  /** The keys with a value in the nodes from n on. */
  ghost function NodeKeys(node: seq<Node>, n: nat): set<Key> {
    set i: int | n <= i < |node| && node[i].val != Nil :: node[i].key
  }

  ghost function Keys(t: T): set<Key> { ArrayKeys(t.arr, |t.arr|) + NodeKeys(t.node, 0) }

  /** The keys that go to the hash part when the array part has n slots. */
  ghost function HashKeys(t: T, n: nat): set<Key> { Keys(t) - Upto(Keys(t), n) }
}
