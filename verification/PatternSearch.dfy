/** The search finds exactly the first choice of repetitions that does not fail. */
module PatternSearch {
  import opened Wrappers
  import opened Prototypes
  import opened Patterns

  // ----- trying the counts of one repetition

  /** The rest of the pattern, from q on, does not match after i repetitions. */
  predicate CountFails(src: seq<Byte>, pat: seq<Byte>, q: nat, s: nat, caps: seq<Cap>, i: nat)
    requires q <= |pat| && s + i <= |src|
  {
    Search(src, pat, q, s + i, caps) == Failed
  }

  lemma {:induction false} DownFails(src: seq<Byte>, pat: seq<Byte>, q: nat, s: nat, caps: seq<Cap>, k: int, lo: nat,
                                     j: nat)
    requires q <= |pat| && s + k <= |src| && SearchDown(src, pat, q, s, caps, k, lo) == Failed && lo <= j <= k
    ensures Search(src, pat, q, s + j, caps) == Failed
    decreases k
  {
    hide Search;
    if j < k { DownFails(src, pat, q, s, caps, k - 1, lo, j); }
  }

  lemma {:induction false} DownFinds(src: seq<Byte>, pat: seq<Byte>, q: nat, s: nat, caps: seq<Cap>, k: int, lo: nat)
    returns (j: nat)
    requires q <= |pat| && s + k <= |src| && SearchDown(src, pat, q, s, caps, k, lo) != Failed
    ensures lo <= j <= k && Search(src, pat, q, s + j, caps) == SearchDown(src, pat, q, s, caps, k, lo)
    ensures forall i: nat :: j < i <= k ==> CountFails(src, pat, q, s, caps, i)
    decreases k
  {
    hide Search;
    if Search(src, pat, q, s + k, caps) != Failed { return k; }
    j := DownFinds(src, pat, q, s, caps, k - 1, lo);
    assert CountFails(src, pat, q, s, caps, k);
  }

  lemma {:induction false} UpFails(src: seq<Byte>, pat: seq<Byte>, q: nat, s: nat, caps: seq<Cap>, k: nat, hi: nat,
                                   j: nat)
    requires q <= |pat| && s + hi <= |src| && SearchUp(src, pat, q, s, caps, k, hi) == Failed && k <= j <= hi
    ensures Search(src, pat, q, s + j, caps) == Failed
    decreases hi - k
  {
    hide Search;
    if j > k { UpFails(src, pat, q, s, caps, k + 1, hi, j); }
  }

  lemma {:induction false} UpFinds(src: seq<Byte>, pat: seq<Byte>, q: nat, s: nat, caps: seq<Cap>, k: nat, hi: nat)
    returns (j: nat)
    requires q <= |pat| && s + hi <= |src| && SearchUp(src, pat, q, s, caps, k, hi) != Failed
    ensures k <= j <= hi && Search(src, pat, q, s + j, caps) == SearchUp(src, pat, q, s, caps, k, hi)
    ensures forall i: nat :: k <= i < j ==> CountFails(src, pat, q, s, caps, i)
    decreases hi - k
  {
    hide Search;
    if Search(src, pat, q, s + k, caps) != Failed { return k; }
    j := UpFinds(src, pat, q, s, caps, k + 1, hi);
    assert CountFails(src, pat, q, s, caps, k);
  }

  // ----- failure

  /** When the search fails, every choice fails. */
  lemma {:induction false} AllFail(src: seq<Byte>, pat: seq<Byte>, p: nat, s: nat, caps: seq<Cap>, ch: seq<nat>)
    requires p <= |pat| && s <= |src| && Search(src, pat, p, s, caps) == Failed
    ensures Run(src, pat, p, s, caps, ch) == Failed
    decreases |pat| - p
  {
    hide Step, ItemAt, Reach, SearchDown, SearchUp;
    var it := ItemAt(pat, p);
    if it.End? {
    } else if it.Repeat? {
      var n := Reach(src, pat, it.p, it.ep, s);
      if ch != [] && Least(it.suffix) <= ch[0] <= Most(it.suffix, n) {
        if it.suffix == 45 {
          UpFails(src, pat, it.next, s, caps, 0, n, ch[0]);
        } else {
          DownFails(src, pat, it.next, s, caps, Most(it.suffix, n), Least(it.suffix), ch[0]);
        }
        AllFail(src, pat, it.next, s + ch[0], caps, ch[1..]);
      }
    } else {
      var m := Step(src, pat, it, s, caps);
      if m.Go? { AllFail(src, pat, it.next, m.s, m.caps, ch); }
    }
  }

  // ----- success

  /** The count the search settles on at a repetition; the counts tried before it fail. */
  lemma Settles(src: seq<Byte>, pat: seq<Byte>, p: nat, s: nat, caps: seq<Cap>) returns (j: nat)
    requires p <= |pat| && s <= |src| && ItemAt(pat, p).Repeat? && Search(src, pat, p, s, caps) != Failed
    ensures var it := ItemAt(pat, p);
            var most := Most(it.suffix, Reach(src, pat, it.p, it.ep, s));
            && Least(it.suffix) <= j <= most && s + most <= |src|
            && Search(src, pat, it.next, s + j, caps) == Search(src, pat, p, s, caps)
            && forall i: nat :: Least(it.suffix) <= i <= most && (if it.suffix == 45 then i < j else i > j)
                ==> CountFails(src, pat, it.next, s, caps, i)
  {
    hide Step, ItemAt, Reach, SearchUp, SearchDown;
    var it := ItemAt(pat, p);
    var n := Reach(src, pat, it.p, it.ep, s);
    if it.suffix == 45 {
      j := UpFinds(src, pat, it.next, s, caps, 0, n);
    } else {
      j := DownFinds(src, pat, it.next, s, caps, Most(it.suffix, n), Least(it.suffix));
    }
  }

  /** When the search does not fail, some choice gives its outcome, and every choice tried before it fails. */
  lemma {:induction false} Finds(src: seq<Byte>, pat: seq<Byte>, p: nat, s: nat, caps: seq<Cap>) returns (ch: seq<nat>)
    requires p <= |pat| && s <= |src| && Search(src, pat, p, s, caps) != Failed
    ensures Run(src, pat, p, s, caps, ch) == Search(src, pat, p, s, caps)
    ensures First(src, pat, p, s, caps, ch)
    decreases |pat| - p
  {
    hide Step, ItemAt, Reach, SearchDown, SearchUp;
    var it := ItemAt(pat, p);
    if it.End? {
      ch := [];
    } else if it.Repeat? {
      var j := Settles(src, pat, p, s, caps);
      var rest := Finds(src, pat, it.next, s + j, caps);
      ch := [j] + rest;
      assert ch[1..] == rest;
      forall ch': seq<nat> | Before(pat, p, ch', ch) ensures Run(src, pat, p, s, caps, ch') == Failed {
        EarlierFails(src, pat, p, s, caps, j, rest, ch');
      }
    } else {
      var m := Step(src, pat, it, s, caps);
      if m.Go? {
        ch := Finds(src, pat, it.next, m.s, m.caps);
        forall ch': seq<nat> | Before(pat, p, ch', ch) ensures Run(src, pat, p, s, caps, ch') == Failed {
          assert Before(pat, it.next, ch', ch);
        }
      } else {
        ch := [];
        FaultStops(src, pat, p, s, caps);
      }
    }
  }

  /** A fault at the item itself leaves no choice open. */
  lemma {:induction false} FaultStops(src: seq<Byte>, pat: seq<Byte>, p: nat, s: nat, caps: seq<Cap>)
    requires p <= |pat| && s <= |src| && !ItemAt(pat, p).End? && !ItemAt(pat, p).Repeat?
    requires Step(src, pat, ItemAt(pat, p), s, caps).Fault?
    ensures forall ch': seq<nat> :: !Before(pat, p, ch', [])
  {
    forall ch': seq<nat> ensures !Before(pat, p, ch', []) { NothingBeforeEmpty(pat, p, ch'); }
  }

  lemma {:induction false} NothingBeforeEmpty(pat: seq<Byte>, p: nat, ch': seq<nat>)
    requires p <= |pat|
    ensures !Before(pat, p, ch', [])
    decreases |pat| - p
  {
    var it := ItemAt(pat, p);
    if !it.End? && !it.Bad? && !it.Repeat? { NothingBeforeEmpty(pat, it.next, ch'); }
  }

  lemma EarlierFails(src: seq<Byte>, pat: seq<Byte>, p: nat, s: nat, caps: seq<Cap>, j: nat, rest: seq<nat>,
                     ch': seq<nat>)
    requires p <= |pat| && s <= |src| && ItemAt(pat, p).Repeat?
    requires var it := ItemAt(pat, p);
             var most := Most(it.suffix, Reach(src, pat, it.p, it.ep, s));
             && s + most <= |src| && j <= most && First(src, pat, it.next, s + j, caps, rest)
             && forall i: nat :: Least(it.suffix) <= i <= most && (if it.suffix == 45 then i < j else i > j)
                 ==> CountFails(src, pat, it.next, s, caps, i)
    requires Before(pat, p, ch', [j] + rest)
    ensures Run(src, pat, p, s, caps, ch') == Failed
  {
    hide Step, ItemAt, Reach, Search;
    var it := ItemAt(pat, p);
    assert ([j] + rest)[1..] == rest;
    var most := Most(it.suffix, Reach(src, pat, it.p, it.ep, s));
    if ch'[0] == j {
      assert Before(pat, it.next, ch'[1..], rest);
    } else if Least(it.suffix) <= ch'[0] <= most {
      assert CountFails(src, pat, it.next, s, caps, ch'[0]);
      AllFail(src, pat, it.next, s + ch'[0], caps, ch'[1..]);
    }
  }

  // ----- the search is determined by the order

  /** Two choices that do not fail are ordered, or end alike. */
  lemma {:induction false} Ordered(src: seq<Byte>, pat: seq<Byte>, p: nat, s: nat, caps: seq<Cap>, a: seq<nat>,
                                   b: seq<nat>)
    requires p <= |pat| && s <= |src|
    requires Run(src, pat, p, s, caps, a) != Failed && Run(src, pat, p, s, caps, b) != Failed
    ensures Before(pat, p, a, b) || Before(pat, p, b, a) || Run(src, pat, p, s, caps, a) == Run(src, pat, p, s, caps, b)
    decreases |pat| - p
  {
    hide Step, ItemAt, Reach;
    var it := ItemAt(pat, p);
    if it.End? {
    } else if it.Repeat? {
      if a[0] == b[0] { Ordered(src, pat, it.next, s + a[0], caps, a[1..], b[1..]); }
    } else {
      var m := Step(src, pat, it, s, caps);
      if m.Go? { Ordered(src, pat, it.next, m.s, m.caps, a, b); }
    }
  }

  /** The outcome r is the outcome of the first choice that does not fail, or every choice fails. */
  ghost predicate Preferred(src: seq<Byte>, pat: seq<Byte>, p: nat, s: nat, caps: seq<Cap>, r: Outcome)
    requires p <= |pat| && s <= |src|
  {
    if r == Failed then forall ch: seq<nat> :: Run(src, pat, p, s, caps, ch) == Failed
    else exists ch: seq<nat> :: First(src, pat, p, s, caps, ch) && Run(src, pat, p, s, caps, ch) == r
  }

  /** Sound, complete, and in the right order: the search has the preferred outcome, and no other outcome is
      preferred. */
  lemma SearchExact(src: seq<Byte>, pat: seq<Byte>, p: nat, s: nat, caps: seq<Cap>, r: Outcome)
    requires p <= |pat| && s <= |src|
    ensures Search(src, pat, p, s, caps) == r <==> Preferred(src, pat, p, s, caps, r)
  {
    var found := Search(src, pat, p, s, caps);
    if found == Failed {
      forall ch: seq<nat> ensures Run(src, pat, p, s, caps, ch) == Failed { AllFail(src, pat, p, s, caps, ch); }
    } else {
      var ch0 := Finds(src, pat, p, s, caps);
      if r != Failed && Preferred(src, pat, p, s, caps, r) {
        var ch: seq<nat> :| First(src, pat, p, s, caps, ch) && Run(src, pat, p, s, caps, ch) == r;
        Ordered(src, pat, p, s, caps, ch0, ch);
      }
    }
  }

  // ----- captures

  /** Every capture starts at or before s, and a closed one also ends there. */
  predicate CapturesFit(s: nat, caps: seq<Cap>) {
    && |caps| <= MAXCAPTURES
    && forall l :: 0 <= l < |caps| ==>
        caps[l].init <= s && caps[l].len >= CAP_POSITION && (caps[l].len >= 0 ==> caps[l].init + caps[l].len <= s)
  }

  /** Captures already there stay: their starts, and the whole of those that are not open. */
  predicate Extends(caps: seq<Cap>, more: seq<Cap>) {
    && |caps| <= |more|
    && forall l :: 0 <= l < |caps| ==>
        more[l].init == caps[l].init && (caps[l].len != CAP_UNFINISHED ==> more[l] == caps[l])
  }

  lemma StepCaptures(src: seq<Byte>, pat: seq<Byte>, it: Item, s: nat, caps: seq<Cap>)
    requires s <= |src| && !it.End? && !it.Repeat? && CapturesFit(s, caps)
    requires it.Open? ==> it.what == CAP_POSITION || it.what == CAP_UNFINISHED
    requires Step(src, pat, it, s, caps).Go?
    ensures var m := Step(src, pat, it, s, caps);
            CapturesFit(m.s, m.caps) && Extends(caps, m.caps)
  {
  }

  lemma OpenKinds(pat: seq<Byte>, p: nat)
    requires p <= |pat|
    ensures ItemAt(pat, p).Open? ==> ItemAt(pat, p).what == CAP_POSITION || ItemAt(pat, p).what == CAP_UNFINISHED
  {
  }

  lemma ExtendsSelf(caps: seq<Cap>)
    ensures Extends(caps, caps)
  {
  }

  lemma FitLater(s: nat, t: nat, caps: seq<Cap>)
    requires s <= t && CapturesFit(s, caps)
    ensures CapturesFit(t, caps)
  {
  }

  lemma ExtendsTrans(a: seq<Cap>, b: seq<Cap>, c: seq<Cap>)
    requires Extends(a, b) && Extends(b, c)
    ensures Extends(a, c)
  {
  }

  /** The end of a run and its captures lie in the subject, and earlier captures are kept. */
  lemma {:induction false} RunCaptures(src: seq<Byte>, pat: seq<Byte>, p: nat, s: nat, caps: seq<Cap>, ch: seq<nat>)
    requires p <= |pat| && s <= |src| && CapturesFit(s, caps) && Run(src, pat, p, s, caps, ch).Matched?
    ensures var r := Run(src, pat, p, s, caps, ch);
            s <= r.end <= |src| && CapturesFit(r.end, r.caps) && Extends(caps, r.caps)
    decreases |pat| - p
  {
    hide Step, ItemAt, Reach, SearchDown, SearchUp, Search, CapturesFit, Extends;
    var it := ItemAt(pat, p);
    if it.End? {
      ExtendsSelf(caps);
    } else if it.Repeat? {
      FitLater(s, s + ch[0], caps);
      RunCaptures(src, pat, it.next, s + ch[0], caps, ch[1..]);
    } else {
      var m := Step(src, pat, it, s, caps);
      OpenKinds(pat, p);
      StepCaptures(src, pat, it, s, caps);
      RunCaptures(src, pat, it.next, m.s, m.caps, ch);
      ExtendsTrans(caps, m.caps, Run(src, pat, p, s, caps, ch).caps);
    }
  }

  lemma SearchCaptures(src: seq<Byte>, pat: seq<Byte>, p: nat, s: nat, caps: seq<Cap>)
    requires p <= |pat| && s <= |src| && CapturesFit(s, caps) && Search(src, pat, p, s, caps).Matched?
    ensures var r := Search(src, pat, p, s, caps);
            s <= r.end <= |src| && CapturesFit(r.end, r.caps) && Extends(caps, r.caps)
  {
    var ch := Finds(src, pat, p, s, caps);
    RunCaptures(src, pat, p, s, caps, ch);
  }

  // ----- balanced text

  /** How many times c stands in the text. */
  function Count(t: seq<Byte>, c: Byte): nat {
    if t == [] then 0 else (if t[|t| - 1] == c then 1 else 0) + Count(t[..|t| - 1], c)
  }

  /** Openings less closings between i and j; a delimiter that is both closes. */
  function Excess(src: seq<Byte>, i: nat, j: nat, b: Byte, e: Byte): int
    requires i <= j <= |src|
  {
    (if b == e then 0 else Count(src[i..j], b)) - Count(src[i..j], e)
  }

  /** The text up to t closes what it opens, for the first time. */
  predicate Balanced(src: seq<Byte>, i: nat, b: Byte, e: Byte, cont: int, t: nat) {
    && i < t <= |src|
    && cont + Excess(src, i, t, b, e) == 0
    && forall j :: i <= j < t ==> cont + Excess(src, i, j, b, e) > 0
  }

  lemma CountPrepend(c: Byte, t: seq<Byte>, x: Byte)
    ensures Count([c] + t, x) == (if c == x then 1 else 0) + Count(t, x)
    decreases |t|
  {
    if t == [] {
      assert [c] + t == [c] && [c][..0] == [];
    } else {
      assert ([c] + t)[..|t|] == [c] + t[..|t| - 1];
      CountPrepend(c, t[..|t| - 1], x);
    }
  }

  lemma CountSlice(src: seq<Byte>, i: nat, j: nat, x: Byte)
    requires i < j <= |src|
    ensures Count(src[i..j], x) == (if src[i] == x then 1 else 0) + Count(src[i + 1..j], x)
  {
    assert src[i..j] == [src[i]] + src[i + 1..j];
    CountPrepend(src[i], src[i + 1..j], x);
  }

  /** The change of one character to the count of what is open. */
  function After(c: Byte, b: Byte, e: Byte, cont: int): int {
    if c == e then cont - 1 else if c == b then cont + 1 else cont
  }

  lemma ExcessStep(src: seq<Byte>, i: nat, j: nat, b: Byte, e: Byte, cont: int)
    requires i < j <= |src|
    ensures cont + Excess(src, i, j, b, e) == After(src[i], b, e, cont) + Excess(src, i + 1, j, b, e)
  {
    CountSlice(src, i, j, e);
    CountSlice(src, i, j, b);
  }

  lemma BalancedStep(src: seq<Byte>, i: nat, b: Byte, e: Byte, cont: int, t: nat)
    requires cont > 0 && i < |src| && i + 1 < t
    ensures Balanced(src, i, b, e, cont, t) <==>
            After(src[i], b, e, cont) > 0 && Balanced(src, i + 1, b, e, After(src[i], b, e, cont), t)
  {
    if t <= |src| {
      forall j | i < j <= t
        ensures cont + Excess(src, i, j, b, e) == After(src[i], b, e, cont) + Excess(src, i + 1, j, b, e)
      {
        ExcessStep(src, i, j, b, e, cont);
      }
      hide After, Excess;
      ExcessNone(src, i, b, e);
      ExcessNone(src, i + 1, b, e);
      if Balanced(src, i, b, e, cont, t) {
        assert cont + Excess(src, i, i + 1, b, e) > 0;
        var i1 := i + 1;
        forall j | i1 <= j < t ensures After(src[i], b, e, cont) + Excess(src, i1, j, b, e) > 0 {
          assert cont + Excess(src, i, j, b, e) > 0;
        }
      }
    }
  }

  lemma ExcessNone(src: seq<Byte>, i: nat, b: Byte, e: Byte)
    requires i <= |src|
    ensures Excess(src, i, i, b, e) == 0
  {
    assert src[i..i] == [];
  }

  /** The scan finds the end of the shortest balanced text, and finds it if there is one. */
  lemma {:induction false} BalanceExact(src: seq<Byte>, i: nat, b: Byte, e: Byte, cont: int, t: nat)
    requires cont > 0
    ensures BalanceEnd(src, i, b, e, cont) == Some(t) <==> Balanced(src, i, b, e, cont, t)
    decreases |src| - i
  {
    if i < |src| {
      var after := After(src[i], b, e, cont);
      ExcessNone(src, i, b, e);
      ExcessNone(src, i + 1, b, e);
      ExcessStep(src, i, i + 1, b, e, cont);
      if t > i + 1 { BalancedStep(src, i, b, e, cont, t); }
      if after > 0 { BalanceExact(src, i + 1, b, e, after, t); }
    }
  }
}
