/** What the characters of a pattern mean, said without the functions that the matcher and its search share: classes
    by their bytes, sets by their members, and each item and suffix by what may come of it. */
module PatternMeaning {
  import opened Wrappers
  import opened Prototypes
  import opened Patterns
  import opened PatternSearch

  // ----- classes

  /** The bytes of each class in the C locale; the letters are a c d l p s u w x z. */
  lemma ClassBytes(c: Byte)
    ensures MatchClass(c, 97) <==> 65 <= c <= 90 || 97 <= c <= 122
    ensures MatchClass(c, 99) <==> c <= 31 || c == 127
    ensures MatchClass(c, 100) <==> 48 <= c <= 57
    ensures MatchClass(c, 108) <==> 97 <= c <= 122
    ensures MatchClass(c, 112) <==> 33 <= c <= 47 || 58 <= c <= 64 || 91 <= c <= 96 || 123 <= c <= 126
    ensures MatchClass(c, 115) <==> c in {9, 10, 11, 12, 13, 32}
    ensures MatchClass(c, 117) <==> 65 <= c <= 90
    ensures MatchClass(c, 119) <==> 48 <= c <= 57 || 65 <= c <= 90 || 97 <= c <= 122
    ensures MatchClass(c, 120) <==> 48 <= c <= 57 || 65 <= c <= 70 || 97 <= c <= 102
    ensures MatchClass(c, 122) <==> c == 0
  {
  }

  /** A capital stands for the complement, and any other character for itself. */
  lemma ClassRest(c: Byte, cl: Byte)
    ensures cl in {97, 99, 100, 108, 112, 115, 117, 119, 120, 122} ==>
              (MatchClass(c, cl - 32) <==> !MatchClass(c, cl))
    ensures cl !in {97, 99, 100, 108, 112, 115, 117, 119, 120, 122, 65, 67, 68, 76, 80, 83, 85, 87, 88, 90} ==>
              (MatchClass(c, cl) <==> c == cl)
  {
  }

  // ----- sets

  /** Where the member after the one at i starts: members are escapes, ranges and single characters. */
  function NextMember(pat: seq<Byte>, i: nat, ep: nat): (j: nat)
    ensures i < j
  {
    if At(pat, i) == 37 then i + 2
    else if At(pat, i + 1) == 45 && i + 3 < ep then i + 3
    else i + 1
  }

  /** The start of the n-th member from i on. */
  function Member(pat: seq<Byte>, i: nat, ep: nat, n: nat): (j: nat)
    ensures i + n <= j
  {
    if n == 0 then i else NextMember(pat, Member(pat, i, ep, n - 1), ep)
  }

  /** The character is the member at j, or in its range or class; the bracket is just before ep. */
  predicate MemberHolds(pat: seq<Byte>, j: nat, ep: nat, c: Byte) {
    && j + 1 < ep
    && if At(pat, j) == 37 then MatchClass(c, At(pat, j + 1))
       else if At(pat, j + 1) == 45 && j + 3 < ep then At(pat, j) <= c <= At(pat, j + 2)
       else At(pat, j) == c
  }

  ghost predicate SomeMember(pat: seq<Byte>, i: nat, ep: nat, c: Byte) {
    exists n: nat :: MemberHolds(pat, Member(pat, i, ep, n), ep, c)
  }

  lemma {:induction false} MemberShift(pat: seq<Byte>, i: nat, ep: nat, n: nat)
    ensures Member(pat, i, ep, n + 1) == Member(pat, NextMember(pat, i, ep), ep, n)
  {
    if n > 0 { MemberShift(pat, i, ep, n - 1); }
  }

  lemma SomeMemberStep(pat: seq<Byte>, i: nat, ep: nat, c: Byte)
    ensures SomeMember(pat, i, ep, c) <==> MemberHolds(pat, i, ep, c) || SomeMember(pat, NextMember(pat, i, ep), ep, c)
  {
    hide MemberHolds, NextMember;
    var next := NextMember(pat, i, ep);
    if MemberHolds(pat, i, ep, c) { assert MemberHolds(pat, Member(pat, i, ep, 0), ep, c); }
    if SomeMember(pat, next, ep, c) {
      var n: nat :| MemberHolds(pat, Member(pat, next, ep, n), ep, c);
      MemberShift(pat, i, ep, n);
      assert MemberHolds(pat, Member(pat, i, ep, n + 1), ep, c);
    }
    if SomeMember(pat, i, ep, c) {
      var n: nat :| MemberHolds(pat, Member(pat, i, ep, n), ep, c);
      if n > 0 {
        MemberShift(pat, i, ep, n - 1);
        assert MemberHolds(pat, Member(pat, next, ep, n - 1), ep, c);
      }
    }
  }

  lemma {:induction false} MembersExact(pat: seq<Byte>, i: nat, ep: nat, c: Byte)
    ensures InMembers(pat, i, ep, c) <==> SomeMember(pat, i, ep, c)
    decreases ep - i
  {
    hide MatchClass, SomeMember;
    if i + 1 >= ep {
      NoMember(pat, i, ep, c);
    } else {
      SomeMemberStep(pat, i, ep, c);
      MembersExact(pat, NextMember(pat, i, ep), ep, c);
    }
  }

  lemma NoMember(pat: seq<Byte>, i: nat, ep: nat, c: Byte)
    requires i + 1 >= ep
    ensures !SomeMember(pat, i, ep, c)
  {
  }

  /** A set holds the character if and only if one of its members does, or, after a caret, none does. */
  lemma SetExact(pat: seq<Byte>, p: nat, ep: nat, c: Byte)
    ensures InSet(pat, p, ep, c) <==>
            if At(pat, p + 1) == 94 then !SomeMember(pat, p + 2, ep, c) else SomeMember(pat, p + 1, ep, c)
  {
    hide SomeMember, InMembers;
    MembersExact(pat, p + 2, ep, c);
    MembersExact(pat, p + 1, ep, c);
  }

  // ----- the end of a set

  /** After the first character of a set comes the next, or, after a percent sign, the one after that. */
  function NextInSet(pat: seq<Byte>, i: nat): (j: nat)
    ensures i < j
  {
    if At(pat, i) == 37 && At(pat, i + 1) != 0 then i + 2 else i + 1
  }

  function InSetAt(pat: seq<Byte>, i: nat, n: nat): (j: nat)
    ensures i + n <= j
  {
    if n == 0 then i else NextInSet(pat, InSetAt(pat, i, n - 1))
  }

  /** The bracket at j closes the set: it is reached with nothing but members before it, one of them at least. */
  ghost predicate Closes(pat: seq<Byte>, i: nat, n: nat) {
    && n > 0 && At(pat, InSetAt(pat, i, n)) == 93
    && forall m: nat :: m < n ==> Open(pat, i, m)
  }

  /** The m-th character is there and, unless it is the first, is no bracket. */
  predicate Open(pat: seq<Byte>, i: nat, m: nat) {
    var c := At(pat, InSetAt(pat, i, m));
    c != 0 && (m > 0 ==> c != 93)
  }

  lemma {:induction false} InSetShift(pat: seq<Byte>, i: nat, n: nat)
    ensures InSetAt(pat, i, n + 1) == InSetAt(pat, NextInSet(pat, i), n)
  {
    if n > 0 { InSetShift(pat, i, n - 1); }
  }

  /** The end of a set is just after the first bracket that is neither escaped nor the first character; there is none
      if the pattern ends before. */
  lemma {:induction false} SetEndExact(pat: seq<Byte>, i: nat)
    requires i <= |pat|
    ensures forall n: nat :: Closes(pat, i, n) ==> SetEnd(pat, i) == Some(InSetAt(pat, i, n) + 1)
    ensures SetEnd(pat, i).Some? ==> exists n: nat :: Closes(pat, i, n)
    decreases |pat| - i
  {
    ClosesOpens(pat, i);
    if At(pat, i) != 0 {
      var j := NextInSet(pat, i);
      assert InSetAt(pat, i, 1) == j by { InSetShift(pat, i, 0); }
      if At(pat, j) == 93 {
        assert Closes(pat, i, 1);
      } else {
        SetEndExact(pat, j);
        forall n: nat | Closes(pat, i, n) ensures n > 1 && Closes(pat, j, n - 1) { ClosesLater(pat, i, n); }
        forall n: nat | Closes(pat, i, n) ensures SetEnd(pat, i) == Some(InSetAt(pat, i, n) + 1) {
          InSetShift(pat, i, n - 1);
          assert Closes(pat, j, n - 1);
        }
        if SetEnd(pat, i).Some? {
          var n: nat :| Closes(pat, j, n);
          ClosesBefore(pat, i, n);
        }
      }
    }
  }

  lemma ClosesOpens(pat: seq<Byte>, i: nat)
    ensures forall n: nat :: Closes(pat, i, n) ==> At(pat, i) != 0
    ensures forall n: nat :: Closes(pat, i, n) && n > 1 ==> At(pat, NextInSet(pat, i)) != 93
  {
    InSetShift(pat, i, 0);
    forall n: nat | Closes(pat, i, n) ensures Open(pat, i, 0) {}
    forall n: nat | Closes(pat, i, n) && n > 1 ensures Open(pat, i, 1) {}
  }

  lemma ClosesLater(pat: seq<Byte>, i: nat, n: nat)
    requires Closes(pat, i, n) && At(pat, NextInSet(pat, i)) != 93
    ensures n > 1 && Closes(pat, NextInSet(pat, i), n - 1)
  {
    var j := NextInSet(pat, i);
    InSetShift(pat, i, 0);
    assert InSetAt(pat, i, 1) == j;
    InSetShift(pat, i, n - 1);
    forall m: nat | m < n - 1 ensures Open(pat, j, m) {
      InSetShift(pat, i, m);
      assert Open(pat, i, m + 1);
    }
  }

  lemma ClosesBefore(pat: seq<Byte>, i: nat, n: nat)
    requires At(pat, i) != 0 && At(pat, NextInSet(pat, i)) != 93 && Closes(pat, NextInSet(pat, i), n)
    ensures Closes(pat, i, n + 1)
  {
    var j := NextInSet(pat, i);
    InSetShift(pat, i, n);
    forall m: nat | m < n + 1 ensures Open(pat, i, m) {
      if m > 0 {
        InSetShift(pat, i, m - 1);
        assert Open(pat, j, m - 1);
      }
    }
  }

  // ----- what the search does at each kind of item

  lemma AtOpen(src: seq<Byte>, pat: seq<Byte>, p: nat, s: nat, caps: seq<Cap>)
    requires p <= |pat| && s <= |src| && At(pat, p) == 40
    ensures At(pat, p + 1) == 41 ==>
      p + 2 <= |pat| && Search(src, pat, p, s, caps) == if |caps| >= MAXCAPTURES then Error(TooManyCaptures)
                                      else Search(src, pat, p + 2, s, caps + [Cap(s, CAP_POSITION)])
    ensures At(pat, p + 1) != 41 ==>
      p + 1 <= |pat| && Search(src, pat, p, s, caps) == if |caps| >= MAXCAPTURES then Error(TooManyCaptures)
                                      else Search(src, pat, p + 1, s, caps + [Cap(s, CAP_UNFINISHED)])
  {
  }

  lemma AtClose(src: seq<Byte>, pat: seq<Byte>, p: nat, s: nat, caps: seq<Cap>)
    requires p <= |pat| && s <= |src| && At(pat, p) == 41
    ensures p + 1 <= |pat|
    ensures Search(src, pat, p, s, caps) ==
            match LastOpen(caps)
            case None => Error(InvalidPatternCapture)
            case Some(l) => Search(src, pat, p + 1, s, caps[l := Cap(caps[l].init, s - caps[l].init)])
  {
  }

  lemma AtBalance(src: seq<Byte>, pat: seq<Byte>, p: nat, s: nat, caps: seq<Cap>)
    requires p <= |pat| && s <= |src| && At(pat, p) == L_ESC && At(pat, p + 1) == 98
    ensures At(pat, p + 2) == 0 || At(pat, p + 3) == 0 ==> Search(src, pat, p, s, caps) == Error(UnbalancedPattern)
    ensures At(pat, p + 2) != 0 && At(pat, p + 3) != 0 ==>
      var t := if At(src, s) != At(pat, p + 2) then None else BalanceEnd(src, s + 1, At(pat, p + 2), At(pat, p + 3), 1);
      p + 4 <= |pat| &&
        Search(src, pat, p, s, caps) == if t.None? then Failed else Search(src, pat, p + 4, t.value, caps)
  {
  }

  lemma AtFrontier(src: seq<Byte>, pat: seq<Byte>, p: nat, s: nat, caps: seq<Cap>)
    requires p <= |pat| && s <= |src| && At(pat, p) == L_ESC && At(pat, p + 1) == 102
    ensures At(pat, p + 2) != 91 ==> Search(src, pat, p, s, caps) == Error(MissingFrontierSet)
    ensures At(pat, p + 2) == 91 ==>
      p + 2 < |pat| && Search(src, pat, p, s, caps) ==
        match ClassEnd(pat, p + 2)
        case Failure(f) => Error(f)
        case Success(ep) =>
          if InSet(pat, p + 2, ep, if s == 0 then 0 else src[s - 1]) || !InSet(pat, p + 2, ep, At(src, s)) then Failed
          else Search(src, pat, ep, s, caps)
  {
  }

  lemma AtBackReference(src: seq<Byte>, pat: seq<Byte>, p: nat, s: nat, caps: seq<Cap>)
    requires p <= |pat| && s <= |src| && At(pat, p) == L_ESC && IsDigit(At(pat, p + 1))
    ensures p + 2 <= |pat| && Search(src, pat, p, s, caps) ==
            match CaptureMove(src, At(pat, p + 1), s, caps)
            case Stuck => Failed
            case Fault(f) => Error(f)
            case Go(t, _) => Search(src, pat, p + 2, t, caps)
  {
  }

  /** %1 to %9 stand for the text of a closed capture; a position capture has none. */
  lemma BackReferenceText(src: seq<Byte>, pat: seq<Byte>, p: nat, s: nat, caps: seq<Cap>, l: int)
    requires p <= |pat| && s <= |src| && At(pat, p) == 37 && At(pat, p + 1) == 49 + l && -1 <= l <= 8
    ensures l < 0 || l >= |caps| || caps[l].len == -1 ==> Search(src, pat, p, s, caps) == Error(InvalidCaptureIndex)
    ensures 0 <= l < |caps| && caps[l].len < -1 ==> Search(src, pat, p, s, caps) == Failed
    ensures 0 <= l < |caps| && caps[l].len >= 0 && caps[l].init + caps[l].len <= |src| ==>
              var len := caps[l].len;
              Search(src, pat, p, s, caps) ==
                if s + len <= |src| && src[s..s + len] == src[caps[l].init..caps[l].init + len]
                then Search(src, pat, p + 2, s + len, caps) else Failed
  {
    hide Search;
    AtBackReference(src, pat, p, s, caps);
  }

  /** The position holds none of the special items. */
  predicate Plain(pat: seq<Byte>, p: nat) {
    var c, d := At(pat, p), At(pat, p + 1);
    c != 40 && c != 41 && c != 0 && !(c == 37 && (d == 98 || d == 102 || 48 <= d <= 57)) && !(c == 36 && d == 0)
  }

  lemma AtPlain(pat: seq<Byte>, p: nat)
    requires p <= |pat| && Plain(pat, p)
    ensures p < |pat|
    ensures ItemAt(pat, p) ==
            match ClassEnd(pat, p)
            case Failure(f) => Bad(f)
            case Success(ep) =>
              if At(pat, ep) in {42, 43, 45, 63} then Repeat(p, ep, At(pat, ep), ep + 1) else Class(p, ep, ep)
  {
  }

  lemma AtClass(src: seq<Byte>, pat: seq<Byte>, p: nat, s: nat, caps: seq<Cap>)
    requires p <= |pat| && s <= |src| && ItemAt(pat, p).Class?
    ensures var it := ItemAt(pat, p);
            Search(src, pat, p, s, caps) ==
              if s < |src| && Single(pat, it.p, it.ep, src[s]) then Search(src, pat, it.next, s + 1, caps) else Failed
  {
  }

  lemma AtStar(src: seq<Byte>, pat: seq<Byte>, p: nat, s: nat, caps: seq<Cap>)
    requires p <= |pat| && s <= |src| && ItemAt(pat, p).Repeat?
    ensures var it := ItemAt(pat, p);
            && (it.suffix == 42 ==>
                  Search(src, pat, p, s, caps) ==
                    SearchDown(src, pat, it.next, s, caps, Reach(src, pat, it.p, it.ep, s), 0))
            && (it.suffix == 45 ==>
                  Search(src, pat, p, s, caps) ==
                    SearchUp(src, pat, it.next, s, caps, 0, Reach(src, pat, it.p, it.ep, s)))
  {
  }

  lemma AtStop(src: seq<Byte>, pat: seq<Byte>, p: nat, s: nat, caps: seq<Cap>)
    requires p <= |pat| && s <= |src|
    ensures At(pat, p) == 0 ==> Search(src, pat, p, s, caps) == Matched(s, caps)
    ensures At(pat, p) == 36 && At(pat, p + 1) == 0 ==>
            Search(src, pat, p, s, caps) == if s == |src| then Matched(s, caps) else Failed
    ensures ItemAt(pat, p).Bad? ==> Search(src, pat, p, s, caps) == Error(ItemAt(pat, p).fault)
  {
    var it := ItemAt(pat, p);
    if it.AtEnd? { assert At(pat, p + 1) == 0 ==> ItemAt(pat, p + 1) == End; }
  }

  /** An optional item is tried once, then left out. */
  lemma Optional(src: seq<Byte>, pat: seq<Byte>, p: nat, s: nat, caps: seq<Cap>)
    requires p <= |pat| && s <= |src| && ItemAt(pat, p).Repeat? && ItemAt(pat, p).suffix == 63
    ensures var it := ItemAt(pat, p);
            Search(src, pat, p, s, caps) ==
              if s < |src| && Single(pat, it.p, it.ep, src[s]) && Search(src, pat, it.next, s + 1, caps) != Failed
              then Search(src, pat, it.next, s + 1, caps) else Search(src, pat, it.next, s, caps)
  {
    var it := ItemAt(pat, p);
    assert SearchDown(src, pat, it.next, s, caps, -1, 0) == Failed;
    assert SearchDown(src, pat, it.next, s, caps, 0, 0) == Search(src, pat, it.next, s + 0, caps);
  }

  lemma {:induction false} DownShift(src: seq<Byte>, pat: seq<Byte>, q: nat, s: nat, caps: seq<Cap>, k: int)
    requires q <= |pat| && s + 1 + k <= |src| && k >= -1
    ensures SearchDown(src, pat, q, s + 1, caps, k, 0) == SearchDown(src, pat, q, s, caps, k + 1, 1)
    decreases k + 1
  {
    if k >= 0 {
      DownShift(src, pat, q, s, caps, k - 1);
      assert s + 1 + k == s + (k + 1);
    }
  }

  /** One or more: one, then as many more as possible. */
  lemma OneOrMore(src: seq<Byte>, pat: seq<Byte>, p: nat, s: nat, caps: seq<Cap>)
    requires p <= |pat| && s <= |src| && ItemAt(pat, p).Repeat? && ItemAt(pat, p).suffix == 43
    ensures var it := ItemAt(pat, p);
            Search(src, pat, p, s, caps) ==
              if s < |src| && Single(pat, it.p, it.ep, src[s])
              then SearchDown(src, pat, it.next, s + 1, caps, Reach(src, pat, it.p, it.ep, s + 1), 0) else Failed
  {
    var it := ItemAt(pat, p);
    if s < |src| && Single(pat, it.p, it.ep, src[s]) {
      DownShift(src, pat, it.next, s, caps, Reach(src, pat, it.p, it.ep, s + 1));
    }
  }

  // ----- suffixes

  /** r is the outcome of the rest of the pattern, from q on, after the largest count from lo to hi for which it does
      not fail, or the smallest. */
  ghost predicate Prefers(src: seq<Byte>, pat: seq<Byte>, q: nat, s: nat, caps: seq<Cap>, r: Outcome,
                          lo: nat, hi: nat, largest: bool)
    requires q <= |pat| && s + hi <= |src|
  {
    if r == Failed then forall k: nat :: lo <= k <= hi ==> CountFails(src, pat, q, s, caps, k)
    else exists k: nat :: lo <= k <= hi && Chosen(src, pat, q, s, caps, r, lo, hi, largest, k)
  }

  ghost predicate Chosen(src: seq<Byte>, pat: seq<Byte>, q: nat, s: nat, caps: seq<Cap>, r: Outcome,
                         lo: nat, hi: nat, largest: bool, k: nat)
    requires q <= |pat| && k <= hi && s + hi <= |src|
  {
    && Search(src, pat, q, s + k, caps) == r
    && forall i: nat :: lo <= i <= hi && (if largest then i > k else i < k) ==> CountFails(src, pat, q, s, caps, i)
  }

  lemma RepeatPrefers(src: seq<Byte>, pat: seq<Byte>, p: nat, s: nat, caps: seq<Cap>)
    requires p <= |pat| && s <= |src| && ItemAt(pat, p).Repeat?
    ensures var it := ItemAt(pat, p);
            var most := Most(it.suffix, Reach(src, pat, it.p, it.ep, s));
            && s + most <= |src|
            && Prefers(src, pat, it.next, s, caps, Search(src, pat, p, s, caps), Least(it.suffix), most,
                       it.suffix != 45)
  {
    hide Step, ItemAt, Reach, SearchUp, SearchDown;
    var it := ItemAt(pat, p);
    var n := Reach(src, pat, it.p, it.ep, s);
    var least, most := Least(it.suffix), Most(it.suffix, n);
    if Search(src, pat, p, s, caps) != Failed {
      var j := Settles(src, pat, p, s, caps);
      assert Chosen(src, pat, it.next, s, caps, Search(src, pat, p, s, caps), least, most, it.suffix != 45, j);
    } else {
      forall k: nat | least <= k <= most ensures CountFails(src, pat, it.next, s, caps, k) {
        if it.suffix == 45 {
          UpFails(src, pat, it.next, s, caps, 0, n, k);
        } else {
          DownFails(src, pat, it.next, s, caps, most, least, k);
        }
      }
    }
  }

  /** A character class that ends just before ep: what * + - ? after it, or nothing, mean when n characters in a row
      are in the class. */
  lemma SuffixExact(src: seq<Byte>, pat: seq<Byte>, p: nat, s: nat, caps: seq<Cap>, ep: nat)
    requires p <= |pat| && s <= |src| && Plain(pat, p) && p < |pat| && ClassEnd(pat, p) == Success(ep)
    ensures var n, r, x := Reach(src, pat, p, ep, s), Search(src, pat, p, s, caps), At(pat, ep);
            && (x == 42 ==> Prefers(src, pat, ep + 1, s, caps, r, 0, n, true))
            && (x == 43 ==> Prefers(src, pat, ep + 1, s, caps, r, 1, n, true))
            && (x == 45 ==> Prefers(src, pat, ep + 1, s, caps, r, 0, n, false))
            && (x == 63 ==> Prefers(src, pat, ep + 1, s, caps, r, 0, if n > 1 then 1 else n, true))
            && (x !in {42, 43, 45, 63} ==>
                  r == if s < |src| && Single(pat, p, ep, src[s]) then Search(src, pat, ep, s + 1, caps) else Failed)
  {
    AtPlain(pat, p);
    hide Search, SearchDown, SearchUp, Prefers, Reach, ClassEnd, Single;
    if At(pat, ep) in {42, 43, 45, 63} {
      assert ItemAt(pat, p) == Repeat(p, ep, At(pat, ep), ep + 1);
      RepeatPrefers(src, pat, p, s, caps);
    } else {
      AtClass(src, pat, p, s, caps);
    }
  }

  /** Where a class ends, and what it holds: an escape, a set, a dot, or a character that stands for itself. */
  lemma ClassExact(pat: seq<Byte>, p: nat, ep: nat, c: Byte)
    requires p < |pat|
    ensures pat[p] == 37 ==>
              && ClassEnd(pat, p) ==
                 (if p + 1 < |pat| && pat[p + 1] != 0 then Success(p + 2) else Failure(EndsWithEscape))
              && (Single(pat, p, ep, c) <==> MatchClass(c, At(pat, p + 1)))
    ensures pat[p] == 91 ==>
              var first := if At(pat, p + 1) == 94 then p + 2 else p + 1;
              && (forall n: nat :: Closes(pat, first, n) ==> ClassEnd(pat, p) == Success(InSetAt(pat, first, n) + 1))
              && ((forall n: nat :: !Closes(pat, first, n)) ==> ClassEnd(pat, p) == Failure(MissingBracket))
              && (Single(pat, p, ep, c) <==>
                  if At(pat, p + 1) == 94 then !SomeMember(pat, first, ep, c) else SomeMember(pat, first, ep, c))
    ensures pat[p] == 46 ==> ClassEnd(pat, p) == Success(p + 1) && Single(pat, p, ep, c)
    ensures pat[p] !in {37, 46, 91} ==> ClassEnd(pat, p) == Success(p + 1) && (Single(pat, p, ep, c) <==> c == pat[p])
  {
    if pat[p] == 91 {
      SetEndExact(pat, if At(pat, p + 1) == 94 then p + 2 else p + 1);
      SetExact(pat, p, ep, c);
    }
    hide SetEnd, InSet, SomeMember, MatchClass, Closes;
  }
}
