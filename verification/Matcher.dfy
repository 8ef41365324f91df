/** The matcher itself: match and its helpers over a match state whose captures are undone when a branch fails. */
module Matcher {
  import opened Wrappers
  import opened Prototypes
  import opened Patterns
  import opened PatternSearch
  import opened PatternMeaning

  /** A pointer into the subject, a null pointer, or an error raised. */
  datatype Found = Null | To(s: nat) | Raised(fault: Fault)

  /** matchbracketclass. */
  method MatchBracketClass(pat: seq<Byte>, p0: nat, ep: nat, c: Byte) returns (r: bool)
    ensures r <==> InSet(pat, p0, ep, c)
  {
    var sig := true;
    var p := p0;
    if At(pat, p + 1) == 94 {
      sig := false;
      p := p + 1;
    }
    p := p + 1;
    while p + 1 < ep
      invariant InSet(pat, p0, ep, c) <==> (sig <==> InMembers(pat, p, ep, c))
      decreases ep - p
    {
      if At(pat, p) == L_ESC {
        p := p + 1;
        if MatchClass(c, At(pat, p)) { return sig; }
      } else if At(pat, p + 1) == 45 && p + 3 < ep {
        p := p + 2;
        if At(pat, p - 2) <= c <= At(pat, p) { return sig; }
      } else if At(pat, p) == c {
        return sig;
      }
      p := p + 1;
    }
    return !sig;
  }

  /** singlematch. */
  method SingleMatch(pat: seq<Byte>, p: nat, ep: nat, c: Byte) returns (r: bool)
    ensures r <==> Single(pat, p, ep, c)
  {
    if At(pat, p) == 46 { return true; }
    if At(pat, p) == L_ESC { return MatchClass(c, At(pat, p + 1)); }
    if At(pat, p) == 91 {
      r := MatchBracketClass(pat, p, ep, c);
      return;
    }
    return At(pat, p) == c;
  }

  /** classend. */
  method FindClassEnd(pat: seq<Byte>, p0: nat) returns (r: Result<nat, Fault>)
    requires p0 < |pat|
    ensures r == ClassEnd(pat, p0)
  {
    var p := p0 + 1;
    if pat[p0] == L_ESC {
      if At(pat, p) == 0 { return Failure(EndsWithEscape); }
      return Success(p + 1);
    }
    if pat[p0] == 91 {
      if At(pat, p) == 94 { p := p + 1; }
      ghost var start := p;
      while true
        invariant p <= |pat| && SetEnd(pat, start) == SetEnd(pat, p)
        decreases |pat| - p
      {
        if At(pat, p) == 0 { return Failure(MissingBracket); }
        p := p + 1;
        if pat[p - 1] == L_ESC && At(pat, p) != 0 { p := p + 1; }
        if At(pat, p) == 93 { return Success(p + 1); }
      }
    }
    return Success(p);
  }

  /** A leading caret anchors the pattern, and is skipped. */
  function Skip(pat: seq<Byte>): (p: nat)
    ensures p <= |pat|
  {
    if At(pat, 0) == 94 then 1 else 0
  }

  predicate FailsAt(src: seq<Byte>, pat: seq<Byte>, s: nat)
    requires s <= |src|
  {
    Search(src, pat, Skip(pat), s, []) == Failed
  }

  class MatchState {
    const src: seq<Byte>
    const pat: seq<Byte>
    const capture: array<Cap>
    var level: nat

    predicate Valid()
      reads this, capture
    {
      capture.Length == MAXCAPTURES && level <= MAXCAPTURES
    }

    function Caps(): seq<Cap>
      reads this, capture
      requires Valid()
    {
      capture[..level]
    }

    constructor (src: seq<Byte>, pat: seq<Byte>)
      ensures this.src == src && this.pat == pat && Valid() && fresh(capture) && Caps() == []
    {
      this.src := src;
      this.pat := pat;
      capture := new Cap[MAXCAPTURES](_ => Cap(0, 0));
      level := 0;
    }

    /** capture_to_close. */
    method CaptureToClose() returns (r: Option<nat>)
      requires Valid()
      ensures r == LastOpen(Caps())
    {
      var l := level;
      while l > 0
        invariant 0 <= l <= level && LastOpen(Caps()) == LastOpen(capture[..l])
      {
        l := l - 1;
        assert capture[..l + 1][..l] == capture[..l];
        if capture[l].len == CAP_UNFINISHED { return Some(l); }
      }
      return None;
    }

    /** matchbalance, after the test that the pattern names two delimiters. */
    method MatchBalance(s: nat, b: Byte, e: Byte) returns (r: Option<nat>)
      requires s <= |src| && b != 0
      ensures r == if At(src, s) != b then None else BalanceEnd(src, s + 1, b, e, 1)
    {
      if At(src, s) != b { return None; }
      var cont := 1;
      var t := s + 1;
      while t < |src|
        invariant s < t <= |src| && BalanceEnd(src, s + 1, b, e, 1) == BalanceEnd(src, t, b, e, cont)
      {
        if src[t] == e {
          cont := cont - 1;
          if cont == 0 { return Some(t + 1); }
        } else if src[t] == b {
          cont := cont + 1;
        }
        t := t + 1;
      }
      return None;
    }

    /** match_capture. */
    method MatchCapture(s: nat, digit: Byte) returns (r: Found)
      requires Valid() && s <= |src|
      ensures var m := CaptureMove(src, digit, s, Caps());
              r == if m.Go? then To(m.s) else if m.Fault? then Raised(m.f) else Null
    {
      var l := digit - 49;
      if l < 0 || l >= level || capture[l].len == CAP_UNFINISHED { return Raised(InvalidCaptureIndex); }
      assert Caps()[l] == capture[l];
      if SameText(src, capture[l], s) { return To(s + capture[l].len); }
      return Null;
    }

    /** What a search must leave behind: the outcome of the specification, its captures on success, and the
        captures as they were on failure. */
    twostate predicate Did(p: nat, s: nat, r: Found)
      requires old(Valid()) && p <= |pat| && s <= |src|
      reads this, capture
    {
      Agrees(Search(src, pat, p, s, old(Caps())), r)
    }

    twostate predicate Agrees(spec: Outcome, r: Found)
      requires old(Valid())
      reads this, capture
    {
      && Valid()
      && match spec
         case Failed => r == Null && Caps() == old(Caps())
         case Matched(end, caps) => r == To(end) && Caps() == caps
         case Error(f) => r == Raised(f)
    }

    /** start_capture. */
    method StartCapture(s: nat, p: nat, what: int) returns (r: Found)
      requires Valid() && p <= |pat| && s <= |src|
      modifies this, capture
      ensures Agrees(if old(level) >= MAXCAPTURES then Error(TooManyCaptures)
                     else Search(src, pat, p, s, old(Caps()) + [Cap(s, what)]), r)
      decreases |pat| - p, 1, 0
    {
      hide Search;
      if level >= MAXCAPTURES { return Raised(TooManyCaptures); }
      capture[level] := Cap(s, what);
      level := level + 1;
      assert Caps() == old(Caps()) + [Cap(s, what)];
      ghost var extended := Caps();
      r := Match(s, p);
      if r == Null {
        level := level - 1;
        assert Caps() == extended[..|extended| - 1] == old(Caps());
      }
    }

    /** end_capture. */
    method EndCapture(s: nat, p: nat) returns (r: Found)
      requires Valid() && p <= |pat| && s <= |src|
      modifies this, capture
      ensures Agrees(match LastOpen(old(Caps()))
                     case None => Error(InvalidPatternCapture)
                     case Some(l) =>
                       Search(src, pat, p, s, old(Caps())[l := Cap(old(Caps())[l].init, s - old(Caps())[l].init)]), r)
      decreases |pat| - p, 1, 0
    {
      hide Search, LastOpen;
      var o := CaptureToClose();
      if o == None { return Raised(InvalidPatternCapture); }
      var l := o.value;
      capture[l] := Cap(capture[l].init, s - capture[l].init);
      ghost var closed := Caps();
      assert closed == old(Caps())[l := Cap(old(Caps())[l].init, s - old(Caps())[l].init)];
      r := Match(s, p);
      if r == Null {
        assert Caps() == closed;
        capture[l] := Cap(capture[l].init, CAP_UNFINISHED);
        assert Caps() == closed[l := Cap(closed[l].init, CAP_UNFINISHED)] == old(Caps());
      }
    }

    /** max_expand: as many characters as possible first, then one less at a time. */
    method MaxExpand(s: nat, p: nat, ep: nat) returns (r: Found)
      requires Valid() && s <= |src| && ep < |pat|
      modifies this, capture
      ensures Agrees(SearchDown(src, pat, ep + 1, s, old(Caps()), Reach(src, pat, p, ep, s), 0), r)
      decreases |pat| - ep - 1, 1, 0
    {
      hide Search, SearchUp, Single;
      ghost var caps := Caps();
      var i := 0;
      while s + i < |src|
        invariant s + i <= |src| && Reach(src, pat, p, ep, s) == i + Reach(src, pat, p, ep, s + i)
        invariant Valid() && Caps() == caps
      {
        var m := SingleMatch(pat, p, ep, src[s + i]);
        if !m { break; }
        i := i + 1;
      }
      ghost var n := i;
      while i >= 0
        invariant -1 <= i <= n && s + n <= |src| && Valid() && Caps() == caps
        invariant SearchDown(src, pat, ep + 1, s, caps, n, 0) == SearchDown(src, pat, ep + 1, s, caps, i, 0)
      {
        r := Match(s + i, ep + 1);
        if r != Null { return; }
        i := i - 1;
      }
      return Null;
    }

    /** min_expand. */
    method MinExpand(s0: nat, p: nat, ep: nat) returns (r: Found)
      requires Valid() && s0 <= |src| && ep < |pat|
      modifies this, capture
      ensures Agrees(SearchUp(src, pat, ep + 1, s0, old(Caps()), 0, Reach(src, pat, p, ep, s0)), r)
      decreases |pat| - ep - 1, 1, 0
    {
      hide Search, SearchDown, Single;
      ghost var caps := Caps();
      var s := s0;
      ghost var n := Reach(src, pat, p, ep, s0);
      while true
        invariant s0 <= s <= |src| && Valid() && Caps() == caps
        invariant s - s0 <= n && n == s - s0 + Reach(src, pat, p, ep, s)
        invariant SearchUp(src, pat, ep + 1, s0, caps, 0, n) == SearchUp(src, pat, ep + 1, s0, caps, s - s0, n)
        decreases |src| - s
      {
        r := Match(s, ep + 1);
        if r != Null { return; }
        var m := false;
        if s < |src| { m := SingleMatch(pat, p, ep, src[s]); }
        if !m { return Null; }
        s := s + 1;
      }
    }

    /** match: the search from s for the pattern from p on. */
    method Match(s0: nat, p0: nat) returns (r: Found)
      requires Valid() && p0 <= |pat| && s0 <= |src|
      modifies this, capture
      ensures Did(p0, s0, r)
      decreases |pat| - p0, 0, 1
    {
      hide Search, SearchDown, SearchUp, ItemAt, Step, ClassEnd, InSet, Single, Reach, BalanceEnd, LastOpen,
           CaptureMove;
      var s: nat, p: nat := s0, p0;
      ghost var caps := Caps();
      while true
        invariant p0 <= p <= |pat| && s <= |src| && Valid() && Caps() == caps
        invariant Search(src, pat, p0, s0, caps) == Search(src, pat, p, s, caps)
        decreases |pat| - p
      {
        var c, d := At(pat, p), At(pat, p + 1);
        if c == 40 {
          AtOpen(src, pat, p, s, caps);
          if d == 41 {
            r := StartCapture(s, p + 2, CAP_POSITION);
          } else {
            r := StartCapture(s, p + 1, CAP_UNFINISHED);
          }
          return;
        } else if c == 41 {
          AtClose(src, pat, p, s, caps);
          r := EndCapture(s, p + 1);
          return;
        } else if c == L_ESC && d == 98 {
          AtBalance(src, pat, p, s, caps);
          if At(pat, p + 2) == 0 || At(pat, p + 3) == 0 { return Raised(UnbalancedPattern); }
          var t := MatchBalance(s, At(pat, p + 2), At(pat, p + 3));
          if t == None { return Null; }
          s := t.value;
          p := p + 4;
        } else if c == L_ESC && d == 102 {
          AtFrontier(src, pat, p, s, caps);
          if At(pat, p + 2) != 91 { return Raised(MissingFrontierSet); }
          var ep := FindClassEnd(pat, p + 2);
          if ep.Failure? { return Raised(ep.error); }
          var before := MatchBracketClass(pat, p + 2, ep.value, if s == 0 then 0 else src[s - 1]);
          var here := MatchBracketClass(pat, p + 2, ep.value, At(src, s));
          if before || !here { return Null; }
          p := ep.value;
        } else if c == L_ESC && IsDigit(d) {
          AtBackReference(src, pat, p, s, caps);
          var t := MatchCapture(s, d);
          if !t.To? { return t; }
          s := t.s;
          p := p + 2;
        } else if c == 0 {
          AtStop(src, pat, p, s, caps);
          return To(s);
        } else if c == 36 && d == 0 {
          AtStop(src, pat, p, s, caps);
          return if s == |src| then To(s) else Null;
        } else {
          AtPlain(pat, p);
          var next;
          r, next := MatchPlain(s, p);
          if next == None { return; }
          s, p := next.value.0, next.value.1;
        }
      }
    }

    /** The default case of match: a class with or without a suffix. With `next`, matching goes on there. */
    method MatchPlain(s: nat, p: nat) returns (r: Found, next: Option<(nat, nat)>)
      requires Valid() && p < |pat| && s <= |src| && Plain(pat, p)
      modifies this, capture
      ensures next.None? ==> Did(p, s, r)
      ensures next.Some? ==>
        && Valid() && Caps() == old(Caps()) && next.value.0 <= |src| && p < next.value.1 <= |pat|
        && Search(src, pat, p, s, old(Caps())) == Search(src, pat, next.value.1, next.value.0, old(Caps()))
      decreases |pat| - p, 0, 0
    {
      hide Search, SearchDown, SearchUp, ItemAt, Step, ClassEnd, InSet, Single, Reach, BalanceEnd, LastOpen,
           CaptureMove;
      ghost var caps := Caps();
      AtPlain(pat, p);
      var e := FindClassEnd(pat, p);
      if e.Failure? {
        AtStop(src, pat, p, s, caps);
        return Raised(e.error), None;
      }
      var ep := e.value;
      var m := false;
      if s < |src| { m := SingleMatch(pat, p, ep, src[s]); }
      var suffix := At(pat, ep);
      if suffix == 63 {
        Optional(src, pat, p, s, caps);
        if m {
          r := Match(s + 1, ep + 1);
          if r != Null { return r, None; }
        }
        return Null, Some((s, ep + 1));
      } else if suffix == 42 {
        AtStar(src, pat, p, s, caps);
        r := MaxExpand(s, p, ep);
        return r, None;
      } else if suffix == 43 {
        OneOrMore(src, pat, p, s, caps);
        if !m { return Null, None; }
        r := MaxExpand(s + 1, p, ep);
        return r, None;
      } else if suffix == 45 {
        AtStar(src, pat, p, s, caps);
        r := MinExpand(s, p, ep);
        return r, None;
      } else {
        AtClass(src, pat, p, s, caps);
        if !m { return Null, None; }
        return Null, Some((s + 1, ep));
      }
    }

    /** The loop of str_find_aux: the leftmost place, from init on, where the pattern matches or raises an error;
        an anchored pattern is tried at init alone. */
    method Find(init: nat) returns (start: nat, r: Found)
      requires Valid() && init <= |src|
      modifies this, capture
      ensures r == Null ==> forall i: nat :: init <= i <= |src| && (At(pat, 0) == 94 ==> i == init) ==>
        FailsAt(src, pat, i)
      ensures r != Null ==> init <= start <= |src| && (At(pat, 0) == 94 ==> start == init) && !FailsAt(src, pat, start)
      ensures r != Null ==> forall i: nat :: init <= i < start ==> FailsAt(src, pat, i)
      ensures r.To? ==> Valid() && Search(src, pat, Skip(pat), start, []) == Matched(r.s, Caps())
      ensures r.Raised? ==> Search(src, pat, Skip(pat), start, []) == Error(r.fault)
    {
      hide Search;
      var p := if At(pat, 0) == 94 then 1 else 0;
      var s1 := init;
      while true
        invariant init <= s1 <= |src| && Valid() && (At(pat, 0) == 94 ==> s1 == init)
        invariant forall i: nat :: init <= i < s1 ==> FailsAt(src, pat, i)
        decreases |src| - s1
      {
        level := 0;
        assert Caps() == [];
        r := Match(s1, p);
        if r != Null { return s1, r; }
        if !(s1 < |src| && p == 0) { return s1, Null; }
        s1 := s1 + 1;
      }
    }
  }
}
