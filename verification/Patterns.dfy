/** Lua patterns: their items, what a choice of repetitions does, and which choice a match prefers. */
module Patterns {
  import opened Wrappers
  import opened Prototypes

  const L_ESC: nat := 37
  const MAXCAPTURES: nat := 32
  const CAP_UNFINISHED: int := -1
  const CAP_POSITION: int := -2

  /** The byte at a position; a string ends with a zero that is not part of it. */
  function At(s: seq<Byte>, i: nat): Byte { if i < |s| then s[i] else 0 }

  datatype Cap = Cap(init: nat, len: int)

  datatype Fault =
    | EndsWithEscape | MissingBracket | MissingFrontierSet | UnbalancedPattern
    | TooManyCaptures | InvalidCaptureIndex | InvalidPatternCapture

  datatype Outcome = Failed | Matched(end: nat, caps: seq<Cap>) | Error(fault: Fault)

  // ----- classes of characters

  predicate IsDigit(c: int) { 48 <= c <= 57 }
  predicate IsLower(c: int) { 97 <= c <= 122 }
  predicate IsUpper(c: int) { 65 <= c <= 90 }
  predicate IsAlpha(c: int) { IsLower(c) || IsUpper(c) }
  predicate IsAlnum(c: int) { IsAlpha(c) || IsDigit(c) }
  predicate IsCntrl(c: int) { 0 <= c < 32 || c == 127 }
  predicate IsSpace(c: int) { c == 32 || 9 <= c <= 13 }
  predicate IsPunct(c: int) { 33 <= c <= 126 && !IsAlnum(c) }
  predicate IsXDigit(c: int) { IsDigit(c) || 97 <= c <= 102 || 65 <= c <= 70 }

  function ToLower(c: int): int { if IsUpper(c) then c + 32 else c }

  /** match_class in the C locale. */
  predicate MatchClass(c: Byte, cl: Byte) {
    var l := ToLower(cl);
    if l in {97, 99, 100, 108, 112, 115, 117, 119, 120, 122} then
      var res :=
        if l == 97 then IsAlpha(c)
        else if l == 99 then IsCntrl(c)
        else if l == 100 then IsDigit(c)
        else if l == 108 then IsLower(c)
        else if l == 112 then IsPunct(c)
        else if l == 115 then IsSpace(c)
        else if l == 117 then IsUpper(c)
        else if l == 119 then IsAlnum(c)
        else if l == 120 then IsXDigit(c)
        else c == 0;
      if IsLower(cl) then res else !res
    else
      cl == c
  }

  /** Whether the members of a set, from position i up to its closing bracket just before ep, hold the character. */
  predicate InMembers(pat: seq<Byte>, i: nat, ep: nat, c: Byte)
    decreases ep - i
  {
    if i + 1 >= ep then false
    else if At(pat, i) == L_ESC then MatchClass(c, At(pat, i + 1)) || InMembers(pat, i + 2, ep, c)
    else if At(pat, i + 1) == 45 && i + 3 < ep then At(pat, i) <= c <= At(pat, i + 2) || InMembers(pat, i + 3, ep, c)
    else At(pat, i) == c || InMembers(pat, i + 1, ep, c)
  }

  /** A set that starts at p and ends just before ep. */
  predicate InSet(pat: seq<Byte>, p: nat, ep: nat, c: Byte) {
    if At(pat, p + 1) == 94 then !InMembers(pat, p + 2, ep, c) else InMembers(pat, p + 1, ep, c)
  }

  /** singlematch. */
  predicate Single(pat: seq<Byte>, p: nat, ep: nat, c: Byte) {
    if At(pat, p) == 46 then true
    else if At(pat, p) == L_ESC then MatchClass(c, At(pat, p + 1))
    else if At(pat, p) == 91 then InSet(pat, p, ep, c)
    else At(pat, p) == c
  }

  // ----- items

  /** The end of a set: at least one member, then up to an unescaped closing bracket. */
  function SetEnd(pat: seq<Byte>, i: nat): (r: Option<nat>)
    requires i <= |pat|
    ensures r.Some? ==> i < r.value <= |pat|
    decreases |pat| - i
  {
    if At(pat, i) == 0 then None
    else
      var j := if pat[i] == L_ESC && At(pat, i + 1) != 0 then i + 2 else i + 1;
      if At(pat, j) == 93 then Some(j + 1) else SetEnd(pat, j)
  }

  /** classend. */
  function ClassEnd(pat: seq<Byte>, p: nat): (r: Result<nat, Fault>)
    requires p < |pat|
    ensures r.Success? ==> p < r.value <= |pat|
  {
    if pat[p] == L_ESC then
      if At(pat, p + 1) == 0 then Failure(EndsWithEscape) else Success(p + 2)
    else if pat[p] == 91 then
      match SetEnd(pat, if At(pat, p + 1) == 94 then p + 2 else p + 1)
      case None => Failure(MissingBracket)
      case Some(e) => Success(e)
    else
      Success(p + 1)
  }

  datatype Item =
    | End
    | Bad(fault: Fault)
    | Open(what: int, next: nat)
    | Close(next: nat)
    | Balance(b: Byte, e: Byte, next: nat)
    | Frontier(q: nat, next: nat)
    | BackRef(digit: Byte, next: nat)
    | AtEnd(next: nat)
    | Class(p: nat, ep: nat, next: nat)
    | Repeat(p: nat, ep: nat, suffix: Byte, next: nat)

  /** The pattern item at p; an item is looked at only when matching reaches it, so a fault may go unnoticed. */
  function ItemAt(pat: seq<Byte>, p: nat): (it: Item)
    requires p <= |pat|
    ensures !it.End? && !it.Bad? ==> p < it.next <= |pat|
  {
    var c := At(pat, p);
    if c == 0 then End
    else if c == 40 then if At(pat, p + 1) == 41 then Open(CAP_POSITION, p + 2) else Open(CAP_UNFINISHED, p + 1)
    else if c == 41 then Close(p + 1)
    else if c == L_ESC && At(pat, p + 1) == 98 then
      if At(pat, p + 2) == 0 || At(pat, p + 3) == 0 then Bad(UnbalancedPattern)
      else Balance(At(pat, p + 2), At(pat, p + 3), p + 4)
    else if c == L_ESC && At(pat, p + 1) == 102 then
      if At(pat, p + 2) != 91 then Bad(MissingFrontierSet)
      else match ClassEnd(pat, p + 2)
           case Failure(f) => Bad(f)
           case Success(ep) => Frontier(p + 2, ep)
    else if c == L_ESC && IsDigit(At(pat, p + 1)) then BackRef(At(pat, p + 1), p + 2)
    else if c == 36 && At(pat, p + 1) == 0 then AtEnd(p + 1)
    else match ClassEnd(pat, p)
         case Failure(f) => Bad(f)
         case Success(ep) =>
           if At(pat, ep) in {42, 43, 45, 63} then Repeat(p, ep, At(pat, ep), ep + 1) else Class(p, ep, ep)
  }

  // ----- one item, without repetition

  /** The scan of matchbalance from i, with cont openings not yet closed. */
  function BalanceEnd(src: seq<Byte>, i: nat, b: Byte, e: Byte, cont: int): (r: Option<nat>)
    ensures r.Some? ==> i < r.value <= |src|
    decreases |src| - i
  {
    if i >= |src| then None
    else if src[i] == e then if cont == 1 then Some(i + 1) else BalanceEnd(src, i + 1, b, e, cont - 1)
    else if src[i] == b then BalanceEnd(src, i + 1, b, e, cont + 1)
    else BalanceEnd(src, i + 1, b, e, cont)
  }

  /** The last capture still open: capture_to_close. */
  function LastOpen(caps: seq<Cap>): (r: Option<nat>)
    ensures r.Some? <==> exists l :: 0 <= l < |caps| && caps[l].len == CAP_UNFINISHED
    ensures r.Some? ==> r.value < |caps| && caps[r.value].len == CAP_UNFINISHED
    ensures r.Some? ==> forall l :: r.value < l < |caps| ==> caps[l].len != CAP_UNFINISHED
  {
    if caps == [] then None
    else if caps[|caps| - 1].len == CAP_UNFINISHED then Some(|caps| - 1)
    else LastOpen(caps[..|caps| - 1])
  }

  datatype Move = Stuck | Fault(f: Fault) | Go(s: nat, caps: seq<Cap>)

  /** What a back reference does at s: match_capture. */
  function CaptureMove(src: seq<Byte>, digit: Byte, s: nat, caps: seq<Cap>): (m: Move)
    requires s <= |src|
    ensures m.Go? ==> s <= m.s <= |src|
  {
    var l := digit - 49;
    if l < 0 || l >= |caps| || caps[l].len == CAP_UNFINISHED then Fault(InvalidCaptureIndex)
    else if SameText(src, caps[l], s) then Go(s + caps[l].len, caps) else Stuck
  }

  /** What an item that is not a repetition does at s. */
  function Step(src: seq<Byte>, pat: seq<Byte>, it: Item, s: nat, caps: seq<Cap>): (m: Move)
    requires s <= |src| && !it.End? && !it.Repeat?
    ensures m.Go? ==> s <= m.s <= |src|
    ensures it.Bad? ==> m.Fault?
  {
    match it
    case Bad(f) => Fault(f)
    case Open(what, _) => if |caps| >= MAXCAPTURES then Fault(TooManyCaptures) else Go(s, caps + [Cap(s, what)])
    case Close(_) =>
      (match LastOpen(caps)
       case None => Fault(InvalidPatternCapture)
       case Some(l) => Go(s, caps[l := Cap(caps[l].init, s - caps[l].init)]))
    case Balance(b, e, _) =>
      if At(src, s) != b then Stuck
      else (match BalanceEnd(src, s + 1, b, e, 1)
            case None => Stuck
            case Some(t) => Go(t, caps))
    case Frontier(q, ep) =>
      if !InSet(pat, q, ep, if s == 0 then 0 else src[s - 1]) && InSet(pat, q, ep, At(src, s))
      then Go(s, caps) else Stuck
    case BackRef(d, _) => CaptureMove(src, d, s, caps)
    case AtEnd(_) => if s == |src| then Go(s, caps) else Stuck
    case Class(p, ep, _) => if s < |src| && Single(pat, p, ep, src[s]) then Go(s + 1, caps) else Stuck
  }

  /** The text of a closed capture stands again at s. A position capture has no text. */
  predicate SameText(src: seq<Byte>, c: Cap, s: nat)
    requires s <= |src|
  {
    0 <= c.len <= |src| - s && c.init + c.len <= |src| && src[c.init..c.init + c.len] == src[s..s + c.len]
  }

  // ----- repetitions

  /** How many characters from s on the class matches in a row. */
  function Reach(src: seq<Byte>, pat: seq<Byte>, p: nat, ep: nat, s: nat): (n: nat)
    requires s <= |src|
    ensures s + n <= |src|
    ensures forall j :: s <= j < s + n ==> Single(pat, p, ep, src[j])
    ensures s + n < |src| ==> !Single(pat, p, ep, src[s + n])
    decreases |src| - s
  {
    if s < |src| && Single(pat, p, ep, src[s]) then 1 + Reach(src, pat, p, ep, s + 1) else 0
  }

  /** The repetition counts the suffix allows when the class matches n characters in a row. */
  function Least(suffix: Byte): nat { if suffix == 43 then 1 else 0 }

  function Most(suffix: Byte, n: nat): nat { if suffix == 63 && n > 1 then 1 else n }

  /** One way to go through the pattern: a repetition count for every repetition reached. */
  function Run(src: seq<Byte>, pat: seq<Byte>, p: nat, s: nat, caps: seq<Cap>, ch: seq<nat>): (r: Outcome)
    requires p <= |pat| && s <= |src|
    decreases |pat| - p
  {
    var it := ItemAt(pat, p);
    if it.End? then if ch == [] then Matched(s, caps) else Failed
    else if it.Repeat? then
      if ch == [] then Failed
      else if Least(it.suffix) <= ch[0] <= Most(it.suffix, Reach(src, pat, it.p, it.ep, s))
      then Run(src, pat, it.next, s + ch[0], caps, ch[1..])
      else Failed
    else
      match Step(src, pat, it, s, caps)
      case Stuck => Failed
      case Fault(f) => Error(f)
      case Go(t, caps') => Run(src, pat, it.next, t, caps', ch)
  }

  /** The choice a is tried before b: at the first repetition where they differ, a has more repetitions, or fewer
      if the suffix is a minus. */
  predicate Before(pat: seq<Byte>, p: nat, a: seq<nat>, b: seq<nat>)
    requires p <= |pat|
    decreases |pat| - p
  {
    var it := ItemAt(pat, p);
    if it.End? || it.Bad? then false
    else if it.Repeat? then
      a != [] && b != [] &&
      if a[0] == b[0] then Before(pat, it.next, a[1..], b[1..])
      else if it.suffix == 45 then a[0] < b[0] else a[0] > b[0]
    else Before(pat, it.next, a, b)
  }

  /** A choice that ends in a match or an error, when all the choices before it fail. */
  ghost predicate First(src: seq<Byte>, pat: seq<Byte>, p: nat, s: nat, caps: seq<Cap>, ch: seq<nat>)
    requires p <= |pat| && s <= |src|
  {
    && Run(src, pat, p, s, caps, ch) != Failed
    && forall ch': seq<nat> :: Before(pat, p, ch', ch) ==> Run(src, pat, p, s, caps, ch') == Failed
  }

  // ----- the search

  /** What match finds at s for the pattern from p on. */
  function Search(src: seq<Byte>, pat: seq<Byte>, p: nat, s: nat, caps: seq<Cap>): Outcome
    requires p <= |pat| && s <= |src|
    decreases |pat| - p, 0, 0
  {
    var it := ItemAt(pat, p);
    if it.End? then Matched(s, caps)
    else if it.Repeat? then
      var n := Reach(src, pat, it.p, it.ep, s);
      if it.suffix == 45 then SearchUp(src, pat, it.next, s, caps, 0, n)
      else SearchDown(src, pat, it.next, s, caps, Most(it.suffix, n), Least(it.suffix))
    else
      match Step(src, pat, it, s, caps)
      case Stuck => Failed
      case Fault(f) => Error(f)
      case Go(t, caps') => Search(src, pat, it.next, t, caps')
  }

  function SearchDown(src: seq<Byte>, pat: seq<Byte>, q: nat, s: nat, caps: seq<Cap>, k: int, lo: nat): Outcome
    requires q <= |pat| && s + k <= |src|
    decreases |pat| - q, 1, if k < 0 then 0 else k + 1
  {
    if k < lo then Failed
    else
      var r := Search(src, pat, q, s + k, caps);
      if r != Failed then r else SearchDown(src, pat, q, s, caps, k - 1, lo)
  }

  function SearchUp(src: seq<Byte>, pat: seq<Byte>, q: nat, s: nat, caps: seq<Cap>, k: nat, hi: nat): Outcome
    requires q <= |pat| && s + hi <= |src|
    decreases |pat| - q, 1, if k <= hi then hi - k + 1 else 0
  {
    if k > hi then Failed
    else
      var r := Search(src, pat, q, s + k, caps);
      if r != Failed then r else SearchUp(src, pat, q, s, caps, k + 1, hi)
  }
}
