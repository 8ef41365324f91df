/** Operator precedence: subexpr as a function on tokens, and exactly which trees it builds. */
module Precedence {
  import opened Wrappers

  const MAXCCALLS: nat := 200

  datatype BinOp = Add | Sub | Mul | Div | Mod | Pow | Concat | Ne | Eq | Lt | Le | Gt | Ge | And | Or

  datatype UnOp = Not | Minus | Len

  /** Names, strings and other one-token operands; the tokens of unary operators that are not binary; parentheses;
      binary operators, with the minus sign among them; what starts a suffix of a primary expression; and the rest. */
  datatype Token =
    | TName(id: nat) | TString(id: nat) | TLiteral(id: nat)
    | TNot | THash | TOpen | TClose | TOp(op: BinOp) | TSuffix | TOther

  datatype Expr =
    | Name(id: nat) | Str(id: nat) | Literal(id: nat)
    | Paren(e: Expr) | Unary(uop: UnOp, e: Expr) | Binary(op: BinOp, l: Expr, r: Expr)

  datatype ParseError = TooManyLevels | UnexpectedSymbol | Unclosed | SuffixNotModelled

  type Parsed = Result<(Expr, seq<Token>), ParseError>

  // ----- the priority table

  function Left(op: BinOp): nat {
    match op
    case Add => 6 case Sub => 6 case Mul => 7 case Div => 7 case Mod => 7
    case Pow => 10 case Concat => 5
    case Ne => 3 case Eq => 3 case Lt => 3 case Le => 3 case Gt => 3 case Ge => 3
    case And => 2 case Or => 1
  }

  function Right(op: BinOp): nat {
    match op
    case Pow => 9 case Concat => 4
    case _ => Left(op)
  }

  const UNARY_PRIORITY: nat := 8

  function GetUnOp(t: Token): Option<UnOp> {
    match t
    case TNot => Some(Not)
    case TOp(op) => if op == Sub then Some(Minus) else None
    case THash => Some(Len)
    case _ => None
  }

  function GetBinOp(ts: seq<Token>): Option<BinOp> {
    if ts != [] && ts[0].TOp? then Some(ts[0].op) else None
  }

  /** The token goes on with a primary expression: a call, an index, a field or a method. */
  predicate Suffix(ts: seq<Token>) {
    ts != [] && (ts[0].TOpen? || ts[0].TString? || ts[0].TSuffix?)
  }

  // ----- the parser

  /** A primary expression that has been read, when no suffix follows. */
  function Primary(e: Expr, ts: seq<Token>): Parsed {
    if Suffix(ts) then Failure(SuffixNotModelled) else Success((e, ts))
  }

  /** simpleexp, and the parenthesised expressions of prefixexp. */
  function SimpleExp(ts: seq<Token>, calls: nat): (r: Parsed)
    ensures r.Success? ==> |r.value.1| < |ts|
    decreases |ts|, 0
  {
    if ts == [] then Failure(UnexpectedSymbol)
    else
      match ts[0]
      case TLiteral(id) => Success((Literal(id), ts[1..]))
      case TString(id) => Success((Str(id), ts[1..]))
      case TName(id) => Primary(Name(id), ts[1..])
      case TOpen =>
        (match SubExpr(ts[1..], 0, calls)
         case Failure(e) => Failure(e)
         case Success((e, rest)) =>
           if rest == [] || rest[0] != TClose then Failure(Unclosed) else Primary(Paren(e), rest[1..]))
      case _ => Failure(UnexpectedSymbol)
  }

  /** The first operand: a unary operator with its operand, or a simple expression. */
  function Operand(ts: seq<Token>, calls: nat): (r: Parsed)
    ensures r.Success? ==> |r.value.1| < |ts|
    decreases |ts|, 1
  {
    if ts != [] && GetUnOp(ts[0]).Some? then
      match SubExpr(ts[1..], UNARY_PRIORITY, calls)
      case Failure(e) => Failure(e)
      case Success((e, rest)) => Success((Unary(GetUnOp(ts[0]).value, e), rest))
    else
      SimpleExp(ts, calls)
  }

  /** subexpr, with so many levels already entered. */
  function SubExpr(ts: seq<Token>, limit: nat, calls: nat): (r: Parsed)
    ensures r.Success? ==> |r.value.1| < |ts|
    decreases |ts|, 2
  {
    if calls + 1 > MAXCCALLS then Failure(TooManyLevels)
    else
      match Operand(ts, calls + 1)
      case Failure(e) => Failure(e)
      case Success((e, rest)) => Climb(e, rest, limit, calls + 1)
  }

  /** The loop of subexpr: operators that bind tighter than the limit. */
  function Climb(e: Expr, ts: seq<Token>, limit: nat, calls: nat): (r: Parsed)
    ensures r.Success? ==> |r.value.1| <= |ts|
    decreases |ts|, 3
  {
    var op := GetBinOp(ts);
    if op.Some? && Left(op.value) > limit then
      match SubExpr(ts[1..], Right(op.value), calls)
      case Failure(err) => Failure(err)
      case Success((r, rest)) => Climb(Binary(op.value, e, r), rest, limit, calls)
    else Success((e, ts))
  }

  // ----- trees and their text

  function UnToken(uop: UnOp): Token {
    match uop case Not => TNot case Minus => TOp(Sub) case Len => THash
  }

  function Print(e: Expr): seq<Token> {
    match e
    case Name(id) => [TName(id)]
    case Str(id) => [TString(id)]
    case Literal(id) => [TLiteral(id)]
    case Paren(e1) => [TOpen] + Print(e1) + [TClose]
    case Unary(uop, e1) => [UnToken(uop)] + Print(e1)
    case Binary(op, l, r) => Print(l) + [TOp(op)] + Print(r)
  }

  /** An operator of left priority p that comes after the tree is not taken by an operand inside it. */
  predicate Stops(e: Expr, p: nat) {
    match e
    case Unary(_, e1) => p <= UNARY_PRIORITY && Stops(e1, p)
    case Binary(op, _, r) => p <= Right(op) && Stops(r, p)
    case _ => true
  }

  /** The tree is written with the parentheses it needs where operators must bind tighter than the limit. */
  predicate Fits(e: Expr, limit: nat) {
    match e
    case Paren(e1) => Fits(e1, 0)
    case Unary(_, e1) => Fits(e1, UNARY_PRIORITY)
    case Binary(op, l, r) => Left(op) > limit && Fits(l, limit) && Stops(l, Left(op)) && Fits(r, Right(op))
    case _ => true
  }

  /** The levels subexpr enters for the tree. */
  function Levels(e: Expr): nat {
    match e
    case Paren(e1) => 1 + Levels(e1)
    case Unary(_, e1) => 1 + Levels(e1)
    case Binary(_, l, r) => if Levels(l) > 1 + Levels(r) then Levels(l) else 1 + Levels(r)
    case _ => 1
  }

  /** The text of the tree ends with a primary expression. */
  predicate EndsPrimary(e: Expr) {
    match e
    case Unary(_, e1) => EndsPrimary(e1)
    case Binary(_, _, r) => EndsPrimary(r)
    case Name(_) => true
    case Paren(_) => true
    case _ => false
  }

  /** What comes next does not go on with the last operand of the tree. */
  predicate Apart(e: Expr, ts: seq<Token>) {
    && (EndsPrimary(e) ==> !Suffix(ts))
    && (GetBinOp(ts).Some? ==> Stops(e, Left(GetBinOp(ts).value)))
  }

  /** The tree ends here: what comes next belongs neither to its operands nor, under the limit, to the tree itself. */
  predicate Ends(e: Expr, ts: seq<Token>, limit: nat) {
    Apart(e, ts) && (GetBinOp(ts).Some? ==> Left(GetBinOp(ts).value) <= limit)
  }

  // ----- completeness

  /** After reading the text of a tree that fits, subexpr stands at its loop with that tree. */
  lemma {:induction false} Reaches(e: Expr, ts: seq<Token>, limit: nat, calls: nat)
    requires Fits(e, limit) && Apart(e, ts) && calls + Levels(e) <= MAXCCALLS
    ensures SubExpr(Print(e) + ts, limit, calls) == Climb(e, ts, limit, calls + 1)
    decreases e, 2
  {
    hide SubExpr, Print, Operand, SimpleExp, Climb;
    match e
    case Name(_) => ReachesToken(e, ts, limit, calls);
    case Str(_) => ReachesToken(e, ts, limit, calls);
    case Literal(_) => ReachesToken(e, ts, limit, calls);
    case Paren(e1) => ReachesParen(e1, ts, limit, calls);
    case Unary(uop, e1) => ReachesUnary(uop, e1, ts, limit, calls);
    case Binary(op, l, r) => ReachesBinary(op, l, r, ts, limit, calls);
  }

  lemma {:induction false} ReachesBinary(op: BinOp, l: Expr, r: Expr, ts: seq<Token>, limit: nat, calls: nat)
    requires Fits(Binary(op, l, r), limit) && Apart(Binary(op, l, r), ts) &&
      calls + Levels(Binary(op, l, r)) <= MAXCCALLS
    ensures SubExpr(Print(Binary(op, l, r)) + ts, limit, calls) == Climb(Binary(op, l, r), ts, limit, calls + 1)
    decreases Binary(op, l, r), 0
  {
    var ts1 := [TOp(op)] + (Print(r) + ts);
    hide SubExpr, Operand, SimpleExp;
    assert Print(Binary(op, l, r)) + ts == Print(l) + ts1;
    assert GetBinOp(ts1) == Some(op) && ts1[1..] == Print(r) + ts;
    Reaches(l, ts1, limit, calls);
    Reaches(r, ts, Right(op), calls + 1);
  }

  lemma ReachesToken(e: Expr, ts: seq<Token>, limit: nat, calls: nat)
    requires (e.Name? || e.Str? || e.Literal?) && Apart(e, ts) && calls < MAXCCALLS
    ensures SubExpr(Print(e) + ts, limit, calls) == Climb(e, ts, limit, calls + 1)
  {
    var text := Print(e) + ts;
    assert text[1..] == ts;
    assert Operand(text, calls + 1) == SimpleExp(text, calls + 1) == Success((e, ts));
  }

  lemma {:induction false} ReachesParen(e1: Expr, ts: seq<Token>, limit: nat, calls: nat)
    requires Fits(e1, 0) && Apart(Paren(e1), ts) && calls + 1 + Levels(e1) <= MAXCCALLS
    ensures SubExpr(Print(Paren(e1)) + ts, limit, calls) == Climb(Paren(e1), ts, limit, calls + 1)
    decreases e1, 3
  {
    var ts1 := [TClose] + ts;
    var text := Print(Paren(e1)) + ts;
    assert text == [TOpen] + (Print(e1) + ts1);
    Reaches(e1, ts1, 0, calls + 1);
    assert ts1[1..] == ts;
    assert SimpleExp(text, calls + 1) == Success((Paren(e1), ts));
  }

  lemma {:induction false} ReachesUnary(uop: UnOp, e1: Expr, ts: seq<Token>, limit: nat, calls: nat)
    requires Fits(e1, UNARY_PRIORITY) && Apart(Unary(uop, e1), ts) && calls + 1 + Levels(e1) <= MAXCCALLS
    ensures SubExpr(Print(Unary(uop, e1)) + ts, limit, calls) == Climb(Unary(uop, e1), ts, limit, calls + 1)
    decreases e1, 3
  {
    var text := Print(Unary(uop, e1)) + ts;
    assert text == [UnToken(uop)] + (Print(e1) + ts);
    Reaches(e1, ts, UNARY_PRIORITY, calls + 1);
    assert Operand(text, calls + 1) == Success((Unary(uop, e1), ts));
  }

  // ----- soundness

  /** What an operand or a climb may return for the tokens from ts on. */
  predicate Reads(ts: seq<Token>, e: Expr, rest: seq<Token>, calls: nat) {
    ts == Print(e) + rest && Apart(e, rest) && calls + Levels(e) <= MAXCCALLS
  }

  lemma UnarySound(t: Token, e: Expr, rest: seq<Token>, limit: nat, calls: nat)
    requires GetUnOp(t).Some? && calls + 1 + Levels(e) <= MAXCCALLS && Fits(e, UNARY_PRIORITY) &&
      Ends(e, rest, UNARY_PRIORITY)
    ensures var u := Unary(GetUnOp(t).value, e);
            Reads([t] + (Print(e) + rest), u, rest, calls) && Fits(u, limit)
  {
  }

  lemma ParenSound(e: Expr, rest: seq<Token>, limit: nat, calls: nat)
    requires calls + 1 + Levels(e) <= MAXCCALLS && Fits(e, 0) && !Suffix(rest)
    ensures Reads([TOpen] + (Print(e) + ([TClose] + rest)), Paren(e), rest, calls) && Fits(Paren(e), limit)
  {
    assert Print(Paren(e)) + rest == [TOpen] + (Print(e) + ([TClose] + rest));
  }

  lemma TokenSound(ts: seq<Token>, limit: nat, calls: nat)
    requires calls < MAXCCALLS && ts != [] && !ts[0].TOpen? && SimpleExp(ts, calls + 1).Success?
    ensures var (e, rest) := SimpleExp(ts, calls + 1).value;
            Reads(ts, e, rest, calls) && Fits(e, limit)
  {
    assert ts == [ts[0]] + ts[1..];
  }

  lemma {:induction false} OperandSound(ts: seq<Token>, limit: nat, calls: nat)
    requires calls < MAXCCALLS && Operand(ts, calls + 1).Success?
    ensures var (e, rest) := Operand(ts, calls + 1).value;
            Reads(ts, e, rest, calls) && Fits(e, limit)
    decreases |ts|, 0
  {
    hide SubExpr, Climb, Fits, Apart, Print, Levels;
    assert ts == [ts[0]] + ts[1..];
    if GetUnOp(ts[0]).Some? {
      SubExprSound(ts[1..], UNARY_PRIORITY, calls + 1);
      var (e, rest) := SubExpr(ts[1..], UNARY_PRIORITY, calls + 1).value;
      UnarySound(ts[0], e, rest, limit, calls);
    } else if ts[0].TOpen? {
      SubExprSound(ts[1..], 0, calls + 1);
      var (e, rest) := SubExpr(ts[1..], 0, calls + 1).value;
      assert rest == [TClose] + rest[1..];
      ParenSound(e, rest[1..], limit, calls);
    } else {
      TokenSound(ts, limit, calls);
    }
  }

  lemma {:induction false} SubExprSound(ts: seq<Token>, limit: nat, calls: nat)
    requires SubExpr(ts, limit, calls).Success?
    ensures var (e, rest) := SubExpr(ts, limit, calls).value;
            Reads(ts, e, rest, calls) && Fits(e, limit) && Ends(e, rest, limit)
    decreases |ts|, 2
  {
    hide Operand, Climb, Fits, Reads, Ends;
    OperandSound(ts, limit, calls);
    var (e, rest) := Operand(ts, calls + 1).value;
    ClimbSound(ts, e, rest, limit, calls);
  }

  /** An operator and its right operand join what has been read. */
  lemma JoinSound(all: seq<Token>, e: Expr, op: BinOp, ts: seq<Token>, r: Expr, rest: seq<Token>, limit: nat,
                  calls: nat)
    requires Reads(all, e, [TOp(op)] + ts, calls) && Fits(e, limit) && Left(op) > limit
    requires Reads(ts, r, rest, calls + 1) && Fits(r, Right(op)) && Ends(r, rest, Right(op))
    ensures Reads(all, Binary(op, e, r), rest, calls) && Fits(Binary(op, e, r), limit)
  {
    assert GetBinOp([TOp(op)] + ts) == Some(op);
    assert Print(Binary(op, e, r)) + rest == Print(e) + ([TOp(op)] + (Print(r) + rest));
  }

  lemma {:induction false} ClimbSound(all: seq<Token>, e: Expr, ts: seq<Token>, limit: nat, calls: nat)
    requires Reads(all, e, ts, calls) && Fits(e, limit) && Climb(e, ts, limit, calls + 1).Success?
    ensures var (e', rest) := Climb(e, ts, limit, calls + 1).value;
            Reads(all, e', rest, calls) && Fits(e', limit) && Ends(e', rest, limit)
    decreases |ts|, 3
  {
    hide SubExpr, Fits, Apart, Print, Levels, Left, Right;
    var op := GetBinOp(ts);
    if op.Some? && Left(op.value) > limit {
      SubExprSound(ts[1..], Right(op.value), calls + 1);
      var (r, rest) := SubExpr(ts[1..], Right(op.value), calls + 1).value;
      assert ts == [TOp(op.value)] + ts[1..];
      JoinSound(all, e, op.value, ts[1..], r, rest, limit, calls);
      ClimbSound(all, Binary(op.value, e, r), rest, limit, calls);
    }
  }

  // ----- exactly

  /** subexpr succeeds with a tree if and only if its text stands there, with the parentheses it needs under the limit,
      what follows does not belong to it, and the levels suffice. */
  lemma SubExprExact(ts: seq<Token>, limit: nat, calls: nat, e: Expr, rest: seq<Token>)
    ensures SubExpr(ts, limit, calls) == Success((e, rest)) <==>
            ts == Print(e) + rest && Fits(e, limit) && Ends(e, rest, limit) && calls + Levels(e) <= MAXCCALLS
  {
    if SubExpr(ts, limit, calls) == Success((e, rest)) { SubExprSound(ts, limit, calls); }
    if ts == Print(e) + rest && Fits(e, limit) && Ends(e, rest, limit) && calls + Levels(e) <= MAXCCALLS {
      Reaches(e, rest, limit, calls);
    }
  }

  // ----- writing any tree

  function Wrapped(e: Expr, fits: bool): Expr { if fits then e else Paren(e) }

  /** The tree with parentheses added around the operands whose operators do not clear the limit, and only those. */
  function Parenthesize(e: Expr): Expr {
    match e
    case Paren(e1) => Paren(Parenthesize(e1))
    case Unary(uop, e1) => Unary(uop, Wrapped(Parenthesize(e1), Fits(Parenthesize(e1), UNARY_PRIORITY)))
    case Binary(op, l, r) =>
      Binary(op, Wrapped(Parenthesize(l), Stops(Parenthesize(l), Left(op))),
             Wrapped(Parenthesize(r), Fits(Parenthesize(r), Right(op))))
    case _ => e
  }

  /** The operators of the tree, without parentheses. */
  function Bare(e: Expr): Expr {
    match e
    case Paren(e1) => Bare(e1)
    case Unary(uop, e1) => Unary(uop, Bare(e1))
    case Binary(op, l, r) => Binary(op, Bare(l), Bare(r))
    case _ => e
  }

  /** An operand that stops before an operator binds tighter than anything that operator clears. */
  lemma {:induction false} StopsFits(e: Expr, p: nat, limit: nat)
    requires Fits(e, 0) && Stops(e, p) && limit < p
    ensures Fits(e, limit)
    decreases e
  {
    if e.Binary? { StopsFits(e.l, Left(e.op), limit); }
  }

  lemma {:induction false} ParenthesizeFits(e: Expr)
    ensures Fits(Parenthesize(e), 0) && Bare(Parenthesize(e)) == Bare(e)
    decreases e
  {
    match e
    case Paren(e1) => ParenthesizeFits(e1);
    case Unary(_, e1) => ParenthesizeFits(e1);
    case Binary(op, l, r) =>
      ParenthesizeFits(l);
      ParenthesizeFits(r);
      if Stops(Parenthesize(l), Left(op)) { StopsFits(Parenthesize(l), Left(op), 0); }
    case _ =>
  }

  lemma {:induction false} FitsLess(e: Expr, limit: nat)
    requires Fits(e, limit)
    ensures Fits(e, 0)
    decreases e
  {
    if e.Binary? { FitsLess(e.l, limit); }
  }

  /** No parentheses are added where none are needed. */
  lemma {:induction false} ParenthesizeMinimal(e: Expr)
    requires Fits(e, 0)
    ensures Parenthesize(e) == e
    decreases e
  {
    match e
    case Paren(e1) => ParenthesizeMinimal(e1);
    case Unary(_, e1) =>
      FitsLess(e1, UNARY_PRIORITY);
      ParenthesizeMinimal(e1);
    case Binary(op, l, r) =>
      ParenthesizeMinimal(l);
      FitsLess(r, Right(op));
      ParenthesizeMinimal(r);
    case _ =>
  }

  /** Every operator tree, printed with the parentheses it needs, is read back with the same operators, as far as the
      levels suffice. */
  lemma Rebuilds(e: Expr, rest: seq<Token>, calls: nat)
    requires Ends(Parenthesize(e), rest, 0) && calls + Levels(Parenthesize(e)) <= MAXCCALLS
    ensures var r := SubExpr(Print(Parenthesize(e)) + rest, 0, calls);
            r == Success((Parenthesize(e), rest)) && Bare(r.value.0) == Bare(e)
  {
    ParenthesizeFits(e);
    SubExprExact(Print(Parenthesize(e)) + rest, 0, calls, Parenthesize(e), rest);
  }

  lemma PairFacts(op: BinOp, a: nat, b: nat)
    ensures var pair := Binary(op, Name(a), Name(b));
            && Print(pair) == [TName(a), TOp(op), TName(b)] && Levels(pair) == 2
            && (forall limit: nat :: Fits(pair, limit) <==> Left(op) > limit)
            && (forall p: nat :: Stops(pair, p) <==> p <= Right(op))
  {
    assert Levels(Name(a)) == 1 && Levels(Name(b)) == 1;
  }

  lemma RightNested(op: BinOp, a: nat, b: nat, c: nat)
    requires op == Pow || op == Concat
    ensures var tree := Binary(op, Name(a), Binary(op, Name(b), Name(c)));
            Print(tree) == [TName(a), TOp(op), TName(b), TOp(op), TName(c)] && Fits(tree, 0) && Levels(tree) == 3
  {
    PairFacts(op, b, c);
    assert Levels(Name(a)) == 1;
  }

  lemma LeftNested(op: BinOp, a: nat, b: nat, c: nat)
    requires op != Pow && op != Concat
    ensures var tree := Binary(op, Binary(op, Name(a), Name(b)), Name(c));
            Print(tree) == [TName(a), TOp(op), TName(b), TOp(op), TName(c)] && Fits(tree, 0) && Levels(tree) == 2
  {
    PairFacts(op, a, b);
    assert Levels(Name(c)) == 1;
  }

  /** Without parentheses, a op b op c groups to the right for powers and concatenations, and to the left otherwise. */
  lemma Associativity(op: BinOp, a: nat, b: nat, c: nat)
    ensures var text := [TName(a), TOp(op), TName(b), TOp(op), TName(c)];
            SubExpr(text, 0, 0) ==
              Success((if op == Pow || op == Concat then Binary(op, Name(a), Binary(op, Name(b), Name(c)))
                                            else Binary(op, Binary(op, Name(a), Name(b)), Name(c)), []))
  {
    hide SubExpr, Print, Fits, Levels;
    var text := [TName(a), TOp(op), TName(b), TOp(op), TName(c)];
    assert text + [] == text;
    if op == Pow || op == Concat {
      RightNested(op, a, b, c);
      SubExprExact(text, 0, 0, Binary(op, Name(a), Binary(op, Name(b), Name(c))), []);
    } else {
      LeftNested(op, a, b, c);
      SubExprExact(text, 0, 0, Binary(op, Binary(op, Name(a), Name(b)), Name(c)), []);
    }
  }

  // ----- the parser itself

  class LexState {
    const tokens: seq<Token>
    var pos: nat
    var nCcalls: nat

    predicate Valid()
      reads this
    {
      pos <= |tokens|
    }

    /** The tokens not yet read. */
    function Rest(): seq<Token>
      reads this
      requires Valid()
    {
      tokens[pos..]
    }

    constructor (tokens: seq<Token>, nCcalls: nat)
      ensures Valid() && Rest() == tokens && this.nCcalls == nCcalls
    {
      this.tokens := tokens;
      this.nCcalls := nCcalls;
      pos := 0;
    }

    /** The method has read what the function says; on success it has left the levels it entered. */
    twostate predicate Follows(spec: Parsed, new r: Result<Expr, ParseError>)
      requires old(Valid())
      reads this
    {
      && Valid()
      && match spec
         case Failure(e) => r == Failure(e)
         case Success((e, rest)) => r == Success(e) && Rest() == rest && nCcalls == old(nCcalls)
    }

    /** luaX_next. */
    method Next()
      requires Valid() && Rest() != []
      modifies this
      ensures Valid() && Rest() == old(Rest())[1..] && nCcalls == old(nCcalls)
    {
      pos := pos + 1;
    }

    /** simpleexp and prefixexp. */
    method SimpleExpression() returns (r: Result<Expr, ParseError>)
      requires Valid()
      modifies this
      ensures Follows(SimpleExp(old(Rest()), old(nCcalls)), r)
      decreases |tokens| - pos, 0
    {
      if pos == |tokens| { return Failure(UnexpectedSymbol); }
      match tokens[pos]
      case TLiteral(id) =>
        Next();
        return Success(Literal(id));
      case TString(id) =>
        Next();
        return Success(Str(id));
      case TName(id) =>
        Next();
        return if Suffix(Rest()) then Failure(SuffixNotModelled) else Success(Name(id));
      case TOpen =>
        Next();
        r := SubExpression(0);
        if r.Failure? { return; }
        if pos == |tokens| || tokens[pos] != TClose { return Failure(Unclosed); }
        Next();
        return if Suffix(Rest()) then Failure(SuffixNotModelled) else Success(Paren(r.value));
      case _ => return Failure(UnexpectedSymbol);
    }

    /** The first operand of subexpr. */
    method FirstOperand() returns (r: Result<Expr, ParseError>)
      requires Valid()
      modifies this
      ensures Follows(Operand(old(Rest()), old(nCcalls)), r)
      decreases |tokens| - pos, 1
    {
      hide SimpleExp, SubExpr;
      var uop := if pos < |tokens| then GetUnOp(tokens[pos]) else None;
      if uop != None {
        Next();
        r := SubExpression(UNARY_PRIORITY);
        if r.Failure? { return; }
        return Success(Unary(uop.value, r.value));
      }
      r := SimpleExpression();
    }

    /** subexpr: the tree of the longest expression whose operators bind tighter than the limit. */
    method SubExpression(limit: nat) returns (r: Result<Expr, ParseError>)
      requires Valid()
      modifies this
      ensures Follows(SubExpr(old(Rest()), limit, old(nCcalls)), r)
      decreases |tokens| - pos, 2
    {
      hide Operand, Left, Right;
      ghost var all, calls := Rest(), nCcalls;
      nCcalls := nCcalls + 1;
      if nCcalls > MAXCCALLS { return Failure(TooManyLevels); }
      r := FirstOperand();
      if r.Failure? { return; }
      var op := GetBinOp(Rest());
      while op != None && Left(op.value) > limit
        invariant Valid() && |Rest()| < |all| && nCcalls == calls + 1 && r.Success? && op == GetBinOp(Rest())
        invariant SubExpr(all, limit, calls) == Climb(r.value, Rest(), limit, calls + 1)
        decreases |tokens| - pos
      {
        Next();
        var r2 := SubExpression(Right(op.value));
        if r2.Failure? { return r2; }
        r := Success(Binary(op.value, r.value, r2.value));
        op := GetBinOp(Rest());
      }
      nCcalls := nCcalls - 1;
    }
  }
}
