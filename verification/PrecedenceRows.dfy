/** The precedence of operators as the reference manual has it, in rows, and that subexpr groups by it. */
module PrecedenceRows {
  import opened Wrappers
  import opened Precedence

  // ----- section 2.5.6 of the Lua 5.1 reference manual

  /** The rows from low to high precedence; the unary operators are row 6. */
  function Row(op: BinOp): nat {
    if op in {Or} then 0
    else if op in {And} then 1
    else if op in {Lt, Gt, Le, Ge, Ne, Eq} then 2
    else if op in {Concat} then 3
    else if op in {Add, Sub} then 4
    else if op in {Mul, Div, Mod} then 5
    else 7
  }

  const UNARY_ROW: nat := 6

  /** In a op1 b op2 c, b belongs to op2: it is in a higher row, or both are powers or both concatenations, which are
      right associative. */
  predicate GroupsRight(op1: BinOp, op2: BinOp) {
    Row(op2) > Row(op1) || (op1 == op2 && (op1 == Concat || op1 == Pow))
  }

  /** What stands before an expression: nothing that could take its operands, a unary operator, or a binary one. */
  datatype Before = Nothing | AUnary | ABinary(op: BinOp)

  /** The operator takes the operand before it, rather than leaving it to what stands before. */
  predicate Takes(b: Before, op: BinOp) {
    match b
    case Nothing => true
    case AUnary => Row(op) > UNARY_ROW
    case ABinary(op1) => GroupsRight(op1, op)
  }

  /** No operator at the right end of the tree loses its operand to op. */
  predicate Keeps(e: Expr, op: BinOp) {
    match e
    case Unary(_, e1) => !Takes(AUnary, op) && Keeps(e1, op)
    case Binary(op1, _, r) => !Takes(ABinary(op1), op) && Keeps(r, op)
    case _ => true
  }

  /** The tree groups its operators as the rows say, also with what stands before it. */
  predicate Grouped(e: Expr, b: Before) {
    match e
    case Paren(e1) => Grouped(e1, Nothing)
    case Unary(_, e1) => Grouped(e1, AUnary)
    case Binary(op, l, r) => Takes(b, op) && Grouped(l, b) && Keeps(l, op) && Grouped(r, ABinary(op))
    case _ => true
  }

  // ----- the priority table says the same

  function LimitOf(b: Before): nat {
    match b
    case Nothing => 0
    case AUnary => UNARY_PRIORITY
    case ABinary(op) => Right(op)
  }

  /** The left priority of an operator is above what stands before exactly when it takes the operand. */
  lemma TableExact(b: Before, op: BinOp)
    ensures Left(op) > LimitOf(b) <==> Takes(b, op)
  {
  }

  lemma {:induction false} KeepsExact(e: Expr, op: BinOp)
    ensures Stops(e, Left(op)) <==> Keeps(e, op)
  {
    hide Left, Right, Takes;
    match e
    case Unary(_, e1) =>
      TableExact(AUnary, op);
      KeepsExact(e1, op);
    case Binary(op1, _, r) =>
      TableExact(ABinary(op1), op);
      KeepsExact(r, op);
    case _ =>
  }

  lemma {:induction false} GroupedExact(e: Expr, b: Before)
    ensures Fits(e, LimitOf(b)) <==> Grouped(e, b)
    decreases e
  {
    hide Left, Right, Takes, Stops, Keeps;
    match e
    case Paren(e1) => GroupedExact(e1, Nothing);
    case Unary(_, e1) => GroupedExact(e1, AUnary);
    case Binary(op, l, r) =>
      TableExact(b, op);
      GroupedExact(l, b);
      KeepsExact(l, op);
      GroupedExact(r, ABinary(op));
    case _ =>
  }

  /** subexpr reads a whole expression as a tree if and only if its text stands there, it is grouped by the rows of the
      manual, no operator and no suffix follows, and the levels suffice. */
  lemma ByManual(ts: seq<Token>, calls: nat, e: Expr, rest: seq<Token>)
    ensures SubExpr(ts, 0, calls) == Success((e, rest)) <==>
            && ts == Print(e) + rest && Grouped(e, Nothing)
            && GetBinOp(rest).None? && (EndsPrimary(e) ==> !Suffix(rest))
            && calls + Levels(e) <= 200
  {
    SubExprExact(ts, 0, calls, e, rest);
    GroupedExact(e, Nothing);
    hide SubExpr, Print, Fits, Grouped, Levels, Stops;
    assert forall op :: Left(op) > 0;
  }

  // ----- three operands

  lemma PairLevels(op1: BinOp, op2: BinOp, a: nat, b: nat, c: nat)
    ensures Levels(Binary(op2, Name(b), Name(c))) == 2 && Levels(Binary(op1, Name(a), Name(b))) == 2
    ensures Levels(Binary(op1, Name(a), Binary(op2, Name(b), Name(c)))) == 3
    ensures Levels(Binary(op2, Binary(op1, Name(a), Name(b)), Name(c))) == 2
  {
    assert Levels(Name(a)) == Levels(Name(b)) == Levels(Name(c)) == 1;
  }

  lemma NameGrouped(a: nat, b: Before, op: BinOp)
    ensures Grouped(Name(a), b) && Keeps(Name(a), op)
  {
  }

  /** A tree whose text is all there is. */
  lemma WholeText(text: seq<Token>, e: Expr)
    requires text == Print(e) && Grouped(e, Nothing) && Levels(e) <= 200
    ensures SubExpr(text, 0, 0) == Success((e, []))
  {
    hide SubExpr, Print, Grouped, Levels;
    assert text == Print(e) + [];
    ByManual(text, 0, e, []);
  }

  /** How a op1 b op2 c is read, for all pairs of operators. */
  lemma Pairs(op1: BinOp, op2: BinOp, a: nat, b: nat, c: nat)
    ensures var text := [TName(a), TOp(op1), TName(b), TOp(op2), TName(c)];
            SubExpr(text, 0, 0) ==
              Success((if GroupsRight(op1, op2) then Binary(op1, Name(a), Binary(op2, Name(b), Name(c)))
                       else Binary(op2, Binary(op1, Name(a), Name(b)), Name(c)), []))
  {
    var text := [TName(a), TOp(op1), TName(b), TOp(op2), TName(c)];
    var right, left := Binary(op2, Name(b), Name(c)), Binary(op1, Name(a), Name(b));
    hide SubExpr, Row, GroupsRight;
    assert Print(right) == [TName(b), TOp(op2), TName(c)] && Print(left) == [TName(a), TOp(op1), TName(b)];
    PairLevels(op1, op2, a, b, c);
    if GroupsRight(op1, op2) {
      assert Grouped(right, ABinary(op1));
      WholeText(text, Binary(op1, Name(a), right));
    } else {
      NameGrouped(c, ABinary(op2), op2);
      assert Grouped(left, Nothing) && Keeps(left, op2);
      WholeText(text, Binary(op2, left, Name(c)));
    }
  }

  /** A unary operator before a op b applies to a power as a whole, and to the first operand of anything else. */
  lemma UnaryPairs(u: UnOp, op: BinOp, a: nat, b: nat)
    ensures var text := [UnToken(u), TName(a), TOp(op), TName(b)];
            SubExpr(text, 0, 0) ==
              Success((if op == Pow then Unary(u, Binary(op, Name(a), Name(b)))
                       else Binary(op, Unary(u, Name(a)), Name(b)), []))
  {
    var text := [UnToken(u), TName(a), TOp(op), TName(b)];
    var inner, first := Binary(op, Name(a), Name(b)), Unary(u, Name(a));
    hide SubExpr, UnToken, GroupsRight;
    assert Print(inner) == [TName(a), TOp(op), TName(b)] && Print(first) == [UnToken(u), TName(a)];
    PairLevels(op, op, a, b, b);
    assert Levels(first) == 2 && Levels(Name(b)) == 1;
    if op == Pow {
      assert Grouped(inner, AUnary) && Levels(Unary(u, inner)) == 3;
      WholeText(text, Unary(u, inner));
    } else {
      NameGrouped(a, AUnary, op);
      NameGrouped(b, ABinary(op), op);
      assert Grouped(first, Nothing);
      assert Keeps(first, op);
      WholeText(text, Binary(op, first, Name(b)));
    }
  }

  /** The tokens of the unary operators: not, the minus sign, which is a binary operator too, and #. */
  lemma UnaryTokens(t: Token, u: UnOp)
    ensures GetUnOp(t) == Some(u) <==>
      (t == TNot && u == Not) || (t == TOp(Sub) && u == Minus) || (t == THash && u == Len)
    ensures GetUnOp(t) == Some(u) <==> t == UnToken(u)
  {
  }
}
