/** The %q format against the string lexer: what addquoted writes, read_string reads back. */
module Quote {
  import opened Wrappers
  import opened Prototypes

  const MAX_INT: int := 0x7fff_fffd
  const EOZ: int := -1
  const QUOTE: Byte := 34
  const BACKSLASH: Byte := 92
  const NEWLINE: Byte := 10
  const RETURN: Byte := 13

  datatype LexError = Unfinished | EscapeTooLarge | TooManyLines

  /** The characters of a literal, the input after it, and the line number then. */
  datatype Scanned = Scanned(text: seq<Byte>, rest: seq<Byte>, line: nat)

  type Lexed = Result<Scanned, LexError>

  // ----- reading

  predicate IsNewline(c: int) { c == NEWLINE || c == RETURN }

  predicate IsDigit(c: int) { 48 <= c <= 57 }

  /** The escapes that name a control character. */
  function Control(c: int): Option<Byte> {
    if c == 97 then Some(7) else if c == 98 then Some(8) else if c == 102 then Some(12) else if c == 110 then Some(10)
    else if c == 114 then Some(13) else if c == 116 then Some(9) else if c == 118 then Some(11) else None
  }

  /** How many of the first n characters are digits in a row, and the number they write after v. */
  function Digits(ts: seq<Byte>, n: nat, v: nat): (r: (nat, nat))
    ensures r.0 <= n && r.0 <= |ts|
    decreases n
  {
    if n == 0 || ts == [] || !IsDigit(ts[0]) then (0, v)
    else
      var (k, w) := Digits(ts[1..], n - 1, 10 * v + (ts[0] - 48));
      (k + 1, w)
  }

  lemma DigitsStep(ts: seq<Byte>, n: nat, v: nat)
    requires n > 0 && ts != [] && IsDigit(ts[0])
    ensures Digits(ts, n, v) ==
      (Digits(ts[1..], n - 1, 10 * v + (ts[0] - 48)).0 + 1, Digits(ts[1..], n - 1, 10 * v + (ts[0] - 48)).1)
  {
  }

  /** Reading the digits of all, or the n digits left before rest after the value v, gives the same. */
  predicate SameDigits(all: seq<Byte>, rest: seq<Byte>, n: nat, v: nat) {
    && Digits(all, 3, 0).1 == Digits(rest, n, v).1
    && all[Digits(all, 3, 0).0..] == rest[Digits(rest, n, v).0..]
  }

  lemma SameStep(all: seq<Byte>, rest: seq<Byte>, n: nat, v: nat)
    requires n > 0 && rest != [] && IsDigit(rest[0]) && SameDigits(all, rest, n, v)
    ensures SameDigits(all, rest[1..], n - 1, 10 * v + (rest[0] - 48))
  {
    hide Digits;
    DigitsStep(rest, n, v);
  }

  lemma DigitsStop(ts: seq<Byte>, n: nat, v: nat)
    requires n == 0 || ts == [] || !IsDigit(ts[0])
    ensures Digits(ts, n, v) == (0, v)
  {
  }

  lemma DigitsSome(ts: seq<Byte>)
    requires ts != [] && IsDigit(ts[0])
    ensures Digits(ts, 3, 0).0 > 0
  {
  }

  /** The input after a line end: one character, or two different ones. */
  function AfterNewline(ts: seq<Byte>): (r: seq<Byte>)
    requires ts != []
    ensures |r| < |ts|
  {
    if |ts| > 1 && IsNewline(ts[1]) && ts[1] != ts[0] then ts[2..] else ts[1..]
  }

  function Prepend(text: seq<Byte>, r: Lexed): Lexed {
    match r
    case Failure(e) => Failure(e)
    case Success(s) => Success(s.(text := text + s.text))
  }

  lemma PrependNone(r: Lexed)
    ensures Prepend([], r) == r
  {
    if r.Success? { assert [] + r.value.text == r.value.text; }
  }

  lemma PrependTwice(a: seq<Byte>)
    ensures forall c: Byte, r: Lexed :: Prepend(a, Prepend([c], r)) == Prepend(a + [c], r)
  {
    forall c: Byte, r: Lexed ensures Prepend(a, Prepend([c], r)) == Prepend(a + [c], r) {
      if r.Success? { assert a + ([c] + r.value.text) == a + [c] + r.value.text; }
    }
  }

  /** read_string, from the character after the opening delimiter on. */
  function Scan(ts: seq<Byte>, del: Byte, line: nat): Lexed
    decreases |ts|
  {
    if ts == [] then Failure(Unfinished)
    else if ts[0] == del then Success(Scanned([], ts[1..], line))
    else if IsNewline(ts[0]) then Failure(Unfinished)
    else if ts[0] != BACKSLASH then Prepend([ts[0]], Scan(ts[1..], del, line))
    else ScanEscape(ts[1..], del, line)
  }

  /** After a backslash. */
  function ScanEscape(ts: seq<Byte>, del: Byte, line: nat): Lexed
    decreases |ts|, 1
  {
    if ts == [] then Failure(Unfinished)
    else if Control(ts[0]).Some? then Prepend([Control(ts[0]).value], Scan(ts[1..], del, line))
    else if IsNewline(ts[0]) then
      if line + 1 >= MAX_INT then Failure(TooManyLines) else Prepend([NEWLINE], Scan(AfterNewline(ts), del, line + 1))
    else if !IsDigit(ts[0]) then Prepend([ts[0]], Scan(ts[1..], del, line))
    else
      var (k, v) := Digits(ts, 3, 0);
      if v > 255 then Failure(EscapeTooLarge) else Prepend([v], Scan(ts[k..], del, line))
  }

  // ----- writing

  function QuoteByte(c: Byte): seq<Byte> {
    if c == QUOTE || c == BACKSLASH || c == NEWLINE then [BACKSLASH, c]
    else if c == RETURN then [BACKSLASH, 114]
    else if c == 0 then [BACKSLASH, 48, 48, 48]
    else [c]
  }

  function QuoteAll(s: seq<Byte>): seq<Byte> {
    if s == [] then [] else QuoteByte(s[0]) + QuoteAll(s[1..])
  }

  /** The literal that %q writes. */
  function Quoted(s: seq<Byte>): seq<Byte> { [QUOTE] + QuoteAll(s) + [QUOTE] }

  function Newlines(s: seq<Byte>): nat {
    if s == [] then 0 else (if s[0] == NEWLINE then 1 else 0) + Newlines(s[1..])
  }

  // ----- the round trip

  /** A raw carriage return is never written, so nothing is taken for the second half of a line end. */
  lemma {:induction false} NoReturn(s: seq<Byte>, rest: seq<Byte>)
    ensures var ts := QuoteAll(s) + [QUOTE] + rest;
            ts != [] && !IsNewline(ts[0])
  {
  }

  lemma {:induction false} DigitsThree(rest: seq<Byte>)
    ensures Digits([48, 48, 48] + rest, 3, 0) == (3, 0)
  {
    var ts := [48, 48, 48] + rest;
    assert ts[1..] == [48, 48] + rest;
    assert ts[1..][1..] == [48] + rest;
    assert Digits(ts[1..][1..], 1, 0) == (1, 0);
    assert Digits(ts[1..], 2, 0) == (2, 0);
  }

  /** One character's escape is read back as that character. */
  lemma ScanQuoteByte(c: Byte, ts: seq<Byte>, line: nat)
    requires ts != [] && !IsNewline(ts[0])
    ensures Scan(QuoteByte(c) + ts, QUOTE, line) ==
            if c == NEWLINE then if line + 1 >= MAX_INT then Failure(TooManyLines)
              else Prepend([c], Scan(ts, QUOTE, line + 1))
            else Prepend([c], Scan(ts, QUOTE, line))
  {
    var all := QuoteByte(c) + ts;
    if c == 0 {
      DigitsThree(ts);
      assert all[1..] == [48, 48, 48] + ts;
      assert all[1..][3..] == ts;
    } else if c == QUOTE || c == BACKSLASH || c == NEWLINE || c == RETURN {
      assert all[1..][1..] == ts;
      if c == NEWLINE { assert AfterNewline(all[1..]) == ts; }
    } else {
      assert all[1..] == ts;
    }
  }

  lemma QuoteSplit(s: seq<Byte>, rest: seq<Byte>)
    requires s != []
    ensures QuoteAll(s) + [QUOTE] + rest == QuoteByte(s[0]) + (QuoteAll(s[1..]) + [QUOTE] + rest)
  {
    hide QuoteByte;
  }

  /** The string itself, unless its newlines bring the line number to the limit. */
  function Whole(s: seq<Byte>, rest: seq<Byte>, line: nat): Lexed {
    if line + Newlines(s) < MAX_INT || Newlines(s) == 0 then Success(Scanned(s, rest, line + Newlines(s)))
    else Failure(TooManyLines)
  }

  lemma WholeStep(s: seq<Byte>, rest: seq<Byte>, line: nat)
    requires s != []
    ensures Whole(s, rest, line) ==
            if s[0] != NEWLINE then Prepend([s[0]], Whole(s[1..], rest, line))
            else if line + 1 >= MAX_INT then Failure(TooManyLines)
            else Prepend([s[0]], Whole(s[1..], rest, line + 1))
  {
    assert s == [s[0]] + s[1..];
  }

  lemma ScanEnd(rest: seq<Byte>, line: nat)
    ensures Scan(QuoteAll([]) + [QUOTE] + rest, QUOTE, line) == Success(Scanned([], rest, line))
  {
    assert QuoteAll([]) + [QUOTE] + rest == [QUOTE] + rest;
  }

  /** What is still to be read of a literal whose string has the tail s. */
  lemma {:induction false} ScanQuoted(s: seq<Byte>, rest: seq<Byte>, line: nat)
    ensures Scan(QuoteAll(s) + [QUOTE] + rest, QUOTE, line) == Whole(s, rest, line)
    decreases |s|
  {
    if s == [] {
      ScanEnd(rest, line);
    } else {
      hide *;
      var ts := QuoteAll(s[1..]) + [QUOTE] + rest;
      QuoteSplit(s, rest);
      NoReturn(s[1..], rest);
      ScanQuoteByte(s[0], ts, line);
      WholeStep(s, rest, line);
      ScanQuoted(s[1..], rest, if s[0] == NEWLINE then line + 1 else line);
    }
  }

  /** For every byte string, whatever follows: lexing its quoted form gives the string back, unless its newlines
      bring the line number to the limit. */
  lemma QuoteRoundTrip(s: seq<Byte>, rest: seq<Byte>, line: nat)
    ensures Scan(Quoted(s)[1..] + rest, QUOTE, line) ==
            if line + Newlines(s) < MAX_INT || Newlines(s) == 0 then Success(Scanned(s, rest, line + Newlines(s)))
            else Failure(TooManyLines)
  {
    hide Scan, QuoteAll;
    assert Quoted(s)[1..] + rest == QuoteAll(s) + [QUOTE] + rest;
    ScanQuoted(s, rest, line);
  }

  // ----- addquoted

  lemma {:induction false} QuoteSnoc(s: seq<Byte>, c: Byte)
    ensures QuoteAll(s + [c]) == QuoteAll(s) + QuoteByte(c)
  {
    if s == [] {
      assert [] + [c] == [c] && [c][1..] == [];
    } else {
      assert (s + [c])[1..] == s[1..] + [c];
      QuoteSnoc(s[1..], c);
      hide QuoteByte;
    }
  }

  /** One character of addquoted. */
  method AddChar(b0: seq<Byte>, c: Byte) returns (b: seq<Byte>)
    ensures b == b0 + QuoteByte(c)
  {
    b := b0;
    if c == QUOTE || c == BACKSLASH || c == NEWLINE {
      b := b + [BACKSLASH];
      b := b + [c];
    } else if c == RETURN {
      b := b + [BACKSLASH, 114];
    } else if c == 0 {
      b := b + [BACKSLASH, 48, 48, 48];
    } else {
      b := b + [c];
    }
  }

  /** addquoted: the literal is added to the buffer. */
  method AddQuoted(buffer: seq<Byte>, s: seq<Byte>) returns (b: seq<Byte>)
    ensures b == buffer + Quoted(s)
  {
    hide QuoteByte, QuoteAll;
    b := buffer + [QUOTE];
    QuoteNone();
    for i := 0 to |s|
      invariant b == buffer + [QUOTE] + QuoteAll(s[..i])
    {
      assert s[..i + 1] == s[..i] + [s[i]];
      QuoteSnoc(s[..i], s[i]);
      b := AddChar(b, s[i]);
    }
    assert s[..|s|] == s;
    b := b + [QUOTE];
  }

  lemma QuoteNone()
    ensures QuoteAll([]) == []
  {
  }

  // ----- read_string

  class LexState {
    const input: seq<Byte>
    var pos: nat
    var current: int
    var linenumber: nat
    var buff: seq<Byte>

    /** The current character is the one at pos, and the end of the input has none. */
    predicate Valid()
      reads this
    {
      pos <= |input| && current == if pos < |input| then input[pos] as int else EOZ
    }

    /** The input from the current character on. */
    function Ahead(): seq<Byte>
      reads this
      requires Valid()
    {
      input[pos..]
    }

    constructor (input: seq<Byte>, linenumber: nat)
      ensures Valid() && Ahead() == input && this.linenumber == linenumber && buff == []
    {
      this.input := input;
      this.linenumber := linenumber;
      pos, buff := 0, [];
      current := if |input| > 0 then input[0] as int else EOZ;
    }

    method Next()
      requires Valid() && current != EOZ
      modifies this`pos, this`current
      ensures Valid() && Ahead() == old(Ahead())[1..]
    {
      pos := pos + 1;
      current := if pos < |input| then input[pos] as int else EOZ;
    }

    method Save(c: Byte)
      modifies this`buff
      ensures buff == old(buff) + [c]
    {
      buff := buff + [c];
    }

    method SaveAndNext()
      requires Valid() && current != EOZ
      modifies this`pos, this`current, this`buff
      ensures Valid() && Ahead() == old(Ahead())[1..] && buff == old(buff) + [old(Ahead())[0]]
    {
      Save(input[pos]);
      Next();
    }

    /** inclinenumber. */
    method IncLineNumber() returns (ok: bool)
      requires Valid() && IsNewline(current)
      modifies this`pos, this`current, this`linenumber
      ensures Valid() && Ahead() == AfterNewline(old(Ahead())) && linenumber == old(linenumber) + 1
      ensures ok <==> linenumber < MAX_INT
    {
      var before := current;
      Next();
      if IsNewline(current) && current != before { Next(); }
      linenumber := linenumber + 1;
      return linenumber < MAX_INT;
    }

    /** The digits of an escape. */
    method ReadDigits() returns (c: nat)
      requires Valid() && IsDigit(current)
      modifies this`pos, this`current
      ensures Valid()
      ensures var (k, v) := Digits(old(Ahead()), 3, 0);
              c == v && Ahead() == old(Ahead())[k..]
    {
      hide Digits, IsNewline;
      ghost var all := Ahead();
      var i := 0;
      c := 0;
      while i < 3 && IsDigit(current)
        invariant 0 <= i <= 3 && Valid()
        invariant SameDigits(all, Ahead(), 3 - i, c)
        decreases 3 - i
      {
        SameStep(all, Ahead(), 3 - i, c);
        c := 10 * c + (current - 48);
        Next();
        i := i + 1;
      }
      DigitsStop(Ahead(), 3 - i, c);
    }

    /** The case of read_string for a backslash, which has been skipped. */
    method ReadEscape(ghost del: Byte) returns (r: Option<LexError>)
      requires Valid()
      modifies this
      ensures Valid()
      ensures r.Some? ==> ScanEscape(old(Ahead()), del, old(linenumber)) == Failure(r.value)
      ensures r.None? ==>
        && |buff| == |old(buff)| + 1 && buff[..|buff| - 1] == old(buff) && |Ahead()| < |old(Ahead())|
        && ScanEscape(old(Ahead()), del, old(linenumber)) == Prepend([buff[|buff| - 1]], Scan(Ahead(), del, linenumber))
    {
      hide Scan, Prepend, Digits, Newlines;
      if current == EOZ { return Some(Unfinished); }
      var c := Control(current);
      if c != None {
        Save(c.value);
        Next();
      } else if IsNewline(current) {
        Save(NEWLINE);
        var ok := IncLineNumber();
        if !ok { return Some(TooManyLines); }
      } else if !IsDigit(current) {
        SaveAndNext();
      } else {
        DigitsSome(Ahead());
        var c := ReadDigits();
        if c > 255 { return Some(EscapeTooLarge); }
        Save(c);
      }
      return None;
    }

    /** read_string: the current character is the opening delimiter. */
    method ReadString(del: Byte) returns (r: Result<seq<Byte>, LexError>)
      requires Valid() && current == del as int && buff == []
      modifies this
      ensures Valid()
      ensures match Scan(old(Ahead())[1..], del, old(linenumber))
              case Failure(e) => r == Failure(e)
              case Success(s) => r == Success(s.text) && Ahead() == s.rest && linenumber == s.line
    {
      hide ScanEscape;
      ghost var spec := Scan(Ahead()[1..], del, linenumber);
      SaveAndNext();
      assert buff[1..] == [];
      PrependNone(Scan(Ahead(), del, linenumber));
      while current != del as int
        invariant Valid() && |buff| > 0
        invariant spec == Prepend(buff[1..], Scan(Ahead(), del, linenumber))
        decreases |Ahead()|
      {
        PrependTwice(buff[1..]);
        if current == EOZ || IsNewline(current) { return Failure(Unfinished); }
        ghost var before := buff;
        if current == BACKSLASH as int {
          Next();
          var e := ReadEscape(del);
          if e != None { return Failure(e.value); }
        } else {
          SaveAndNext();
        }
        assert buff[1..] == before[1..] + [buff[|buff| - 1]];
      }
      SaveAndNext();
      assert buff[1..|buff| - 1] + [] == buff[1..|buff| - 1];
      return Success(buff[1..|buff| - 1]);
    }
  }
}
