/** What each escape of a string literal stands for. */
module QuoteEscapes {
  import opened Wrappers
  import opened Prototypes
  import opened Quote

  /** What is read when a backslash and the escape of one character v come before rest. */
  predicate StandsFor(escape: seq<Byte>, rest: seq<Byte>, del: Byte, line: nat, v: Byte) {
    Scan([92] + escape + rest, del, line) == Prepend([v], Scan(rest, del, line))
  }

  lemma EscapeStart(escape: seq<Byte>, rest: seq<Byte>, del: Byte, line: nat)
    requires del != 92
    ensures Scan([92] + escape + rest, del, line) == ScanEscape(escape + rest, del, line)
  {
    assert ([92] + escape + rest)[1..] == escape + rest;
  }

  /** \a \b \f \n \r \t \v. */
  lemma NamedEscapes(rest: seq<Byte>, del: Byte, line: nat)
    requires del != 92
    ensures StandsFor([97], rest, del, line, 7) && StandsFor([98], rest, del, line, 8)
    ensures StandsFor([102], rest, del, line, 12) && StandsFor([110], rest, del, line, 10)
    ensures StandsFor([114], rest, del, line, 13) && StandsFor([116], rest, del, line, 9)
    ensures StandsFor([118], rest, del, line, 11)
  {
    forall x: Byte | x in {97, 98, 102, 110, 114, 116, 118}
      ensures Control(x).Some? && StandsFor([x], rest, del, line, Control(x).value)
    {
      EscapeStart([x], rest, del, line);
      assert ([x] + rest)[1..] == rest;
    }
  }

  /** Any other character but a digit or a line end stands for itself. */
  lemma OtherEscapes(x: Byte, rest: seq<Byte>, del: Byte, line: nat)
    requires del != 92 && x !in {97, 98, 102, 110, 114, 116, 118, 10, 13} && !(48 <= x <= 57)
    ensures StandsFor([x], rest, del, line, x)
  {
    EscapeStart([x], rest, del, line);
    assert ([x] + rest)[1..] == rest;
  }

  /** What %q writes: the delimiter, the backslash and the newline after a backslash, \r and \000, and the other bytes
      as they are. */
  lemma WrittenForms(c: Byte)
    ensures c in {34, 92, 10} ==> QuoteByte(c) == [92, c]
    ensures QuoteByte(13) == [92, 114] && QuoteByte(0) == [92, 48, 48, 48]
    ensures c !in {0, 10, 13, 34, 92} ==> QuoteByte(c) == [c]
  {
  }

  // ----- decimal escapes

  predicate NoDigit(ts: seq<Byte>) { ts != [] ==> !(48 <= ts[0] <= 57) }

  predicate Decimal(escape: seq<Byte>) { forall i :: 0 <= i < |escape| ==> 48 <= escape[i] <= 57 }

  function Digit(c: int): int { c - 48 }

  /** The number that up to three digits write. */
  function Number(escape: seq<Byte>): (v: nat)
    requires 1 <= |escape| <= 3 && Decimal(escape)
  {
    if |escape| == 1 then Digit(escape[0])
    else if |escape| == 2 then 10 * Digit(escape[0]) + Digit(escape[1])
    else 100 * Digit(escape[0]) + 10 * Digit(escape[1]) + Digit(escape[2])
  }

  lemma DigitsExact(escape: seq<Byte>, rest: seq<Byte>)
    requires 1 <= |escape| <= 3 && Decimal(escape) && (|escape| < 3 ==> NoDigit(rest))
    ensures Digits(escape + rest, 3, 0) == (|escape|, Number(escape))
  {
    hide Digits;
    var all := escape + rest;
    DigitsStep(all, 3, 0);
    var d: nat := Digit(escape[0]);
    if |escape| == 1 {
      DigitsStop(all[1..], 2, d);
    } else {
      DigitsStep(all[1..], 2, d);
      var d2: nat := 10 * d + Digit(escape[1]);
      assert all[1..][1..] == all[2..];
      if |escape| == 2 {
        DigitsStop(all[2..], 1, d2);
      } else {
        DigitsStep(all[2..], 1, d2);
        assert all[2..][1..] == all[3..];
        DigitsStop(all[3..], 0, 10 * d2 + Digit(escape[2]));
      }
    }
  }

  /** Up to three digits stand for the byte with that number, and a larger number is an error. */
  lemma DecimalEscapes(escape: seq<Byte>, rest: seq<Byte>, del: Byte, line: nat)
    requires del != 92 && 1 <= |escape| <= 3 && Decimal(escape) && (|escape| < 3 ==> NoDigit(rest))
    ensures Number(escape) <= 255 ==> StandsFor(escape, rest, del, line, Number(escape))
    ensures Number(escape) > 255 ==> Scan([92] + escape + rest, del, line) == Failure(EscapeTooLarge)
  {
    EscapeStart(escape, rest, del, line);
    DigitsExact(escape, rest);
    hide Digits;
    assert (escape + rest)[|escape|..] == rest;
    assert Control((escape + rest)[0]) == None && !IsNewline((escape + rest)[0]);
  }
}
