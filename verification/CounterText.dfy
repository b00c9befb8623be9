/** The decimal text of a message counter: "%" PRIu64 out, strtoull(..., 10) in. */
module CounterText {
  import opened Bytes
  import opened Wrappers

  const TEXT_CAPACITY: nat := 24

  predicate IsDigit(c: byte) {
    0x30 <= c <= 0x39
  }

  /** What strtoull skips: space, \t, \n, \v, \f, \r. */
  predicate IsSpace(c: byte) {
    c == 0x20 || 0x09 <= c <= 0x0D
  }

  predicate AllDigits(t: Bytes) {
    forall i | 0 <= i < |t| :: IsDigit(t[i])
  }

  function Print(n: nat): (t: Bytes)
    ensures 1 <= |t| && AllDigits(t)
  {
    (if n < 10 then [] else Print(n / 10)) + [Digit(n % 10)]
  }

  function Digit(d: nat): (c: byte)
    requires d < 10
    ensures IsDigit(c) && c as nat - 0x30 == d
  {
    (0x30 + d) as byte
  }

  function Value(t: Bytes): nat
    requires AllDigits(t)
  {
    if |t| == 0 then 0 else 10 * Value(t[..|t| - 1]) + (t[|t| - 1] as nat - 0x30)
  }

  function SkipSpaces(t: Bytes): Bytes {
    if |t| > 0 && IsSpace(t[0]) then SkipSpaces(t[1..]) else t
  }

  /**
   * The counter handle_data takes from the text, or None where it rejects the frame: no digits, anything
   * after the digits, a magnitude over 64 bits, or the value zero. A minus sign negates modulo 2^64, as
   * strtoull does.
   */
  function Parse(text: Bytes): Option<u64> {
    var t := SkipSpaces(text);
    var signed := |t| > 0 && (t[0] == 0x2B || t[0] == 0x2D);
    var digits := if signed then t[1..] else t;
    if |digits| == 0 || !AllDigits(digits) || Value(digits) > U64_MAX || Value(digits) == 0 then None
    else if signed && t[0] == 0x2D then Some(U64_MAX + 1 - Value(digits))
    else Some(Value(digits))
  }

  // ---- The accepted language ---------------------------------------------

  /** text is white space, an optional sign, and one or more decimal digits, and nothing else. */
  ghost predicate Reads(text: Bytes, spaces: Bytes, sign: Bytes, digits: Bytes) {
    && text == spaces + (sign + digits)
    && (forall i | 0 <= i < |spaces| :: spaces[i] in {0x20, 0x09, 0x0A, 0x0B, 0x0C, 0x0D})
    && sign in {[], [0x2B], [0x2D]}
    && |digits| > 0 && AllDigits(digits) && (forall i | 0 <= i < |digits| :: 0x30 <= digits[i] <= 0x39)
  }

  /** text spells the counter: its digits have a value from 1 to 2^64 - 1, negated modulo 2^64 after a minus sign. */
  ghost predicate SpellsAs(text: Bytes, c: u64, spaces: Bytes, sign: Bytes, digits: Bytes) {
    && Reads(text, spaces, sign, digits)
    && 1 <= Value(digits) <= U64_MAX
    && c == if sign == [0x2D] then 0x1_0000_0000_0000_0000 - Value(digits) else Value(digits)
  }

  ghost predicate Spells(text: Bytes, c: u64) {
    exists spaces, sign, digits :: SpellsAs(text, c, spaces, sign, digits)
  }

  lemma {:induction false} SkipsExactly(spaces: Bytes, rest: Bytes)
    requires forall i | 0 <= i < |spaces| :: spaces[i] in {0x20, 0x09, 0x0A, 0x0B, 0x0C, 0x0D}
    requires |rest| > 0 && rest[0] !in {0x20, 0x09, 0x0A, 0x0B, 0x0C, 0x0D}
    ensures SkipSpaces(spaces + rest) == rest
  {
    if |spaces| == 0 {
      assert spaces + rest == rest;
    } else {
      assert (spaces + rest)[1..] == spaces[1..] + rest;
      SkipsExactly(spaces[1..], rest);
    }
  }

  lemma {:induction false} SkippedAreSpaces(t: Bytes) returns (spaces: Bytes)
    ensures t == spaces + SkipSpaces(t)
    ensures forall i | 0 <= i < |spaces| :: spaces[i] in {0x20, 0x09, 0x0A, 0x0B, 0x0C, 0x0D}
  {
    if |t| > 0 && IsSpace(t[0]) {
      spaces := SkippedAreSpaces(t[1..]);
      spaces := [t[0]] + spaces;
      assert t == [t[0]] + t[1..];
    } else {
      spaces := [];
    }
  }

  lemma ParsedIsSpelled(text: Bytes)
    requires Parse(text).Some?
    ensures Spells(text, Parse(text).value)
  {
    var spaces := SkippedAreSpaces(text);
    var t := SkipSpaces(text);
    var signed := |t| > 0 && (t[0] == 0x2B || t[0] == 0x2D);
    var sign, digits := if signed then [t[0]] else [], if signed then t[1..] else t;
    assert t == sign + digits;
    assert SpellsAs(text, Parse(text).value, spaces, sign, digits);
  }

  lemma SpelledIsParsed(text: Bytes, c: u64, spaces: Bytes, sign: Bytes, digits: Bytes)
    requires SpellsAs(text, c, spaces, sign, digits)
    ensures Parse(text) == Some(c)
  {
    var t := sign + digits;
    assert IsDigit(digits[0]);
    assert t[0] == if |sign| > 0 then sign[0] else digits[0];
    SkipsExactly(spaces, t);
    if |sign| > 0 {
      assert t[1..] == digits;
    } else {
      assert t == digits;
    }
  }

  /** handle_data takes a counter from a text if and only if the text spells it. */
  lemma ParseIff(text: Bytes, c: u64)
    ensures Parse(text) == Some(c) <==> Spells(text, c)
  {
    if Parse(text) == Some(c) {
      ParsedIsSpelled(text);
    }
    if spaces, sign, digits :| SpellsAs(text, c, spaces, sign, digits) {
      SpelledIsParsed(text, c, spaces, sign, digits);
    }
  }

  lemma SpelledOnce(text: Bytes, c: u64, d: u64)
    requires Spells(text, c) && Spells(text, d)
    ensures c == d
  {
    ParseIff(text, c);
    ParseIff(text, d);
  }

  lemma ValueOfMore(t: Bytes, d: nat)
    requires AllDigits(t) && d < 10
    ensures AllDigits(t + [Digit(d)]) && Value(t + [Digit(d)]) == 10 * Value(t) + d
  {
    assert (t + [Digit(d)])[..|t|] == t;
  }

  lemma {:induction false} ValueInvertsPrint(n: nat)
    ensures Value(Print(n)) == n
  {
    if n < 10 {
      ValueOfMore([], n);
    } else {
      ValueInvertsPrint(n / 10);
      ValueOfMore(Print(n / 10), n % 10);
    }
  }

  /** The text of a counter is its decimal text: no sign, no white space, no leading zero. */
  lemma {:induction false} PrintHasNoLeadingZero(n: nat)
    ensures forall i | 0 <= i < |Print(n)| :: 0x30 <= Print(n)[i] <= 0x39
    ensures Print(n)[0] == 0x30 <==> n == 0
  {
    assert forall i | 0 <= i < |Print(n)| :: IsDigit(Print(n)[i]);
    if n < 10 {
      assert Print(n) == [Digit(n)];
    } else {
      PrintHasNoLeadingZero(n / 10);
    }
  }

  function Pow10(k: nat): nat {
    if k == 0 then 1 else 10 * Pow10(k - 1)
  }

  lemma {:induction false} PrintLength(n: nat, k: nat)
    requires k > 0 && n < Pow10(k)
    ensures |Print(n)| <= k
  {
    if n < 10 {
    } else {
      assert k > 1 by { assert Pow10(1) == 10 * Pow10(0) == 10; }
      PrintLength(n / 10, k - 1);
    }
  }

  /** Every counter a session can use is printed into the 24-octet buffer and read back as itself. */
  lemma CounterRoundTrip(c: u64)
    requires c > 0
    ensures Parse(Print(c)) == Some(c)
    ensures |Print(c)| <= 20 < TEXT_CAPACITY
  {
    ValueInvertsPrint(c);
    assert IsDigit(Print(c)[0]);
    assert Pow10(5) == 10 * Pow10(4) == 100000;
    assert Pow10(10) == 10 * Pow10(9) == 1_00000_00000;
    assert Pow10(15) == 10 * Pow10(14) == 1_00000_00000_00000;
    assert Pow10(20) == 10 * Pow10(19) == 1_00000_00000_00000_00000;
    PrintLength(c, 20);
  }
}
