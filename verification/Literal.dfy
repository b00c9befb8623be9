/** The escaper of tools/configure_device.py, and a C compiler's reading of what it produces. */
module Literal {
  import opened Wrappers

  const BACKSLASH: char := '\\'
  const QUOTE: char := '\"'
  const CR: char := '\r'
  const LF: char := '\n'

  // ---- str.splitlines(keepends=True) -------------------------------------

  /** The characters str.splitlines breaks after. */
  predicate IsBreak(c: char) {
    c == LF || c == CR || c == '\U{0B}' || c == '\U{0C}' || '\U{1C}' <= c <= '\U{1E}'
    || c == '\U{85}' || c == '\U{2028}' || c == '\U{2029}'
  }

  /** The length of the first line with its break; CR LF is one break. */
  function FirstLine(text: string): (n: nat)
    requires |text| > 0
    ensures 0 < n <= |text|
  {
    if !IsBreak(text[0]) then (if |text| == 1 then 1 else 1 + FirstLine(text[1..]))
    else if text[0] == CR && |text| > 1 && text[1] == LF then 2
    else 1
  }

  function SplitLines(text: string): seq<string> {
    if |text| == 0 then [] else [text[..FirstLine(text)]] + SplitLines(text[FirstLine(text)..])
  }

  /** One line: a break at its end at most, CR LF counting as one. */
  predicate IsLine(p: string) {
    && |p| > 0
    && forall i | 0 <= i < |p| - 1 :: IsBreak(p[i]) ==> i == |p| - 2 && p[i] == CR && p[i + 1] == LF
  }

  predicate EndsInBreak(p: string) {
    |p| > 0 && IsBreak(p[|p| - 1])
  }

  /** Pieces that are the lines of a text: all but the last end in a break, and no CR LF falls apart. */
  predicate AreLines(pieces: seq<string>) {
    && (forall k | 0 <= k < |pieces| :: IsLine(pieces[k]))
    && (forall k | 0 <= k < |pieces| - 1 :: EndsInBreak(pieces[k]) && !Splits(pieces[k], pieces[k + 1]))
  }

  predicate Splits(p: string, q: string) {
    |p| > 0 && |q| > 0 && p[|p| - 1] == CR && q[0] == LF
  }

  function Concat(lines: seq<string>): string {
    if |lines| == 0 then "" else lines[0] + Concat(lines[1..])
  }

  lemma {:induction false} FirstLineIsLine(text: string)
    requires |text| > 0
    ensures var n := FirstLine(text);
            && IsLine(text[..n])
            && (n < |text| ==> EndsInBreak(text[..n]) && !Splits(text[..n], text[n..]))
  {
    if !IsBreak(text[0]) && |text| > 1 {
      FirstLineIsLine(text[1..]);
      var n := FirstLine(text[1..]);
      assert text[..1 + n][1..] == text[1..][..n];
      assert text[1 + n..] == text[1..][n..];
      assert text[..1 + n][n] == text[1..][..n][n - 1];
      var line := text[..1 + n];
      forall i | 0 <= i < n && IsBreak(line[i])
        ensures i == n - 1 && line[i] == CR && line[i + 1] == LF
      {
        assert IsBreak(text[1..][..n][i - 1]);
      }
    }
  }

  lemma {:induction false} FirstLineOf(p: string, rest: string)
    requires IsLine(p) && (rest != "" ==> EndsInBreak(p) && !Splits(p, rest))
    ensures FirstLine(p + rest) == |p|
    decreases |p|
  {
    var text := p + rest;
    assert text[0] == p[0];
    if IsBreak(p[0]) {
      assert |p| > 1 ==> text[1] == p[1];
      assert |p| == 1 && |rest| > 0 ==> text[1] == rest[0];
    } else if |p| == 1 {
      assert rest == "";
    } else {
      assert text[1..] == p[1..] + rest;
      forall i | 0 <= i < |p| - 2 && IsBreak(p[1..][i])
        ensures i == |p| - 3 && p[1..][i] == CR && p[1..][i + 1] == LF
      {
        assert IsBreak(p[i + 1]);
      }
      FirstLineOf(p[1..], rest);
    }
  }

  lemma {:induction false} SplitLinesAreLines(text: string)
    ensures AreLines(SplitLines(text)) && (SplitLines(text) == [] <==> text == "")
    decreases |text|
  {
    hide IsLine, EndsInBreak, FirstLine;
    if |text| == 0 {
    } else {
      var n := FirstLine(text);
      FirstLineIsLine(text);
      SplitLinesAreLines(text[n..]);
      if n < |text| {
        var rest := text[n..];
        assert SplitLines(text)[1..] == SplitLines(rest);
        assert SplitLines(rest)[0] == rest[..FirstLine(rest)];
      }
    }
  }

  lemma {:induction false} SplitLinesLosesNothing(text: string)
    ensures Concat(SplitLines(text)) == text
    decreases |text|
  {
    if |text| == 0 {
    } else {
      var n := FirstLine(text);
      SplitLinesLosesNothing(text[n..]);
      assert SplitLines(text)[1..] == SplitLines(text[n..]);
      assert text == text[..n] + text[n..];
    }
  }

  /** The split is the one way to cut the text into lines. */
  lemma {:induction false} SplitLinesIff(text: string, pieces: seq<string>)
    ensures pieces == SplitLines(text) <==> Concat(pieces) == text && AreLines(pieces)
    decreases |pieces|
  {
    SplitLinesLosesNothing(text);
    SplitLinesAreLines(text);
    if Concat(pieces) == text && AreLines(pieces) && |pieces| > 0 {
      var rest := Concat(pieces[1..]);
      assert text == pieces[0] + rest;
      if |pieces| > 1 {
        assert pieces[1..][0] == pieces[1];
        assert rest == pieces[1] + Concat(pieces[1..][1..]);
        assert IsLine(pieces[1]);
        assert rest[0] == pieces[1][0];
      }
      assert AreLines(pieces[1..]) by {
        forall k | 0 <= k < |pieces| - 2
          ensures EndsInBreak(pieces[1..][k]) && !Splits(pieces[1..][k], pieces[1..][k + 1])
        {
          assert EndsInBreak(pieces[k + 1]);
        }
      }
      FirstLineOf(pieces[0], rest);
      assert text[..|pieces[0]|] == pieces[0] && text[|pieces[0]|..] == rest;
      SplitLinesIff(rest, pieces[1..]);
      assert pieces == [pieces[0]] + pieces[1..];
    }
  }

  // ---- str.replace and the four replacements -----------------------------

  /** str.replace of one character by a string. */
  function Replace(s: string, c: char, sub: string): string {
    if |s| == 0 then [] else (if s[0] == c then sub else [s[0]]) + Replace(s[1..], c, sub)
  }

  function Replaced(line: string): string {
    Replace(Replace(Replace(Replace(line, BACKSLASH, "\\\\"), QUOTE, "\\\""), CR, "\\r"), LF, "\\n")
  }

  /** What the four replacements do to one character. */
  function Escape(c: char): string {
    if c == BACKSLASH then "\\\\"
    else if c == QUOTE then "\\\""
    else if c == CR then "\\r"
    else if c == LF then "\\n"
    else [c]
  }

  function Escaped(s: string): string {
    if |s| == 0 then [] else Escape(s[0]) + Escaped(s[1..])
  }

  lemma {:induction false} ReplaceConcat(s: string, t: string, c: char, sub: string)
    ensures Replace(s + t, c, sub) == Replace(s, c, sub) + Replace(t, c, sub)
  {
    if |s| == 0 {
      assert s + t == t;
    } else {
      ReplaceConcat(s[1..], t, c, sub);
      assert (s + t)[1..] == s[1..] + t;
      Assoc(if s[0] == c then sub else [s[0]], Replace(s[1..], c, sub), Replace(t, c, sub));
    }
  }

  lemma Assoc(x: string, y: string, z: string)
    ensures x + (y + z) == (x + y) + z
  {
  }

  lemma ReplaceOne(x: char, c: char, sub: string)
    ensures Replace([x], c, sub) == if x == c then sub else [x]
  {
    assert [x][1..] == [];
  }

  lemma ReplaceTwo(x: char, y: char, c: char, sub: string)
    requires x != c && y != c
    ensures Replace([x, y], c, sub) == [x, y]
  {
    assert [x, y][1..] == [y];
    ReplaceOne(y, c, sub);
  }

  /** On a single character the replacements give its escape: none of them touches what an earlier one wrote. */
  lemma ReplacedOne(x: char)
    ensures Replaced([x]) == Escape(x)
  {
    ReplaceOne(x, BACKSLASH, "\\\\");
    if x == BACKSLASH {
      ReplaceTwo(BACKSLASH, BACKSLASH, QUOTE, "\\\"");
      ReplaceTwo(BACKSLASH, BACKSLASH, CR, "\\r");
      ReplaceTwo(BACKSLASH, BACKSLASH, LF, "\\n");
    } else {
      ReplaceOne(x, QUOTE, "\\\"");
      if x == QUOTE {
        ReplaceTwo(BACKSLASH, QUOTE, CR, "\\r");
        ReplaceTwo(BACKSLASH, QUOTE, LF, "\\n");
      } else {
        ReplaceOne(x, CR, "\\r");
        if x == CR {
          ReplaceTwo(BACKSLASH, 'r', LF, "\\n");
        } else {
          ReplaceOne(x, LF, "\\n");
        }
      }
    }
  }

  lemma ReplacedConcat(s: string, t: string)
    ensures Replaced(s + t) == Replaced(s) + Replaced(t)
  {
    ReplaceConcat(s, t, BACKSLASH, "\\\\");
    var s1, t1 := Replace(s, BACKSLASH, "\\\\"), Replace(t, BACKSLASH, "\\\\");
    ReplaceConcat(s1, t1, QUOTE, "\\\"");
    var s2, t2 := Replace(s1, QUOTE, "\\\""), Replace(t1, QUOTE, "\\\"");
    ReplaceConcat(s2, t2, CR, "\\r");
    ReplaceConcat(Replace(s2, CR, "\\r"), Replace(t2, CR, "\\r"), LF, "\\n");
  }

  /** The four successive replacements are one pass over the characters. */
  lemma {:induction false} ReplacementsAreOnePass(s: string)
    ensures Replaced(s) == Escaped(s)
  {
    if |s| == 0 {
    } else {
      assert s == [s[0]] + s[1..];
      ReplacedConcat([s[0]], s[1..]);
      ReplacedOne(s[0]);
      ReplacementsAreOnePass(s[1..]);
    }
  }

  // ---- c_string_literal --------------------------------------------------

  function Quoted(line: string): string {
    [QUOTE] + Replaced(line) + [QUOTE]
  }

  /** "\n".join. */
  function Joined(parts: seq<string>): string {
    if |parts| == 0 then ""
    else if |parts| == 1 then parts[0]
    else parts[0] + [LF] + Joined(parts[1..])
  }

  function QuotedLines(lines: seq<string>): seq<string> {
    if |lines| == 0 then [] else [Quoted(lines[0])] + QuotedLines(lines[1..])
  }

  function CStringLiteral(text: string): string {
    var escaped := QuotedLines(SplitLines(text));
    if |escaped| == 0 then [QUOTE, QUOTE] else Joined(escaped)
  }

  lemma {:induction false} QuotedLinesMore(lines: seq<string>, line: string)
    ensures QuotedLines(lines + [line]) == QuotedLines(lines) + [Quoted(line)]
  {
    if |lines| == 0 {
      assert lines + [line] == [line];
      assert [line][1..] == [];
    } else {
      QuotedLinesMore(lines[1..], line);
      assert (lines + [line])[1..] == lines[1..] + [line];
    }
  }

  method BuildCStringLiteral(text: string) returns (r: string)
    ensures r == CStringLiteral(text)
  {
    var lines := SplitLines(text);
    var escaped: seq<string> := [];
    for i := 0 to |lines|
      invariant escaped == QuotedLines(lines[..i])
    {
      var line := lines[i];
      line := Replace(line, BACKSLASH, "\\\\");
      line := Replace(line, QUOTE, "\\\"");
      line := Replace(line, CR, "\\r");
      line := Replace(line, LF, "\\n");
      QuotedLinesMore(lines[..i], lines[i]);
      assert lines[..i + 1] == lines[..i] + [lines[i]];
      escaped := escaped + [[QUOTE] + line + [QUOTE]];
    }
    assert lines[..|lines|] == lines;
    if |escaped| == 0 {
      return [QUOTE, QUOTE];
    }
    return Joined(escaped);
  }

  // ---- The C compiler ----------------------------------------------------

  /** A run of adjacent string literals separated by white space, as C reads and concatenates them; None where
      it is not one: an unknown escape, a raw line break inside a literal, a literal that does not end. */
  function ReadLiterals(src: string, inside: bool): Option<string>
    decreases |src|
  {
    if |src| == 0 then (if inside then None else Some(""))
    else if !inside then
      if src[0] == QUOTE then ReadLiterals(src[1..], true)
      else if src[0] == LF || src[0] == ' ' then ReadLiterals(src[1..], false)
      else None
    else if src[0] == QUOTE then ReadLiterals(src[1..], false)
    else if src[0] == LF || src[0] == CR then None
    else if src[0] != BACKSLASH then Prepend(src[0], ReadLiterals(src[1..], true))
    else if |src| == 1 then None
    else match EscapeValue(src[1])
      case None => None
      case Some(c) => Prepend(c, ReadLiterals(src[2..], true))
  }

  function Prepend(c: char, r: Option<string>): Option<string> {
    match r
    case None => None
    case Some(s) => Some([c] + s)
  }

  function EscapeValue(c: char): Option<char> {
    if c == BACKSLASH then Some(BACKSLASH)
    else if c == QUOTE then Some(QUOTE)
    else if c == 'r' then Some(CR)
    else if c == 'n' then Some(LF)
    else None
  }

  lemma EscapeReadsBack(c: char, rest: string)
    ensures ReadLiterals(Escape(c) + rest, true) == Prepend(c, ReadLiterals(rest, true))
  {
    var e := Escape(c);
    assert (e + rest)[|e|..] == rest;
    assert (e + rest)[0] == e[0];
    assert |e| == 2 ==> (e + rest)[1] == e[1];
  }

  /** Inside a literal, the escapes of a text read as the text. */
  lemma {:induction false} EscapesReadBack(s: string, more: string)
    requires ReadLiterals(more, true).Some?
    ensures ReadLiterals(Escaped(s) + more, true) == Some(s + ReadLiterals(more, true).value)
  {
    hide ReadLiterals, Escape;
    var tail := ReadLiterals(more, true).value;
    if |s| == 0 {
      assert Escaped(s) + more == more;
      assert s + tail == tail;
    } else {
      EscapesReadBack(s[1..], more);
      EscapeReadsBack(s[0], Escaped(s[1..]) + more);
      Assoc(Escape(s[0]), Escaped(s[1..]), more);
      assert s + tail == [s[0]] + (s[1..] + tail);
    }
  }

  lemma QuotedReadsBack(line: string, more: string)
    requires ReadLiterals(more, false).Some?
    ensures ReadLiterals(Quoted(line) + more, false) == Some(line + ReadLiterals(more, false).value)
  {
    ReplacementsAreOnePass(line);
    var closing := [QUOTE] + more;
    assert closing[1..] == more;
    EscapesReadBack(line, closing);
    assert Quoted(line) + more == [QUOTE] + (Escaped(line) + closing);
    assert ([QUOTE] + (Escaped(line) + closing))[1..] == Escaped(line) + closing;
  }

  lemma {:induction false} JoinedReadsBack(lines: seq<string>)
    requires |lines| > 0
    ensures ReadLiterals(Joined(QuotedLines(lines)), false) == Some(Concat(lines))
    decreases |lines|
  {
    var first, rest := Quoted(lines[0]), QuotedLines(lines[1..]);
    assert QuotedLines(lines)[1..] == rest;
    if |lines| == 1 {
      QuotedReadsBack(lines[0], "");
      assert first + "" == first;
      assert lines[0] + "" == lines[0];
    } else {
      JoinedReadsBack(lines[1..]);
      var more := [LF] + Joined(rest);
      assert more[1..] == Joined(rest);
      QuotedReadsBack(lines[0], more);
      assert Joined(QuotedLines(lines)) == first + more;
    }
  }

  /** Compiling the literals gives back the text, for every text. */
  lemma LiteralRoundTrip(text: string)
    ensures ReadLiterals(CStringLiteral(text), false) == Some(text)
  {
    var lines := SplitLines(text);
    SplitLinesLosesNothing(text);
    if |lines| > 0 {
      JoinedReadsBack(lines);
    } else {
      var src := [QUOTE, QUOTE];
      assert src[1..] == [QUOTE] && [QUOTE][1..] == "";
      assert ReadLiterals([QUOTE], true) == ReadLiterals("", false) == Some("");
    }
  }
}
