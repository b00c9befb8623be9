/** The texts of the two frames and the buffers they pass through. */
module FrameSizes {
  import opened Bytes
  import opened Encoding
  import CounterText
  import Lines
  import Relay

  const JSON_LINE_CAPACITY: nat := 4096
  const RX_LINE_CAPACITY: nat := 4096
  const GCM_TAG_BYTES: nat := 16

  /** The length of a base64 text, without its terminator. */
  function Base64Length(n: nat): nat {
    (n + 2) / 3 * 4
  }

  /** b64_encode succeeds: text and terminator fit. */
  predicate Base64Fits(n: nat, capacity: nat) {
    Base64Length(n) + 1 <= capacity
  }

  function CiphertextCapacity(maxMessage: nat): nat {
    (maxMessage + 2) / 3 * 4 + 1
  }

  /** cJSON's spelling of one octet of a string. */
  function Spelled(c: byte): string {
    if c == 0x22 || c == 0x5C || 0x08 <= c <= 0x0A || 0x0C <= c <= 0x0D then ['\\', Letter(c)]
    else if c < 0x20 then "\\u00" + [HexDigit(c / 16), HexDigit(c % 16)]
    else [c as char]
  }

  function Letter(c: byte): char {
    if c == 0x08 then 'b' else if c == 0x09 then 't' else if c == 0x0A then 'n'
    else if c == 0x0C then 'f' else if c == 0x0D then 'r' else c as char
  }

  function HexDigit(d: byte): char {
    if d < 10 then '0' + d as char else if d < 16 then 'a' + (d - 10) as char else '0'
  }

  function Text(s: Bytes): string {
    if |s| == 0 then "" else Spelled(s[0]) + Text(s[1..])
  }

  predicate Plain(c: byte) {
    c >= 0x20 && c != 0x22 && c != 0x5C
  }

  /** An id takes at most six characters an octet, and one an octet if nothing in it needs an escape. */
  lemma {:induction false} TextLength(s: Bytes)
    ensures |s| <= |Text(s)| <= 6 * |s|
    ensures (forall i | 0 <= i < |s| :: Plain(s[i])) ==> |Text(s)| == |s|
  {
    if |s| == 0 {
    } else {
      TextLength(s[1..]);
      assert (forall i | 0 <= i < |s| :: Plain(s[i])) ==>
          Plain(s[0]) && forall i | 0 <= i < |s[1..]| :: Plain(s[1..][i]);
    }
  }

  lemma ToolIdsArePlain(id: Id)
    requires ToolAcceptsId(id)
    ensures |Text(id)| == |id|
  {
    forall i | 0 <= i < |id| ensures Plain(id[i]) {
      assert i > 0 ==> IdTailChar(id[i]);
    }
    TextLength(id);
  }

  lemma DigitsArePlain(t: Bytes)
    requires CounterText.AllDigits(t)
    ensures |Text(t)| == |t|
  {
    assert forall i | 0 <= i < |t| :: CounterText.IsDigit(t[i]);
    TextLength(t);
  }

  /** cJSON_PrintUnformatted of one member. */
  function Member(name: string, value: string): string {
    "\"" + name + "\":\"" + value + "\""
  }

  function HelloText(from: Id, to: Id, pub64: string, nonce64: string, sig64: string): string {
    "{" + Member("type", "hello") + "," + Member("from", Text(from)) + "," + Member("to", Text(to)) + ","
    + Member("ephemeral_public", pub64) + "," + Member("boot_nonce", nonce64) + "," + Member("signature", sig64) + "}"
  }

  function DataText(from: Id, to: Id, sid64: string, counter: u64, text64: string, tag64: string): string {
    "{" + Member("type", "data") + "," + Member("from", Text(from)) + "," + Member("to", Text(to)) + ","
    + Member("session_id", sid64) + "," + Member("counter", Text(CounterText.Print(counter))) + ","
    + Member("ciphertext", text64) + "," + Member("tag", tag64) + "}"
  }

  /** Short enough for send_json, for the relay with its line end, and for the receiver's buffer. */
  predicate Passes(line: string) {
    && |line| < JSON_LINE_CAPACITY
    && |line| + 1 <= Relay.MAX_LINE
    && |line| + 2 <= RX_LINE_CAPACITY
  }

  /** A signature fits its base64 buffer exactly up to 141 octets; an ECDSA P-256 signature has at most 72. */
  lemma SignatureFitsIff(n: nat)
    ensures Base64Fits(n, 192) <==> n <= 141
  {
  }

  lemma MemberLength(name: string, value: string)
    ensures |Member(name, value)| == |name| + |value| + 5
  {
  }

  lemma IdLengths(from: Id, to: Id)
    requires EncodableId(from) && EncodableId(to)
    ensures |Text(from)| <= 186 && |Text(to)| <= 186
    ensures ToolAcceptsId(from) && ToolAcceptsId(to) ==> |Text(from)| <= 31 && |Text(to)| <= 31
  {
    TextLength(from);
    TextLength(to);
    if ToolAcceptsId(from) && ToolAcceptsId(to) {
      ToolIdsArePlain(from);
      ToolIdsArePlain(to);
    }
  }

  /** Every hello this firmware can build fits its buffers and every limit on its way. */
  lemma HellosFit(from: Id, to: Id, signature: nat, pub64: string, nonce64: string, sig64: string)
    requires EncodableId(from) && EncodableId(to) && signature <= 141
    requires |pub64| == Base64Length(PUBLIC_BYTES) && |nonce64| == Base64Length(BOOT_NONCE_BYTES)
    requires |sig64| == Base64Length(signature)
    ensures Base64Fits(PUBLIC_BYTES, 128) && Base64Fits(BOOT_NONCE_BYTES, 64) && Base64Fits(signature, 192)
    ensures |HelloText(from, to, pub64, nonce64, sig64)| <= 759
    ensures ToolAcceptsId(from) && ToolAcceptsId(to) ==> |HelloText(from, to, pub64, nonce64, sig64)| <= 449
    ensures Passes(HelloText(from, to, pub64, nonce64, sig64))
  {
    hide Text, Member;
    IdLengths(from, to);
    MemberLength("type", "hello");
    MemberLength("from", Text(from));
    MemberLength("to", Text(to));
    MemberLength("ephemeral_public", pub64);
    MemberLength("boot_nonce", nonce64);
    MemberLength("signature", sig64);
  }

  /** Every data frame fits too, for each message limit Kconfig allows and each counter a session can reach. */
  lemma DataFramesFit(from: Id, to: Id, maxMessage: nat, message: nat, counter: u64,
                      sid64: string, text64: string, tag64: string)
    requires EncodableId(from) && EncodableId(to) && 32 <= maxMessage <= 1024
    requires 0 < message <= maxMessage && 0 < counter
    requires |sid64| == Base64Length(SESSION_ID_BYTES) && |tag64| == Base64Length(GCM_TAG_BYTES)
    requires |text64| == Base64Length(message)
    ensures Base64Fits(SESSION_ID_BYTES, 32) && Base64Fits(GCM_TAG_BYTES, 32)
    ensures Base64Fits(message, CiphertextCapacity(maxMessage))
    ensures |DataText(from, to, sid64, counter, text64, tag64)| <= 1883
    ensures ToolAcceptsId(from) && ToolAcceptsId(to) ==> |DataText(from, to, sid64, counter, text64, tag64)| <= 1573
    ensures Passes(DataText(from, to, sid64, counter, text64, tag64))
  {
    hide Text, Member, CounterText.Print;
    IdLengths(from, to);
    CounterText.CounterRoundTrip(counter);
    DigitsArePlain(CounterText.Print(counter));
    MemberLength("type", "data");
    MemberLength("from", Text(from));
    MemberLength("to", Text(to));
    MemberLength("session_id", sid64);
    MemberLength("counter", Text(CounterText.Print(counter)));
    MemberLength("ciphertext", text64);
    MemberLength("tag", tag64);
  }

  // ---- The frames as lines -----------------------------------------------

  /** Nothing that ends or cuts a line: no control characters, and single octets only. */
  predicate Printable(t: string) {
    forall i | 0 <= i < |t| :: ' ' <= t[i] && t[i] as int < 256
  }

  function Octets(t: string): Bytes {
    seq(|t|, i requires 0 <= i < |t| => (t[i] as int % 256) as byte)
  }

  lemma PrintableConcat(a: string, b: string)
    ensures Printable(a + b) <==> Printable(a) && Printable(b)
  {
    if Printable(a + b) {
      forall i | 0 <= i < |a| ensures ' ' <= a[i] && a[i] as int < 256 {
        assert (a + b)[i] == a[i];
      }
      forall i | 0 <= i < |b| ensures ' ' <= b[i] && b[i] as int < 256 {
        assert (a + b)[|a| + i] == b[i];
      }
    }
  }

  /** Escaping leaves no control character. */
  lemma {:induction false} TextIsPrintable(s: Bytes)
    ensures Printable(Text(s))
  {
    if |s| == 0 {
      assert Text(s) == "";
    } else {
      assert Printable(Spelled(s[0]));
      TextIsPrintable(s[1..]);
      PrintableConcat(Spelled(s[0]), Text(s[1..]));
    }
  }

  lemma MemberIsPrintable(name: string, value: string)
    requires Printable(name) && Printable(value)
    ensures Printable(Member(name, value))
  {
  }

  lemma MoreMembers(text: string, name: string, value: string)
    requires Printable(text) && Printable(name) && Printable(value)
    ensures Printable(text + "," + Member(name, value))
  {
    MemberIsPrintable(name, value);
    PrintableConcat(text, ",");
    PrintableConcat(text + ",", Member(name, value));
  }

  /** A frame the firmware builds: its ids and, base64 encoded, what it carries. */
  datatype FrameText =
    | HelloFrame(from: Id, to: Id, signature: nat, pub64: string, nonce64: string, sig64: string)
    | DataFrame(from: Id, to: Id, message: nat, counter: u64, sid64: string, text64: string, tag64: string)

  function TextOf(f: FrameText): string {
    match f
    case HelloFrame(from, to, _, pub64, nonce64, sig64) => HelloText(from, to, pub64, nonce64, sig64)
    case DataFrame(from, to, _, counter, sid64, text64, tag64) => DataText(from, to, sid64, counter, text64, tag64)
  }

  function LineOf(f: FrameText): Bytes {
    Octets(TextOf(f))
  }

  /** s is the base64 text of n octets. */
  predicate Encodes(s: string, n: nat) {
    |s| == Base64Length(n) && Printable(s)
  }

  predicate Built(f: FrameText, maxMessage: nat) {
    && EncodableId(f.from) && EncodableId(f.to)
    && match f
       case HelloFrame(_, _, signature, pub64, nonce64, sig64) =>
         && signature <= 141
         && Encodes(pub64, PUBLIC_BYTES) && Encodes(nonce64, BOOT_NONCE_BYTES) && Encodes(sig64, signature)
       case DataFrame(_, _, message, counter, sid64, text64, tag64) =>
         && 0 < message <= maxMessage && 0 < counter
         && Encodes(sid64, SESSION_ID_BYTES) && Encodes(text64, message) && Encodes(tag64, GCM_TAG_BYTES)
  }

  lemma FrameFits(f: FrameText, maxMessage: nat)
    requires 32 <= maxMessage <= 1024 && Built(f, maxMessage)
    ensures Passes(TextOf(f))
  {
    hide HelloText, DataText, Passes, Printable;
    match f
    case HelloFrame(from, to, signature, pub64, nonce64, sig64) =>
      HellosFit(from, to, signature, pub64, nonce64, sig64);
    case DataFrame(from, to, message, counter, sid64, text64, tag64) =>
      DataFramesFit(from, to, maxMessage, message, counter, sid64, text64, tag64);
  }

  lemma HelloIsPrintable(f: FrameText, maxMessage: nat)
    requires f.HelloFrame? && Built(f, maxMessage)
    ensures Printable(TextOf(f)) && TextOf(f) != ""
  {
    hide Member, Text;
    TextIsPrintable(f.from);
    TextIsPrintable(f.to);
    var start := "{" + Member("type", "hello");
    assert Printable(start) by { MemberIsPrintable("type", "hello"); PrintableConcat("{", Member("type", "hello")); }
    hide Printable;
    ShortNames();
    MoreMembers(start, "from", Text(f.from));
    var t1 := start + "," + Member("from", Text(f.from));
    MoreMembers(t1, "to", Text(f.to));
    var t2 := t1 + "," + Member("to", Text(f.to));
    MoreMembers(t2, "ephemeral_public", f.pub64);
    var t3 := t2 + "," + Member("ephemeral_public", f.pub64);
    MoreMembers(t3, "boot_nonce", f.nonce64);
    var t4 := t3 + "," + Member("boot_nonce", f.nonce64);
    MoreMembers(t4, "signature", f.sig64);
    var t5 := t4 + "," + Member("signature", f.sig64);
    PrintableConcat(t5, "}");
    assert TextOf(f) == t5 + "}";
  }

  lemma DataIsPrintable(f: FrameText, maxMessage: nat)
    requires f.DataFrame? && Built(f, maxMessage)
    ensures Printable(TextOf(f)) && TextOf(f) != ""
  {
    hide Member, Text, CounterText.Print;
    TextIsPrintable(f.from);
    TextIsPrintable(f.to);
    TextIsPrintable(CounterText.Print(f.counter));
    var start := "{" + Member("type", "data");
    assert Printable(start) by { MemberIsPrintable("type", "data"); PrintableConcat("{", Member("type", "data")); }
    hide Printable;
    ShortNames();
    MoreMembers(start, "from", Text(f.from));
    var t1 := start + "," + Member("from", Text(f.from));
    MoreMembers(t1, "to", Text(f.to));
    var t2 := t1 + "," + Member("to", Text(f.to));
    MoreMembers(t2, "session_id", f.sid64);
    var t3 := t2 + "," + Member("session_id", f.sid64);
    MoreMembers(t3, "counter", Text(CounterText.Print(f.counter)));
    var t4 := t3 + "," + Member("counter", Text(CounterText.Print(f.counter)));
    MoreMembers(t4, "ciphertext", f.text64);
    var t5 := t4 + "," + Member("ciphertext", f.text64);
    MoreMembers(t5, "tag", f.tag64);
    var t6 := t5 + "," + Member("tag", f.tag64);
    PrintableConcat(t6, "}");
    assert TextOf(f) == t6 + "}";
  }

  lemma ShortNames()
    ensures Printable("from") && Printable("to") && Printable("}") && Printable("tag") && Printable("counter")
    ensures Printable("ephemeral_public") && Printable("boot_nonce") && Printable("signature")
    ensures Printable("session_id") && Printable("ciphertext")
  {
  }

  /** A printable text that passes is a line that both transports carry. */
  lemma PrintableIsCarriable(t: string)
    requires Printable(t) && t != "" && Passes(t)
    ensures Lines.Carriable(Octets(t), RX_LINE_CAPACITY)
    ensures |Octets(t)| + 1 <= Relay.MAX_LINE
  {
    forall i | 0 <= i < |t| ensures Octets(t)[i] != Lines.LF && Octets(t)[i] != Lines.CR {
      assert t[i] as int >= 32;
    }
  }

  lemma FrameIsCarriable(f: FrameText, maxMessage: nat)
    requires 32 <= maxMessage <= 1024 && Built(f, maxMessage)
    ensures Lines.Carriable(LineOf(f), RX_LINE_CAPACITY)
    ensures |LineOf(f)| + 1 <= Relay.MAX_LINE
  {
    FrameFits(f, maxMessage);
    if f.HelloFrame? {
      HelloIsPrintable(f, maxMessage);
    } else {
      DataIsPrintable(f, maxMessage);
    }
    hide TextOf, Octets, Printable, Passes;
    PrintableIsCarriable(TextOf(f));
  }

  /** Whatever frames the firmware builds and however the transports split and stall, the receiver's loop reads exactly
      their texts, one by one, and the relay finds none of them too long. */
  lemma FramesTravel(fs: seq<FrameText>, maxMessage: nat, results: seq<Lines.WriteResult>, input: seq<Lines.Reading>,
                     closing: int)
    requires 32 <= maxMessage <= 1024 && (forall f | f in fs :: Built(f, maxMessage)) && closing <= 0
    requires Lines.SendLines(LinesOf(fs), results).ok
    requires Lines.Octets(input) == Lines.Relayed(Lines.SendLines(LinesOf(fs), results).octets)
    ensures Lines.ReadLines(input, RX_LINE_CAPACITY, closing) == LinesOf(fs)
    ensures forall line | line in LinesOf(fs) :: |line| + 1 <= Relay.MAX_LINE
  {
    hide Built, LineOf, Lines.Carriable, Lines.SendLines, Lines.ReadLines, Lines.Relayed;
    forall i | 0 <= i < |fs|
      ensures Lines.Carriable(LinesOf(fs)[i], RX_LINE_CAPACITY) && |LinesOf(fs)[i]| + 1 <= Relay.MAX_LINE
    {
      assert fs[i] in fs;
      FrameIsCarriable(fs[i], maxMessage);
    }
    Lines.FramingRoundTrip(LinesOf(fs), results, input, RX_LINE_CAPACITY, closing);
  }

  function LinesOf(fs: seq<FrameText>): seq<Bytes> {
    seq(|fs|, i requires 0 <= i < |fs| => LineOf(fs[i]))
  }
}
