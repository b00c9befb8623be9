/**
 * The texts of data frames, base64 included, tell every message of a session apart: so parsing can undo printing, as
 * the results about the relay assume.
 */
module TextCodec {
  import opened Bytes
  import opened Encoding
  import opened Crypto
  import opened Protocol
  import opened EndToEnd
  import opened Channel
  import opened FrameSizes
  import opened Lanes
  import RelayedChannel
  import opened Wrappers
  import CounterText
  import Lines
  import Relay

  // ---- base64 ------------------------------------------------------------

  function Letter64(v: nat): char
    requires v < 64
  {
    if v < 26 then 'A' + v as char
    else if v < 52 then 'a' + (v - 26) as char
    else if v < 62 then '0' + (v - 52) as char
    else if v == 62 then '+' else '/'
  }

  lemma Letter64Injective(v: nat, w: nat)
    requires v < 64 && w < 64
    ensures Letter64(v) == Letter64(w) <==> v == w
    ensures Letter64(v) != '=' && Letter64(v) != '\"' && ' ' <= Letter64(v) < '\U{7F}'
  {
  }

  function Group1(a: byte): string {
    [Letter64((a / 4) as nat), Letter64((a % 4 * 16) as nat), '=', '=']
  }

  function Group2(a: byte, b: byte): string {
    [Letter64((a / 4) as nat), Letter64((a % 4 * 16 + b / 16) as nat), Letter64((b % 16 * 4) as nat), '=']
  }

  function Group3(a: byte, b: byte, c: byte): string {
    [Letter64((a / 4) as nat), Letter64((a % 4 * 16 + b / 16) as nat), Letter64((b % 16 * 4 + c / 64) as nat),
     Letter64((c % 64) as nat)]
  }

  function Base64(s: Bytes): string {
    if |s| == 0 then ""
    else if |s| == 1 then Group1(s[0])
    else if |s| == 2 then Group2(s[0], s[1])
    else Group3(s[0], s[1], s[2]) + Base64(s[3..])
  }

  lemma {:induction false} Base64Encodes(s: Bytes)
    ensures Encodes(Base64(s), |s|)
    ensures '\"' !in Base64(s)
  {
    hide Letter64;
    forall v: nat | v < 64 ensures Letter64(v) != '\"' && ' ' <= Letter64(v) < '\U{7F}' {
      Letter64Injective(v, v);
    }
    if |s| < 3 {
    } else {
      Base64Encodes(s[3..]);
      PrintableConcat(Group3(s[0], s[1], s[2]), Base64(s[3..]));
    }
  }

  lemma Group3Injective(a: byte, b: byte, c: byte, a': byte, b': byte, c': byte)
    requires Group3(a, b, c) == Group3(a', b', c')
    ensures a == a' && b == b' && c == c'
  {
    var g, g' := Group3(a, b, c), Group3(a', b', c');
    assert g[0] == g'[0] && g[1] == g'[1] && g[2] == g'[2] && g[3] == g'[3];
    hide Letter64;
    Letter64Injective((a / 4) as nat, (a' / 4) as nat);
    Letter64Injective((a % 4 * 16 + b / 16) as nat, (a' % 4 * 16 + b' / 16) as nat);
    Letter64Injective((b % 16 * 4 + c / 64) as nat, (b' % 16 * 4 + c' / 64) as nat);
    Letter64Injective((c % 64) as nat, (c' % 64) as nat);
  }

  lemma Group2Injective(a: byte, b: byte, a': byte, b': byte)
    requires Group2(a, b) == Group2(a', b')
    ensures a == a' && b == b'
  {
    var g, g' := Group2(a, b), Group2(a', b');
    assert g[0] == g'[0] && g[1] == g'[1] && g[2] == g'[2];
    hide Letter64;
    Letter64Injective((a / 4) as nat, (a' / 4) as nat);
    Letter64Injective((a % 4 * 16 + b / 16) as nat, (a' % 4 * 16 + b' / 16) as nat);
    Letter64Injective((b % 16 * 4) as nat, (b' % 16 * 4) as nat);
  }

  lemma Group1Injective(a: byte, a': byte)
    requires Group1(a) == Group1(a')
    ensures a == a'
  {
    var g, g' := Group1(a), Group1(a');
    assert g[0] == g'[0] && g[1] == g'[1];
    hide Letter64;
    Letter64Injective((a / 4) as nat, (a' / 4) as nat);
    Letter64Injective((a % 4 * 16) as nat, (a' % 4 * 16) as nat);
  }

  /** For texts of one length; the length of the ciphertext is what tells the paddings apart. */
  lemma {:induction false} Base64Injective(s: Bytes, t: Bytes)
    requires |s| == |t| && Base64(s) == Base64(t)
    ensures s == t
  {
    if |s| == 0 {
    } else if |s| == 1 {
      Group1Injective(s[0], t[0]);
    } else if |s| == 2 {
      Group2Injective(s[0], s[1], t[0], t[1]);
    } else {
      hide Group3;
      var g, h := Group3(s[0], s[1], s[2]), Group3(t[0], t[1], t[2]);
      GroupLength(s[0], s[1], s[2]);
      GroupLength(t[0], t[1], t[2]);
      assert Base64(s)[..4] == g && Base64(t)[..4] == h;
      assert Base64(s)[4..] == Base64(s[3..]) && Base64(t)[4..] == Base64(t[3..]);
      Group3Injective(s[0], s[1], s[2], t[0], t[1], t[2]);
      Base64Injective(s[3..], t[3..]);
      assert s == [s[0], s[1], s[2]] + s[3..] && t == [t[0], t[1], t[2]] + t[3..];
    }
  }

  lemma GroupLength(a: byte, b: byte, c: byte)
    ensures |Group3(a, b, c)| == 4
  {
  }

  /** How many octets a base64 text stands for shows in its padding. */
  lemma {:induction false} PaddingShowsLength(s: Bytes, t: Bytes)
    requires Base64(s) == Base64(t)
    ensures |s| == |t|
  {
    Base64Encodes(s);
    Base64Encodes(t);
    hide Letter64;
    forall v: nat | v < 64 ensures Letter64(v) != '=' {
      Letter64Injective(v, v);
    }
    if |s| <= 3 || |t| <= 3 {
      ShortBase64(s);
      ShortBase64(t);
    } else {
      assert Base64(s)[4..] == Base64(s[3..]) && Base64(t)[4..] == Base64(t[3..]);
      PaddingShowsLength(s[3..], t[3..]);
    }
  }

  lemma ShortBase64(s: Bytes)
    ensures |s| == 1 ==> |Base64(s)| == 4 && Base64(s)[2] == '=' && Base64(s)[3] == '='
    ensures |s| == 2 ==> |Base64(s)| == 4 && Base64(s)[2] != '=' && Base64(s)[3] == '='
    ensures |s| == 3 ==> |Base64(s)| == 4 && Base64(s)[3] != '='
  {
    hide Letter64;
    forall v: nat | v < 64 ensures Letter64(v) != '=' {
      Letter64Injective(v, v);
    }
    if |s| == 3 {
      assert s[3..] == [];
    }
  }

  // ---- The text of a message ---------------------------------------------

  /** A session at its sender, and what its AES-GCM makes of each message: as many octets as the text, and different
      ones for different texts under one counter. */
  datatype Wire = Wire(boot: Boot, to: Id, key: Key, sid: SessionId, cipher: Message -> Bytes, tag: Message -> Bytes)

  predicate Legal(w: Wire, m: Message) {
    m.counter > 0 && 0 < |m.text| <= w.boot.maxMessage
  }

  ghost predicate WireOk(w: Wire) {
    && EncodableId(w.boot.self.id) && EncodableId(w.to) && 32 <= w.boot.maxMessage <= 1024
    && (forall m | Legal(w, m) :: |w.cipher(m)| == |m.text| && |w.tag(m)| == GCM_TAG_BYTES)
    && (forall m, n | Legal(w, m) && Legal(w, n) && m.counter == n.counter && w.cipher(m) == w.cipher(n) :: m == n)
  }

  /** Such a session exists for every sender and receiver. */
  lemma SomeWire(boot: Boot, to: Id, key: Key, sid: SessionId) returns (w: Wire)
    requires EncodableId(boot.self.id) && EncodableId(to) && 32 <= boot.maxMessage <= 1024
    ensures WireOk(w) && w.boot == boot && w.to == to && w.key == key && w.sid == sid
  {
    w := Wire(boot, to, key, sid, (m: Message) => m.text, (m: Message) => seq(GCM_TAG_BYTES, i => 0));
  }

  function MessageText(w: Wire, m: Message): string {
    DataText(w.boot.self.id, w.to, Base64(w.sid), m.counter, Base64(w.cipher(m)), Base64(w.tag(m)))
  }

  function BeforeMembers(w: Wire): string {
    "{" + Member("type", "data") + "," + Member("from", Text(w.boot.self.id)) + "," + Member("to", Text(w.to)) + ","
    + Member("session_id", Base64(w.sid)) + ","
  }

  function BeforeCounter(w: Wire): string {
    BeforeMembers(w) + "\"counter\":\""
  }

  const BETWEEN: string := ",\"ciphertext\":\""

  function AfterText(w: Wire, m: Message): string {
    "," + Member("tag", Base64(w.tag(m))) + "}"
  }

  lemma Regroup(p: string, o: string, d: string, e: string, c: string, g: string)
    ensures p + (o + d + "\"") + "," + (e + c + "\"") + "," + g + "}"
            == (p + o) + (d + "\"" + (("," + e) + (c + "\"" + ("," + g + "}"))))
  {
  }

  lemma MembersAreParts(d: string, c: string)
    ensures Member("counter", d) == "\"counter\":\"" + d + "\""
    ensures Member("ciphertext", c) == "\"ciphertext\":\"" + c + "\""
    ensures "," + "\"ciphertext\":\"" == BETWEEN
  {
  }

  lemma TextInParts(w: Wire, m: Message)
    ensures MessageText(w, m)
            == BeforeCounter(w) + (Text(CounterText.Print(m.counter)) + "\""
                 + (BETWEEN + (Base64(w.cipher(m)) + "\"" + AfterText(w, m))))
  {
    hide Text, Base64, CounterText.Print, Member;
    var d, c := Text(CounterText.Print(m.counter)), Base64(w.cipher(m));
    var p := BeforeMembers(w);
    MembersAreParts(d, c);
    Regroup(p, "\"counter\":\"", d, "\"ciphertext\":\"", c, Member("tag", Base64(w.tag(m))));
  }

  /** What comes before the first quote. */
  lemma {:induction false} QuoteEnds(a: string, s: string, b: string, t: string)
    requires '\"' !in a && '\"' !in b && a + "\"" + s == b + "\"" + t
    ensures a == b && s == t
  {
    assert (a + "\"" + s)[0] == if |a| == 0 then '\"' else a[0];
    assert (b + "\"" + t)[0] == if |b| == 0 then '\"' else b[0];
    assert |a| > 0 ==> a[0] in a;
    assert |b| > 0 ==> b[0] in b;
    assert |a| == 0 <==> |b| == 0;
    if |a| == 0 {
      assert s == (a + "\"" + s)[1..] && t == (b + "\"" + t)[1..];
    } else {
      assert (a + "\"" + s)[1..] == a[1..] + "\"" + s && (b + "\"" + t)[1..] == b[1..] + "\"" + t;
      QuoteEnds(a[1..], s, b[1..], t);
      assert a == [a[0]] + a[1..] && b == [b[0]] + b[1..];
    }
  }

  lemma {:induction false} PlainText(s: Bytes)
    requires forall i | 0 <= i < |s| :: Plain(s[i])
    ensures |Text(s)| == |s| && '\"' !in Text(s)
    ensures forall i | 0 <= i < |s| :: Text(s)[i] == s[i] as char
  {
    if |s| == 0 {
    } else {
      PlainText(s[1..]);
      assert Spelled(s[0]) == [s[0] as char];
    }
  }

  lemma DigitsTell(c: u64, d: u64)
    ensures '\"' !in Text(CounterText.Print(c))
    ensures c > 0 && d > 0 && Text(CounterText.Print(c)) == Text(CounterText.Print(d)) ==> c == d
  {
    var s, t := CounterText.Print(c), CounterText.Print(d);
    assert forall i | 0 <= i < |s| :: CounterText.IsDigit(s[i]);
    assert forall i | 0 <= i < |t| :: CounterText.IsDigit(t[i]);
    PlainText(s);
    PlainText(t);
    hide CounterText.Print, CounterText.Parse;
    if c > 0 && d > 0 && Text(s) == Text(t) {
      forall i | 0 <= i < |s| ensures s[i] == t[i] {
        assert Text(s)[i] == Text(t)[i];
      }
      assert s == t;
      CounterText.CounterRoundTrip(c);
      CounterText.CounterRoundTrip(d);
    }
  }

  lemma PrefixTells(p: string, a: string, b: string)
    requires p + a == p + b
    ensures a == b
  {
    assert a == (p + a)[|p|..] && b == (p + b)[|p|..];
  }

  /** Two messages of a session with one text are one message. */
  lemma TextTellsMessage(w: Wire, m: Message, n: Message)
    requires WireOk(w) && Legal(w, m) && Legal(w, n) && MessageText(w, m) == MessageText(w, n)
    ensures m == n
  {
    hide MessageText, Text, Base64, CounterText.Print, AfterText, BeforeCounter;
    TextInParts(w, m);
    TextInParts(w, n);
    var c, d := Text(CounterText.Print(m.counter)), Text(CounterText.Print(n.counter));
    var s := BETWEEN + (Base64(w.cipher(m)) + "\"" + AfterText(w, m));
    var t := BETWEEN + (Base64(w.cipher(n)) + "\"" + AfterText(w, n));
    PrefixTells(BeforeCounter(w), c + "\"" + s, d + "\"" + t);
    DigitsTell(m.counter, n.counter);
    DigitsTell(n.counter, m.counter);
    QuoteEnds(c, s, d, t);
    PrefixTells(BETWEEN, Base64(w.cipher(m)) + "\"" + AfterText(w, m), Base64(w.cipher(n)) + "\"" + AfterText(w, n));
    Base64Encodes(w.cipher(m));
    Base64Encodes(w.cipher(n));
    QuoteEnds(Base64(w.cipher(m)), AfterText(w, m), Base64(w.cipher(n)), AfterText(w, n));
    PaddingShowsLength(w.cipher(m), w.cipher(n));
    Base64Injective(w.cipher(m), w.cipher(n));
  }

  // ---- The codec ---------------------------------------------------------

  function MessageOf(f: Frame): Message {
    match f
    case Data(_, _, _, counter, Box(_, _, _, text)) =>
      Message(match CounterText.Parse(counter) case None => 0 case Some(c) => c, text)
    case _ => Message(0, [])
  }

  /** The line, with or without its end, is the text of this message. */
  predicate Spells(w: Wire, line: Bytes, m: Message) {
    Legal(w, m) && Relay.StripLineEnd(line) == Octets(MessageText(w, m))
  }

  ghost function ReadText(w: Wire, line: Bytes): Option<Frame> {
    if exists m :: Spells(w, line, m)
    then var m :| Spells(w, line, m); Some(FrameOf(w.boot, w.to, w.key, w.sid, m))
    else None
  }

  ghost function HeadOf(w: Wire, line: Bytes): Relay.Payload {
    if exists m :: Spells(w, line, m) then Relay.Payload(true, Some(w.boot.self.id), Some(w.to))
    else Relay.Payload(false, None, None)
  }

  function WriteText(w: Wire, f: Frame): Bytes {
    Octets(MessageText(w, MessageOf(f)))
  }

  ghost function CodecOf(w: Wire): Codec {
    Codec(f => WriteText(w, f), line => ReadText(w, line), line => HeadOf(w, line))
  }

  lemma CodecApplied(w: Wire, f: Frame, line: Bytes)
    ensures var codec := CodecOf(w);
            && codec.write(f) == WriteText(w, f)
            && codec.read(line) == ReadText(w, line)
            && codec.head(line) == HeadOf(w, line)
  {
    hide WriteText, ReadText, HeadOf;
  }

  lemma {:induction false} OctetsTell(a: string, b: string)
    requires Printable(a) && Printable(b) && Octets(a) == Octets(b)
    ensures a == b
  {
    assert |a| == |Octets(a)| == |b|;
    forall i | 0 <= i < |a| ensures a[i] == b[i] {
      assert Octets(a)[i] == Octets(b)[i];
      assert a[i] as int == Octets(a)[i] as int && b[i] as int == Octets(b)[i] as int;
    }
  }

  lemma MessageIsBuilt(w: Wire, m: Message)
    requires WireOk(w) && Legal(w, m)
    ensures var t := MessageText(w, m);
            Printable(t) && t != "" && |t| + 1 <= Relay.MAX_LINE && Lines.Carriable(Octets(t), RX_LINE_CAPACITY)
  {
    var f := DataFrame(w.boot.self.id, w.to, |m.text|, m.counter, Base64(w.sid), Base64(w.cipher(m)), Base64(w.tag(m)));
    Base64Encodes(w.sid);
    Base64Encodes(w.cipher(m));
    Base64Encodes(w.tag(m));
    hide Base64, Text, DataText, Printable;
    assert Built(f, w.boot.maxMessage);
    assert TextOf(f) == MessageText(w, m);
    FrameIsCarriable(f, w.boot.maxMessage);
    DataIsPrintable(f, w.boot.maxMessage);
  }

  lemma LineStrips(t: Bytes)
    requires |t| > 0 && t[|t| - 1] != Lines.LF && t[|t| - 1] != Lines.CR
    ensures Relay.StripLineEnd(t + [Lines.LF]) == t
    ensures Relay.StripLineEnd(Relay.Framed(t + [Lines.LF])) == t
  {
    assert (t + [Lines.LF])[..|t|] == t;
    assert Relay.StripLineEnd(t) == t;
  }

  lemma OnlyItsMessage(w: Wire, line: Bytes, m: Message, n: Message)
    requires WireOk(w) && Spells(w, line, m) && Spells(w, line, n)
    ensures m == n
  {
    hide MessageText, Octets, Printable;
    MessageIsBuilt(w, m);
    MessageIsBuilt(w, n);
    OctetsTell(MessageText(w, m), MessageText(w, n));
    TextTellsMessage(w, m, n);
  }

  lemma LineIsRead(w: Wire, line: Bytes, m: Message)
    requires WireOk(w) && Spells(w, line, m)
    ensures ReadText(w, line) == Some(FrameOf(w.boot, w.to, w.key, w.sid, m))
    ensures HeadOf(w, line) == Relay.Payload(true, Some(w.boot.self.id), Some(w.to))
  {
    hide Spells, FrameOf;
    forall n | Spells(w, line, n) ensures n == m {
      OnlyItsMessage(w, line, m, n);
    }
  }

  lemma FrameNamesMessage(w: Wire, m: Message)
    requires Legal(w, m)
    ensures var f := FrameOf(w.boot, w.to, w.key, w.sid, m);
            MessageOf(f) == m && f.Data? && f.from == w.boot.self.id && f.to == w.to
  {
    hide CounterText.Parse, CounterText.Print, NonceBytes, AadBytes;
    CounterText.CounterRoundTrip(m.counter);
  }

  lemma MessageLine(w: Wire, m: Message)
    requires WireOk(w) && Legal(w, m)
    ensures var codec, f := CodecOf(w), FrameOf(w.boot, w.to, w.key, w.sid, m);
            && codec.read(Relay.Framed(Printed(codec, f))) == Some(f)
            && |Printed(codec, f)| <= Relay.MAX_LINE
            && codec.head(Printed(codec, f)) == Relay.Payload(true, Some(w.boot.self.id), Some(w.to))
  {
    hide CodecOf, FrameOf, MessageText, ReadText, HeadOf, MessageOf, WireOk;
    hide Relay.Framed, Relay.StripLineEnd, Printable;
    var f, t := FrameOf(w.boot, w.to, w.key, w.sid, m), Octets(MessageText(w, m));
    var line := t + [Lines.LF];
    MessageIsBuilt(w, m);
    FrameNamesMessage(w, m);
    LineStrips(t);
    CodecApplied(w, f, line);
    CodecApplied(w, f, Relay.Framed(line));
    LineIsRead(w, line, m);
    LineIsRead(w, Relay.Framed(line), m);
  }

  /** For every session there are a printing, by the texts the firmware builds, and a parsing that undo each other. */
  lemma TextsAreACodec(w: Wire)
    requires WireOk(w)
    ensures RelayedChannel.CodecOk(CodecOf(w), w.boot, w.to, w.key, w.sid)
  {
    hide CodecOf, FrameOf, Printed, Relay.Framed, WireOk;
    forall m: Message | m.counter > 0 && 0 < |m.text| <= w.boot.maxMessage
      ensures var codec, f := CodecOf(w), FrameOf(w.boot, w.to, w.key, w.sid, m);
              Carried(codec, Lane(w.boot.self.id, w.to, false), Printed(codec, f)) == [f]
              && Passable(codec, w.boot.self.id, w.to, Printed(codec, f))
    {
      MessageLine(w, m);
      FrameNamesMessage(w, m);
    }
  }
}
