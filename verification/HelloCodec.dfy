/** The texts of hellos between provisioned devices tell them apart: so parsing can undo printing, as the result about
    the exchange over the relay assumes. */
module HelloCodec {
  import opened Bytes
  import opened Encoding
  import opened Protocol
  import opened FrameSizes
  import opened Lanes
  import opened TextCodec
  import opened Wrappers
  import Lines
  import Relay
  import RelayedHandshake

  /** Two boots, and the octets of their signatures. */
  datatype Couple = Couple(a: Boot, b: Boot, sig: (Party, Id) -> Bytes)

  /** The device that p is one of, and one of its peers. */
  predicate Sends(c: Couple, p: Party, to: Id) {
    (p == c.a.self && to in c.a.peers) || (p == c.b.self && to in c.b.peers)
  }

  ghost predicate CoupleOk(c: Couple) {
    && c.a.self.id != c.b.self.id
    && forall p, to | Sends(c, p, to) ::
         && WellFormedParty(p) && ToolAcceptsId(p.id) && ToolAcceptsId(to)
         && |c.sig(p, to)| <= 141
  }

  function TextOfHello(c: Couple, p: Party, to: Id): string {
    HelloText(p.id, to, Base64(p.pub), Base64(p.nonce), Base64(c.sig(p, to)))
  }

  function AfterIds(c: Couple, p: Party, to: Id): string {
    "," + Member("ephemeral_public", Base64(p.pub)) + "," + Member("boot_nonce", Base64(p.nonce)) + ","
    + Member("signature", Base64(c.sig(p, to))) + "}"
  }

  const BEFORE_FROM: string := "{" + Member("type", "hello") + "," + "\"from\":\""
  const BEFORE_TO: string := "," + "\"to\":\""

  lemma Regroup(h: string, o: string, d: string, e: string, c: string, g: string, k: string, m: string)
    ensures "{" + h + "," + (o + d + "\"") + "," + (e + c + "\"") + "," + g + "," + k + "," + m + "}"
            == ("{" + h + "," + o) + (d + "\"" + (("," + e) + (c + "\"" + ("," + g + "," + k + "," + m + "}"))))
  {
    assert "{" + h + "," + (o + d + "\"") == ("{" + h + "," + o) + (d + "\"");
    var tail := "," + g + "," + k + "," + m + "}";
    assert "," + (e + c + "\"") + tail == ("," + e) + (c + "\"" + tail);
    assert "{" + h + "," + (o + d + "\"") + "," + (e + c + "\"") + "," + g + "," + k + "," + m + "}"
        == ("{" + h + "," + (o + d + "\"")) + ("," + (e + c + "\"") + tail);
  }

  lemma IdsAreParts(d: string, c: string)
    ensures Member("from", d) == "\"from\":\"" + d + "\""
    ensures Member("to", c) == "\"to\":\"" + c + "\""
  {
  }

  lemma HelloInParts(c: Couple, p: Party, to: Id)
    ensures TextOfHello(c, p, to)
            == BEFORE_FROM + (Text(p.id) + "\"" + (BEFORE_TO + (Text(to) + "\"" + AfterIds(c, p, to))))
  {
    hide Text, Base64, Member;
    IdsAreParts(Text(p.id), Text(to));
    Regroup(Member("type", "hello"), "\"from\":\"", Text(p.id), "\"to\":\"", Text(to),
            Member("ephemeral_public", Base64(p.pub)), Member("boot_nonce", Base64(p.nonce)),
            Member("signature", Base64(c.sig(p, to))));
  }

  lemma IdTells(a: Id, b: Id)
    requires ToolAcceptsId(a) && ToolAcceptsId(b)
    ensures '\"' !in Text(a)
    ensures Text(a) == Text(b) ==> a == b
  {
    forall i | 0 <= i < |a| ensures Plain(a[i]) {
      assert i > 0 ==> IdTailChar(a[i]);
    }
    forall i | 0 <= i < |b| ensures Plain(b[i]) {
      assert i > 0 ==> IdTailChar(b[i]);
    }
    PlainText(a);
    PlainText(b);
    if Text(a) == Text(b) {
      forall i | 0 <= i < |a| ensures a[i] == b[i] {
        assert Text(a)[i] == Text(b)[i];
      }
    }
  }

  /** One text, one hello. */
  lemma TextTellsHello(c: Couple, p: Party, to: Id, q: Party, to': Id)
    requires CoupleOk(c) && Sends(c, p, to) && Sends(c, q, to')
    requires TextOfHello(c, p, to) == TextOfHello(c, q, to')
    ensures p == q && to == to'
  {
    hide TextOfHello, Text, AfterIds, Base64;
    HelloInParts(c, p, to);
    HelloInParts(c, q, to');
    IdTells(p.id, q.id);
    IdTells(q.id, p.id);
    IdTells(to, to');
    IdTells(to', to);
    var s, t := Text(to) + "\"" + AfterIds(c, p, to), Text(to') + "\"" + AfterIds(c, q, to');
    PrefixTells(BEFORE_FROM, Text(p.id) + "\"" + (BEFORE_TO + s), Text(q.id) + "\"" + (BEFORE_TO + t));
    QuoteEnds(Text(p.id), BEFORE_TO + s, Text(q.id), BEFORE_TO + t);
    PrefixTells(BEFORE_TO, s, t);
    QuoteEnds(Text(to), AfterIds(c, p, to), Text(to'), AfterIds(c, q, to'));
  }

  lemma HelloIsBuilt(c: Couple, p: Party, to: Id)
    requires CoupleOk(c) && Sends(c, p, to)
    ensures var t := TextOfHello(c, p, to);
            Printable(t) && t != "" && |t| + 1 <= Relay.MAX_LINE && Lines.Carriable(Octets(t), RX_LINE_CAPACITY)
  {
    var f := HelloFrame(p.id, to, |c.sig(p, to)|, Base64(p.pub), Base64(p.nonce), Base64(c.sig(p, to)));
    Base64Encodes(p.pub);
    Base64Encodes(p.nonce);
    Base64Encodes(c.sig(p, to));
    hide Base64, Text, HelloText, Printable;
    ToolIdsAreEncodable(p.id);
    ToolIdsAreEncodable(to);
    assert Built(f, 1024);
    assert TextOf(f) == TextOfHello(c, p, to);
    FrameIsCarriable(f, 1024);
    HelloIsPrintable(f, 1024);
  }

  // ---- The codec ---------------------------------------------------------

  /** The line, with or without its end, is the text of this hello. */
  predicate Spells(c: Couple, line: Bytes, p: Party, to: Id) {
    Sends(c, p, to) && Relay.StripLineEnd(line) == Octets(TextOfHello(c, p, to))
  }

  ghost function ReadHello(c: Couple, line: Bytes): Option<Frame> {
    if exists p, to :: Spells(c, line, p, to)
    then var p, to :| Spells(c, line, p, to); Some(HelloOf(p, to))
    else None
  }

  ghost function HeadOf(c: Couple, line: Bytes): Relay.Payload {
    if exists p, to :: Spells(c, line, p, to)
    then var p, to :| Spells(c, line, p, to); Relay.Payload(true, Some(p.id), Some(to))
    else Relay.Payload(false, None, None)
  }

  function WriteHello(c: Couple, f: Frame): Bytes {
    if f.Hello? then Octets(TextOfHello(c, Party(f.from, f.pub, f.nonce), f.to)) else []
  }

  ghost function CodecOf(c: Couple): Codec {
    Codec(f => WriteHello(c, f), line => ReadHello(c, line), line => HeadOf(c, line))
  }

  lemma CodecApplied(c: Couple, f: Frame, line: Bytes)
    ensures var codec := CodecOf(c);
            && codec.write(f) == WriteHello(c, f)
            && codec.read(line) == ReadHello(c, line)
            && codec.head(line) == HeadOf(c, line)
  {
    hide WriteHello, ReadHello, HeadOf;
  }

  lemma OnlyItsHello(c: Couple, line: Bytes, p: Party, to: Id, q: Party, to': Id)
    requires CoupleOk(c) && Spells(c, line, p, to) && Spells(c, line, q, to')
    ensures p == q && to == to'
  {
    hide TextOfHello, Octets, Printable, CoupleOk;
    HelloIsBuilt(c, p, to);
    HelloIsBuilt(c, q, to');
    OctetsTell(TextOfHello(c, p, to), TextOfHello(c, q, to'));
    TextTellsHello(c, p, to, q, to');
  }

  lemma HelloIsRead(c: Couple, line: Bytes, p: Party, to: Id)
    requires CoupleOk(c) && Spells(c, line, p, to)
    ensures ReadHello(c, line) == Some(HelloOf(p, to))
    ensures HeadOf(c, line) == Relay.Payload(true, Some(p.id), Some(to))
  {
    hide Spells, HelloOf, CoupleOk;
    forall q, to' | Spells(c, line, q, to') ensures q == p && to' == to {
      OnlyItsHello(c, line, p, to, q, to');
    }
  }

  lemma HelloLine(c: Couple, p: Party, to: Id)
    requires CoupleOk(c) && Sends(c, p, to)
    ensures var codec, f := CodecOf(c), HelloOf(p, to);
            && codec.read(Relay.Framed(Printed(codec, f))) == Some(f)
            && Passable(codec, p.id, to, Printed(codec, f))
  {
    hide CodecOf, TextOfHello, ReadHello, HeadOf, HelloBytes, Relay.Framed, Relay.StripLineEnd, Printable, CoupleOk;
    var f, t := HelloOf(p, to), Octets(TextOfHello(c, p, to));
    var line := t + [Lines.LF];
    HelloIsBuilt(c, p, to);
    LineStrips(t);
    CodecApplied(c, f, line);
    CodecApplied(c, f, Relay.Framed(line));
    HelloIsRead(c, line, p, to);
    HelloIsRead(c, Relay.Framed(line), p, to);
  }

  /** For every two devices there are a printing of their hellos, by the texts the firmware builds, and a parsing that
      undo each other. */
  lemma TextsAreACodec(c: Couple)
    requires CoupleOk(c) && c.b.self.id in c.a.peers && c.a.self.id in c.b.peers
    ensures RelayedHandshake.HelloCodecOk(CodecOf(c), c.a, c.b.self.id)
    ensures RelayedHandshake.HelloCodecOk(CodecOf(c), c.b, c.a.self.id)
  {
    hide CodecOf, HelloOf, Printed, Relay.Framed, Passable, CoupleOk;
    forall to | to in c.a.peers
      ensures CodecOf(c).read(Relay.Framed(Printed(CodecOf(c), MakeHello(c.a, to)))) == Some(MakeHello(c.a, to))
    {
      HelloLine(c, c.a.self, to);
    }
    forall to | to in c.b.peers
      ensures CodecOf(c).read(Relay.Framed(Printed(CodecOf(c), MakeHello(c.b, to)))) == Some(MakeHello(c.b, to))
    {
      HelloLine(c, c.b.self, to);
    }
    HelloLine(c, c.a.self, c.b.self.id);
    HelloLine(c, c.b.self, c.a.self.id);
  }
}
