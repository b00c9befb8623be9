/** The canonical byte strings of main/crypto_engine.c: what is hashed, signed and authenticated. */
module Encoding {
  import opened Bytes

  const DEVICE_ID_MAX: nat := 32
  const PUBLIC_BYTES: nat := 65
  const BOOT_NONCE_BYTES: nat := 16
  const SESSION_ID_BYTES: nat := 8
  const GCM_NONCE_BYTES: nat := 12
  const VERSION: byte := 1

  type Id = Bytes

  /** The ids append_id accepts. */
  predicate EncodableId(id: Id) {
    0 < |id| < DEVICE_ID_MAX
  }

  function EncodeId(id: Id): Bytes {
    [LowOctet(|id|)] + id
  }

  function HelloBytes(from: Id, to: Id, pub: Bytes, nonce: Bytes): Bytes {
    [VERSION] + (EncodeId(from) + (EncodeId(to) + (pub + nonce)))
  }

  /** One end of a handshake. */
  datatype Party = Party(id: Id, pub: Bytes, nonce: Bytes)

  function PartyBytes(p: Party): Bytes {
    EncodeId(p.id) + (p.pub + p.nonce)
  }

  function OrderedTranscript(low: Party, high: Party): Bytes {
    [VERSION] + (PartyBytes(low) + PartyBytes(high))
  }

  function TranscriptBytes(local: Party, peer: Party): Bytes {
    if StrLess(local.id, peer.id) then OrderedTranscript(local, peer) else OrderedTranscript(peer, local)
  }

  function AadBytes(from: Id, to: Id, sid: Bytes, counter: u64): Bytes {
    [VERSION] + (EncodeId(from) + (EncodeId(to) + (sid + BigEndian(counter, 8))))
  }

  function NonceBytes(sid: Bytes, counter: u64): Bytes
    requires |sid| >= 4
  {
    sid[..4] + BigEndian(counter, 8)
  }

  // ---- Injectivity -------------------------------------------------------

  lemma SplitAt(a: Bytes, s: Bytes, b: Bytes, t: Bytes)
    requires a + s == b + t
    requires |a| == |b|
    ensures a == b && s == t
  {
    assert a == (a + s)[..|a|];
    assert b == (b + t)[..|b|];
    assert s == (a + s)[|a|..];
    assert t == (b + t)[|b|..];
  }

  /** The length octet makes an encoded id self-delimiting, whatever follows it. */
  lemma EncodeIdPrefixFree(a: Id, s: Bytes, b: Id, t: Bytes)
    requires EncodableId(a) && EncodableId(b)
    requires EncodeId(a) + s == EncodeId(b) + t
    ensures a == b && s == t
  {
    assert (EncodeId(a) + s)[0] == LowOctet(|a|);
    assert (EncodeId(b) + t)[0] == LowOctet(|b|);
    SplitAt(EncodeId(a), s, EncodeId(b), t);
    SplitAt([LowOctet(|a|)], a, [LowOctet(|b|)], b);
  }

  ghost predicate WellFormedParty(p: Party) {
    && EncodableId(p.id)
    && NulFree(p.id)
    && |p.pub| == PUBLIC_BYTES
    && |p.nonce| == BOOT_NONCE_BYTES
  }

  lemma HelloInjective(from: Id, to: Id, pub: Bytes, nonce: Bytes,
                       from': Id, to': Id, pub': Bytes, nonce': Bytes)
    requires EncodableId(from) && EncodableId(to) && EncodableId(from') && EncodableId(to')
    requires |pub| == |pub'| == PUBLIC_BYTES
    requires HelloBytes(from, to, pub, nonce) == HelloBytes(from', to', pub', nonce')
    ensures from == from' && to == to' && pub == pub' && nonce == nonce'
  {
    SplitAt([VERSION], EncodeId(from) + (EncodeId(to) + (pub + nonce)),
            [VERSION], EncodeId(from') + (EncodeId(to') + (pub' + nonce')));
    EncodeIdPrefixFree(from, EncodeId(to) + (pub + nonce), from', EncodeId(to') + (pub' + nonce'));
    EncodeIdPrefixFree(to, pub + nonce, to', pub' + nonce');
    SplitAt(pub, nonce, pub', nonce');
  }

  lemma PartyPrefixFree(p: Party, s: Bytes, q: Party, t: Bytes)
    requires WellFormedParty(p) && WellFormedParty(q)
    requires PartyBytes(p) + s == PartyBytes(q) + t
    ensures p == q && s == t
  {
    assert EncodeId(p.id) + ((p.pub + p.nonce) + s) == PartyBytes(p) + s;
    assert EncodeId(q.id) + ((q.pub + q.nonce) + t) == PartyBytes(q) + t;
    EncodeIdPrefixFree(p.id, (p.pub + p.nonce) + s, q.id, (q.pub + q.nonce) + t);
    SplitAt(p.pub + p.nonce, s, q.pub + q.nonce, t);
    SplitAt(p.pub, p.nonce, q.pub, q.nonce);
  }

  lemma OrderedTranscriptInjective(p: Party, q: Party, p': Party, q': Party)
    requires WellFormedParty(p) && WellFormedParty(q) && WellFormedParty(p') && WellFormedParty(q')
    requires OrderedTranscript(p, q) == OrderedTranscript(p', q')
    ensures p == p' && q == q'
  {
    SplitAt([VERSION], PartyBytes(p) + PartyBytes(q), [VERSION], PartyBytes(p') + PartyBytes(q'));
    PartyPrefixFree(p, PartyBytes(q), p', PartyBytes(q'));
    assert PartyBytes(q) + [] == PartyBytes(q) && PartyBytes(q') + [] == PartyBytes(q');
    PartyPrefixFree(q, [], q', []);
  }

  /** A transcript determines the two ends it was built from, up to their order. */
  lemma TranscriptInjective(p: Party, q: Party, p': Party, q': Party)
    requires WellFormedParty(p) && WellFormedParty(q) && WellFormedParty(p') && WellFormedParty(q')
    requires TranscriptBytes(p, q) == TranscriptBytes(p', q')
    ensures (p == p' && q == q') || (p == q' && q == p')
  {
    var (l, h) := if StrLess(p.id, q.id) then (p, q) else (q, p);
    var (l', h') := if StrLess(p'.id, q'.id) then (p', q') else (q', p');
    OrderedTranscriptInjective(l, h, l', h');
  }

  /** Both ends of a handshake between different devices compute the same transcript. */
  lemma TranscriptSymmetric(p: Party, q: Party)
    requires NulFree(p.id) && NulFree(q.id) && p.id != q.id
    ensures TranscriptBytes(p, q) == TranscriptBytes(q, p)
  {
    StrLessIsStrictTotalOrder(p.id, q.id, p.id);
  }

  lemma AadInjective(from: Id, to: Id, sid: Bytes, c: u64, from': Id, to': Id, sid': Bytes, c': u64)
    requires EncodableId(from) && EncodableId(to) && EncodableId(from') && EncodableId(to')
    requires |sid| == |sid'|
    requires AadBytes(from, to, sid, c) == AadBytes(from', to', sid', c')
    ensures from == from' && to == to' && sid == sid' && c == c'
  {
    var s, s' := sid + BigEndian(c, 8), sid' + BigEndian(c', 8);
    SplitAt([VERSION], EncodeId(from) + (EncodeId(to) + s), [VERSION], EncodeId(from') + (EncodeId(to') + s'));
    EncodeIdPrefixFree(from, EncodeId(to) + s, from', EncodeId(to') + s');
    EncodeIdPrefixFree(to, s, to', s');
    SplitAt(sid, BigEndian(c, 8), sid', BigEndian(c', 8));
    CounterOctetsInjective(c, c');
  }

  /** Under one session id the GCM nonce is the counter in disguise. */
  lemma NonceInjective(sid: Bytes, c: u64, c': u64)
    requires |sid| >= 4
    requires NonceBytes(sid, c) == NonceBytes(sid, c')
    ensures c == c'
  {
    SplitAt(sid[..4], BigEndian(c, 8), sid[..4], BigEndian(c', 8));
    CounterOctetsInjective(c, c');
  }

  /** The three formats fit their buffers and, having disjoint length ranges, never coincide. */
  lemma FormatsFitAndAreDisjoint(p: Party, q: Party, from: Id, to: Id, pub: Bytes, nonce: Bytes,
                                 a: Id, b: Id, sid: Bytes, c: u64)
    requires WellFormedParty(p) && WellFormedParty(q)
    requires EncodableId(from) && EncodableId(to) && |pub| == PUBLIC_BYTES && |nonce| == BOOT_NONCE_BYTES
    requires EncodableId(a) && EncodableId(b) && |sid| == SESSION_ID_BYTES
    ensures 86 <= |HelloBytes(from, to, pub, nonce)| <= 146 < 192
    ensures 167 <= |TranscriptBytes(p, q)| <= 227 < 320
    ensures 21 <= |AadBytes(a, b, sid, c)| <= 81 < 128
    ensures HelloBytes(from, to, pub, nonce) != TranscriptBytes(p, q)
    ensures HelloBytes(from, to, pub, nonce) != AadBytes(a, b, sid, c)
    ensures TranscriptBytes(p, q) != AadBytes(a, b, sid, c)
  {
  }

  // ---- Layout ------------------------------------------------------------

  /** s holds part at an offset. */
  predicate At(s: Bytes, offset: nat, part: Bytes) {
    offset + |part| <= |s| && s[offset..offset + |part|] == part
  }

  lemma AtFront(a: Bytes, s: Bytes)
    ensures At(a + s, 0, a)
  {
  }

  lemma AtBehind(a: Bytes, s: Bytes, offset: nat, part: Bytes)
    requires At(s, offset, part)
    ensures At(a + s, |a| + offset, part)
  {
    assert (a + s)[|a| + offset..|a| + offset + |part|] == s[offset..offset + |part|];
  }

  /** Version 1, then for each id its length and its octets. */
  ghost predicate RouteAt(s: Bytes, from: Id, to: Id) {
    && |s| >= 3 + |from| + |to|
    && s[0] == 1
    && s[1] as int == |from| && At(s, 2, from)
    && s[2 + |from|] as int == |to| && At(s, 3 + |from|, to)
  }

  lemma RouteLayout(from: Id, to: Id, more: Bytes)
    requires EncodableId(from) && EncodableId(to)
    ensures var s := [VERSION] + (EncodeId(from) + (EncodeId(to) + more));
            && RouteAt(s, from, to)
            && |s| == 3 + |from| + |to| + |more|
            && s[3 + |from| + |to|..] == more
  {
    var s := [VERSION] + (EncodeId(from) + (EncodeId(to) + more));
    assert s[2..2 + |from|] == from;
    assert s[3 + |from|..3 + |from| + |to|] == to;
  }

  /** The octets of a hello: the route, the ephemeral key, the boot nonce. */
  lemma HelloLayout(from: Id, to: Id, pub: Bytes, nonce: Bytes)
    requires EncodableId(from) && EncodableId(to) && |pub| == PUBLIC_BYTES && |nonce| == BOOT_NONCE_BYTES
    ensures var s, n := HelloBytes(from, to, pub, nonce), 3 + |from| + |to|;
            |s| == n + 81 && RouteAt(s, from, to) && At(s, n, pub) && At(s, n + 65, nonce)
  {
    RouteLayout(from, to, pub + nonce);
    var s, n := HelloBytes(from, to, pub, nonce), 3 + |from| + |to|;
    assert s[n..n + 65] == s[n..][..65] && s[n + 65..n + 81] == s[n..][65..];
  }

  /** The octets of the associated data: the route, the session id, the counter with its high octet first. */
  lemma AadLayout(from: Id, to: Id, sid: Bytes, counter: u64)
    requires EncodableId(from) && EncodableId(to) && |sid| == SESSION_ID_BYTES
    ensures var s, n := AadBytes(from, to, sid, counter), 3 + |from| + |to|;
            && |s| == n + 16 && RouteAt(s, from, to) && At(s, n, sid)
            && FromBigEndian(s[n + 8..]) == counter
  {
    RouteLayout(from, to, sid + BigEndian(counter, 8));
    var s, n := AadBytes(from, to, sid, counter), 3 + |from| + |to|;
    assert s[n..n + 8] == s[n..][..8] && s[n + 8..] == s[n..][8..];
    U64FitsEightOctets(counter);
    BigEndianRoundTrip(counter, 8);
  }

  /** The GCM nonce: the first four octets of the session id, then the counter with its high octet first. */
  lemma NonceLayout(sid: Bytes, counter: u64)
    requires |sid| == SESSION_ID_BYTES
    ensures var s := NonceBytes(sid, counter);
            |s| == GCM_NONCE_BYTES && s[..4] == sid[..4] && FromBigEndian(s[4..]) == counter
  {
    assert NonceBytes(sid, counter)[4..] == BigEndian(counter, 8);
    U64FitsEightOctets(counter);
    BigEndianRoundTrip(counter, 8);
  }

  /** One end of a transcript at an offset: the length of its id, its id, its ephemeral key, its boot nonce. */
  ghost predicate PartyAt(s: Bytes, n: nat, p: Party) {
    && n < |s| && s[n] as int == |p.id|
    && At(s, n + 1, p.id) && At(s, n + 1 + |p.id|, p.pub) && At(s, n + 66 + |p.id|, p.nonce)
  }

  lemma PartyLayout(p: Party, more: Bytes)
    requires WellFormedParty(p)
    ensures PartyAt(PartyBytes(p) + more, 0, p) && |PartyBytes(p)| == 82 + |p.id|
  {
    var s, n := PartyBytes(p) + more, |p.id|;
    assert s[1..1 + n] == p.id;
    assert s[1 + n..66 + n] == p.pub;
    assert s[66 + n..82 + n] == p.nonce;
  }

  lemma PartyBehind(a: Bytes, s: Bytes, p: Party)
    requires WellFormedParty(p) && PartyAt(s, 0, p)
    ensures PartyAt(a + s, |a|, p)
  {
    AtBehind(a, s, 1, p.id);
    AtBehind(a, s, 1 + |p.id|, p.pub);
    AtBehind(a, s, 66 + |p.id|, p.nonce);
  }

  /** The octets of a transcript, at whichever end it is built: version 1, then the end whose id comes first in the
      dictionary order, then the other one. */
  lemma TranscriptLayout(p: Party, q: Party)
    requires WellFormedParty(p) && WellFormedParty(q) && Precedes(p.id, q.id)
    ensures TranscriptBytes(q, p) == TranscriptBytes(p, q)
    ensures var s := TranscriptBytes(p, q);
            |s| == 165 + |p.id| + |q.id| && s[0] == 1 && PartyAt(s, 1, p) && PartyAt(s, 83 + |p.id|, q)
  {
    hide OrderedTranscript, StrLess, Precedes, PartyAt;
    StrLessIsDictionaryOrder(p.id, q.id);
    StrLessIsStrictTotalOrder(p.id, q.id, p.id);
    OrderedLayout(p, q);
  }

  lemma OrderedLayout(p: Party, q: Party)
    requires WellFormedParty(p) && WellFormedParty(q)
    ensures var s := OrderedTranscript(p, q);
            |s| == 165 + |p.id| + |q.id| && s[0] == 1 && PartyAt(s, 1, p) && PartyAt(s, 83 + |p.id|, q)
  {
    hide PartyBytes, PartyAt;
    PartyLayout(p, PartyBytes(q));
    PartyLayout(q, []);
    assert PartyBytes(q) + [] == PartyBytes(q);
    PartyBehind([VERSION], PartyBytes(p) + PartyBytes(q), p);
    PartyBehind([VERSION] + PartyBytes(p), PartyBytes(q), q);
    assert ([VERSION] + PartyBytes(p)) + PartyBytes(q) == OrderedTranscript(p, q);
  }

  // ---- Ids the provisioning tools accept ---------------------------------

  predicate AlphaNumeric(c: byte) {
    0x30 <= c <= 0x39 || 0x41 <= c <= 0x5A || 0x61 <= c <= 0x7A
  }

  predicate IdTailChar(c: byte) {
    AlphaNumeric(c) || c == 0x5F || c == 0x2D
  }

  /** [A-Za-z0-9][A-Za-z0-9_-]{0,30}, matched against the whole string. */
  predicate ToolAcceptsId(id: Id) {
    && 1 <= |id| <= 31
    && AlphaNumeric(id[0])
    && forall i | 1 <= i < |id| :: IdTailChar(id[i])
  }

  lemma ToolIdsAreEncodable(id: Id)
    requires ToolAcceptsId(id)
    ensures EncodableId(id) && NulFree(id)
  {
    forall i | 0 <= i < |id| ensures id[i] != 0 {
      if i > 0 {
        assert IdTailChar(id[i]);
      }
    }
  }

  // ---- The encoders, writing into fixed buffers --------------------------

  /** append_bytes: all of data or nothing, never past the end of the buffer. */
  method AppendBytes(buffer: array<byte>, offset: nat, data: Bytes) returns (ok: bool, next: nat)
    requires offset <= buffer.Length
    modifies buffer
    ensures ok <==> offset + |data| <= buffer.Length
    ensures ok ==> next == offset + |data| && buffer[..next] == old(buffer[..offset]) + data
    ensures ok ==> buffer[next..] == old(buffer[offset..])[|data|..]
    ensures !ok ==> next == offset && buffer[..] == old(buffer[..])
  {
    if offset + |data| > buffer.Length {
      return false, offset;
    }
    forall i | 0 <= i < |data| {
      buffer[offset + i] := data[i];
    }
    return true, offset + |data|;
  }

  method AppendId(buffer: array<byte>, offset: nat, id: Id) returns (ok: bool, next: nat)
    requires offset <= buffer.Length
    modifies buffer
    ensures ok <==> 1 <= |id| <= 31 && offset + 1 + |id| <= buffer.Length
    ensures ok ==> next == offset + |EncodeId(id)| <= buffer.Length
    ensures ok ==> buffer[..next] == old(buffer[..offset]) + EncodeId(id)
    ensures next <= buffer.Length
  {
    if |id| == 0 || |id| >= DEVICE_ID_MAX {
      return false, offset;
    }
    ok, next := AppendBytes(buffer, offset, [|id| as byte]);
    if ok {
      ghost var head := buffer[..next];
      ok, next := AppendBytes(buffer, next, id);
    }
  }

  function RouteBytes(from: Id, to: Id): Bytes {
    [VERSION] + (EncodeId(from) + EncodeId(to))
  }

  /** The version octet and the two ids that open a hello and an AAD. */
  method AppendRoute(buffer: array<byte>, from: Id, to: Id) returns (ok: bool, next: nat)
    modifies buffer
    ensures ok <==> EncodableId(from) && EncodableId(to) && |RouteBytes(from, to)| <= buffer.Length
    ensures ok ==> next == |RouteBytes(from, to)| <= buffer.Length && buffer[..next] == RouteBytes(from, to)
    ensures next <= buffer.Length
  {
    ok, next := AppendBytes(buffer, 0, [VERSION]);
    if ok { ok, next := AppendId(buffer, next, from); }
    if ok { ok, next := AppendId(buffer, next, to); }
  }

  /** build_hello_hash up to the digest: fails on a bad id and on nothing else. */
  method BuildHello(from: Id, to: Id, pub: Bytes, nonce: Bytes) returns (ok: bool, canonical: Bytes)
    requires |pub| == PUBLIC_BYTES && |nonce| == BOOT_NONCE_BYTES
    ensures ok <==> EncodableId(from) && EncodableId(to)
    ensures ok ==> canonical == HelloBytes(from, to, pub, nonce)
  {
    var buffer := new byte[192];
    canonical := [];
    var offset;
    ok, offset := AppendRoute(buffer, from, to);
    if ok { ok, offset := AppendBytes(buffer, offset, pub); }
    if ok { ok, offset := AppendBytes(buffer, offset, nonce); }
    if ok {
      canonical := buffer[..offset];
      assert canonical == HelloBytes(from, to, pub, nonce);
    }
  }

  /** The id, key and nonce of one end, in the order build_transcript_hash appends them. */
  method AppendParty(buffer: array<byte>, offset: nat, p: Party) returns (ok: bool, next: nat)
    requires offset <= buffer.Length
    modifies buffer
    ensures ok <==> EncodableId(p.id) && offset + |PartyBytes(p)| <= buffer.Length
    ensures ok ==> next == offset + |PartyBytes(p)| && buffer[..next] == old(buffer[..offset]) + PartyBytes(p)
    ensures next <= buffer.Length
  {
    ok, next := AppendId(buffer, offset, p.id);
    if ok { ok, next := AppendBytes(buffer, next, p.pub); }
    if ok { ok, next := AppendBytes(buffer, next, p.nonce); }
  }

  lemma PartyLength(p: Party)
    ensures |PartyBytes(p)| == 1 + |p.id| + |p.pub| + |p.nonce|
  {
  }

  /** build_transcript_hash up to the digest. */
  method BuildTranscript(local: Party, peer: Party) returns (ok: bool, transcript: Bytes)
    requires |local.pub| == |peer.pub| == PUBLIC_BYTES
    requires |local.nonce| == |peer.nonce| == BOOT_NONCE_BYTES
    ensures ok <==> EncodableId(local.id) && EncodableId(peer.id)
    ensures ok ==> transcript == TranscriptBytes(local, peer)
  {
    hide PartyBytes, EncodeId;
    var localIsLow := StrLess(local.id, peer.id);
    hide StrLess;
    var low := if localIsLow then local else peer;
    var high := if localIsLow then peer else local;
    var buffer := new byte[320];
    transcript := [];
    var offset;
    ok, offset := AppendBytes(buffer, 0, [VERSION]);
    if ok { ok, offset := AppendParty(buffer, offset, low); }
    PartyLength(local);
    PartyLength(peer);
    if ok {
      assert buffer[..offset] == [VERSION] + PartyBytes(low);
      ok, offset := AppendParty(buffer, offset, high);
      if ok {
        transcript := buffer[..offset];
        assert transcript == OrderedTranscript(low, high);
      }
    }
  }

  /** build_aad: the byte loop stores the counter big-endian, then the fields are appended. */
  method BuildAad(from: Id, to: Id, sid: Bytes, counter: u64, aad: array<byte>)
    returns (ok: bool, length: nat)
    requires |sid| == SESSION_ID_BYTES
    modifies aad
    ensures ok <==> EncodableId(from) && EncodableId(to) && |AadBytes(from, to, sid, counter)| <= aad.Length
    ensures ok ==> length <= aad.Length && aad[..length] == AadBytes(from, to, sid, counter)
  {
    var counterBe := StoreBigEndian(counter);
    length := 0;
    ok, length := AppendRoute(aad, from, to);
    if ok { ok, length := AppendBytes(aad, length, sid); }
    if ok { ok, length := AppendBytes(aad, length, counterBe); }
    if ok {
      assert aad[..length] == AadBytes(from, to, sid, counter);
    }
  }

  method StoreBigEndian(counter: u64) returns (octets: Bytes)
    ensures octets == BigEndian(counter, 8)
  {
    var buffer := new byte[8];
    for i := 0 to 8
      invariant forall k | 0 <= k < i :: buffer[7 - k] == LowOctet(ShiftOctets(counter, k))
    {
      buffer[7 - i] := LowOctet(ShiftOctets(counter, i));
    }
    octets := buffer[..];
    forall k | 0 <= k < 8 ensures octets[k] == BigEndian(counter, 8)[k] {
      BigEndianAt(counter, 8, 7 - k);
      assert octets[7 - (7 - k)] == LowOctet(ShiftOctets(counter, 7 - k));
    }
  }

  /** build_gcm_nonce: four octets of session id, then the counter from the far end. */
  method BuildGcmNonce(sid: Bytes, counter: u64, nonce: array<byte>)
    requires |sid| == SESSION_ID_BYTES && nonce.Length == GCM_NONCE_BYTES
    modifies nonce
    ensures nonce[..] == NonceBytes(sid, counter)
  {
    forall i | 0 <= i < 4 {
      nonce[i] := sid[i];
    }
    for i := 0 to 8
      invariant forall k | 0 <= k < 4 :: nonce[k] == sid[k]
      invariant forall k | 0 <= k < i :: nonce[11 - k] == LowOctet(ShiftOctets(counter, k))
    {
      nonce[11 - i] := LowOctet(ShiftOctets(counter, i));
    }
    forall k | 4 <= k < 12 ensures nonce[k] == BigEndian(counter, 8)[k - 4] {
      BigEndianAt(counter, 8, 11 - k);
      assert nonce[11 - (11 - k)] == LowOctet(ShiftOctets(counter, 11 - k));
    }
  }
}
