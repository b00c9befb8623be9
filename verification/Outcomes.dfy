/**
 * What the three protocol operations do, told from the frame or the text and the table before the call alone: which
 * error each refuses with, and what the table is afterwards.
 */
module Outcomes {
  import opened Bytes
  import opened Encoding
  import opened Crypto
  import opened Sessions
  import opened Protocol
  import opened Device
  import opened Reinstall
  import opened Acceptance
  import opened Firmware
  import opened Wrappers
  import CounterText

  // ---- handle_hello ------------------------------------------------------

  /** The session a slot has, or a cleared one where there is none. */
  function SlotOf(m: Table, p: Id): Session {
    if p in m then m[p] else EMPTY_SESSION
  }

  /** The slot already holds the frame's handshake. */
  predicate HoldsHandshake(slot: Session, f: Frame)
    requires f.Hello?
  {
    slot.established && slot.peerPub == f.pub && slot.peerNonce == f.nonce
  }

  predicate HasRoom(m: Table, p: Id) {
    p in m || |m| < 8
  }

  /** The checks of handle_hello in their order, each with its error, and when a reply is due. */
  lemma HelloResults(b: Boot, prim: Primitives, s: State, f: Frame)
    requires Provisioned(b, prim) && Inv(b, prim, s) && f.Hello?
    ensures var r := HelloResult(b, prim, s.table, f);
            if f.to != b.self.id || |f.from| >= 32 then r == Err(InvalidArg)
            else if f.from !in b.peers then r == Err(NotFound)
            else if |f.pub| != 65 || |f.nonce| != 16 || f.sig == Undecodable then r == Err(InvalidSize)
            else if f.sig != Signed(f.from, HelloBytes(f.from, b.self.id, f.pub, f.nonce)) then r == Err(InvalidCrc)
            else if !prim.onCurve(f.pub) then r == Err(Failed)
            else if !HasRoom(s.table, f.from) then r == Err(NoMem)
            else r == Ok(!(HoldsHandshake(SlotOf(s.table, f.from), f) && SlotOf(s.table, f.from).helloSent))
  {
    hide TranscriptBytes, StrLess, HelloBytes;
    if CheckHello(b, prim, f).Ok? {
      SameHandshakeIff(b, prim, s, f);
      hide Inv, CheckHello, DeriveSession;
    }
  }

  /** With the invariant, the duplicate test is the comparison of the two peer values. */
  lemma SameHandshakeIff(b: Boot, prim: Primitives, s: State, f: Frame)
    requires Inv(b, prim, s) && f.Hello? && CheckHello(b, prim, f).Ok?
    ensures f.from in s.table ==>
              (Duplicate(s.table[f.from], PeerOf(f), CheckHello(b, prim, f).value)
               <==> HoldsHandshake(s.table[f.from], f))
  {
    hide TranscriptBytes, StrLess, VerifyHello;
    if f.from in s.table {
      assert SlotOk(b, prim, s.installs, s.epoch, f.from, s.table[f.from]);
    }
  }

  /** What an accepted hello leaves in the table: a session it already holds as it is; else the frame's values, the keys
      derived from them, and both counters at zero, with hello_sent as it was. No other slot changes. */
  lemma HelloOutcome(b: Boot, prim: Primitives, s: State, f: Frame)
    requires Provisioned(b, prim) && Inv(b, prim, s) && f.Hello? && s.rx == RxIdle
    ensures var t, r := StepHello(b, prim, s, f), HelloResult(b, prim, s.table, f);
            match r
            case Err(_) => t == s
            case Ok(due) =>
              && t.rx == (if due then Replying(f.from) else RxIdle)
              && (forall p | p != f.from ::
                    (p in t.table <==> p in s.table) && (p in s.table ==> t.table[p] == s.table[p]))
              && f.from in t.table
              && var before, later := SlotOf(s.table, f.from), t.table[f.from];
                 if HoldsHandshake(before, f) then later == before
                 else
                   && later.established && later.helloSent == before.helloSent
                   && later.peerPub == f.pub && later.peerNonce == f.nonce
                   && DeriveSession(prim, b.self, Party(f.from, f.pub, f.nonce))
                      == Some(Derived(later.tx, later.rx, later.sid))
                   && later.txCounter == 0 && later.rxCounter == 0
  {
    hide Inv, CheckHello, DeriveSession, Provisioned, HoldsHandshake;
    if CheckHello(b, prim, f).Ok? {
      SameHandshakeIff(b, prim, s, f);
      AcceptedDerives(b, prim, f);
      NothingHeld(f);
    }
  }

  lemma NothingHeld(f: Frame)
    requires f.Hello?
    ensures !HoldsHandshake(EMPTY_SESSION, f)
  {
  }

  lemma AcceptedDerives(b: Boot, prim: Primitives, f: Frame)
    requires f.Hello? && CheckHello(b, prim, f).Ok?
    ensures DeriveSession(prim, b.self, Party(f.from, f.pub, f.nonce)) == Some(CheckHello(b, prim, f).value)
  {
    hide DeriveSession, VerifyHello;
  }

  // ---- handle_data -------------------------------------------------------

  /** The checks of handle_data in their order, each with its error, and what it delivers. */
  lemma DataResults(b: Boot, m: Table, f: Frame)
    requires f.Data?
    ensures var r := MessageResult(b, m, f);
            if f.to != b.self.id || (forall c: u64 :: !CounterText.Spells(f.counter, c)) then r == Err(InvalidArg)
            else if |f.sid| != 8 || CiphertextLength(f.sealed) == 0 || CiphertextLength(f.sealed) > b.maxMessage
            then r == Err(InvalidSize)
            else
              exists c: u64 :: CounterText.Spells(f.counter, c) &&
                if f.from !in m || !m[f.from].established || m[f.from].sid != f.sid || c <= m[f.from].rxCounter
                then r == Err(InvalidState)
                else if !EncodableId(f.from) || !EncodableId(b.self.id) then r == Err(InvalidArg)
                else if exists text :: f.sealed == Box(m[f.from].rx, NonceBytes(f.sid, c),
                                                       AadBytes(f.from, b.self.id, f.sid, c), text)
                then r == Ok(f.sealed.text)
                else r == Err(InvalidCrc)
  {
    hide CounterText.Parse, CounterText.Spells, NonceBytes, AadBytes;
    match CounterText.Parse(f.counter)
    case None =>
      forall c: u64 ensures !CounterText.Spells(f.counter, c) {
        CounterText.ParseIff(f.counter, c);
      }
    case Some(c) =>
      CounterText.ParseIff(f.counter, c);
      assert CounterText.Spells(f.counter, c);
  }

  // ---- protocol_send_message ---------------------------------------------

  /** The errors of protocol_send_message in their order. */
  lemma SendResults(b: Boot, m: Table, to: Id, text: Bytes, libraryWorks: bool, transportTakes: bool)
    ensures var r := SendResult(b, m, to, text, libraryWorks, transportTakes);
            if |text| == 0 || |text| > b.maxMessage then r == Err(InvalidSize)
            else if to !in m || !m[to].established || m[to].txCounter == 0xFFFF_FFFF_FFFF_FFFF
            then r == Err(InvalidState)
            else if !EncodableId(b.self.id) || !EncodableId(to) then r == Err(InvalidArg)
            else if !libraryWorks || !transportTakes then r == Err(Failed)
            else r == Ok(())
  {
  }

  /** A call that gets as far as the counter uses it up, and changes nothing else in the table. */
  lemma SendOutcome(b: Boot, s: State, to: Id, text: Bytes, libraryWorks: bool)
    requires s.tx == TxIdle
    ensures var t := StepSeal(b, StepAlloc(b, s, to, text), libraryWorks);
            && t.tx == TxIdle
            && t.table == (if 0 < |text| <= b.maxMessage && to in s.table && s.table[to].established
                              && s.table[to].txCounter < 0xFFFF_FFFF_FFFF_FFFF
                           then s.table[to := s.table[to].(txCounter := s.table[to].txCounter + 1)] else s.table)
            && (|t.seals| > |s.seals| <==> CanSendNow(b, s.table, to, text) && libraryWorks)
            && (|t.seals| > |s.seals| ==>
                t.seals[|t.seals| - 1].text == text && t.seals[|t.seals| - 1].to == to
                && t.seals[|t.seals| - 1].counter == s.table[to].txCounter + 1
                && t.seals[|t.seals| - 1].key == s.table[to].tx && t.seals[|t.seals| - 1].sid == s.table[to].sid)
  {
    hide NonceBytes, AadBytes;
  }

  /** What one device sends, the peer with the mirrored session and a window that is not past it delivers, exactly. */
  lemma SentFrameIsDelivered(x: Boot, slot: Session, y: Boot, s: State, text: Bytes)
    requires s.rx == RxIdle && slot.txCounter < U64_MAX
    requires EncodableId(x.self.id) && EncodableId(y.self.id) && 0 < |text| <= y.maxMessage
    requires x.self.id in s.table && s.table[x.self.id].established
    requires s.table[x.self.id].rx == slot.tx && s.table[x.self.id].sid == slot.sid
    requires s.table[x.self.id].rxCounter <= slot.txCounter
    ensures var p, c := x.self.id, slot.txCounter + 1;
            var epoch := if p in s.epoch then s.epoch[p] else 0;
            Deliver(y, s, SentFrame(x, slot, y.self.id, text))
            == s.(table := s.table[p := s.table[p].(rxCounter := c)],
                  deliveries := s.deliveries + [Delivery(epoch, p, slot.tx, slot.sid, c, text)])
  {
    hide Deliver, CounterText.Parse, CounterText.Print, NonceBytes, AadBytes;
    var c: u64 := slot.txCounter + 1;
    CounterText.CounterRoundTrip(c);
    CounterText.ParseIff(CounterText.Print(c), c);
    hide CounterText.Spells;
    GenuineIsDelivered(y, s, SentFrame(x, slot, y.self.id, text), c, text);
  }
}
