/** Exactly which frames a device acts on, and what handling one of them twice does. */
module Acceptance {
  import opened Bytes
  import opened Encoding
  import opened Crypto
  import opened Protocol
  import opened Device
  import opened Reinstall
  import opened Replay
  import opened Noise
  import CounterText

  /** handle_hello gets to its critical section exactly with what a provisioned peer signed for this device. */
  lemma HelloAcceptedIff(b: Boot, prim: Primitives, f: Frame)
    requires Provisioned(b, prim) && f.Hello?
    ensures CheckHello(b, prim, f).Ok? <==>
            && f.to == b.self.id
            && f.from in b.peers
            && |f.pub| == PUBLIC_BYTES && |f.nonce| == BOOT_NONCE_BYTES
            && prim.onCurve(f.pub)
            && f.sig == Signed(f.from, HelloBytes(f.from, b.self.id, f.pub, f.nonce))
  {
    hide TranscriptBytes, StrLess, HelloBytes;
  }

  lemma AnsweredHelloIsStale(b: Boot, prim: Primitives, s: State, f: Frame)
    requires s.rx == RxIdle && f.Hello?
    ensures var t := Settle(b, StepHello(b, prim, s, f));
            t.rx == RxIdle && (HelloEffectOn(b, prim, s, f).Some? ==> StaleHello(b, prim, t, f))
  {
    hide DeriveSession, VerifyHello;
    var e := HelloEffectOn(b, prim, s, f);
    if e.Some? {
      assert f.from in b.peers;
      var slot := AcceptHelloTouchesOneSlot(s.table, PeerOf(f), CheckHello(b, prim, f).value);
      hide CheckHello;
      assert f.from in e.value.table;
    }
  }

  lemma SettleKeepsInv(b: Boot, prim: Primitives, s: State)
    requires Inv(b, prim, s)
    ensures Inv(b, prim, Settle(b, s))
  {
    hide Inv;
    Device.SendsKeepInv(b, prim, s, [], true);
    RxMarkKeepsInv(b, prim, StepReply(b, s, true));
  }

  /** A hello handled and answered leaves nothing for a second copy to do: no counter moves, no reply leaves. */
  lemma HelloHandledTwice(b: Boot, prim: Primitives, s: State, f: Frame)
    requires Provisioned(b, prim) && Inv(b, prim, s) && s.rx == RxIdle && f.Hello?
    ensures var t := Settle(b, StepHello(b, prim, s, f)); StepHello(b, prim, t, f) == t
  {
    hide Inv, Provisioned, StepHello, Settle, StaleHello;
    var t := Settle(b, StepHello(b, prim, s, f));
    HelloKeepsInv(b, prim, s, f);
    SettleKeepsInv(b, prim, StepHello(b, prim, s, f));
    AnsweredHelloIsStale(b, prim, s, f);
    if HelloEffectOn(b, prim, s, f).Some? {
      StaleHelloDoesNothing(b, prim, t, f);
    } else {
      RejectedHelloDoesNothing(b, prim, s, f);
    }
  }

  lemma RejectedHelloDoesNothing(b: Boot, prim: Primitives, s: State, f: Frame)
    requires f.Hello? && HelloEffectOn(b, prim, s, f).None? && s.rx == RxIdle
    ensures StepHello(b, prim, s, f) == s && Settle(b, s) == s
  {
  }

  /** The frame is this text, with a counter past the window, as the sender of the current session seals it. */
  ghost predicate Genuine(b: Boot, s: State, f: Frame, c: u64, text: Bytes) {
    && f.Data?
    && f.to == b.self.id
    && f.from in s.table && s.table[f.from].established
    && f.sid == s.table[f.from].sid
    && CounterText.Spells(f.counter, c)
    && c > s.table[f.from].rxCounter
    && 0 < |text| <= b.maxMessage
    && EncodableId(f.from) && EncodableId(b.self.id)
    && f.sealed == Box(s.table[f.from].rx, NonceBytes(f.sid, c), AadBytes(f.from, b.self.id, f.sid, c), text)
  }

  lemma GenuineIsDelivered(b: Boot, s: State, f: Frame, c: u64, text: Bytes)
    requires s.rx == RxIdle && Genuine(b, s, f, c, text)
    ensures var slot, epoch := s.table[f.from], if f.from in s.epoch then s.epoch[f.from] else 0;
            Deliver(b, s, f) == s.(table := s.table[f.from := slot.(rxCounter := c)],
                                   deliveries := s.deliveries + [Delivery(epoch, f.from, slot.rx, slot.sid, c, text)])
  {
    CounterText.ParseIff(f.counter, c);
    hide CounterText.Parse, CounterText.Spells, NonceBytes, AadBytes;
  }

  lemma DeliveredIsGenuine(b: Boot, s: State, f: Frame)
    requires f.Data? && s.rx == RxIdle && Deliver(b, s, f) != s
    ensures CounterText.Parse(f.counter).Some? && f.sealed.Box?
    ensures Genuine(b, s, f, CounterText.Parse(f.counter).value, f.sealed.text)
  {
    hide CounterText.Parse, CounterText.Spells, NonceBytes, AadBytes;
    CounterText.ParseIff(f.counter, CounterText.Parse(f.counter).value);
  }

  /** handle_data, run from start to end, delivers exactly the genuine frames, and moves only that peer's window. */
  lemma DeliveredIffGenuine(b: Boot, s: State, f: Frame)
    requires f.Data? && s.rx == RxIdle
    ensures var t := Deliver(b, s, f);
            && (t.deliveries != s.deliveries <==> exists c, text :: Genuine(b, s, f, c, text))
            && (forall c, text | Genuine(b, s, f, c, text) ::
                  var slot, epoch := s.table[f.from], if f.from in s.epoch then s.epoch[f.from] else 0;
                  t == s.(table := s.table[f.from := slot.(rxCounter := c)],
                          deliveries := s.deliveries + [Delivery(epoch, f.from, slot.rx, slot.sid, c, text)]))
            && (t.deliveries == s.deliveries ==> t == s)
  {
    hide CounterText.Parse, Genuine, Deliver;
    forall c, text | Genuine(b, s, f, c, text)
      ensures f.from in s.table
      ensures var slot, epoch := s.table[f.from], if f.from in s.epoch then s.epoch[f.from] else 0;
              Deliver(b, s, f)
              == s.(table := s.table[f.from := slot.(rxCounter := c)],
                    deliveries := s.deliveries + [Delivery(epoch, f.from, slot.rx, slot.sid, c, text)])
    {
      GenuineHasSlot(b, s, f, c, text);
      GenuineIsDelivered(b, s, f, c, text);
    }
    if Deliver(b, s, f) != s {
      DeliveredIsGenuine(b, s, f);
    }
  }

  lemma GenuineHasSlot(b: Boot, s: State, f: Frame, c: u64, text: Bytes)
    requires Genuine(b, s, f, c, text)
    ensures f.Data? && f.from in s.table && f.sealed.Box? && f.sealed.key == s.table[f.from].rx
  {
  }

  /** Once another handshake is installed, nothing sealed under the keys of the former one is delivered any more. */
  lemma OldSessionIsDead(b: Boot, prim: Primitives, s: State, former: Party, f: Frame)
    requires Provisioned(b, prim) && Inv(b, prim, s) && s.rx == RxIdle
    requires Derivable(b, prim, former) && f.Data? && f.from == former.id
    requires f.sealed.Box? && f.sealed.key == Keys(b, prim, former).rx
    requires former.id in s.epoch && s.installs[s.epoch[former.id]] != former
    ensures Deliver(b, s, f) == s
  {
    hide DeriveSession, Provisioned, Genuine;
    CurrentHandshake(b, prim, s, former.id);
    DifferentHandshakeDifferentKey(b, prim, s, former);
    DeliveredIffGenuine(b, s, f);
    if c, text :| Genuine(b, s, f, c, text) {
      GenuineHasSlot(b, s, f, c, text);
    }
  }

  lemma DifferentHandshakeDifferentKey(b: Boot, prim: Primitives, s: State, former: Party)
    requires Provisioned(b, prim) && Inv(b, prim, s) && Derivable(b, prim, former)
    requires former.id in s.epoch && s.epoch[former.id] < |s.installs| && s.installs[s.epoch[former.id]] != former
    ensures Keys(b, prim, s.installs[s.epoch[former.id]]).rx != Keys(b, prim, former).rx
  {
    hide DeriveSession;
    var now := s.installs[s.epoch[former.id]];
    assert Derivable(b, prim, now);
    if Keys(b, prim, now).rx == Keys(b, prim, former).rx {
      KeyDeterminesPeer(prim, b.self, now, former);
    }
  }
}
