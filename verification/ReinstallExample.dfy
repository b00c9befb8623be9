/** A run that shows the hypothesis of DeviceSafety is needed: a relay replays an old hello after a newer one. */
module ReinstallExample {
  import opened Bytes
  import opened Encoding
  import opened Crypto
  import opened Sessions
  import opened Protocol
  import opened Device
  import opened DeviceSafety
  import opened Reinstall
  import opened Wrappers

  /** A hello is handled and answered, then one message is sent to its author. */
  function HelloThenSend(p: Party, to: Id, text: Bytes): seq<Event> {
    [RxHello(HelloOf(p, to)), RxReply(true), RxMark, TxAlloc(p.id, text), TxSeal(true)]
  }

  lemma RunOfFive(b: Boot, prim: Primitives, s: State, es: seq<Event>)
    requires |es| == 5
    ensures Run(b, prim, s, es)
            == Step(b, prim, Step(b, prim, Step(b, prim, Step(b, prim, Step(b, prim, s, es[0]), es[1]), es[2]), es[3]),
                    es[4])
  {
    hide Step;
    var s1 := Step(b, prim, s, es[0]);
    var s2 := Step(b, prim, s1, es[1]);
    var s3 := Step(b, prim, s2, es[2]);
    var s4 := Step(b, prim, s3, es[3]);
    assert Run(b, prim, s, es) == Run(b, prim, s1, es[1..]);
    assert Run(b, prim, s1, es[1..]) == Run(b, prim, s2, es[1..][1..]);
    assert Run(b, prim, s2, es[1..][1..]) == Run(b, prim, s3, es[1..][1..][1..]);
    assert Run(b, prim, s3, es[1..][1..][1..]) == Run(b, prim, s4, es[1..][1..][1..][1..]);
    assert es[1..][1..][1..][1..] == [es[4]];
  }

  lemma HelloThenSendSteps(b: Boot, prim: Primitives, s: State, p: Party, text: Bytes)
    ensures Run(b, prim, s, HelloThenSend(p, b.self.id, text))
            == StepSeal(b, StepAlloc(b, Settle(b, StepHello(b, prim, s, HelloOf(p, b.self.id))), p.id, text), true)
  {
    hide StepHello, StepReply, StepRxMark, StepAlloc, StepSeal;
    RunOfFive(b, prim, s, HelloThenSend(p, b.self.id, text));
  }

  ghost predicate Holds(s: State, p: Party) {
    p.id in s.table && s.table[p.id].peerPub == p.pub
  }

  ghost predicate Quiet(s: State, p: Id) {
    s.rx == RxIdle && s.tx == TxIdle && Open(s.table, p).Some?
  }

  lemma NewHelloInstalls(b: Boot, prim: Primitives, s: State, p: Party)
    requires Provisioned(b, prim) && Derivable(b, prim, p) && Open(s.table, p.id).Some? && !Holds(s, p)
    ensures Installing(b, prim, s, HelloOf(p, b.self.id)) == Some(p)
    ensures CheckHello(b, prim, HelloOf(p, b.self.id)) == Ok(Keys(b, prim, p))
  {
    assert PeerOf(HelloOf(p, b.self.id)) == p;
    hide DeriveSession;
    assert CheckHello(b, prim, HelloOf(p, b.self.id)) == Ok(Keys(b, prim, p));
  }

  lemma FirstHelloIsAnswered(b: Boot, prim: Primitives, s: State, p: Party)
    requires Provisioned(b, prim) && Derivable(b, prim, p) && Quiet(s, p.id) && !Holds(s, p)
    ensures var t := StepHello(b, prim, s, HelloOf(p, b.self.id));
            t.rx == Replying(p.id) && p.id in Settle(b, t).signedFor
  {
    NewHelloInstalls(b, prim, s, p);
    hide CheckHello;
  }

  /** Unless its handshake is the current one, a hello starts the counters of its session at zero. */
  lemma HelloThenSendStartsAtOne(b: Boot, prim: Primitives, s: State, p: Party, text: Bytes)
    requires Provisioned(b, prim) && Derivable(b, prim, p) && Quiet(s, p.id) && !Holds(s, p)
    requires 0 < |text| <= b.maxMessage
    ensures var t := Run(b, prim, s, HelloThenSend(p, b.self.id, text));
            && Quiet(t, p.id)
            && Holds(t, p)
            && CanSend(b, t, p.id) && t.table[p.id].txCounter == 1
            && t.seals == s.seals + [NthSeal(t, p.id, 0, text)]
            && t.seals[|s.seals|] == Seal(|s.installs|, p.id, Keys(b, prim, p).tx, Keys(b, prim, p).sid, 1, text)
            && t.installs == s.installs + [p]
            && p.id in t.signedFor
  {
    hide DeriveSession, StepHello, CheckHello, Installing, Run, HelloThenSend, StepAlloc, StepSeal;
    var f := HelloOf(p, b.self.id);
    HelloThenSendSteps(b, prim, s, p, text);
    NewHelloInstalls(b, prim, s, p);
    InstallingEffect(b, prim, s, f);
    FirstHelloIsAnswered(b, prim, s, p);
    SettleKeepsSessions(b, StepHello(b, prim, s, f), p.id);
    OneSend(b, Settle(b, StepHello(b, prim, s, f)), p.id, text);
  }

  /** Old hello, message, new hello, message, old hello again, message: the first and the third message carry
      the same key and the same nonce. */
  lemma ReplayedHelloRepeatsNonce(b: Boot, prim: Primitives, older: Party, newer: Party)
    requires Provisioned(b, prim) && Derivable(b, prim, older) && Derivable(b, prim, newer)
    requires older.id == newer.id && older.pub != newer.pub
    ensures var e1, e2 := HelloThenSend(older, b.self.id, [0x78]), HelloThenSend(newer, b.self.id, [0x78]);
            !NoncesUnique(Run(b, prim, INIT, e1 + e2 + e1).seals)
  {
    hide Run, HelloThenSend, DeriveSession;
    var e1, e2 := HelloThenSend(older, b.self.id, [0x78]), HelloThenSend(newer, b.self.id, [0x78]);
    HelloThenSendStartsAtOne(b, prim, INIT, older, [0x78]);
    var s1 := Run(b, prim, INIT, e1);
    HelloThenSendStartsAtOne(b, prim, s1, newer, [0x78]);
    var s2 := Run(b, prim, s1, e2);
    HelloThenSendStartsAtOne(b, prim, s2, older, [0x78]);
    RunAppend(b, prim, INIT, e1, e2);
    RunAppend(b, prim, INIT, e1 + e2, e1);
    var seals := Run(b, prim, s2, e1).seals;
    assert SameNonce(seals[0], seals[2]);
  }

  /** Such a boot exists. */
  lemma ExampleBoot() returns (b: Boot, prim: Primitives, older: Party, newer: Party)
    ensures Provisioned(b, prim) && Derivable(b, prim, older) && Derivable(b, prim, newer)
    ensures older.id == newer.id && older.pub != newer.pub
  {
    hide TranscriptBytes;
    older := Party([0x62], seq(PUBLIC_BYTES, i => 2 as byte), seq(BOOT_NONCE_BYTES, i => 2 as byte));
    newer := Party([0x62], seq(PUBLIC_BYTES, i => 3 as byte), seq(BOOT_NONCE_BYTES, i => 3 as byte));
    assert older.pub[0] == 2 && newer.pub[0] == 3;
    b := Boot(Party([0x61], older.pub, older.nonce), [[0x62]], 32);
    prim := Primitives((t, dh) => [0, 0, 0, 0, 0, 0, 0, 0], p => true);
  }
}
