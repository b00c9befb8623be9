/**
 * The duplicate test of handle_hello compares only with the handshake currently installed. When a handshake
 * that was replaced comes back, its counters restart. These lemmas say exactly what that costs.
 */
module Reinstall {
  import opened Bytes
  import opened Encoding
  import opened Crypto
  import opened Protocol
  import opened Device
  import opened Wrappers

  /** The handshake this hello would install, if it is accepted and not a duplicate. */
  function Installing(b: Boot, prim: Primitives, s: State, f: Frame): Option<Party> {
    match HelloEffectOn(b, prim, s, f)
    case None => None
    case Some(e) => if e.installed then Some(PeerOf(f)) else None
  }

  lemma InstallingEffect(b: Boot, prim: Primitives, s: State, f: Frame)
    requires Provisioned(b, prim) && s.rx == RxIdle && Installing(b, prim, s, f).Some?
    ensures f.Hello? && CheckHello(b, prim, f).Ok? && Derivable(b, prim, PeerOf(f))
    ensures var d, p, t := CheckHello(b, prim, f).value, f.from, StepHello(b, prim, s, f);
            && Keys(b, prim, PeerOf(f)) == d
            && p in t.table
            && t.table == s.table[p := Installed(t.table[p], PeerOf(f), d)]
            && t.installs == s.installs + [PeerOf(f)]
            && t.epoch == s.epoch[p := |s.installs|]
            && t.seals == s.seals && t.deliveries == s.deliveries && t.tx == s.tx
            && (t.rx == RxIdle || t.rx == Replying(p))
  {
    hide TranscriptBytes, StrLess;
    var slot := AcceptHelloTouchesOneSlot(s.table, PeerOf(f), CheckHello(b, prim, f).value);
  }

  lemma NotInstallingEffect(b: Boot, prim: Primitives, s: State, f: Frame)
    requires s.rx == RxIdle && Installing(b, prim, s, f).None?
    ensures var t := StepHello(b, prim, s, f);
            && (forall p | p in s.table :: p in t.table && t.table[p] == s.table[p])
            && t == s.(table := t.table, rx := t.rx)
            && (t.rx == RxIdle || t.rx == Replying(f.from))
  {
  }

  lemma BusyIgnoresHello(b: Boot, prim: Primitives, s: State, f: Frame)
    requires s.rx != RxIdle
    ensures StepHello(b, prim, s, f) == s
  {
  }

  lemma EpochsHaveSlots(b: Boot, prim: Primitives, s: State)
    requires Inv(b, prim, s)
    ensures forall p | p in s.epoch :: p in s.table
  {
  }

  // ---- Sending -----------------------------------------------------------

  /** n messages typed at the console, each sealed before the next. */
  function SendsTo(b: Boot, s: State, p: Id, n: nat): State {
    if n == 0 then s
    else StepSeal(b, StepAlloc(b, SendsTo(b, s, p, n - 1), p, [0x78]), true)
  }

  ghost predicate CanSend(b: Boot, s: State, p: Id) {
    && EncodableId(b.self.id) && EncodableId(p) && b.maxMessage > 0
    && s.tx == TxIdle
    && p in s.table && s.table[p].established
    && p in s.epoch
  }

  /** The seal of the n-th message from here on. */
  function NthSeal(s: State, p: Id, n: nat, text: Bytes): Seal
    requires p in s.table && p in s.epoch && s.table[p].txCounter + n <= U64_MAX
  {
    Seal(s.epoch[p], p, s.table[p].tx, s.table[p].sid, s.table[p].txCounter + n, text)
  }

  lemma OneSend(b: Boot, s: State, p: Id, text: Bytes)
    requires CanSend(b, s, p) && s.table[p].txCounter < U64_MAX && 0 < |text| <= b.maxMessage
    ensures StepSeal(b, StepAlloc(b, s, p, text), true)
            == s.(table := s.table[p := s.table[p].(txCounter := s.table[p].txCounter + 1)],
                  seals := s.seals + [NthSeal(s, p, 1, text)])
  {
  }

  lemma {:induction false} SendsCount(b: Boot, s: State, p: Id, n: nat)
    requires CanSend(b, s, p) && s.table[p].txCounter + n <= U64_MAX
    ensures var t := SendsTo(b, s, p, n);
            && CanSend(b, t, p)
            && t.epoch == s.epoch
            && t.table[p] == s.table[p].(txCounter := s.table[p].txCounter + n)
            && s.seals <= t.seals
            && (n > 0 ==> |t.seals| > |s.seals| && t.seals[|t.seals| - 1] == NthSeal(s, p, n, [0x78]))
  {
    hide StepAlloc, StepSeal;
    if n == 0 {
    } else {
      SendsCount(b, s, p, n - 1);
      OneSend(b, SendsTo(b, s, p, n - 1), p, [0x78]);
    }
  }

  lemma {:induction false} SendsKeepInv(b: Boot, prim: Primitives, s: State, p: Id, n: nat)
    requires Inv(b, prim, s)
    ensures Inv(b, prim, SendsTo(b, s, p, n))
  {
    if n == 0 {
    } else {
      SendsKeepInv(b, prim, s, p, n - 1);
      AllocKeepsInv(b, prim, SendsTo(b, s, p, n - 1), p, [0x78]);
      SealKeepsInv(b, prim, StepAlloc(b, SendsTo(b, s, p, n - 1), p, [0x78]), true);
    }
  }

  lemma {:induction false} SendsNeedASession(b: Boot, s: State, p: Id, n: nat)
    requires s.tx == TxIdle && (p in s.table ==> !s.table[p].established)
    ensures SendsTo(b, s, p, n) == s
  {
    if n == 0 {
    } else {
      SendsNeedASession(b, s, p, n - 1);
    }
  }

  /** However many messages follow, even past the last counter, they are sealed in the current epoch. */
  lemma {:induction false} SendsStayInEpoch(b: Boot, s: State, p: Id, n: nat)
    requires CanSend(b, s, p)
    ensures var t := SendsTo(b, s, p, n);
            && CanSend(b, t, p)
            && t.epoch == s.epoch
            && t.table[p].tx == s.table[p].tx
            && s.seals <= t.seals
            && (forall i | |s.seals| <= i < |t.seals| ::
                  t.seals[i].key == s.table[p].tx && t.seals[i].epoch == s.epoch[p])
  {
    if n == 0 {
    } else {
      SendsStayInEpoch(b, s, p, n - 1);
      var u := SendsTo(b, s, p, n - 1);
      if u.table[p].txCounter < U64_MAX {
        OneSend(b, u, p, [0x78]);
      }
    }
  }

  /** The console finishes what it was doing: a captured message is sealed, a hello that left is noted. */
  function ConsoleDone(b: Boot, s: State): State {
    StepTxMark(StepSeal(b, s, true))
  }

  lemma PendingSealSucceeds(b: Boot, prim: Primitives, s: State)
    requires Provisioned(b, prim) && Inv(b, prim, s) && s.tx.Sealing?
    ensures StepSeal(b, s, true) == s.(tx := TxIdle, seals := AllSeals(s))
  {
    hide DeriveSession;
    var r := s.tx.pending;
    assert AllSeals(s)[|s.seals|] == r;
    assert SealOk(b, prim, s.installs, AllSeals(s)[|s.seals|]);
    assert Derivable(b, prim, s.installs[r.epoch]);
  }

  lemma ConsoleDoneEffect(b: Boot, prim: Primitives, s: State)
    requires Provisioned(b, prim) && Inv(b, prim, s)
    ensures var t := ConsoleDone(b, s);
            && t == s.(tx := TxIdle, seals := AllSeals(s), table := t.table)
            && Inv(b, prim, t)
            && (forall p | p in s.table :: p in t.table && t.table[p] == s.table[p].(helloSent := t.table[p].helloSent))
            && (forall p | p in t.table && t.table[p].established :: p in s.table)
  {
    hide Inv, Encrypt, Provisioned;
    SealKeepsInv(b, prim, s, true);
    TxMarkKeepsInv(b, prim, StepSeal(b, s, true));
    if s.tx.Sealing? {
      PendingSealSucceeds(b, prim, s);
    }
  }

  // ---- Receiving ---------------------------------------------------------

  /** A data frame handled from start to end, with nothing in between. */
  function Deliver(b: Boot, s: State, g: Frame): State {
    StepOpen(b, StepData(b, s, g))
  }

  /** The rest of handle_hello: the reply leaves and is noted. */
  function Settle(b: Boot, s: State): State {
    StepRxMark(StepReply(b, s, true))
  }

  lemma SettleKeepsSessions(b: Boot, s: State, p: Id)
    requires p in s.table
    ensures var t := Settle(b, s);
            && p in t.table
            && t.table[p] == s.table[p].(helloSent := t.table[p].helloSent)
            && t == s.(table := t.table, rx := t.rx, signedFor := t.signedFor)
            && (!s.rx.Opening? ==> t.rx == RxIdle)
  {
    hide DeriveSession, Encrypt, Decrypt, TranscriptBytes, StrLess;
  }

  // ---- Runs --------------------------------------------------------------

  ghost predicate HelloFree(es: seq<Event>) {
    forall e | e in es :: !e.RxHello?
  }

  lemma {:induction false} RunAppend(b: Boot, prim: Primitives, s: State, es: seq<Event>, fs: seq<Event>)
    ensures Run(b, prim, s, es + fs) == Run(b, prim, Run(b, prim, s, es), fs)
    decreases |es|
  {
    hide Step;
    if |es| == 0 {
      assert es + fs == fs;
    } else {
      RunAppend(b, prim, Step(b, prim, s, es[0]), es[1..], fs);
      assert (es + fs)[1..] == es[1..] + fs;
    }
  }

  lemma RunOfPair(b: Boot, prim: Primitives, s: State, e: Event, f: Event)
    ensures Run(b, prim, s, [e, f]) == Step(b, prim, Step(b, prim, s, e), f)
  {
    hide Step;
    var t := Step(b, prim, s, e);
    assert Run(b, prim, s, [e, f]) == Run(b, prim, t, [f]) by { assert [e, f][1..] == [f]; }
    assert Run(b, prim, t, [f]) == Run(b, prim, Step(b, prim, t, f), []) by { assert [f][1..] == []; }
  }

  lemma CleanBefore(b: Boot, prim: Primitives, s: State, e: Event)
    requires Step(b, prim, s, e).clean
    ensures s.clean
  {
    hide Encrypt, Decrypt, CheckHello;
  }

  lemma {:induction false} CleanThroughout(b: Boot, prim: Primitives, s: State, es: seq<Event>)
    requires Run(b, prim, s, es).clean
    ensures s.clean
    decreases |es|
  {
    hide Step;
    if |es| == 0 {
    } else {
      CleanThroughout(b, prim, Step(b, prim, s, es[0]), es[1..]);
      CleanBefore(b, prim, s, es[0]);
    }
  }

  /** Installing a handshake of the past again is not clean. */
  lemma ReinstallIsNotClean(b: Boot, prim: Primitives, s: State, f: Frame)
    requires s.rx == RxIdle && Installing(b, prim, s, f).Some? && PeerOf(f) in s.installs
    ensures !StepHello(b, prim, s, f).clean
  {
  }
}
