/** Exactly when a boot can seal two messages under one key and one nonce. */
module NonceReuse {
  import opened Bytes
  import opened Encoding
  import opened Crypto
  import opened Sessions
  import opened Protocol
  import opened Device
  import opened DeviceSafety
  import opened Reinstall

  /** The hello replaces the current handshake by one under whose transmit key a message was already sealed, or
      is about to be sealed with the key the console has captured. */
  ghost predicate RestartsUsedKey(b: Boot, prim: Primitives, s: State, f: Frame) {
    && f.Hello? && Installing(b, prim, s, f).Some?
    && exists i | 0 <= i < |AllSeals(s)| :: AllSeals(s)[i].key == CheckHello(b, prim, f).value.tx
  }

  ghost predicate Restarts(b: Boot, prim: Primitives, s: State, e: Event) {
    e.RxHello? && s.rx == RxIdle && RestartsUsedKey(b, prim, s, e.hello)
  }

  /** No hello of the run restarts the counter of a key that has been used. */
  ghost predicate RestartFree(b: Boot, prim: Primitives, s: State, es: seq<Event>)
    decreases |es|
  {
    |es| == 0 || (!Restarts(b, prim, s, es[0]) && RestartFree(b, prim, Step(b, prim, s, es[0]), es[1..]))
  }

  ghost predicate KeyHasEpoch(rs: seq<Seal>, key: Key, epoch: nat) {
    forall i | 0 <= i < |rs| && rs[i].key == key :: rs[i].epoch == epoch
  }

  /** Every key was used in one session only, and the key of a current session in no other. */
  ghost predicate Named(s: State) {
    && KeyNamesEpoch(AllSeals(s))
    && forall p | p in s.epoch && p in s.table :: KeyHasEpoch(AllSeals(s), s.table[p].tx, s.epoch[p])
  }

  // ---- What keeps keys to their sessions ---------------------------------

  /** Nothing sealed that was not sealed before, and the same keys in the same sessions. */
  ghost predicate SameKeys(s: State, t: State) {
    && AllSeals(t) <= AllSeals(s)
    && t.epoch == s.epoch
    && forall p | p in s.epoch && p in t.table :: p in s.table && t.table[p].tx == s.table[p].tx
  }

  lemma SameKeysStayNamed(s: State, t: State)
    requires Named(s) && SameKeys(s, t)
    ensures Named(t)
  {
    var rs, ts := AllSeals(s), AllSeals(t);
    assert forall i | 0 <= i < |ts| :: ts[i] == rs[i];
    forall p | p in t.epoch && p in t.table ensures KeyHasEpoch(ts, t.table[p].tx, t.epoch[p]) {
      assert KeyHasEpoch(rs, s.table[p].tx, s.epoch[p]);
    }
  }

  lemma HelloStaysNamed(b: Boot, prim: Primitives, s: State, f: Frame)
    requires Provisioned(b, prim) && Inv(b, prim, s) && Named(s) && !Restarts(b, prim, s, RxHello(f))
    ensures Named(StepHello(b, prim, s, f))
  {
    hide DeriveSession, CheckHello, StepHello, Installing;
    var t := StepHello(b, prim, s, f);
    if s.rx != RxIdle {
      BusyIgnoresHello(b, prim, s, f);
    } else if Installing(b, prim, s, f).None? {
      EpochsHaveSlots(b, prim, s);
      NotInstallingEffect(b, prim, s, f);
      hide Named;
      SameKeysStayNamed(s, t);
    } else {
      InstallingEffect(b, prim, s, f);
      hide Inv;
      var rs := AllSeals(s);
      assert AllSeals(t) == rs;
      forall p | p in t.epoch && p in t.table ensures KeyHasEpoch(rs, t.table[p].tx, t.epoch[p]) {
        if p != f.from {
          assert KeyHasEpoch(rs, s.table[p].tx, s.epoch[p]);
        }
      }
    }
  }

  /** Two current sessions with one transmit key are one session. */
  lemma CurrentKeysDiffer(b: Boot, prim: Primitives, s: State, p: Id, q: Id)
    requires Provisioned(b, prim) && Inv(b, prim, s)
    requires p in s.epoch && q in s.epoch && p in s.table && q in s.table && s.table[p].tx == s.table[q].tx
    ensures p == q
  {
    hide DeriveSession, Provisioned;
    assert SlotOk(b, prim, s.installs, s.epoch, p, s.table[p]);
    assert SlotOk(b, prim, s.installs, s.epoch, q, s.table[q]);
    SameKeySameParty(b, prim, s.installs, s.epoch[p], s.epoch[q]);
  }

  /** One more message in the current session of a peer. */
  lemma OneMoreStaysNamed(s: State, t: State, to: Id, r: Seal)
    requires Named(s) && to in s.epoch && to in s.table
    requires r.key == s.table[to].tx && r.epoch == s.epoch[to]
    requires forall p | p in s.epoch && p in s.table && s.table[p].tx == r.key :: p == to
    requires AllSeals(t) == AllSeals(s) + [r] && t.epoch == s.epoch
    requires t.table.Keys == s.table.Keys && forall p | p in s.table :: t.table[p].tx == s.table[p].tx
    ensures Named(t)
  {
    var rs := AllSeals(s);
    assert KeyHasEpoch(rs, s.table[to].tx, s.epoch[to]);
    forall p | p in t.epoch && p in t.table ensures KeyHasEpoch(rs + [r], t.table[p].tx, t.epoch[p]) {
      assert KeyHasEpoch(rs, s.table[p].tx, s.epoch[p]);
    }
  }

  lemma AllocStaysNamed(b: Boot, prim: Primitives, s: State, to: Id, text: Bytes)
    requires Provisioned(b, prim) && Inv(b, prim, s) && Named(s)
    ensures Named(StepAlloc(b, s, to, text))
  {
    hide DeriveSession, Named;
    var t := StepAlloc(b, s, to, text);
    if t != s {
      assert SlotOk(b, prim, s.installs, s.epoch, to, s.table[to]);
      forall p | p in s.epoch && p in s.table && s.table[p].tx == s.table[to].tx ensures p == to {
        CurrentKeysDiffer(b, prim, s, p, to);
      }
      hide Inv;
      OneMoreStaysNamed(s, t, to, t.tx.pending);
    }
  }

  /** Every other event seals nothing new and changes no key. */
  lemma OthersKeepKeys(b: Boot, prim: Primitives, s: State, e: Event)
    requires !e.RxHello? && !e.TxAlloc? && (forall p | p in s.epoch :: p in s.table)
    ensures SameKeys(s, Step(b, prim, s, e))
  {
    hide SameKeys, Step;
    if AtConsole(e) {
      ConsoleKeepsKeys(b, prim, s, e);
    } else {
      ReceiverKeepsKeys(b, prim, s, e);
    }
  }

  lemma ConsoleKeepsKeys(b: Boot, prim: Primitives, s: State, e: Event)
    requires AtConsole(e) && !e.TxAlloc? && (forall p | p in s.epoch :: p in s.table)
    ensures SameKeys(s, Step(b, prim, s, e))
  {
    hide StepHello, StepReply, StepRxMark, StepData, StepOpen, StepAlloc, Encrypt, MarkHelloSent;
    MarksKeepKeys(s.table, if s.tx.TxMarking? then s.tx.peer else []);
  }

  lemma ReceiverKeepsKeys(b: Boot, prim: Primitives, s: State, e: Event)
    requires !AtConsole(e) && !e.RxHello? && (forall p | p in s.epoch :: p in s.table)
    ensures SameKeys(s, Step(b, prim, s, e))
  {
    hide SameKeys, StepHello, StepTxHello, StepTxMark, StepAlloc, StepSeal, StepOpen, StepReply, StepRxMark, StepData;
    match e
    case RxOpen => OpenKeepsKeys(b, s);
    case RxMark => MarkKeepsKeys(s);
    case RxReply(sent) => ReplyKeepsKeys(b, s, sent);
    case RxData(f) => DataKeepsKeys(b, s, f);
  }

  lemma MarkKeepsKeys(s: State)
    requires forall p | p in s.epoch :: p in s.table
    ensures SameKeys(s, StepRxMark(s))
  {
    hide MarkHelloSent;
    MarksKeepKeys(s.table, if s.rx.RxMarking? then s.rx.peer else []);
  }

  lemma ReplyKeepsKeys(b: Boot, s: State, sent: bool)
    requires forall p | p in s.epoch :: p in s.table
    ensures SameKeys(s, StepReply(b, s, sent))
  {
  }

  lemma DataKeepsKeys(b: Boot, s: State, f: Frame)
    requires forall p | p in s.epoch :: p in s.table
    ensures SameKeys(s, StepData(b, s, f))
  {
    hide CheckData;
  }

  lemma OpenKeepsKeys(b: Boot, s: State)
    requires forall p | p in s.epoch :: p in s.table
    ensures SameKeys(s, StepOpen(b, s))
  {
    hide Decrypt, AdvanceWindow;
    WindowsKeepKeys(s.table, if s.rx.Opening? then s.rx.from else [], if s.rx.Opening? then s.rx.counter else 0);
  }

  lemma MarksKeepKeys(m: Table, q: Id)
    ensures forall p | p in m :: p in MarkHelloSent(m, q) && MarkHelloSent(m, q)[p].tx == m[p].tx
  {
  }

  lemma WindowsKeepKeys(m: Table, q: Id, counter: u64)
    ensures forall p | p in m :: p in AdvanceWindow(m, q, counter) && AdvanceWindow(m, q, counter)[p].tx == m[p].tx
  {
  }

  lemma StepStaysNamed(b: Boot, prim: Primitives, s: State, e: Event)
    requires Provisioned(b, prim) && Inv(b, prim, s) && Named(s) && !Restarts(b, prim, s, e)
    ensures Named(Step(b, prim, s, e))
  {
    hide Named, Restarts, SameKeys, StepHello, StepAlloc, Provisioned;
    match e
    case RxHello(f) => HelloStaysNamed(b, prim, s, f);
    case TxAlloc(to, text) => AllocStaysNamed(b, prim, s, to, text);
    case _ =>
      EpochsHaveSlots(b, prim, s);
      hide Inv, Step;
      OthersKeepKeys(b, prim, s, e);
      SameKeysStayNamed(s, Step(b, prim, s, e));
  }

  lemma {:induction false} RunStaysNamed(b: Boot, prim: Primitives, s: State, es: seq<Event>)
    requires Provisioned(b, prim) && Inv(b, prim, s) && Named(s) && RestartFree(b, prim, s, es)
    ensures Inv(b, prim, Run(b, prim, s, es)) && Named(Run(b, prim, s, es))
    decreases |es|
  {
    hide Inv, Named, Restarts, Step;
    if |es| == 0 {
    } else {
      StepKeepsInv(b, prim, s, es[0]);
      StepStaysNamed(b, prim, s, es[0]);
      RunStaysNamed(b, prim, Step(b, prim, s, es[0]), es[1..]);
    }
  }

  lemma NamedMeansUnique(b: Boot, prim: Primitives, s: State)
    requires Inv(b, prim, s) && Named(s)
    ensures NoncesUnique(AllSeals(s))
  {
    hide DeriveSession;
    EpochKeysMakeNoncesUnique(b, prim, s.installs, AllSeals(s));
  }

  lemma {:induction false} HelloFreeIsRestartFree(b: Boot, prim: Primitives, s: State, es: seq<Event>)
    requires HelloFree(es)
    ensures RestartFree(b, prim, s, es)
    decreases |es|
  {
    hide Step;
    if |es| == 0 {
    } else {
      assert es[0] in es;
      HelloFreeIsRestartFree(b, prim, Step(b, prim, s, es[0]), es[1..]);
    }
  }

  // ---- A restart leads to a repeated nonce --------------------------------

  lemma RestartedCounterCatchesUp(b: Boot, t: State, p: Id, i: nat)
    requires CanSend(b, t, p) && t.table[p].txCounter == 0 && i < |t.seals|
    requires t.seals[i].key == t.table[p].tx && t.seals[i].sid == t.table[p].sid && t.seals[i].counter > 0
    ensures !NoncesUnique(SendsTo(b, t, p, t.seals[i].counter).seals)
  {
    hide SendsTo;
    SendsCount(b, t, p, t.seals[i].counter);
    var seals := SendsTo(b, t, p, t.seals[i].counter).seals;
    assert seals[i] == t.seals[i];
    assert SameNonce(seals[i], seals[|seals| - 1]);
  }

  lemma SealUnderKey(b: Boot, prim: Primitives, s: State, i: nat, peer: Party)
    requires Provisioned(b, prim) && Inv(b, prim, s) && i < |AllSeals(s)|
    requires Derivable(b, prim, peer) && AllSeals(s)[i].key == Keys(b, prim, peer).tx
    ensures AllSeals(s)[i].sid == Keys(b, prim, peer).sid && AllSeals(s)[i].counter > 0
    ensures peer in s.installs
  {
    hide DeriveSession;
    assert SealOk(b, prim, s.installs, AllSeals(s)[i]);
    KeyDeterminesPeer(prim, b.self, s.installs[AllSeals(s)[i].epoch], peer);
  }

  /** After the hello the console finishes what it was doing and sends to the hello's author until the counter of
      an old message comes again. */
  lemma RestartRepeatsNonce(b: Boot, prim: Primitives, s: State, f: Frame) returns (n: nat)
    requires Provisioned(b, prim) && Inv(b, prim, s) && s.rx == RxIdle && RestartsUsedKey(b, prim, s, f)
    ensures !NoncesUnique(SendsTo(b, ConsoleDone(b, StepHello(b, prim, s, f)), f.from, n).seals)
  {
    hide DeriveSession, StepHello, CheckHello, SendsTo, Installing, NoncesUnique, ConsoleDone, Inv;
    var t := StepHello(b, prim, s, f);
    InstallingEffect(b, prim, s, f);
    HelloKeepsInv(b, prim, s, f);
    ConsoleDoneEffect(b, prim, t);
    assert AllSeals(t) == AllSeals(s);
    var i :| 0 <= i < |AllSeals(s)| && AllSeals(s)[i].key == CheckHello(b, prim, f).value.tx;
    SealUnderKey(b, prim, s, i, PeerOf(f));
    n := AllSeals(s)[i].counter;
    RestartedCounterCatchesUp(b, ConsoleDone(b, t), f.from, i);
  }

  /** Those sends as events. */
  function SendEvents(p: Id, n: nat): seq<Event> {
    if n == 0 then [TxSeal(true), TxMark] else SendEvents(p, n - 1) + [TxAlloc(p, [0x78]), TxSeal(true)]
  }

  lemma {:induction false} SendEventsRun(b: Boot, prim: Primitives, s: State, p: Id, n: nat)
    ensures Run(b, prim, s, SendEvents(p, n)) == SendsTo(b, ConsoleDone(b, s), p, n)
    ensures HelloFree(SendEvents(p, n))
  {
    hide Run, StepSeal, StepTxMark, StepAlloc;
    if n == 0 {
      RunOfPair(b, prim, s, TxSeal(true), TxMark);
    } else {
      SendEventsRun(b, prim, s, p, n - 1);
      var t := SendsTo(b, ConsoleDone(b, s), p, n - 1);
      RunAppend(b, prim, s, SendEvents(p, n - 1), [TxAlloc(p, [0x78]), TxSeal(true)]);
      RunOfPair(b, prim, t, TxAlloc(p, [0x78]), TxSeal(true));
    }
  }

  lemma RestartLeadsToReuse(b: Boot, prim: Primitives, s: State, f: Frame) returns (fs: seq<Event>)
    requires Provisioned(b, prim) && Inv(b, prim, s) && s.rx == RxIdle && RestartsUsedKey(b, prim, s, f)
    ensures HelloFree(fs) && !NoncesUnique(AllSeals(Run(b, prim, StepHello(b, prim, s, f), fs)))
  {
    hide Run, StepHello, SendsTo, ConsoleDone, SendEvents, RestartsUsedKey, HelloFree, Inv;
    var n := RestartRepeatsNonce(b, prim, s, f);
    fs := SendEvents(f.from, n);
    var t := Run(b, prim, StepHello(b, prim, s, f), fs);
    SendEventsRun(b, prim, StepHello(b, prim, s, f), f.from, n);
    var i, j :| 0 <= i < j < |t.seals| && SameNonce(t.seals[i], t.seals[j]);
    assert AllSeals(t)[i] == t.seals[i] && AllSeals(t)[j] == t.seals[j];
  }

  // ---- The exact condition -----------------------------------------------

  /** As long as every key has been kept to its session, whatever the console is in the middle of: a hello opens
      the way to a repeated (key, nonce) pair, along some run without a further hello, if and only if it restarts the
      counter of a key that has sealed something or been captured. */
  lemma NonceReuseIffRestart(b: Boot, prim: Primitives, s: State, f: Frame)
    requires Provisioned(b, prim) && Inv(b, prim, s) && Named(s) && s.rx == RxIdle
    ensures (exists fs | HelloFree(fs) :: !NoncesUnique(AllSeals(Run(b, prim, StepHello(b, prim, s, f), fs))))
            <==> RestartsUsedKey(b, prim, s, f)
  {
    hide RestartsUsedKey, StepHello, NoncesUnique, Inv, Named, HelloFree, Run;
    if RestartsUsedKey(b, prim, s, f) {
      var fs := RestartLeadsToReuse(b, prim, s, f);
    } else {
      HelloKeepsInv(b, prim, s, f);
      HelloStaysNamed(b, prim, s, f);
      forall fs | HelloFree(fs) ensures NoncesUnique(AllSeals(Run(b, prim, StepHello(b, prim, s, f), fs))) {
        HelloFreeIsRestartFree(b, prim, StepHello(b, prim, s, f), fs);
        RunStaysNamed(b, prim, StepHello(b, prim, s, f), fs);
        NamedMeansUnique(b, prim, Run(b, prim, StepHello(b, prim, s, f), fs));
      }
    }
  }

  /** No boot in which no hello restarts a used key ever repeats a nonce, whatever its interleaving. */
  lemma RestartFreeRunsHaveUniqueNonces(b: Boot, prim: Primitives, es: seq<Event>)
    requires Provisioned(b, prim) && RestartFree(b, prim, INIT, es)
    ensures NoncesUnique(AllSeals(Run(b, prim, INIT, es)))
  {
    hide Run, RestartFree;
    RunStaysNamed(b, prim, INIT, es);
    NamedMeansUnique(b, prim, Run(b, prim, INIT, es));
  }

  lemma {:induction false} RestartFreeAppend(b: Boot, prim: Primitives, s: State, es: seq<Event>, i: nat,
                                             fs: seq<Event>)
    requires RestartFree(b, prim, s, es) && i <= |es| && HelloFree(fs)
    ensures RestartFree(b, prim, s, es[..i] + fs)
    decreases i
  {
    hide Step, Restarts, HelloFree;
    if i == 0 {
      assert es[..i] + fs == fs;
      HelloFreeIsRestartFree(b, prim, s, fs);
    } else {
      RestartFreeAppend(b, prim, Step(b, prim, s, es[0]), es[1..], i - 1, fs);
      assert (es[..i] + fs)[1..] == es[1..][..i - 1] + fs;
      assert (es[..i] + fs)[0] == es[0];
    }
  }

  /** The first restart of a run opens a way to a repeated nonce. */
  lemma {:induction false} FirstRestart(b: Boot, prim: Primitives, s: State, es: seq<Event>)
    returns (i: nat, fs: seq<Event>)
    requires Provisioned(b, prim) && Inv(b, prim, s) && Named(s) && !RestartFree(b, prim, s, es)
    ensures i <= |es| && HelloFree(fs) && !NoncesUnique(AllSeals(Run(b, prim, s, es[..i] + fs)))
    decreases |es|
  {
    hide Inv, Named, NoncesUnique, HelloFree, RestartsUsedKey, StepHello;
    var t := Step(b, prim, s, es[0]);
    if Restarts(b, prim, s, es[0]) {
      fs := RestartLeadsToReuse(b, prim, s, es[0].hello);
      i := 1;
      assert t == StepHello(b, prim, s, es[0].hello);
      hide Step;
      assert (es[..1] + fs)[1..] == fs && (es[..1] + fs)[0] == es[0];
    } else {
      hide Step, Restarts;
      StepKeepsInv(b, prim, s, es[0]);
      StepStaysNamed(b, prim, s, es[0]);
      i, fs := FirstRestart(b, prim, t, es[1..]);
      i := i + 1;
      assert (es[..i] + fs)[1..] == es[1..][..i - 1] + fs && (es[..i] + fs)[0] == es[0];
    }
  }

  /** The exact condition for a whole boot: no hello of it restarts a used key if and only if at no point of it the
      device could go on, without a further hello, to repeat a (key, nonce) pair. */
  lemma NonceSafetyIff(b: Boot, prim: Primitives, es: seq<Event>)
    requires Provisioned(b, prim)
    ensures RestartFree(b, prim, INIT, es) <==>
            forall i, fs | 0 <= i <= |es| && HelloFree(fs) :: NoncesUnique(AllSeals(Run(b, prim, INIT, es[..i] + fs)))
  {
    hide RestartFree, HelloFree, NoncesUnique, Run, Inv, Named;
    if RestartFree(b, prim, INIT, es) {
      forall i, fs | 0 <= i <= |es| && HelloFree(fs)
        ensures NoncesUnique(AllSeals(Run(b, prim, INIT, es[..i] + fs)))
      {
        RestartFreeAppend(b, prim, INIT, es, i, fs);
        RestartFreeRunsHaveUniqueNonces(b, prim, es[..i] + fs);
      }
    } else {
      InitIsNamed(b, prim);
      var i, fs := FirstRestart(b, prim, INIT, es);
    }
  }

  lemma InitIsNamed(b: Boot, prim: Primitives)
    ensures Inv(b, prim, INIT) && Named(INIT)
  {
  }

  // ---- Boots that install nothing twice ----------------------------------

  lemma RestartReinstalls(b: Boot, prim: Primitives, s: State, f: Frame)
    requires Provisioned(b, prim) && Inv(b, prim, s) && s.rx == RxIdle && RestartsUsedKey(b, prim, s, f)
    ensures PeerOf(f) in s.installs && Installing(b, prim, s, f).Some?
  {
    hide DeriveSession, CheckHello, StepHello, Installing;
    InstallingEffect(b, prim, s, f);
    var i :| 0 <= i < |AllSeals(s)| && AllSeals(s)[i].key == CheckHello(b, prim, f).value.tx;
    hide Inv, Derivable;
    SealUnderKey(b, prim, s, i, PeerOf(f));
  }

  lemma {:induction false} CleanIsRestartFree(b: Boot, prim: Primitives, s: State, es: seq<Event>)
    requires Provisioned(b, prim) && Inv(b, prim, s) && Run(b, prim, s, es).clean
    ensures RestartFree(b, prim, s, es)
    decreases |es|
  {
    hide Inv, StepHello, RestartsUsedKey, Installing;
    if |es| == 0 {
    } else {
      StepKeepsInv(b, prim, s, es[0]);
      CleanThroughout(b, prim, Step(b, prim, s, es[0]), es[1..]);
      CleanIsRestartFree(b, prim, Step(b, prim, s, es[0]), es[1..]);
      if Restarts(b, prim, s, es[0]) {
        RestartReinstalls(b, prim, s, es[0].hello);
        ReinstallIsNotClean(b, prim, s, es[0].hello);
      }
    }
  }

  /** Nonce uniqueness over a whole boot, for every interleaving in which no replaced handshake is installed
      again. The message a console task still holds a captured key for is included. */
  lemma NonceUniqueness(b: Boot, prim: Primitives, es: seq<Event>)
    requires Provisioned(b, prim)
    requires Run(b, prim, INIT, es).clean
    ensures NoncesUnique(AllSeals(Run(b, prim, INIT, es)))
  {
    hide Run, RestartFree;
    CleanIsRestartFree(b, prim, INIT, es);
    RestartFreeRunsHaveUniqueNonces(b, prim, es);
  }
}
