/** Frames that carry nothing new leave no trace, wherever they arrive between a device's other events. */
module Noise {
  import opened Bytes
  import opened Encoding
  import opened Crypto
  import opened Protocol
  import opened Device
  import opened Replay
  import opened Wrappers

  /** One event of a run: a real one, or the receiver starting or finishing a frame the relay injected. */
  datatype Item = Real(event: Event) | NoiseStart(frame: Frame) | NoiseEnd

  /** A hello that is rejected or finds no slot, or one octet-identical to the installed handshake with the opening
      hello sent. */
  predicate StaleHello(b: Boot, prim: Primitives, s: State, f: Frame)
    requires f.Hello?
  {
    || HelloEffectOn(b, prim, s, f).None?
    || (f.from in s.table && s.table[f.from].established && s.table[f.from].helloSent
        && s.table[f.from].peerPub == f.pub && s.table[f.from].peerNonce == f.nonce)
  }

  /** A data frame the checks reject, one that is behind the window or of another session, one that does not decrypt
      in its sender's current session, or a delivered one again. */
  ghost predicate StaleData(b: Boot, s: State, f: Frame)
    requires f.Data?
  {
    || CheckData(b, f).Err?
    || !InWindow(s.table, f.from, f.sid, CheckData(b, f).value)
    || Decrypt(s.table[f.from].rx, f.from, b.self.id, s.table[f.from].sid, CheckData(b, f).value, f.sealed).None?
    || (exists d | d in s.deliveries :: CopyOf(b, f, d))
  }

  ghost predicate Stale(b: Boot, prim: Primitives, s: State, f: Frame) {
    match f
    case Hello(_, _, _, _, _) => StaleHello(b, prim, s, f)
    case Data(_, _, _, _, _) => StaleData(b, s, f)
  }

  function Start(b: Boot, prim: Primitives, s: State, f: Frame): State {
    if f.Hello? then StepHello(b, prim, s, f) else StepData(b, s, f)
  }

  function NoisyStep(b: Boot, prim: Primitives, s: State, i: Item): State {
    match i
    case Real(e) => Step(b, prim, s, e)
    case NoiseStart(f) => Start(b, prim, s, f)
    case NoiseEnd => StepOpen(b, s)
  }

  function NoisyRun(b: Boot, prim: Primitives, s: State, items: seq<Item>): State
    decreases |items|
  {
    if |items| == 0 then s else NoisyRun(b, prim, NoisyStep(b, prim, s, items[0]), items[1..])
  }

  function RealEvents(items: seq<Item>): seq<Event>
    decreases |items|
  {
    if |items| == 0 then []
    else (if items[0].Real? then [items[0].event] else []) + RealEvents(items[1..])
  }

  /** Noise starts when the receiver is idle, keeps it busy until it ends, and is stale when it arrives. */
  ghost predicate Legitimate(b: Boot, prim: Primitives, s: State, busy: bool, items: seq<Item>)
    decreases |items|
  {
    if |items| == 0 then true
    else
      && (match items[0]
          case Real(e) => busy ==> AtConsole(e)
          case NoiseStart(f) => !busy && s.rx == RxIdle && Stale(b, prim, s, f)
          case NoiseEnd => busy)
      && Legitimate(b, prim, NoisyStep(b, prim, s, items[0]),
                    if items[0].Real? then busy else items[0].NoiseStart?, items[1..])
  }

  /** n is the noisy run where the noiseless run is at c; a noise frame may be open, and cannot be decrypted. */
  ghost predicate Alike(b: Boot, n: State, c: State, busy: bool) {
    && n == c.(rx := n.rx)
    && (!busy ==> n.rx == c.rx)
    && (busy ==>
        && c.rx == RxIdle
        && (n.rx == RxIdle
            || (n.rx.Opening?
                && Decrypt(n.rx.key, n.rx.from, b.self.id, n.rx.sid, n.rx.counter, n.rx.sealed).None?)))
  }

  lemma StaleHelloDoesNothing(b: Boot, prim: Primitives, s: State, f: Frame)
    requires Provisioned(b, prim) && Inv(b, prim, s) && s.rx == RxIdle
    requires f.Hello? && StaleHello(b, prim, s, f)
    ensures StepHello(b, prim, s, f) == s
  {
    hide TranscriptBytes, StrLess, VerifyHello;
    if HelloEffectOn(b, prim, s, f).Some? {
      assert SlotOk(b, prim, s.installs, s.epoch, f.from, s.table[f.from]);
    }
  }

  /** A frame that the window keeps out, or that does not decrypt, is opened in vain. */
  lemma RejectedDataOnlyOpens(b: Boot, s: State, f: Frame)
    requires s.rx == RxIdle && f.Data?
    requires
      || CheckData(b, f).Err?
      || !InWindow(s.table, f.from, f.sid, CheckData(b, f).value)
      || Decrypt(s.table[f.from].rx, f.from, b.self.id, s.table[f.from].sid, CheckData(b, f).value, f.sealed).None?
    ensures Alike(b, StepData(b, s, f), s, true)
  {
    hide CheckData, Decrypt;
  }

  /** A copy of a delivered frame is behind its window or does not decrypt. */
  lemma CopyIsRejected(b: Boot, prim: Primitives, s: State, f: Frame, d: Delivery)
    requires Inv(b, prim, s) && Attributed(s) && d in s.deliveries && CopyOf(b, f, d)
    ensures f.Data? && CheckData(b, f) == Ok(d.counter)
    ensures
      || !InWindow(s.table, f.from, f.sid, d.counter)
      || Decrypt(s.table[f.from].rx, f.from, b.self.id, s.table[f.from].sid, d.counter, f.sealed).None?
  {
    hide Inv, Attributed, CheckData;
    DeliveredIsBehindWindow(b, prim, s, d);
  }

  lemma StaleDataOnlyOpens(b: Boot, prim: Primitives, s: State, f: Frame)
    requires Inv(b, prim, s) && Attributed(s) && s.rx == RxIdle
    requires f.Data? && StaleData(b, s, f)
    ensures Alike(b, StepData(b, s, f), s, true)
  {
    hide Inv, Attributed, Alike, StepData, CheckData, Decrypt, CopyOf, InWindow;
    if d :| d in s.deliveries && CopyOf(b, f, d) {
      CopyIsRejected(b, prim, s, f, d);
    }
    RejectedDataOnlyOpens(b, s, f);
  }

  lemma ConsoleIgnoresReceiver(b: Boot, prim: Primitives, s: State, rx: RxTask, e: Event)
    requires AtConsole(e)
    ensures Step(b, prim, s.(rx := rx), e) == Step(b, prim, s, e).(rx := rx)
    ensures Step(b, prim, s, e).rx == s.rx
  {
    hide Encrypt;
  }

  lemma NoisyStepStaysAlike(b: Boot, prim: Primitives, n: State, c: State, busy: bool, i: Item)
    requires Provisioned(b, prim) && Inv(b, prim, c) && Attributed(c)
    requires Alike(b, n, c, busy)
    requires match i
             case Real(e) => busy ==> AtConsole(e)
             case NoiseStart(f) => !busy && n.rx == RxIdle && Stale(b, prim, n, f)
             case NoiseEnd => busy
    ensures Alike(b, NoisyStep(b, prim, n, i), if i.Real? then Step(b, prim, c, i.event) else c,
                  if i.Real? then busy else i.NoiseStart?)
  {
    hide Step, StepHello, StepData, Inv, Attributed, Stale;
    match i
    case Real(e) =>
      if busy {
        ConsoleIgnoresReceiver(b, prim, c, n.rx, e);
      } else {
        assert n == c;
      }
    case NoiseStart(f) =>
      assert n == c;
      if f.Hello? {
        assert StaleHello(b, prim, c, f) by { StaleMeans(b, prim, c, f); }
        StaleHelloDoesNothing(b, prim, c, f);
      } else {
        assert StaleData(b, c, f) by { StaleMeans(b, prim, c, f); }
        StaleDataOnlyOpens(b, prim, c, f);
      }
    case NoiseEnd =>
  }

  lemma StaleMeans(b: Boot, prim: Primitives, s: State, f: Frame)
    requires Stale(b, prim, s, f)
    ensures if f.Hello? then StaleHello(b, prim, s, f) else StaleData(b, s, f)
  {
  }

  /** Noise is invisible: the noisy run and the run without it agree on the session table, the delivered
      messages and everything else but the frame the receiver may have in hand. The run without it must not reopen
      the window of a key that has delivered something. */
  lemma {:induction false} NoiseIsInvisible(b: Boot, prim: Primitives, n: State, c: State, busy: bool, items: seq<Item>)
    requires Provisioned(b, prim) && Inv(b, prim, c) && Attributed(c)
    requires Alike(b, n, c, busy) && Legitimate(b, prim, n, busy, items)
    requires ReopenFree(b, prim, c, RealEvents(items))
    ensures var n', c' := NoisyRun(b, prim, n, items), Run(b, prim, c, RealEvents(items));
            && n'.table == c'.table
            && n'.deliveries == c'.deliveries
            && n' == c'.(rx := n'.rx)
    decreases |items|
  {
    hide Step, Inv, Attributed, Reopens, Stale, NoisyStep;
    if |items| == 0 {
    } else {
      NoisyStepStaysAlike(b, prim, n, c, busy, items[0]);
      var n', rest := NoisyStep(b, prim, n, items[0]), items[1..];
      if items[0].Real? {
        assert RealEvents(items)[0] == items[0].event;
        StepKeepsInv(b, prim, c, items[0].event);
        StepStaysAttributed(b, prim, c, items[0].event);
        assert RealEvents(items)[1..] == RealEvents(rest);
        NoiseIsInvisible(b, prim, n', Step(b, prim, c, items[0].event), busy, rest);
      } else {
        assert RealEvents(items) == RealEvents(rest);
        NoiseIsInvisible(b, prim, n', c, items[0].NoiseStart?, rest);
      }
    }
  }

  /** The same for a whole boot. */
  lemma NoiseIsInvisibleFromBoot(b: Boot, prim: Primitives, items: seq<Item>)
    requires Provisioned(b, prim) && Legitimate(b, prim, INIT, false, items)
    requires ReopenFree(b, prim, INIT, RealEvents(items))
    ensures var n, c := NoisyRun(b, prim, INIT, items), Run(b, prim, INIT, RealEvents(items));
            n.table == c.table && n.deliveries == c.deliveries && n.seals == c.seals
  {
    hide Run, NoisyRun, Legitimate, ReopenFree;
    assert Alike(b, INIT, INIT, false);
    InitIsAttributed(b, prim);
    NoiseIsInvisible(b, prim, INIT, INIT, false, items);
  }
}
