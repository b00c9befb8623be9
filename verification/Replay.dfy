/** Exactly when a boot can deliver a message twice. */
module Replay {
  import opened Bytes
  import opened Encoding
  import opened Crypto
  import opened Sessions
  import opened Protocol
  import opened Device
  import opened DeviceSafety
  import opened Reinstall
  import opened Wrappers
  import CounterText

  /** The hello replaces the current handshake by one under whose receive key a message was already delivered. */
  ghost predicate RestartsHeardKey(b: Boot, prim: Primitives, s: State, f: Frame) {
    && f.Hello? && Installing(b, prim, s, f).Some?
    && exists i | 0 <= i < |s.deliveries| :: s.deliveries[i].key == CheckHello(b, prim, f).value.rx
  }

  ghost predicate Reopens(b: Boot, prim: Primitives, s: State, e: Event) {
    e.RxHello? && s.rx == RxIdle && RestartsHeardKey(b, prim, s, e.hello)
  }

  /** No hello of the run restarts the window of a key that has delivered something. */
  ghost predicate ReopenFree(b: Boot, prim: Primitives, s: State, es: seq<Event>)
    decreases |es|
  {
    |es| == 0 || (!Reopens(b, prim, s, es[0]) && ReopenFree(b, prim, Step(b, prim, s, es[0]), es[1..]))
  }

  ghost predicate KeyHeardIn(ds: seq<Delivery>, key: Key, epoch: nat) {
    forall i | 0 <= i < |ds| && ds[i].key == key :: ds[i].epoch == epoch
  }

  ghost predicate KeyNamesSession(ds: seq<Delivery>) {
    forall i, j | 0 <= i < j < |ds| && ds[i].key == ds[j].key :: ds[i].epoch == ds[j].epoch
  }

  /** Every key delivered in one session only, and the key of a current session in no other. */
  ghost predicate Attributed(s: State) {
    && KeyNamesSession(s.deliveries)
    && forall p | p in s.epoch && p in s.table :: KeyHeardIn(s.deliveries, s.table[p].rx, s.epoch[p])
  }

  // ---- What keeps deliveries to their sessions ---------------------------

  /** Nothing delivered, and the same keys in the same sessions. */
  ghost predicate SameWindows(s: State, t: State) {
    && t.deliveries == s.deliveries
    && t.epoch == s.epoch
    && forall p | p in s.epoch && p in t.table :: p in s.table && t.table[p].rx == s.table[p].rx
  }

  lemma SameWindowsStayAttributed(s: State, t: State)
    requires Attributed(s) && SameWindows(s, t)
    ensures Attributed(t)
  {
    forall p | p in t.epoch && p in t.table ensures KeyHeardIn(t.deliveries, t.table[p].rx, t.epoch[p]) {
      assert KeyHeardIn(s.deliveries, s.table[p].rx, s.epoch[p]);
    }
  }

  lemma HelloStaysAttributed(b: Boot, prim: Primitives, s: State, f: Frame)
    requires Provisioned(b, prim) && Inv(b, prim, s) && Attributed(s) && !Reopens(b, prim, s, RxHello(f))
    ensures Attributed(StepHello(b, prim, s, f))
  {
    hide DeriveSession, CheckHello, StepHello, Installing;
    var t := StepHello(b, prim, s, f);
    if s.rx != RxIdle {
      BusyIgnoresHello(b, prim, s, f);
    } else if Installing(b, prim, s, f).None? {
      EpochsHaveSlots(b, prim, s);
      NotInstallingEffect(b, prim, s, f);
      hide Attributed;
      SameWindowsStayAttributed(s, t);
    } else {
      InstallingEffect(b, prim, s, f);
      hide Inv;
      forall p | p in t.epoch && p in t.table ensures KeyHeardIn(s.deliveries, t.table[p].rx, t.epoch[p]) {
        if p != f.from {
          assert KeyHeardIn(s.deliveries, s.table[p].rx, s.epoch[p]);
        }
      }
    }
  }

  /** Two current sessions with one receive key are one session. */
  lemma CurrentWindowsDiffer(b: Boot, prim: Primitives, s: State, p: Id, q: Id)
    requires Provisioned(b, prim) && Inv(b, prim, s)
    requires p in s.epoch && q in s.epoch && p in s.table && q in s.table && s.table[p].rx == s.table[q].rx
    ensures p == q
  {
    hide DeriveSession, Provisioned;
    assert SlotOk(b, prim, s.installs, s.epoch, p, s.table[p]);
    assert SlotOk(b, prim, s.installs, s.epoch, q, s.table[q]);
    SameKeySameParty(b, prim, s.installs, s.epoch[p], s.epoch[q]);
  }

  /** One more delivery in the current session of a peer. */
  lemma OneMoreStaysAttributed(s: State, t: State, from: Id, d: Delivery)
    requires Attributed(s) && from in s.epoch && from in s.table
    requires d.key == s.table[from].rx && d.epoch == s.epoch[from]
    requires forall p | p in s.epoch && p in s.table && s.table[p].rx == d.key :: p == from
    requires t.deliveries == s.deliveries + [d] && t.epoch == s.epoch
    requires t.table.Keys == s.table.Keys && forall p | p in s.table :: t.table[p].rx == s.table[p].rx
    ensures Attributed(t)
  {
    assert KeyHeardIn(s.deliveries, s.table[from].rx, s.epoch[from]);
    forall p | p in t.epoch && p in t.table ensures KeyHeardIn(t.deliveries, t.table[p].rx, t.epoch[p]) {
      assert KeyHeardIn(s.deliveries, s.table[p].rx, s.epoch[p]);
    }
  }

  lemma OpeningIsCurrent(b: Boot, prim: Primitives, s: State)
    requires Inv(b, prim, s) && s.rx.Opening?
    ensures var p := s.rx.from;
            p in s.table && p in s.epoch && s.table[p].established && s.rx.key == s.table[p].rx
  {
    hide DeriveSession;
    assert SlotOk(b, prim, s.installs, s.epoch, s.rx.from, s.table[s.rx.from]);
  }

  lemma WindowKeepsKeys(m: Table, q: Id, counter: u64)
    requires q in m
    ensures var t := AdvanceWindow(m, q, counter);
            t.Keys == m.Keys && forall p | p in m :: t[p].rx == m[p].rx
  {
  }

  lemma OpenStaysAttributed(b: Boot, prim: Primitives, s: State)
    requires Provisioned(b, prim) && Inv(b, prim, s) && Attributed(s)
    ensures Attributed(StepOpen(b, s))
  {
    hide Decrypt, Attributed, Inv, Provisioned, AdvanceWindow;
    var t := StepOpen(b, s);
    if s.rx.Opening? {
      var from := s.rx.from;
      OpeningIsCurrent(b, prim, s);
      WindowKeepsKeys(s.table, from, s.rx.counter);
      if t.deliveries != s.deliveries {
        forall p | p in s.epoch && p in s.table && s.table[p].rx == s.table[from].rx ensures p == from {
          CurrentWindowsDiffer(b, prim, s, p, from);
        }
        OneMoreStaysAttributed(s, t, from, t.deliveries[|s.deliveries|]);
      } else {
        EpochsHaveSlots(b, prim, s);
        SameWindowsStayAttributed(s, t);
      }
    }
  }

  /** Every other event delivers nothing and changes no key. */
  lemma OthersKeepWindows(b: Boot, prim: Primitives, s: State, e: Event)
    requires !e.RxHello? && !e.RxOpen? && (forall p | p in s.epoch :: p in s.table)
    ensures SameWindows(s, Step(b, prim, s, e))
  {
    hide StepHello, StepOpen, Encrypt, CheckData, MarkHelloSent, AllocateCounter;
    match e
    case RxMark => MarksKeepWindows(s.table, if s.rx.RxMarking? then s.rx.peer else []);
    case TxMark => MarksKeepWindows(s.table, if s.tx.TxMarking? then s.tx.peer else []);
    case TxAlloc(to, _) => CountersKeepWindows(s.table, to);
    case _ =>
  }

  lemma MarksKeepWindows(m: Table, q: Id)
    ensures forall p | p in m :: p in MarkHelloSent(m, q) && MarkHelloSent(m, q)[p].rx == m[p].rx
  {
  }

  lemma CountersKeepWindows(m: Table, q: Id)
    ensures AllocateCounter(m, q).Ok? ==>
              forall p | p in m :: p in AllocateCounter(m, q).value && AllocateCounter(m, q).value[p].rx == m[p].rx
    ensures AllocateCounter(m, q).Ok? ==> q in AllocateCounter(m, q).value
  {
  }

  lemma StepStaysAttributed(b: Boot, prim: Primitives, s: State, e: Event)
    requires Provisioned(b, prim) && Inv(b, prim, s) && Attributed(s) && !Reopens(b, prim, s, e)
    ensures Attributed(Step(b, prim, s, e))
  {
    hide Attributed, Reopens, SameWindows, StepHello, StepOpen, Provisioned;
    match e
    case RxHello(f) => HelloStaysAttributed(b, prim, s, f);
    case RxOpen => OpenStaysAttributed(b, prim, s);
    case _ =>
      EpochsHaveSlots(b, prim, s);
      hide Inv, Step;
      OthersKeepWindows(b, prim, s, e);
      SameWindowsStayAttributed(s, Step(b, prim, s, e));
  }

  lemma {:induction false} RunStaysAttributed(b: Boot, prim: Primitives, s: State, es: seq<Event>)
    requires Provisioned(b, prim) && Inv(b, prim, s) && Attributed(s) && ReopenFree(b, prim, s, es)
    ensures Inv(b, prim, Run(b, prim, s, es)) && Attributed(Run(b, prim, s, es))
    decreases |es|
  {
    hide Inv, Attributed, Reopens, Step;
    if |es| == 0 {
    } else {
      StepKeepsInv(b, prim, s, es[0]);
      StepStaysAttributed(b, prim, s, es[0]);
      RunStaysAttributed(b, prim, Step(b, prim, s, es[0]), es[1..]);
    }
  }

  lemma AttributedMeansNoReplay(b: Boot, prim: Primitives, s: State)
    requires Inv(b, prim, s) && Attributed(s)
    ensures NoReplay(s.deliveries)
  {
    hide DeriveSession;
  }

  lemma {:induction false} HelloFreeIsReopenFree(b: Boot, prim: Primitives, s: State, es: seq<Event>)
    requires HelloFree(es)
    ensures ReopenFree(b, prim, s, es)
    decreases |es|
  {
    hide Step;
    if |es| == 0 {
    } else {
      assert es[0] in es;
      HelloFreeIsReopenFree(b, prim, Step(b, prim, s, es[0]), es[1..]);
    }
  }

  // ---- Copies of delivered frames ----------------------------------------

  /** A frame that carries a delivered message again, however its counter is spelled. */
  ghost predicate CopyOf(b: Boot, g: Frame, d: Delivery) {
    && g.Data?
    && g.from == d.from
    && g.sid == d.sid
    && CheckData(b, g) == Ok(d.counter)
    && Encrypt(d.key, d.from, b.self.id, d.sid, d.counter, d.text) == Some(g.sealed)
  }

  lemma CopyNeedsItsKey(b: Boot, s: State, g: Frame, d: Delivery)
    requires s.rx == RxIdle && CopyOf(b, g, d)
    requires d.from in s.table && s.table[d.from].rx == d.key ==> d.counter <= s.table[d.from].rxCounter
    ensures Deliver(b, s, g) == s
  {
    hide CheckData;
  }

  lemma CurrentHandshake(b: Boot, prim: Primitives, s: State, p: Id)
    requires Inv(b, prim, s) && p in s.epoch
    ensures p in s.table && s.epoch[p] < |s.installs|
    ensures s.table[p].rx == Keys(b, prim, s.installs[s.epoch[p]]).rx
    ensures s.table[p].rxCounter == LastCounter(s.deliveries, s.epoch[p])
  {
    hide DeriveSession;
    assert SlotOk(b, prim, s.installs, s.epoch, p, s.table[p]);
  }

  lemma DeliveredUnder(b: Boot, prim: Primitives, s: State, d: Delivery)
    requires Inv(b, prim, s) && d in s.deliveries
    ensures InstallsOk(b, prim, s.installs) && DeliveryOk(b, prim, s.installs, d) && d.from in s.epoch
    ensures d.counter <= LastCounter(s.deliveries, d.epoch)
  {
    hide DeriveSession;
    var i :| 0 <= i < |s.deliveries| && s.deliveries[i] == d;
    assert DeliveryOk(b, prim, s.installs, s.deliveries[i]);
    LastCounterIsLargest(s.deliveries, i);
  }

  /** A window that still belongs to the message's session is past the message. */
  lemma DeliveredIsBehindWindow(b: Boot, prim: Primitives, s: State, d: Delivery)
    requires Inv(b, prim, s) && Attributed(s) && d in s.deliveries
    ensures d.from in s.table
    ensures s.table[d.from].rx == d.key ==> d.counter <= s.table[d.from].rxCounter
  {
    hide DeriveSession, LastCounter, DeliveryOk;
    DeliveredUnder(b, prim, s, d);
    CurrentHandshake(b, prim, s, d.from);
    hide Inv;
    assert KeyHeardIn(s.deliveries, s.table[d.from].rx, s.epoch[d.from]);
  }

  /** As long as every delivery is attributed to one session, a copy of any delivered frame changes nothing. */
  lemma DeliveredCopyRejected(b: Boot, prim: Primitives, s: State, g: Frame, d: Delivery)
    requires Inv(b, prim, s) && Attributed(s) && s.rx == RxIdle
    requires d in s.deliveries && CopyOf(b, g, d)
    ensures Deliver(b, s, g) == s
  {
    hide Inv, Attributed, Deliver;
    DeliveredIsBehindWindow(b, prim, s, d);
    CopyNeedsItsKey(b, s, g, d);
  }

  lemma ReinstalledCopyAccepted(b: Boot, u: State, g: Frame, d: Delivery)
    requires u.rx == RxIdle && CopyOf(b, g, d) && d.from in u.table
    requires u.table[d.from].established && u.table[d.from].rx == d.key && u.table[d.from].sid == d.sid
    requires u.table[d.from].rxCounter == 0 && d.counter > 0
    ensures var t := Deliver(b, u, g);
            && |t.deliveries| == |u.deliveries| + 1 && u.deliveries <= t.deliveries
            && t.deliveries[|u.deliveries|].key == d.key && t.deliveries[|u.deliveries|].counter == d.counter
  {
    hide CheckData;
  }

  /** A delivered message can be delivered again right after one more hello if and only if that hello installs the
      message's own handshake again. */
  lemma ReplayIffReinstall(b: Boot, prim: Primitives, s: State, d: Delivery, f: Frame, g: Frame)
    requires Provisioned(b, prim) && Inv(b, prim, s) && Attributed(s) && s.rx == RxIdle
    requires d in s.deliveries && CopyOf(b, g, d) && f.Hello?
    ensures d.epoch < |s.installs|
    ensures Deliver(b, Settle(b, StepHello(b, prim, s, f)), g).deliveries != s.deliveries
            <==> Installing(b, prim, s, f) == Some(s.installs[d.epoch])
  {
    hide DeriveSession, StepHello, CheckHello, Settle, Deliver, CopyOf, Attributed, Inv, LastCounter;
    DeliveredUnder(b, prim, s, d);
    DeliveredIsBehindWindow(b, prim, s, d);
    var installing, t := Installing(b, prim, s, f), StepHello(b, prim, s, f);
    if installing.Some? {
      InstallingEffect(b, prim, s, f);
    } else {
      NotInstallingEffect(b, prim, s, f);
    }
    SettleKeepsSessions(b, t, d.from);
    if installing == Some(s.installs[d.epoch]) {
      ReinstalledCopyAccepted(b, Settle(b, t), g, d);
    } else {
      if installing.Some? && f.from == d.from && t.table[d.from].rx == d.key {
        KeyDeterminesPeer(prim, b.self, PeerOf(f), s.installs[d.epoch]);
      }
      SameDelivery(b, g, d);
      CopyNeedsItsKey(b, Settle(b, t), g, d);
    }
  }

  lemma SameDelivery(b: Boot, g: Frame, d: Delivery)
    requires CopyOf(b, g, d)
    ensures g.Data? && g.from == d.from
  {
  }

  // ---- A reopened window leads to a replay --------------------------------

  /** The frame the relay can keep. */
  function CopyFrame(b: Boot, d: Delivery): Frame
    requires Encrypt(d.key, d.from, b.self.id, d.sid, d.counter, d.text).Some?
  {
    Data(d.from, b.self.id, d.sid, CounterText.Print(d.counter),
         Encrypt(d.key, d.from, b.self.id, d.sid, d.counter, d.text).value)
  }

  lemma CopyFrameIsCopy(b: Boot, prim: Primitives, s: State, d: Delivery)
    requires Provisioned(b, prim) && Inv(b, prim, s) && d in s.deliveries
    ensures Encrypt(d.key, d.from, b.self.id, d.sid, d.counter, d.text).Some? && CopyOf(b, CopyFrame(b, d), d)
  {
    hide DeriveSession, CounterText.Print, CounterText.Parse, LastCounter;
    DeliveredUnder(b, prim, s, d);
    assert Derivable(b, prim, s.installs[d.epoch]);
    hide Inv;
    CounterText.CounterRoundTrip(d.counter);
  }

  function ReplayEvents(g: Frame): seq<Event> {
    [RxReply(true), RxMark] + [RxData(g), RxOpen]
  }

  lemma ReplayEventsRun(b: Boot, prim: Primitives, s: State, g: Frame)
    ensures Run(b, prim, s, ReplayEvents(g)) == Deliver(b, Settle(b, s), g) && HelloFree(ReplayEvents(g))
  {
    hide Run, StepReply, StepRxMark, StepData, StepOpen;
    RunAppend(b, prim, s, [RxReply(true), RxMark], [RxData(g), RxOpen]);
    RunOfPair(b, prim, s, RxReply(true), RxMark);
    RunOfPair(b, prim, Settle(b, s), RxData(g), RxOpen);
  }

  /** A delivery under the receive key of a handshake was made in a session of that handshake. */
  lemma HeardUnderKey(b: Boot, prim: Primitives, s: State, i: nat, peer: Party)
    requires Provisioned(b, prim) && Inv(b, prim, s) && i < |s.deliveries|
    requires Derivable(b, prim, peer) && s.deliveries[i].key == Keys(b, prim, peer).rx
    ensures var d := s.deliveries[i];
            d.from == peer.id && d.sid == Keys(b, prim, peer).sid && d.counter > 0 && peer in s.installs
  {
    hide DeriveSession;
    assert DeliveryOk(b, prim, s.installs, s.deliveries[i]);
    KeyDeterminesPeer(prim, b.self, s.installs[s.deliveries[i].epoch], peer);
  }

  lemma ReopeningLeadsToReplay(b: Boot, prim: Primitives, s: State, f: Frame) returns (fs: seq<Event>)
    requires Provisioned(b, prim) && Inv(b, prim, s) && s.rx == RxIdle && RestartsHeardKey(b, prim, s, f)
    ensures HelloFree(fs) && !NoReplay(Run(b, prim, StepHello(b, prim, s, f), fs).deliveries)
  {
    hide DeriveSession, StepHello, CheckHello, Installing, Settle, Deliver, Run, Inv, HelloFree, CopyOf, ReplayEvents;
    InstallingEffect(b, prim, s, f);
    var i :| 0 <= i < |s.deliveries| && s.deliveries[i].key == CheckHello(b, prim, f).value.rx;
    var t, d := StepHello(b, prim, s, f), s.deliveries[i];
    HeardUnderKey(b, prim, s, i, PeerOf(f));
    CopyFrameIsCopy(b, prim, s, d);
    var g := CopyFrame(b, d);
    fs := ReplayEvents(g);
    ReplayEventsRun(b, prim, t, g);
    SettleKeepsSessions(b, t, d.from);
    ReinstalledCopyAccepted(b, Settle(b, t), g, d);
    var ds := Deliver(b, Settle(b, t), g).deliveries;
    assert ds[i].key == ds[|s.deliveries|].key && ds[i].counter == ds[|s.deliveries|].counter;
  }

  // ---- The exact condition -----------------------------------------------

  /** As long as every delivery is attributed to one session: a hello opens the way to a second delivery of some
      message, along some run without a further hello, if and only if it restarts the window of a key that has
      delivered something. */
  lemma ReplayIffReopened(b: Boot, prim: Primitives, s: State, f: Frame)
    requires Provisioned(b, prim) && Inv(b, prim, s) && Attributed(s) && s.rx == RxIdle
    ensures (exists fs | HelloFree(fs) :: !NoReplay(Run(b, prim, StepHello(b, prim, s, f), fs).deliveries))
            <==> RestartsHeardKey(b, prim, s, f)
  {
    hide RestartsHeardKey, StepHello, NoReplay, Inv, Attributed, HelloFree, Run;
    if RestartsHeardKey(b, prim, s, f) {
      var fs := ReopeningLeadsToReplay(b, prim, s, f);
    } else {
      HelloKeepsInv(b, prim, s, f);
      HelloStaysAttributed(b, prim, s, f);
      forall fs | HelloFree(fs) ensures NoReplay(Run(b, prim, StepHello(b, prim, s, f), fs).deliveries) {
        HelloFreeIsReopenFree(b, prim, StepHello(b, prim, s, f), fs);
        RunStaysAttributed(b, prim, StepHello(b, prim, s, f), fs);
        AttributedMeansNoReplay(b, prim, Run(b, prim, StepHello(b, prim, s, f), fs));
      }
    }
  }

  /** No boot in which no hello restarts the window of a heard key ever delivers a message twice. */
  lemma ReopenFreeRunsHaveNoReplay(b: Boot, prim: Primitives, es: seq<Event>)
    requires Provisioned(b, prim) && ReopenFree(b, prim, INIT, es)
    ensures NoReplay(Run(b, prim, INIT, es).deliveries)
  {
    hide Run, ReopenFree;
    RunStaysAttributed(b, prim, INIT, es);
    AttributedMeansNoReplay(b, prim, Run(b, prim, INIT, es));
  }

  lemma {:induction false} ReopenFreeAppend(b: Boot, prim: Primitives, s: State, es: seq<Event>, i: nat, fs: seq<Event>)
    requires ReopenFree(b, prim, s, es) && i <= |es| && HelloFree(fs)
    ensures ReopenFree(b, prim, s, es[..i] + fs)
    decreases i
  {
    hide Step, Reopens, HelloFree;
    if i == 0 {
      assert es[..i] + fs == fs;
      HelloFreeIsReopenFree(b, prim, s, fs);
    } else {
      ReopenFreeAppend(b, prim, Step(b, prim, s, es[0]), es[1..], i - 1, fs);
      assert (es[..i] + fs)[1..] == es[1..][..i - 1] + fs;
      assert (es[..i] + fs)[0] == es[0];
    }
  }

  /** The first reopened window of a run opens a way to a replay. */
  lemma {:induction false} FirstReopening(b: Boot, prim: Primitives, s: State, es: seq<Event>)
    returns (i: nat, fs: seq<Event>)
    requires Provisioned(b, prim) && Inv(b, prim, s) && Attributed(s) && !ReopenFree(b, prim, s, es)
    ensures i <= |es| && HelloFree(fs) && !NoReplay(Run(b, prim, s, es[..i] + fs).deliveries)
    decreases |es|
  {
    hide Inv, Attributed, NoReplay, HelloFree, RestartsHeardKey, StepHello;
    var t := Step(b, prim, s, es[0]);
    if Reopens(b, prim, s, es[0]) {
      fs := ReopeningLeadsToReplay(b, prim, s, es[0].hello);
      i := 1;
      assert t == StepHello(b, prim, s, es[0].hello);
      hide Step;
      assert (es[..1] + fs)[1..] == fs && (es[..1] + fs)[0] == es[0];
    } else {
      hide Step, Reopens;
      StepKeepsInv(b, prim, s, es[0]);
      StepStaysAttributed(b, prim, s, es[0]);
      i, fs := FirstReopening(b, prim, t, es[1..]);
      i := i + 1;
      assert (es[..i] + fs)[1..] == es[1..][..i - 1] + fs && (es[..i] + fs)[0] == es[0];
    }
  }

  /** The exact condition for a whole boot: no hello of it restarts the window of a heard key if and only if at no point
      of it a relay could go on, without a further hello, to have a message delivered twice. */
  lemma ReplaySafetyIff(b: Boot, prim: Primitives, es: seq<Event>)
    requires Provisioned(b, prim)
    ensures ReopenFree(b, prim, INIT, es) <==>
            forall i, fs | 0 <= i <= |es| && HelloFree(fs) :: NoReplay(Run(b, prim, INIT, es[..i] + fs).deliveries)
  {
    hide ReopenFree, HelloFree, NoReplay, Run, Inv, Attributed;
    if ReopenFree(b, prim, INIT, es) {
      forall i, fs | 0 <= i <= |es| && HelloFree(fs) ensures NoReplay(Run(b, prim, INIT, es[..i] + fs).deliveries) {
        ReopenFreeAppend(b, prim, INIT, es, i, fs);
        ReopenFreeRunsHaveNoReplay(b, prim, es[..i] + fs);
      }
    } else {
      InitIsAttributed(b, prim);
      var i, fs := FirstReopening(b, prim, INIT, es);
    }
  }

  lemma InitIsAttributed(b: Boot, prim: Primitives)
    ensures Inv(b, prim, INIT) && Attributed(INIT)
  {
  }

  // ---- Boots that install nothing twice ----------------------------------

  lemma ReopeningReinstalls(b: Boot, prim: Primitives, s: State, f: Frame)
    requires Provisioned(b, prim) && Inv(b, prim, s) && s.rx == RxIdle && RestartsHeardKey(b, prim, s, f)
    ensures PeerOf(f) in s.installs && Installing(b, prim, s, f).Some?
  {
    hide DeriveSession, CheckHello, StepHello, Installing;
    InstallingEffect(b, prim, s, f);
    var i :| 0 <= i < |s.deliveries| && s.deliveries[i].key == CheckHello(b, prim, f).value.rx;
    hide Inv, Derivable;
    HeardUnderKey(b, prim, s, i, PeerOf(f));
  }

  lemma {:induction false} CleanIsReopenFree(b: Boot, prim: Primitives, s: State, es: seq<Event>)
    requires Provisioned(b, prim) && Inv(b, prim, s) && Run(b, prim, s, es).clean
    ensures ReopenFree(b, prim, s, es)
    decreases |es|
  {
    hide Inv, StepHello, RestartsHeardKey, Installing;
    if |es| == 0 {
    } else {
      StepKeepsInv(b, prim, s, es[0]);
      CleanThroughout(b, prim, Step(b, prim, s, es[0]), es[1..]);
      CleanIsReopenFree(b, prim, Step(b, prim, s, es[0]), es[1..]);
      if Reopens(b, prim, s, es[0]) {
        ReopeningReinstalls(b, prim, s, es[0].hello);
        ReinstallIsNotClean(b, prim, s, es[0].hello);
      }
    }
  }

  /** Over a whole boot no receive key and counter is delivered twice, unless a replaced handshake came back. */
  lemma ReplayFreedom(b: Boot, prim: Primitives, es: seq<Event>)
    requires Provisioned(b, prim)
    requires Run(b, prim, INIT, es).clean
    ensures NoReplay(Run(b, prim, INIT, es).deliveries)
  {
    hide Run, ReopenFree;
    CleanIsReopenFree(b, prim, INIT, es);
    ReopenFreeRunsHaveNoReplay(b, prim, es);
  }
}
