/**
 * Completeness: two devices with mirrored sessions, neither of which installs another handshake with the
 * other, joined by an in-order lossless channel. Whatever else they do, and whatever gaps failed sends leave
 * in the counters, every message put on the channel is delivered, once and in order.
 */
module Channel {
  import opened Encoding
  import opened Crypto
  import opened Protocol
  import opened Device
  import opened Reinstall
  import opened EndToEnd
  import opened Wrappers
  import CounterText

  datatype Endpoint = Endpoint(boot: Boot, state: State)

  /** x sends to y; wire holds the frames on their way, and log every message ever put on the wire. */
  datatype Link = Link(x: Endpoint, y: Endpoint, wire: seq<Frame>, log: seq<Message>)

  /** What becomes of a message whose counter has been taken. */
  datatype Fate = EncryptionFails | TransportFails | GoesOut

  datatype LinkEvent =
    | Finish(fate: Fate)
    | Receive
    | AtSender(event: Event)
    | AtReceiver(event: Event)

  /** e does not install a handshake with p. */
  predicate KeepsSession(prim: Primitives, d: Endpoint, p: Id, e: Event) {
    e.RxHello? && e.hello.Hello? && e.hello.from == p ==> Installing(d.boot, prim, d.state, e.hello).None?
  }

  function FrameOf(b: Boot, to: Id, key: Key, sid: SessionId, m: Message): Frame {
    MakeData(b, to, sid, m.counter,
             Box(key, NonceBytes(sid, m.counter), AadBytes(b.self.id, to, sid, m.counter), m.text))
  }

  function Advance(prim: Primitives, d: Endpoint, e: Event): Endpoint {
    d.(state := Step(d.boot, prim, d.state, e))
  }

  function LinkStep(prim: Primitives, l: Link, le: LinkEvent): Link {
    match le
    case Finish(fate) =>
      if !l.x.state.tx.Sealing? then l
      else
        var r, x := l.x.state.tx.pending, Advance(prim, l.x, TxSeal(fate != EncryptionFails));
        if fate != GoesOut || r.to != l.y.boot.self.id || |x.state.seals| == |l.x.state.seals| then l.(x := x)
        else
          var m := Message(r.counter, r.text);
          l.(x := x, wire := l.wire + [FrameOf(l.x.boot, r.to, r.key, r.sid, m)], log := l.log + [m])
    case Receive =>
      if |l.wire| == 0 || l.y.state.rx != RxIdle then l
      else l.(y := Advance(prim, l.y, RxData(l.wire[0])), wire := l.wire[1..])
    case AtSender(e) =>
      if e.TxSeal? || !KeepsSession(prim, l.x, l.y.boot.self.id, e) then l
      else l.(x := Advance(prim, l.x, e))
    case AtReceiver(e) =>
      if (e.RxData? && e.data.from == l.x.boot.self.id) || !KeepsSession(prim, l.y, l.x.boot.self.id, e) then l
      else l.(y := Advance(prim, l.y, e))
  }

  function LinkRun(prim: Primitives, l: Link, es: seq<LinkEvent>): Link
    decreases |es|
  {
    if |es| == 0 then l else LinkRun(prim, LinkStep(prim, l, es[0]), es[1..])
  }

  // ---- The two ends ------------------------------------------------------

  /** The sender's session with p is unchanged and its counter is past top; a message in hand is past it too. */
  ghost predicate SenderOk(s: State, p: Id, key: Key, sid: SessionId, top: nat) {
    && p in s.table && s.table[p].established
    && s.table[p].tx == key && s.table[p].sid == sid
    && top <= s.table[p].txCounter
    && (s.tx.Sealing? && s.tx.pending.to == p ==>
        && s.tx.pending.key == key && s.tx.pending.sid == sid
        && top < s.tx.pending.counter == s.table[p].txCounter)
  }

  lemma SenderStep(b: Boot, prim: Primitives, s: State, e: Event, p: Id, key: Key, sid: SessionId, top: nat)
    requires SenderOk(s, p, key, sid, top)
    requires !e.TxSeal? && KeepsSession(prim, Endpoint(b, s), p, e)
    ensures SenderOk(Step(b, prim, s, e), p, key, sid, top)
  {
    hide SenderOk, Step;
    if AtConsole(e) {
      ConsoleKeepsSender(b, prim, s, e, p, key, sid, top);
    } else {
      ReceiverKeepsSender(b, prim, s, e, p, key, sid, top);
    }
  }

  lemma ConsoleKeepsSender(b: Boot, prim: Primitives, s: State, e: Event, p: Id, key: Key, sid: SessionId, top: nat)
    requires SenderOk(s, p, key, sid, top) && AtConsole(e) && !e.TxSeal?
    ensures SenderOk(Step(b, prim, s, e), p, key, sid, top)
  {
    hide StepHello, StepReply, StepRxMark, StepData, StepOpen, StepSeal;
  }

  lemma ReceiverKeepsSender(b: Boot, prim: Primitives, s: State, e: Event, p: Id, key: Key, sid: SessionId, top: nat)
    requires SenderOk(s, p, key, sid, top) && !AtConsole(e) && KeepsSession(prim, Endpoint(b, s), p, e)
    ensures SenderOk(Step(b, prim, s, e), p, key, sid, top)
  {
    hide CheckHello, Decrypt, CheckData, StepTxHello, StepTxMark, StepAlloc, StepSeal;
  }

  /** The message the receiver is about to open, if it is from p. */
  function InHand(b: Boot, s: State, p: Id): seq<Message> {
    if !s.rx.Opening? || s.rx.from != p then []
    else match Decrypt(s.rx.key, p, b.self.id, s.rx.sid, s.rx.counter, s.rx.sealed)
      case None => []
      case Some(text) => [Message(s.rx.counter, text)]
  }

  /** The counter below which nothing from p will be accepted any more. */
  function Floor(s: State, p: Id): nat
    requires p in s.table
  {
    if s.rx.Opening? && s.rx.from == p then s.rx.counter else s.table[p].rxCounter
  }

  ghost predicate ReceiverOk(b: Boot, s: State, p: Id, key: Key, sid: SessionId, epoch: nat) {
    && p in s.table && s.table[p].established
    && s.table[p].rx == key && s.table[p].sid == sid
    && p in s.epoch && s.epoch[p] == epoch
    && (s.rx.Opening? && s.rx.from == p ==>
        |InHand(b, s, p)| == 1 && s.rx.counter > s.table[p].rxCounter)
  }

  lemma ReceiverOpen(b: Boot, s: State, p: Id, key: Key, sid: SessionId, epoch: nat)
    requires ReceiverOk(b, s, p, key, sid, epoch) && EpochsOk(s.installs, s.epoch)
    requires s.rx.Opening? ==> s.rx.from in s.epoch
    ensures var t := StepOpen(b, s);
            && ReceiverOk(b, t, p, key, sid, epoch)
            && Floor(t, p) == Floor(s, p)
            && DeliveredIn(t.deliveries, epoch) + InHand(b, t, p) == DeliveredIn(s.deliveries, epoch) + InHand(b, s, p)
  {
    var t := StepOpen(b, s);
    hide Encrypt, DeliveredIn;
    if t.deliveries != s.deliveries {
      var d := t.deliveries[|s.deliveries|];
      assert s.installs[s.epoch[s.rx.from]].id == s.rx.from && s.installs[epoch].id == p;
      assert d.epoch == epoch <==> s.rx.from == p;
      DeliveredAfter(s.deliveries, d, epoch);
    }
  }

  /** Nothing but RxOpen and frames from p concerns the receiver's session with p. */
  lemma ReceiverStep(b: Boot, prim: Primitives, s: State, e: Event, p: Id, key: Key, sid: SessionId, epoch: nat)
    requires ReceiverOk(b, s, p, key, sid, epoch)
    requires !e.RxOpen? && !(e.RxData? && e.data.from == p) && KeepsSession(prim, Endpoint(b, s), p, e)
    ensures var t := Step(b, prim, s, e);
            && ReceiverOk(b, t, p, key, sid, epoch)
            && Floor(t, p) == Floor(s, p)
            && t.deliveries == s.deliveries
            && InHand(b, t, p) == InHand(b, s, p)
  {
    hide ReceiverOk, InHand, Floor, Step;
    StepSparesSession(b, prim, s, e, p, key, sid, epoch);
    SameWindow(b, s, Step(b, prim, s, e), p, key, sid, epoch);
  }

  /** What the receiver holds for p is the same session, and the same frame is in hand or none is. */
  lemma StepSparesSession(b: Boot, prim: Primitives, s: State, e: Event, p: Id, key: Key, sid: SessionId, epoch: nat)
    requires ReceiverOk(b, s, p, key, sid, epoch)
    requires !e.RxOpen? && !(e.RxData? && e.data.from == p) && KeepsSession(prim, Endpoint(b, s), p, e)
    ensures SparesSession(s, Step(b, prim, s, e), p)
  {
    hide ReceiverOk, SparesSession, Step;
    if AtConsole(e) {
      ConsoleSparesSession(b, prim, s, e, p, key, sid, epoch);
    } else {
      ReceiverSparesSession(b, prim, s, e, p, key, sid, epoch);
    }
  }

  lemma ConsoleSparesSession(b: Boot, prim: Primitives, s: State, e: Event, p: Id, key: Key, sid: SessionId,
                             epoch: nat)
    requires ReceiverOk(b, s, p, key, sid, epoch) && AtConsole(e)
    ensures SparesSession(s, Step(b, prim, s, e), p)
  {
    hide Encrypt, InHand, StepHello, StepReply, StepRxMark, StepData, StepOpen;
  }

  lemma ReceiverSparesSession(b: Boot, prim: Primitives, s: State, e: Event, p: Id, key: Key, sid: SessionId,
                              epoch: nat)
    requires ReceiverOk(b, s, p, key, sid, epoch) && !AtConsole(e)
    requires !e.RxOpen? && !(e.RxData? && e.data.from == p) && KeepsSession(prim, Endpoint(b, s), p, e)
    ensures SparesSession(s, Step(b, prim, s, e), p)
  {
    hide CheckHello, CheckData, InHand, StepTxHello, StepTxMark, StepAlloc, StepSeal, StepOpen;
  }

  ghost predicate SparesSession(s: State, t: State, p: Id)
    requires p in s.table && p in s.epoch
  {
    && p in t.table && p in t.epoch && t.epoch[p] == s.epoch[p]
    && t.table[p].established == s.table[p].established
    && t.table[p].rx == s.table[p].rx && t.table[p].sid == s.table[p].sid
    && t.table[p].rxCounter == s.table[p].rxCounter
    && t.deliveries == s.deliveries
    && (t.rx == s.rx || (!HoldsFrom(s, p) && !HoldsFrom(t, p)))
  }

  predicate HoldsFrom(s: State, p: Id) {
    s.rx.Opening? && s.rx.from == p
  }

  lemma SameWindow(b: Boot, s: State, t: State, p: Id, key: Key, sid: SessionId, epoch: nat)
    requires ReceiverOk(b, s, p, key, sid, epoch) && SparesSession(s, t, p)
    ensures ReceiverOk(b, t, p, key, sid, epoch) && Floor(t, p) == Floor(s, p)
    ensures t.deliveries == s.deliveries && InHand(b, t, p) == InHand(b, s, p)
  {
    hide Decrypt;
  }

  /** A frame of the session whose counter is past everything accepted so far is accepted. */
  lemma ReceiverAccepts(from: Boot, b: Boot, s: State, key: Key, sid: SessionId, epoch: nat, m: Message)
    requires ReceiverOk(b, s, from.self.id, key, sid, epoch) && s.rx == RxIdle
    requires EncodableId(from.self.id) && EncodableId(b.self.id)
    requires 0 < |m.text| <= b.maxMessage && m.counter > Floor(s, from.self.id)
    ensures var t := StepData(b, s, FrameOf(from, b.self.id, key, sid, m));
            && ReceiverOk(b, t, from.self.id, key, sid, epoch)
            && Floor(t, from.self.id) == m.counter
            && t.deliveries == s.deliveries
            && InHand(b, t, from.self.id) == [m]
  {
    var f := FrameOf(from, b.self.id, key, sid, m);
    FramePassesChecks(from, b, key, sid, m);
    assert f.sealed == Box(key, NonceBytes(sid, m.counter), AadBytes(from.self.id, b.self.id, sid, m.counter), m.text);
    hide CheckData, CounterText.Parse, CounterText.Print, NonceBytes, AadBytes, FrameOf;
    assert Decrypt(key, from.self.id, b.self.id, sid, m.counter, f.sealed) == Some(m.text);
  }

  lemma FramePassesChecks(from: Boot, b: Boot, key: Key, sid: SessionId, m: Message)
    requires 0 < |m.text| <= b.maxMessage && 0 < m.counter
    ensures var f := FrameOf(from, b.self.id, key, sid, m);
            f.Data? && f.from == from.self.id && f.sid == sid && CheckData(b, f) == Ok(m.counter)
  {
    hide NonceBytes, AadBytes, CounterText.Parse, CounterText.Print;
    CounterText.CounterRoundTrip(m.counter);
  }

  // ---- The link ----------------------------------------------------------

  ghost predicate Wired(l: Link, key: Key, sid: SessionId, queue: seq<Message>) {
    && |queue| == |l.wire|
    && (forall i | 0 <= i < |queue| :: l.wire[i] == FrameOf(l.x.boot, l.y.boot.self.id, key, sid, queue[i]))
    && (forall i | 0 <= i < |queue| :: 0 < |queue[i].text| <= l.y.boot.maxMessage)
    && Increasing(queue)
  }

  /** The highest counter on the wire, or below it what the receiver has accepted. */
  ghost function Top(l: Link, queue: seq<Message>): nat
    requires l.x.boot.self.id in l.y.state.table
  {
    if |queue| > 0 then queue[|queue| - 1].counter else Floor(l.y.state, l.x.boot.self.id)
  }

  ghost predicate EndsOk(prim: Primitives, l: Link) {
    && Provisioned(l.x.boot, prim) && Provisioned(l.y.boot, prim)
    && Inv(l.x.boot, prim, l.x.state) && Inv(l.y.boot, prim, l.y.state)
    && l.x.boot.maxMessage <= l.y.boot.maxMessage
  }

  /** Mirrored sessions, and everything logged is delivered, in the receiver's hand, or on the wire in order. */
  ghost predicate LinkOk(prim: Primitives, l: Link, key: Key, sid: SessionId, epoch: nat, queue: seq<Message>) {
    && EndsOk(prim, l)
    && Wired(l, key, sid, queue)
    && ReceiverOk(l.y.boot, l.y.state, l.x.boot.self.id, key, sid, epoch)
    && SenderOk(l.x.state, l.y.boot.self.id, key, sid, Top(l, queue))
    && (|queue| > 0 ==> queue[0].counter > Floor(l.y.state, l.x.boot.self.id))
    && l.log == DeliveredIn(l.y.state.deliveries, epoch) + InHand(l.y.boot, l.y.state, l.x.boot.self.id) + queue
  }

  lemma EndsAdvance(prim: Primitives, l: Link, e: Event)
    requires EndsOk(prim, l)
    ensures EndsOk(prim, l.(x := Advance(prim, l.x, e)))
    ensures EndsOk(prim, l.(y := Advance(prim, l.y, e)))
  {
    hide Inv, Provisioned, Step;
    StepKeepsInv(l.x.boot, prim, l.x.state, e);
    StepKeepsInv(l.y.boot, prim, l.y.state, e);
  }

  lemma PendingFits(prim: Primitives, l: Link)
    requires EndsOk(prim, l) && l.x.state.tx.Sealing?
    ensures 0 < |l.x.state.tx.pending.text| <= l.y.boot.maxMessage
  {
    hide DeriveSession;
    var s := l.x.state;
    assert SealOk(l.x.boot, prim, s.installs, AllSeals(s)[|s.seals|]);
  }

  lemma OpeningIsKnown(prim: Primitives, l: Link)
    requires EndsOk(prim, l)
    ensures l.y.state.rx.Opening? ==> l.y.state.rx.from in l.y.state.epoch
    ensures EpochsOk(l.y.state.installs, l.y.state.epoch)
    ensures EncodableId(l.x.boot.self.id) && EncodableId(l.y.boot.self.id)
  {
    hide DeriveSession;
    var s := l.y.state;
    if s.rx.Opening? {
      assert SlotOk(l.y.boot, prim, s.installs, s.epoch, s.rx.from, s.table[s.rx.from]);
    }
  }

  lemma IncreasingAppend(queue: seq<Message>, m: Message)
    requires Increasing(queue) && (|queue| > 0 ==> queue[|queue| - 1].counter < m.counter)
    ensures Increasing(queue + [m])
  {
  }

  lemma SealStep(prim: Primitives, l: Link, fate: Fate, key: Key, sid: SessionId, epoch: nat, queue: seq<Message>)
    returns (queue': seq<Message>)
    requires LinkOk(prim, l, key, sid, epoch, queue)
    ensures LinkOk(prim, LinkStep(prim, l, Finish(fate)), key, sid, epoch, queue')
  {
    hide EndsOk, Encrypt, InHand, DeliveredIn, FrameOf, Floor, ReceiverOk, Wired;
    queue' := queue;
    if l.x.state.tx.Sealing? {
      var r, l' := l.x.state.tx.pending, LinkStep(prim, l, Finish(fate));
      EndsAdvance(prim, l, TxSeal(fate != EncryptionFails));
      PendingFits(prim, l);
      EndsIgnoreWire(prim, l.(x := Advance(prim, l.x, TxSeal(fate != EncryptionFails))), l');
      if l'.wire != l.wire {
        queue' := queue + [Message(r.counter, r.text)];
        WireMore(l, l', key, sid, queue, Message(r.counter, r.text));
      } else {
        WireSame(l, l', key, sid, queue);
      }
    }
  }

  lemma WireMore(l: Link, l': Link, key: Key, sid: SessionId, queue: seq<Message>, m: Message)
    requires Wired(l, key, sid, queue) && l'.x.boot == l.x.boot && l'.y.boot == l.y.boot
    requires l'.wire == l.wire + [FrameOf(l.x.boot, l.y.boot.self.id, key, sid, m)]
    requires 0 < |m.text| <= l.y.boot.maxMessage && (|queue| > 0 ==> queue[|queue| - 1].counter < m.counter)
    ensures Wired(l', key, sid, queue + [m])
  {
    hide FrameOf, Increasing;
    IncreasingAppend(queue, m);
  }

  lemma WireSame(l: Link, l': Link, key: Key, sid: SessionId, queue: seq<Message>)
    requires Wired(l, key, sid, queue)
    requires l'.wire == l.wire && l'.x.boot == l.x.boot && l'.y.boot == l.y.boot
    ensures Wired(l', key, sid, queue)
  {
    hide FrameOf;
  }

  lemma EndsIgnoreWire(prim: Primitives, l: Link, l': Link)
    requires EndsOk(prim, l) && l'.x == l.x && l'.y == l.y
    ensures EndsOk(prim, l')
  {
    hide Inv, Provisioned;
  }

  lemma WireTail(l: Link, l': Link, key: Key, sid: SessionId, queue: seq<Message>)
    requires Wired(l, key, sid, queue) && |queue| > 0
    requires l'.wire == l.wire[1..] && l'.x.boot == l.x.boot && l'.y.boot == l.y.boot
    ensures Wired(l', key, sid, queue[1..])
    ensures |queue| > 1 ==> queue[0].counter < queue[1].counter
  {
    hide FrameOf;
  }

  lemma ReceiveStep(prim: Primitives, l: Link, key: Key, sid: SessionId, epoch: nat, queue: seq<Message>)
    returns (queue': seq<Message>)
    requires LinkOk(prim, l, key, sid, epoch, queue)
    ensures LinkOk(prim, LinkStep(prim, l, Receive), key, sid, epoch, queue')
  {
    hide EndsOk, DeliveredIn, FrameOf, StepData, Increasing;
    queue' := queue;
    if |l.wire| > 0 && l.y.state.rx == RxIdle {
      queue' := queue[1..];
      var l' := LinkStep(prim, l, Receive);
      EndsAdvance(prim, l, RxData(l.wire[0]));
      EndsIgnoreWire(prim, l.(y := Advance(prim, l.y, RxData(l.wire[0]))), l');
      OpeningIsKnown(prim, l);
      ReceiverAccepts(l.x.boot, l.y.boot, l.y.state, key, sid, epoch, queue[0]);
      assert queue == [queue[0]] + queue[1..];
      WireTail(l, l', key, sid, queue);
    }
  }

  lemma SenderMoves(prim: Primitives, l: Link, e: Event, key: Key, sid: SessionId, epoch: nat, queue: seq<Message>)
    requires LinkOk(prim, l, key, sid, epoch, queue)
    ensures LinkOk(prim, LinkStep(prim, l, AtSender(e)), key, sid, epoch, queue)
  {
    hide EndsOk, DeliveredIn, InHand, FrameOf, Step, SenderOk;
    if !e.TxSeal? && KeepsSession(prim, l.x, l.y.boot.self.id, e) {
      EndsAdvance(prim, l, e);
      SenderStep(l.x.boot, prim, l.x.state, e, l.y.boot.self.id, key, sid, Top(l, queue));
      BootsSurvive(prim, l.x, e);
    }
  }

  lemma BootsSurvive(prim: Primitives, d: Endpoint, e: Event)
    ensures Advance(prim, d, e).boot == d.boot
  {
  }

  lemma ReceiverMoves(prim: Primitives, l: Link, e: Event, key: Key, sid: SessionId, epoch: nat, queue: seq<Message>)
    requires LinkOk(prim, l, key, sid, epoch, queue)
    ensures LinkOk(prim, LinkStep(prim, l, AtReceiver(e)), key, sid, epoch, queue)
  {
    hide EndsOk, DeliveredIn, InHand, FrameOf, StepOpen, StepHello, StepData, SenderOk, Floor;
    var p := l.x.boot.self.id;
    if !(e.RxData? && e.data.from == p) && KeepsSession(prim, l.y, p, e) {
      EndsAdvance(prim, l, e);
      OpeningIsKnown(prim, l);
      if e.RxOpen? {
        ReceiverOpen(l.y.boot, l.y.state, p, key, sid, epoch);
      } else {
        ReceiverStep(l.y.boot, prim, l.y.state, e, p, key, sid, epoch);
      }
      hide Step;
    }
  }

  lemma {:induction false} LinkRunOk(prim: Primitives, l: Link, es: seq<LinkEvent>,
                                     key: Key, sid: SessionId, epoch: nat, queue: seq<Message>)
    returns (queue': seq<Message>)
    requires LinkOk(prim, l, key, sid, epoch, queue)
    ensures LinkOk(prim, LinkRun(prim, l, es), key, sid, epoch, queue')
    decreases |es|
  {
    hide LinkOk, LinkStep;
    queue' := queue;
    if |es| == 0 {
    } else {
      match es[0] {
        case Finish(fate) => queue' := SealStep(prim, l, fate, key, sid, epoch, queue);
        case Receive => queue' := ReceiveStep(prim, l, key, sid, epoch, queue);
        case AtSender(e) => SenderMoves(prim, l, e, key, sid, epoch, queue);
        case AtReceiver(e) => ReceiverMoves(prim, l, e, key, sid, epoch, queue);
      }
      queue' := LinkRunOk(prim, LinkStep(prim, l, es[0]), es[1..], key, sid, epoch, queue');
    }
  }

  // ---- The result --------------------------------------------------------

  /** Two devices whose sessions with each other mirror, with nothing in flight: the receiver has accepted
      nothing beyond the sender's counter, and logs what it has delivered in this session. */
  ghost predicate Mirrored(prim: Primitives, x: Endpoint, y: Endpoint) {
    && EndsOk(prim, Link(x, y, [], []))
    && y.boot.self.id in x.state.table && x.state.table[y.boot.self.id].established
    && x.boot.self.id in y.state.table && y.state.table[x.boot.self.id].established
    && x.state.table[y.boot.self.id].tx == y.state.table[x.boot.self.id].rx
    && x.state.table[y.boot.self.id].sid == y.state.table[x.boot.self.id].sid
    && y.state.table[x.boot.self.id].rxCounter <= x.state.table[y.boot.self.id].txCounter
    && x.state.tx == TxIdle && !y.state.rx.Opening?
  }

  lemma MirroredIsLinked(prim: Primitives, x: Endpoint, y: Endpoint)
    requires Mirrored(prim, x, y) && x.boot.self.id in y.state.epoch
    ensures var epoch, slot := y.state.epoch[x.boot.self.id], y.state.table[x.boot.self.id];
            LinkOk(prim, Link(x, y, [], DeliveredIn(y.state.deliveries, epoch)), slot.rx, slot.sid, epoch, [])
  {
    hide EndsOk, DeliveredIn;
    var epoch := y.state.epoch[x.boot.self.id];
    EndsIgnoreWire(prim, Link(x, y, [], []), Link(x, y, [], DeliveredIn(y.state.deliveries, epoch)));
  }

  /** After any run that ends with nothing on the wire and nothing in the receiver's hand, the messages
      delivered in the session are exactly those delivered before and those put on the wire since, in order. */
  lemma Completeness(prim: Primitives, x: Endpoint, y: Endpoint, es: seq<LinkEvent>)
    requires Mirrored(prim, x, y)
    requires x.boot.self.id in y.state.epoch
    requires var before := DeliveredIn(y.state.deliveries, y.state.epoch[x.boot.self.id]);
             var l := LinkRun(prim, Link(x, y, [], before), es);
             l.wire == [] && !l.y.state.rx.Opening?
    ensures var epoch := y.state.epoch[x.boot.self.id];
            var l := LinkRun(prim, Link(x, y, [], DeliveredIn(y.state.deliveries, epoch)), es);
            DeliveredIn(l.y.state.deliveries, epoch) == l.log
  {
    MirroredIsLinked(prim, x, y);
    hide LinkRun, DeliveredIn;
    var epoch := y.state.epoch[x.boot.self.id];
    var l := Link(x, y, [], DeliveredIn(y.state.deliveries, epoch));
    var slot := y.state.table[x.boot.self.id];
    hide EndsOk;
    var queue := LinkRunOk(prim, l, es, slot.rx, slot.sid, epoch, []);
  }

  /** At no point of a run is a frame of the channel refused: receiving it leads to the message in hand, and
      opening that delivers it. */
  lemma NothingIsRefused(prim: Primitives, l: Link, key: Key, sid: SessionId, epoch: nat, queue: seq<Message>)
    requires LinkOk(prim, l, key, sid, epoch, queue) && |l.wire| > 0 && l.y.state.rx == RxIdle
    ensures var t := LinkStep(prim, LinkStep(prim, l, Receive), AtReceiver(RxOpen));
            DeliveredIn(t.y.state.deliveries, epoch) == DeliveredIn(l.y.state.deliveries, epoch) + [queue[0]]
  {
    hide LinkOk, LinkStep, DeliveredIn;
    var u := LinkStep(prim, l, Receive);
    var queue' := ReceiveStep(prim, l, key, sid, epoch, queue);
    ReceivingTakesInHand(prim, l, key, sid, epoch, queue);
    OpeningDelivers(prim, u, key, sid, epoch, queue');
  }

  lemma ReceivingTakesInHand(prim: Primitives, l: Link, key: Key, sid: SessionId, epoch: nat, queue: seq<Message>)
    requires LinkOk(prim, l, key, sid, epoch, queue) && |l.wire| > 0 && l.y.state.rx == RxIdle
    ensures var u := LinkStep(prim, l, Receive);
            u.y.state.deliveries == l.y.state.deliveries && u.x == l.x && u.y.boot == l.y.boot
            && InHand(l.y.boot, u.y.state, l.x.boot.self.id) == [queue[0]]
  {
    hide EndsOk, DeliveredIn, FrameOf, StepData, SenderOk, ReceiverOk;
    OpeningIsKnown(prim, l);
    ReceiverAccepts(l.x.boot, l.y.boot, l.y.state, key, sid, epoch, queue[0]);
  }

  lemma OpeningDelivers(prim: Primitives, l: Link, key: Key, sid: SessionId, epoch: nat, queue: seq<Message>)
    requires LinkOk(prim, l, key, sid, epoch, queue)
    ensures var t := LinkStep(prim, l, AtReceiver(RxOpen));
            DeliveredIn(t.y.state.deliveries, epoch)
            == DeliveredIn(l.y.state.deliveries, epoch) + InHand(l.y.boot, l.y.state, l.x.boot.self.id)
  {
    hide EndsOk, DeliveredIn, FrameOf, SenderOk, ReceiverOk, StepOpen, InHand;
    OpeningIsKnown(prim, l);
    ReceiverOpen(l.y.boot, l.y.state, l.x.boot.self.id, key, sid, epoch);
    OpenEmptiesHand(l.y.boot, l.y.state, l.x.boot.self.id);
  }

  lemma OpenEmptiesHand(b: Boot, s: State, p: Id)
    ensures InHand(b, StepOpen(b, s), p) == []
  {
    hide Decrypt;
  }
}
