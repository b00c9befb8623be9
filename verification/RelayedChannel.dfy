/**
 * Completeness through the relay: the channel between two devices is a lane of the relay, kept settled. Whatever other
 * devices and connections do at the relay, every message that left the sender is delivered, once and in order.
 */
module RelayedChannel {
  import opened Bytes
  import opened Encoding
  import opened Crypto
  import opened Protocol
  import opened Device
  import opened Channel
  import opened EndToEnd
  import opened Lanes
  import Relay
  import RelayLedger

  datatype Path = Path(x: Endpoint, y: Endpoint, way: Way, relay: Relay.State, log: seq<Message>)

  datatype PathEvent =
    | Send(fate: Fate)                  // a message whose counter was taken is sealed and sent, or is not
    | Chatter(line: Bytes)              // the sender sends any other line
    | Upload(conn: Relay.Conn)          // the relay reads a line on a connection of the sender
    | AtRelay(step: Relay.Event)        // anything else at the relay
    | Download                          // the receiver reads the next line that came from the sender
    | Locally(atSender: bool, event: Event)

  function LaneOf(p: Path): Lane {
    Lane(p.x.boot.self.id, p.y.boot.self.id, false)
  }

  // ---- Steps -------------------------------------------------------------

  function SendStep(prim: Primitives, codec: Codec, p: Path, fate: Fate): Path {
    var l := LinkStep(prim, Link(p.x, p.y, [], p.log), Finish(fate));
    p.(x := l.x, log := l.log,
       way := if |l.wire| == 1 then p.way.(up := p.way.up + [Printed(codec, l.wire[0])]) else p.way)
  }

  function DownloadStep(prim: Primitives, codec: Codec, p: Path): Path {
    var x, y := p.x.boot.self.id, p.y.boot.self.id;
    if p.y.state.rx != RxIdle || p.way.seen >= |Written(p.relay, x, y)| then p
    else
      var next := p.way.(seen := p.way.seen + 1);
      match codec.read(Relay.Framed(Written(p.relay, x, y)[p.way.seen]))
      case None => p.(way := next)
      case Some(f) =>
        var e := if f.Hello? then RxHello(f) else RxData(f);
        if KeepsSession(prim, p.y, x, e) then p.(y := Advance(prim, p.y, e), way := next) else p
  }

  function UploadStep(codec: Codec, allowed: set<Id>, p: Path, c: Relay.Conn): Path {
    if |p.way.up| == 0 || !IsConnectionOf(p.relay, c, p.x.boot.self.id) then p
    else
      p.(way := p.way.(up := p.way.up[1..]), relay := Relay.Step(allowed, p.relay, Reading(codec, c, p.way.up[0])))
  }

  function PathStep(prim: Primitives, codec: Codec, allowed: set<Id>, p: Path, e: PathEvent): Path {
    match e
    case Send(fate) => SendStep(prim, codec, p, fate)
    case Chatter(line) =>
      if Carried(codec, LaneOf(p), line) == [] then p.(way := p.way.(up := p.way.up + [line])) else p
    case Upload(c) => UploadStep(codec, allowed, p, c)
    case AtRelay(re) =>
      if ForwardsFor(p.relay, re, p.x.boot.self.id) then p else p.(relay := Relay.Step(allowed, p.relay, re))
    case Download => DownloadStep(prim, codec, p)
    case Locally(atSender, le) =>
      var l := LinkStep(prim, Link(p.x, p.y, [], p.log), if atSender then AtSender(le) else AtReceiver(le));
      p.(x := l.x, y := l.y)
  }

  function PathRun(prim: Primitives, codec: Codec, allowed: set<Id>, p: Path, es: seq<PathEvent>): Path
    decreases |es|
  {
    if |es| == 0 then p else PathRun(prim, codec, allowed, PathStep(prim, codec, allowed, p, es[0]), es[1..])
  }

  /** What the event does at the relay keeps its link to y settled. */
  predicate CalmAt(codec: Codec, allowed: set<Id>, p: Path, e: PathEvent) {
    match e
    case Upload(c) =>
      |p.way.up| > 0 && IsConnectionOf(p.relay, c, p.x.boot.self.id) ==>
        RelayLedger.Calm(allowed, p.relay, Reading(codec, c, p.way.up[0]), p.y.boot.self.id)
    case AtRelay(re) => RelayLedger.Calm(allowed, p.relay, re, p.y.boot.self.id)
    case _ => true
  }

  predicate CalmPath(prim: Primitives, codec: Codec, allowed: set<Id>, p: Path, es: seq<PathEvent>)
    decreases |es|
  {
    |es| == 0
    || (CalmAt(codec, allowed, p, es[0])
        && CalmPath(prim, codec, allowed, PathStep(prim, codec, allowed, p, es[0]), es[1..]))
  }

  // ---- The channel it implements -----------------------------------------

  function AsLink(codec: Codec, p: Path): Link {
    Link(p.x, p.y, Pending(codec, p.relay, LaneOf(p), p.way), p.log)
  }

  /** Parsing undoes printing, for the data frames of one session, and they are short enough for the relay. */
  ghost predicate CodecOk(codec: Codec, b: Boot, y: Id, key: Key, sid: SessionId) {
    forall m: Message | m.counter > 0 && 0 < |m.text| <= b.maxMessage ::
      var f := FrameOf(b, y, key, sid, m);
      && Carried(codec, Lane(b.self.id, y, false), Printed(codec, f)) == [f]
      && Passable(codec, b.self.id, y, Printed(codec, f))
  }

  ghost predicate PathOk(codec: Codec, allowed: set<Id>, p: Path) {
    WayOk(codec, allowed, p.relay, LaneOf(p), p.way)
  }

  // ---- Refinement --------------------------------------------------------

  /** Sending puts on any channel what it would put on an empty one. */
  lemma FinishIgnoresWire(prim: Primitives, l: Link, fate: Fate)
    ensures var t := LinkStep(prim, Link(l.x, l.y, [], l.log), Finish(fate));
            && LinkStep(prim, l, Finish(fate)) == Link(t.x, l.y, l.wire + t.wire, t.log)
            && |t.wire| <= 1
            && t.x.boot == l.x.boot && t.y == l.y
  {
  }

  lemma SentFrame(prim: Primitives, l: Link, fate: Fate, key: Key, sid: SessionId, epoch: nat, queue: seq<Message>)
    requires LinkOk(prim, l, key, sid, epoch, queue)
    ensures var t := LinkStep(prim, Link(l.x, l.y, [], l.log), Finish(fate));
            |t.wire| == 1 ==>
              exists m: Message | m.counter > 0 && 0 < |m.text| <= l.x.boot.maxMessage ::
                t.wire[0] == FrameOf(l.x.boot, l.y.boot.self.id, key, sid, m)
  {
    hide FrameOf, DeliveredIn, InHand, ReceiverOk, Wired;
    if l.x.state.tx.Sealing? {
      PendingIsLegal(prim, l);
    }
  }

  lemma PendingIsLegal(prim: Primitives, l: Link)
    requires EndsOk(prim, l) && l.x.state.tx.Sealing?
    ensures l.x.state.tx.pending.counter > 0 && 0 < |l.x.state.tx.pending.text| <= l.x.boot.maxMessage
  {
    hide DeriveSession;
    var s := l.x.state;
    assert SealOk(l.x.boot, prim, s.installs, AllSeals(s)[|s.seals|]);
  }

  lemma SendRefines(prim: Primitives, codec: Codec, allowed: set<Id>, p: Path, fate: Fate,
                    key: Key, sid: SessionId, epoch: nat, queue: seq<Message>)
    requires PathOk(codec, allowed, p) && CodecOk(codec, p.x.boot, p.y.boot.self.id, key, sid)
    requires LinkOk(prim, AsLink(codec, p), key, sid, epoch, queue)
    ensures var q := SendStep(prim, codec, p, fate);
            PathOk(codec, allowed, q) && AsLink(codec, q) == LinkStep(prim, AsLink(codec, p), Finish(fate))
  {
    hide LinkOk, LinkStep, WayOk, Pending, FrameOf, Passable, Carried, Printed;
    var l := AsLink(codec, p);
    FinishIgnoresWire(prim, l, fate);
    SentFrame(prim, l, fate, key, sid, epoch, queue);
    var t := LinkStep(prim, Link(p.x, p.y, [], p.log), Finish(fate));
    if |t.wire| == 1 {
      var m: Message :| m.counter > 0 && 0 < |m.text| <= p.x.boot.maxMessage
                        && t.wire[0] == FrameOf(p.x.boot, p.y.boot.self.id, key, sid, m);
      SendingAdds(codec, allowed, p.relay, LaneOf(p), p.way, Printed(codec, t.wire[0]));
      assert t.wire == [t.wire[0]];
    } else {
      assert t.wire == [] && l.wire + [] == l.wire;
    }
  }

  lemma ChatterRefines(codec: Codec, allowed: set<Id>, p: Path, line: Bytes)
    requires PathOk(codec, allowed, p) && Carried(codec, LaneOf(p), line) == []
    ensures var q := p.(way := p.way.(up := p.way.up + [line]));
            PathOk(codec, allowed, q) && AsLink(codec, q) == AsLink(codec, p)
  {
    hide WayOk, Pending, Carried;
    SendingAdds(codec, allowed, p.relay, LaneOf(p), p.way, line);
    var wire := Pending(codec, p.relay, LaneOf(p), p.way);
    assert wire + [] == wire;
  }

  /** Reading a line is receiving the frame it carries, handling another frame, or nothing. */
  lemma DownloadRefines(prim: Primitives, codec: Codec, allowed: set<Id>, p: Path) returns (es: seq<LinkEvent>)
    requires PathOk(codec, allowed, p)
    ensures var q := DownloadStep(prim, codec, p);
            && PathOk(codec, allowed, q) && |es| <= 1
            && AsLink(codec, q) == if |es| == 0 then AsLink(codec, p) else LinkStep(prim, AsLink(codec, p), es[0])
  {
    hide WayOk, Pending, Written, Relay.Framed, Step, KeepsSession;
    var q := DownloadStep(prim, codec, p);
    es := [];
    if q != p {
      var line := Written(p.relay, p.x.boot.self.id, p.y.boot.self.id)[p.way.seen];
      var next := p.way.(seen := p.way.seen + 1);
      ReadingTakesOldest(codec, allowed, p.relay, LaneOf(p), p.way);
      var wire := Pending(codec, p.relay, LaneOf(p), next);
      assert LaneOf(q) == LaneOf(p) && q.way == next;
      if Carried(codec, LaneOf(p), line) == [] {
        assert [] + wire == wire;
        es := OtherLine(prim, codec, p, line, wire);
      } else {
        var f := codec.read(Relay.Framed(line)).value;
        assert Carried(codec, LaneOf(p), line) == [f];
        assert ([f] + wire)[1..] == wire;
        es := [Receive];
      }
    }
  }

  /** A line that carries no data frame from x to y is a local matter of the receiver. */
  lemma OtherLine(prim: Primitives, codec: Codec, p: Path, line: Bytes, wire: seq<Frame>) returns (es: seq<LinkEvent>)
    requires p.y.state.rx == RxIdle && p.way.seen < |Written(p.relay, p.x.boot.self.id, p.y.boot.self.id)|
    requires line == Written(p.relay, p.x.boot.self.id, p.y.boot.self.id)[p.way.seen]
    requires Carried(codec, LaneOf(p), line) == [] && DownloadStep(prim, codec, p) != p
    ensures var q, l := DownloadStep(prim, codec, p), Link(p.x, p.y, wire, p.log);
            && |es| <= 1
            && l.(y := q.y) == if |es| == 0 then l else LinkStep(prim, l, es[0])
  {
    hide Written, Relay.Framed, Step, KeepsSession;
    es := [];
    match codec.read(Relay.Framed(line)) {
      case None =>
      case Some(f) =>
        if f.Data? && f.from == p.x.boot.self.id {
          MisaddressedIsIgnored(prim, p.y, f);
        } else {
          es := [AtReceiver(if f.Hello? then RxHello(f) else RxData(f))];
        }
    }
  }

  lemma MisaddressedIsIgnored(prim: Primitives, y: Endpoint, f: Frame)
    requires f.Data? && f.to != y.boot.self.id
    ensures Advance(prim, y, RxData(f)) == y
  {
  }

  lemma LocalRefines(prim: Primitives, codec: Codec, allowed: set<Id>, p: Path, le: LinkEvent)
    requires PathOk(codec, allowed, p)
    requires le.AtSender? || le.AtReceiver?
    ensures var l := LinkStep(prim, Link(p.x, p.y, [], p.log), le);
            var q := p.(x := l.x, y := l.y);
            PathOk(codec, allowed, q) && AsLink(codec, q) == LinkStep(prim, AsLink(codec, p), le)
  {
    hide WayOk, Pending, Step, KeepsSession;
  }

  /** The events of the channel that a path event stands for: one or none. */
  lemma PathStepRefines(prim: Primitives, codec: Codec, allowed: set<Id>, p: Path, e: PathEvent,
                        key: Key, sid: SessionId, epoch: nat, queue: seq<Message>) returns (es: seq<LinkEvent>)
    requires PathOk(codec, allowed, p) && CodecOk(codec, p.x.boot, p.y.boot.self.id, key, sid)
    requires LinkOk(prim, AsLink(codec, p), key, sid, epoch, queue)
    requires CalmAt(codec, allowed, p, e)
    ensures var q := PathStep(prim, codec, allowed, p, e);
            && PathOk(codec, allowed, q) && |es| <= 1
            && AsLink(codec, q) == if |es| == 0 then AsLink(codec, p) else LinkStep(prim, AsLink(codec, p), es[0])
  {
    hide LinkOk, CodecOk, WayOk, Pending, LinkStep, SendStep, DownloadStep, RelayLedger.Calm, Relay.Step;
    es := [];
    match e
    case Send(fate) =>
      SendRefines(prim, codec, allowed, p, fate, key, sid, epoch, queue);
      es := [Finish(fate)];
    case Chatter(line) =>
      if Carried(codec, LaneOf(p), line) == [] {
        ChatterRefines(codec, allowed, p, line);
      }
    case Upload(c) =>
      if |p.way.up| > 0 && IsConnectionOf(p.relay, c, p.x.boot.self.id) {
        UploadMovesNothing(codec, allowed, p.relay, LaneOf(p), p.way, c);
      }
    case AtRelay(re) =>
      if !ForwardsFor(p.relay, re, p.x.boot.self.id) {
        RelayMovesNothing(codec, allowed, p.relay, LaneOf(p), p.way, re);
      }
    case Download => es := DownloadRefines(prim, codec, allowed, p);
    case Locally(atSender, le) =>
      es := [if atSender then AtSender(le) else AtReceiver(le)];
      LocalRefines(prim, codec, allowed, p, es[0]);
  }

  lemma StepKeepsBoots(prim: Primitives, codec: Codec, allowed: set<Id>, p: Path, e: PathEvent)
    ensures var q := PathStep(prim, codec, allowed, p, e); q.x.boot == p.x.boot && q.y.boot == p.y.boot
  {
    hide Step, Relay.Step, Carried;
  }

  lemma LinkStepOk(prim: Primitives, l: Link, e: LinkEvent, key: Key, sid: SessionId, epoch: nat, queue: seq<Message>)
    returns (queue': seq<Message>)
    requires LinkOk(prim, l, key, sid, epoch, queue)
    ensures LinkRun(prim, l, [e]) == LinkStep(prim, l, e)
    ensures LinkOk(prim, LinkStep(prim, l, e), key, sid, epoch, queue')
  {
    hide LinkOk, LinkStep;
    assert LinkRun(prim, LinkStep(prim, l, e), []) == LinkStep(prim, l, e);
    assert [e][1..] == [];
    queue' := LinkRunOk(prim, l, [e], key, sid, epoch, queue);
  }

  /** A calm run over the relay is a run of an in-order lossless channel. */
  lemma {:induction false} PathRunRefines(prim: Primitives, codec: Codec, allowed: set<Id>, p: Path, es: seq<PathEvent>,
                                          key: Key, sid: SessionId, epoch: nat, queue: seq<Message>)
    returns (ls: seq<LinkEvent>)
    requires PathOk(codec, allowed, p) && CodecOk(codec, p.x.boot, p.y.boot.self.id, key, sid)
    requires LinkOk(prim, AsLink(codec, p), key, sid, epoch, queue)
    requires CalmPath(prim, codec, allowed, p, es)
    ensures var q := PathRun(prim, codec, allowed, p, es);
            PathOk(codec, allowed, q) && AsLink(codec, q) == LinkRun(prim, AsLink(codec, p), ls)
    decreases |es|
  {
    hide LinkOk, CodecOk, PathOk, AsLink, LinkStep, PathStep, CalmAt;
    if |es| == 0 {
      ls := [];
    } else {
      var q := PathStep(prim, codec, allowed, p, es[0]);
      var first := PathStepRefines(prim, codec, allowed, p, es[0], key, sid, epoch, queue);
      StepKeepsBoots(prim, codec, allowed, p, es[0]);
      var queue' := queue;
      if |first| == 1 {
        queue' := LinkStepOk(prim, AsLink(codec, p), first[0], key, sid, epoch, queue);
      }
      var rest := PathRunRefines(prim, codec, allowed, q, es[1..], key, sid, epoch, queue');
      ls := first + rest;
      if |first| == 1 {
        assert ls[0] == first[0] && ls[1..] == rest;
      } else {
        assert ls == rest;
      }
    }
  }

  // ---- The result --------------------------------------------------------

  /** Everything that left the sender was accepted, written and read, and nothing is being opened. */
  predicate AtRest(p: Path) {
    Drained(p.relay, LaneOf(p), p.way) && !p.y.state.rx.Opening?
  }

  /**
   * Two devices hold mirrored sessions, everything sent so far has arrived, and the relay's link to the receiver is
   * settled. After any run over the relay that is calm for the receiver and ends at rest, the messages delivered in the
   * session are exactly those delivered before and those sent since, in order.
   */
  lemma RelayedCompleteness(prim: Primitives, codec: Codec, allowed: set<Id>, p: Path, es: seq<PathEvent>)
    requires Mirrored(prim, p.x, p.y) && p.x.boot.self.id in p.y.state.epoch
    requires PathOk(codec, allowed, p) && AtRest(p)
    requires p.log == DeliveredIn(p.y.state.deliveries, p.y.state.epoch[p.x.boot.self.id])
    requires var slot := p.y.state.table[p.x.boot.self.id];
             CodecOk(codec, p.x.boot, p.y.boot.self.id, slot.rx, slot.sid)
    requires CalmPath(prim, codec, allowed, p, es)
    requires AtRest(PathRun(prim, codec, allowed, p, es))
    ensures var q := PathRun(prim, codec, allowed, p, es);
            DeliveredIn(q.y.state.deliveries, p.y.state.epoch[p.x.boot.self.id]) == q.log
  {
    var epoch, slot, l := p.y.state.epoch[p.x.boot.self.id], p.y.state.table[p.x.boot.self.id], AsLink(codec, p);
    hide Mirrored, PathOk, CodecOk, LinkOk, LinkRun, PathRun, CalmPath, Pending, DeliveredIn, Drained;
    DrainedIsEmpty(codec, p.relay, LaneOf(p), p.way);
    MirroredIsLinked(prim, p.x, p.y);
    var ls := PathRunRefines(prim, codec, allowed, p, es, slot.rx, slot.sid, epoch, []);
    var q := PathRun(prim, codec, allowed, p, es);
    DrainedIsEmpty(codec, q.relay, LaneOf(q), q.way);
    Completeness(prim, p.x, p.y, ls);
  }
}
