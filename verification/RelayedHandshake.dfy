/**
 * The hello exchange through the relay: the two inboxes are the two lanes between the devices, both kept settled by the
 * relay. Whatever else the two devices, others and the relay do, the exchange stops, and at rest both ends agree.
 */
module RelayedHandshake {
  import opened Bytes
  import opened Encoding
  import opened Crypto
  import opened Protocol
  import opened Device
  import opened Lanes
  import opened StartUp
  import opened Wrappers
  import Handshake
  import Relay
  import RelayLedger

  /** A device, the lines it sent that the relay has not read, and how many frames from the other one it has read. */
  datatype Side = Side(boot: Boot, state: State, up: seq<Bytes>, seen: nat)

  datatype Pair = Pair(a: Side, b: Side, relay: Relay.State)

  datatype PairEvent =
    | Answer(atA: bool)                        // the reply to the other device, or its mark
    | Download(atA: bool)                      // the next line from the other device is read
    | Locally(atA: bool, event: Event)         // anything that is not part of the exchange
    | Chatter(atA: bool, line: Bytes)          // any line but a hello to the other device is sent
    | Upload(atA: bool, conn: Relay.Conn)      // the relay reads a line on a connection of this device
    | AtRelay(step: Relay.Event)               // anything else at the relay

  // ---- Steps of one device -----------------------------------------------

  function LaneTo(x: Side, y: Side): Lane {
    Lane(x.boot.self.id, y.boot.self.id, true)
  }

  function WayTo(x: Side, y: Side): Way {
    Way(x.up, y.seen)
  }

  function AnswerStep(codec: Codec, x: Side, y: Id): Side {
    if x.state.rx == Replying(y)
    then x.(state := StepReply(x.boot, x.state, true), up := x.up + [Printed(codec, MakeHello(x.boot, y))])
    else if x.state.rx == RxMarking(y) then x.(state := StepRxMark(x.state))
    else x
  }

  function DownloadStep(prim: Primitives, codec: Codec, relay: Relay.State, x: Side, y: Id): Side {
    if x.state.rx != RxIdle || x.seen >= |Written(relay, y, x.boot.self.id)| then x
    else
      match codec.read(Relay.Framed(Written(relay, y, x.boot.self.id)[x.seen]))
      case None => x.(seen := x.seen + 1)
      case Some(f) =>
        if f.Hello? && f.from == y then x.(state := StepHello(x.boot, prim, x.state, f), seen := x.seen + 1)
        else
          var e := if f.Hello? then RxHello(f) else RxData(f);
          if Handshake.IsAside(prim, x.boot, x.state, y, e)
          then x.(state := Step(x.boot, prim, x.state, e), seen := x.seen + 1)
          else x
  }

  function SideStep(prim: Primitives, codec: Codec, relay: Relay.State, x: Side, y: Side, e: PairEvent): Side {
    match e
    case Answer(_) => AnswerStep(codec, x, y.boot.self.id)
    case Download(_) => DownloadStep(prim, codec, relay, x, y.boot.self.id)
    case Locally(_, le) =>
      if Handshake.IsAside(prim, x.boot, x.state, y.boot.self.id, le)
      then x.(state := Step(x.boot, prim, x.state, le)) else x
    case Chatter(_, line) => if Carried(codec, LaneTo(x, y), line) == [] then x.(up := x.up + [line]) else x
    case _ => x
  }

  // ---- Steps of the pair -------------------------------------------------

  /** What happens at the relay, if anything. */
  function RelayEvent(codec: Codec, p: Pair, e: PairEvent): Option<Relay.Event> {
    match e
    case Upload(atA, c) =>
      var x := if atA then p.a else p.b;
      if |x.up| > 0 && IsConnectionOf(p.relay, c, x.boot.self.id) then Some(Reading(codec, c, x.up[0])) else None
    case AtRelay(re) =>
      if ForwardsFor(p.relay, re, p.a.boot.self.id) || ForwardsFor(p.relay, re, p.b.boot.self.id) then None
      else Some(re)
    case _ => None
  }

  function PairStep(prim: Primitives, codec: Codec, allowed: set<Id>, p: Pair, e: PairEvent): Pair {
    match RelayEvent(codec, p, e)
    case Some(re) =>
      var q := p.(relay := Relay.Step(allowed, p.relay, re));
      if e.AtRelay? then q
      else if e.atA then q.(a := p.a.(up := p.a.up[1..]))
      else q.(b := p.b.(up := p.b.up[1..]))
    case None =>
      if e.AtRelay? then p
      else if e.atA then p.(a := SideStep(prim, codec, p.relay, p.a, p.b, e))
      else p.(b := SideStep(prim, codec, p.relay, p.b, p.a, e))
  }

  function PairRun(prim: Primitives, codec: Codec, allowed: set<Id>, p: Pair, es: seq<PairEvent>): Pair
    decreases |es|
  {
    if |es| == 0 then p else PairRun(prim, codec, allowed, PairStep(prim, codec, allowed, p, es[0]), es[1..])
  }

  /** What the event does at the relay keeps both links settled. */
  predicate CalmAt(codec: Codec, allowed: set<Id>, p: Pair, e: PairEvent) {
    match RelayEvent(codec, p, e)
    case None => true
    case Some(re) =>
      && RelayLedger.Calm(allowed, p.relay, re, p.a.boot.self.id)
      && RelayLedger.Calm(allowed, p.relay, re, p.b.boot.self.id)
  }

  predicate CalmPair(prim: Primitives, codec: Codec, allowed: set<Id>, p: Pair, es: seq<PairEvent>)
    decreases |es|
  {
    |es| == 0
    || (CalmAt(codec, allowed, p, es[0])
        && CalmPair(prim, codec, allowed, PairStep(prim, codec, allowed, p, es[0]), es[1..]))
  }

  // ---- The link it implements --------------------------------------------

  function AsEnd(codec: Codec, relay: Relay.State, x: Side, y: Side): Handshake.End {
    Handshake.End(x.boot, x.state, Pending(codec, relay, LaneTo(y, x), WayTo(y, x)))
  }

  function AsLink(codec: Codec, p: Pair): Handshake.Link {
    Handshake.Link(AsEnd(codec, p.relay, p.a, p.b), AsEnd(codec, p.relay, p.b, p.a))
  }

  ghost predicate BothWays(codec: Codec, allowed: set<Id>, relay: Relay.State, x: Side, y: Side) {
    && WayOk(codec, allowed, relay, LaneTo(x, y), WayTo(x, y))
    && WayOk(codec, allowed, relay, LaneTo(y, x), WayTo(y, x))
  }

  /** Parsing undoes printing of each device's hellos, and those to the other one pass the relay. */
  ghost predicate HelloCodecOk(codec: Codec, x: Boot, y: Id) {
    && (forall to | to in x.peers ::
          codec.read(Relay.Framed(Printed(codec, MakeHello(x, to)))) == Some(MakeHello(x, to)))
    && Passable(codec, x.self.id, y, Printed(codec, MakeHello(x, y)))
  }

  ghost predicate CodecOk(codec: Codec, p: Pair) {
    && HelloCodecOk(codec, p.a.boot, p.b.boot.self.id)
    && HelloCodecOk(codec, p.b.boot, p.a.boot.self.id)
    && p.b.boot.self.id in p.a.boot.peers && p.a.boot.self.id in p.b.boot.peers
  }

  ghost predicate PairOk(codec: Codec, allowed: set<Id>, p: Pair) {
    && p.a.boot.self.id != p.b.boot.self.id
    && BothWays(codec, allowed, p.relay, p.a, p.b)
  }

  // ---- Refinement, one device --------------------------------------------

  lemma HelloIsCarried(codec: Codec, x: Side, y: Side)
    requires HelloCodecOk(codec, x.boot, y.boot.self.id) && y.boot.self.id in x.boot.peers
    ensures var f := MakeHello(x.boot, y.boot.self.id);
            && Carried(codec, LaneTo(x, y), Printed(codec, f)) == [f]
            && Passable(codec, x.boot.self.id, y.boot.self.id, Printed(codec, f))
  {
    hide HelloBytes, Printed, Relay.Framed;
  }

  /** The turn of the exchange that a step of x stands for: at most one. */
  ghost predicate Refines(prim: Primitives, codec: Codec, relay: Relay.State, x: Side, x': Side, y: Side,
                          turns: seq<Handshake.Turn>) {
    var l := Handshake.Link(AsEnd(codec, relay, x, y), AsEnd(codec, relay, y, x));
    var m := Handshake.Link(AsEnd(codec, relay, x', y), AsEnd(codec, relay, y, x'));
    && |turns| <= 1
    && x'.boot == x.boot
    && if |turns| == 0 then m == l else Handshake.Act(prim, l.a, l.b, turns[0]) == Some(m)
  }

  lemma AnswerRefines(prim: Primitives, codec: Codec, allowed: set<Id>, relay: Relay.State, x: Side, y: Side, atA: bool)
    returns (turns: seq<Handshake.Turn>)
    requires BothWays(codec, allowed, relay, x, y)
    requires HelloCodecOk(codec, x.boot, y.boot.self.id) && y.boot.self.id in x.boot.peers
    ensures var x' := AnswerStep(codec, x, y.boot.self.id);
            BothWays(codec, allowed, relay, x', y) && Refines(prim, codec, relay, x, x', y, turns)
    ensures |turns| == 1 ==> turns[0].atA == atA
  {
    hide WayOk, Pending, StepReply, StepRxMark, MakeHello, Printed, Carried, Passable;
    turns := [];
    var x' := AnswerStep(codec, x, y.boot.self.id);
    if x.state.rx == Replying(y.boot.self.id) {
      HelloIsCarried(codec, x, y);
      SendingAdds(codec, allowed, relay, LaneTo(x, y), WayTo(x, y), Printed(codec, MakeHello(x.boot, y.boot.self.id)));
      assert LaneTo(x', y) == LaneTo(x, y) && LaneTo(y, x') == LaneTo(y, x) && WayTo(y, x') == WayTo(y, x);
      turns := [Handshake.Exchange(atA)];
    } else if x.state.rx == RxMarking(y.boot.self.id) {
      assert LaneTo(x', y) == LaneTo(x, y) && LaneTo(y, x') == LaneTo(y, x);
      assert WayTo(x', y) == WayTo(x, y) && WayTo(y, x') == WayTo(y, x);
      turns := [Handshake.Exchange(atA)];
    }
  }

  lemma ChatterRefines(prim: Primitives, codec: Codec, allowed: set<Id>, relay: Relay.State, x: Side, y: Side,
                       line: Bytes)
    requires BothWays(codec, allowed, relay, x, y) && Carried(codec, LaneTo(x, y), line) == []
    ensures var x' := x.(up := x.up + [line]);
            BothWays(codec, allowed, relay, x', y) && Refines(prim, codec, relay, x, x', y, [])
  {
    hide WayOk, Pending, Carried;
    SendingAdds(codec, allowed, relay, LaneTo(x, y), WayTo(x, y), line);
    var wire := Pending(codec, relay, LaneTo(x, y), WayTo(x, y));
    assert wire + [] == wire;
  }

  /** A hello of the peer that is meant for another device does nothing. */
  lemma MisaddressedHelloIsIgnored(prim: Primitives, b: Boot, s: State, f: Frame)
    requires f.Hello? && f.to != b.self.id
    ensures StepHello(b, prim, s, f) == s
  {
  }

  lemma DownloadRefines(prim: Primitives, codec: Codec, allowed: set<Id>, relay: Relay.State, x: Side, y: Side,
                        atA: bool)
    returns (turns: seq<Handshake.Turn>)
    requires BothWays(codec, allowed, relay, x, y)
    ensures var x' := DownloadStep(prim, codec, relay, x, y.boot.self.id);
            BothWays(codec, allowed, relay, x', y) && Refines(prim, codec, relay, x, x', y, turns)
    ensures |turns| == 1 ==> turns[0].atA == atA
  {
    hide WayOk, Pending, Written, Relay.Framed, StepHello, Step, Handshake.IsAside;
    turns := [];
    var x' := DownloadStep(prim, codec, relay, x, y.boot.self.id);
    if x' != x {
      var line := Written(relay, y.boot.self.id, x.boot.self.id)[x.seen];
      ReadingTakesOldest(codec, allowed, relay, LaneTo(y, x), WayTo(y, x));
      assert LaneTo(x', y) == LaneTo(x, y) && LaneTo(y, x') == LaneTo(y, x) && WayTo(x', y) == WayTo(x, y);
      assert WayTo(y, x') == WayTo(y, x).(seen := x.seen + 1);
      var wire := Pending(codec, relay, LaneTo(y, x), WayTo(y, x'));
      assert [] + wire == wire;
      match codec.read(Relay.Framed(line)) {
        case None =>
        case Some(f) =>
          if f.Hello? && f.from == y.boot.self.id {
            if f.to == x.boot.self.id {
              assert ([f] + wire)[1..] == wire;
              turns := [Handshake.Exchange(atA)];
            } else {
              MisaddressedHelloIsIgnored(prim, x.boot, x.state, f);
            }
          } else {
            turns := [Handshake.Aside(atA, if f.Hello? then RxHello(f) else RxData(f))];
          }
      }
    }
  }

  lemma SideRefines(prim: Primitives, codec: Codec, allowed: set<Id>, relay: Relay.State, x: Side, y: Side,
                    e: PairEvent, atA: bool) returns (turns: seq<Handshake.Turn>)
    requires BothWays(codec, allowed, relay, x, y)
    requires HelloCodecOk(codec, x.boot, y.boot.self.id) && y.boot.self.id in x.boot.peers
    ensures var x' := SideStep(prim, codec, relay, x, y, e);
            BothWays(codec, allowed, relay, x', y) && Refines(prim, codec, relay, x, x', y, turns)
    ensures |turns| == 1 ==> turns[0].atA == atA
  {
    hide WayOk, Pending, HelloCodecOk, AnswerStep, DownloadStep, Step, Handshake.IsAside, Carried;
    turns := [];
    match e
    case Answer(_) => turns := AnswerRefines(prim, codec, allowed, relay, x, y, atA);
    case Download(_) => turns := DownloadRefines(prim, codec, allowed, relay, x, y, atA);
    case Locally(_, le) =>
      if Handshake.IsAside(prim, x.boot, x.state, y.boot.self.id, le) {
        turns := [Handshake.Aside(atA, le)];
      }
    case Chatter(_, line) =>
      if Carried(codec, LaneTo(x, y), line) == [] {
        ChatterRefines(prim, codec, allowed, relay, x, y, line);
      }
    case _ =>
  }

  // ---- Refinement, the relay ---------------------------------------------

  /** A line read from x moves on x's lane, and not at all on y's. */
  lemma UploadRefines(codec: Codec, allowed: set<Id>, relay: Relay.State, x: Side, y: Side, c: Relay.Conn)
    requires BothWays(codec, allowed, relay, x, y) && x.boot.self.id != y.boot.self.id
    requires |x.up| > 0 && IsConnectionOf(relay, c, x.boot.self.id)
    requires RelayLedger.Calm(allowed, relay, Reading(codec, c, x.up[0]), x.boot.self.id)
    requires RelayLedger.Calm(allowed, relay, Reading(codec, c, x.up[0]), y.boot.self.id)
    ensures var t, x' := Relay.Step(allowed, relay, Reading(codec, c, x.up[0])), x.(up := x.up[1..]);
            && BothWays(codec, allowed, t, x', y)
            && AsEnd(codec, t, x', y) == AsEnd(codec, relay, x, y)
            && AsEnd(codec, t, y, x') == AsEnd(codec, relay, y, x)
  {
    hide WayOk, Pending, Relay.Step, RelayLedger.Calm;
    UploadMovesNothing(codec, allowed, relay, LaneTo(x, y), WayTo(x, y), c);
    RelayMovesNothing(codec, allowed, relay, LaneTo(y, x), WayTo(y, x), Reading(codec, c, x.up[0]));
  }

  lemma RelayRefines(codec: Codec, allowed: set<Id>, relay: Relay.State, x: Side, y: Side, e: Relay.Event)
    requires BothWays(codec, allowed, relay, x, y)
    requires !ForwardsFor(relay, e, x.boot.self.id) && !ForwardsFor(relay, e, y.boot.self.id)
    requires RelayLedger.Calm(allowed, relay, e, x.boot.self.id)
    requires RelayLedger.Calm(allowed, relay, e, y.boot.self.id)
    ensures var t := Relay.Step(allowed, relay, e);
            && BothWays(codec, allowed, t, x, y)
            && AsEnd(codec, t, x, y) == AsEnd(codec, relay, x, y)
            && AsEnd(codec, t, y, x) == AsEnd(codec, relay, y, x)
  {
    hide WayOk, Pending, Relay.Step, RelayLedger.Calm;
    RelayMovesNothing(codec, allowed, relay, LaneTo(x, y), WayTo(x, y), e);
    RelayMovesNothing(codec, allowed, relay, LaneTo(y, x), WayTo(y, x), e);
  }

  // ---- Refinement, the pair ----------------------------------------------

  lemma PairStepRefines(prim: Primitives, codec: Codec, allowed: set<Id>, p: Pair, e: PairEvent)
    returns (turns: seq<Handshake.Turn>)
    requires PairOk(codec, allowed, p) && CodecOk(codec, p) && CalmAt(codec, allowed, p, e)
    ensures var q := PairStep(prim, codec, allowed, p, e);
            && PairOk(codec, allowed, q) && CodecOk(codec, q) && |turns| <= 1
            && if |turns| == 0 then AsLink(codec, q) == AsLink(codec, p)
               else Handshake.LinkStep(prim, AsLink(codec, p), turns[0]) == Some(AsLink(codec, q))
  {
    hide WayOk, AsEnd, HelloCodecOk, SideStep, Relay.Step, RelayLedger.Calm, Handshake.Act, IsConnectionOf, Reading;
    turns := [];
    match RelayEvent(codec, p, e)
    case Some(re) =>
      if e.AtRelay? {
        RelayRefines(codec, allowed, p.relay, p.a, p.b, re);
      } else if e.atA {
        UploadRefines(codec, allowed, p.relay, p.a, p.b, e.conn);
      } else {
        UploadRefines(codec, allowed, p.relay, p.b, p.a, e.conn);
      }
    case None =>
      if !e.AtRelay? {
        if e.atA {
          turns := SideRefines(prim, codec, allowed, p.relay, p.a, p.b, e, true);
        } else {
          turns := SideRefines(prim, codec, allowed, p.relay, p.b, p.a, e, false);
        }
      }
  }

  /** A run over the relay that is calm for both is a run of the exchange over lossless in-order links. */
  lemma {:induction false} PairRunRefines(prim: Primitives, codec: Codec, allowed: set<Id>, p: Pair, es: seq<PairEvent>)
    returns (schedule: seq<Handshake.Turn>)
    requires PairOk(codec, allowed, p) && CodecOk(codec, p) && CalmPair(prim, codec, allowed, p, es)
    ensures var q := PairRun(prim, codec, allowed, p, es);
            Handshake.LinkRun(prim, AsLink(codec, p), schedule) == Some(AsLink(codec, q))
    decreases |es|
  {
    hide PairOk, CodecOk, CalmAt, PairStep, AsLink, Handshake.LinkStep;
    if |es| == 0 {
      schedule := [];
    } else {
      var first := PairStepRefines(prim, codec, allowed, p, es[0]);
      var rest := PairRunRefines(prim, codec, allowed, PairStep(prim, codec, allowed, p, es[0]), es[1..]);
      schedule := first + rest;
      if |first| == 1 {
        assert schedule[0] == first[0] && schedule[1..] == rest;
      } else {
        assert schedule == rest;
      }
    }
  }

  // ---- The result --------------------------------------------------------

  /** Nothing is on the way in either direction, and both receivers are idle. */
  predicate AtRest(p: Pair) {
    && Drained(p.relay, LaneTo(p.a, p.b), WayTo(p.a, p.b))
    && Drained(p.relay, LaneTo(p.b, p.a), WayTo(p.b, p.a))
    && p.a.state.rx == RxIdle && p.b.state.rx == RxIdle
  }

  /** Through the relay, whatever it does besides and as long as it keeps both links settled, the exchange has no more
      moves than its measure, and when it has come to rest both devices hold mirrored keys and one session id. */
  lemma RelayedAgreement(prim: Primitives, codec: Codec, allowed: set<Id>, p: Pair, es: seq<PairEvent>)
    returns (schedule: seq<Handshake.Turn>)
    requires PairOk(codec, allowed, p) && CodecOk(codec, p) && Handshake.LinkOk(prim, AsLink(codec, p))
    requires CalmPair(prim, codec, allowed, p, es)
    ensures var q := PairRun(prim, codec, allowed, p, es);
            && Handshake.LinkRun(prim, AsLink(codec, p), schedule) == Some(AsLink(codec, q))
            && Handshake.Exchanges(schedule) <= Handshake.Measure(AsLink(codec, p))
            && (AtRest(q) ==> Handshake.Agreed(AsLink(codec, q).a, AsLink(codec, q).b))
  {
    hide PairOk, CodecOk, CalmPair, PairRun, Pending, Drained;
    hide Handshake.LinkOk, Handshake.LinkRun, Handshake.Measure, Handshake.Agreed;
    schedule := PairRunRefines(prim, codec, allowed, p, es);
    Handshake.ExchangeTerminates(prim, AsLink(codec, p), schedule);
    var q := PairRun(prim, codec, allowed, p, es);
    if AtRest(q) {
      DrainedIsEmpty(codec, q.relay, LaneTo(q.a, q.b), WayTo(q.a, q.b));
      DrainedIsEmpty(codec, q.relay, LaneTo(q.b, q.a), WayTo(q.b, q.a));
      Handshake.ExchangeEndsInAgreement(prim, AsLink(codec, p), schedule);
    }
  }

  // ---- From start-up -----------------------------------------------------

  function HelloLines(codec: Codec, fs: seq<Frame>): seq<Bytes> {
    seq(|fs|, i requires 0 <= i < |fs| => Printed(codec, fs[i]))
  }

  /** A started device has sent its hellos and read nothing. */
  function StartedSide(codec: Codec, x: Starter): Side {
    Side(x.boot, AllGreeted(INIT, x.boot.peers, x.taken), HelloLines(codec, HellosTo(x.boot, x.boot.peers, x.taken)), 0)
  }

  lemma HelloCarriedIff(codec: Codec, b: Boot, to: Id, y: Id)
    requires codec.read(Relay.Framed(Printed(codec, MakeHello(b, to)))) == Some(MakeHello(b, to))
    ensures Carried(codec, Lane(b.self.id, y, true), Printed(codec, MakeHello(b, to)))
            == if to == y then [MakeHello(b, to)] else []
  {
    hide HelloBytes, Printed, Relay.Framed;
  }

  /** The hellos on their way from a started device to y are those it sent to y. */
  lemma {:induction false} StartedLane(codec: Codec, b: Boot, y: Id, peers: seq<Id>, taken: set<Id>)
    requires forall to | to in peers ::
               codec.read(Relay.Framed(Printed(codec, MakeHello(b, to)))) == Some(MakeHello(b, to))
    ensures AllCarried(codec, Lane(b.self.id, y, true), HelloLines(codec, HellosTo(b, peers, taken)))
            == FramesTo(HellosTo(b, peers, taken), y)
  {
    hide Printed, Carried, MakeHello;
    if |peers| == 0 {
    } else {
      var init, last := peers[..|peers| - 1], peers[|peers| - 1];
      StartedLane(codec, b, y, init, taken);
      var before := HellosTo(b, init, taken);
      if last in taken {
        var line := Printed(codec, MakeHello(b, last));
        assert HelloLines(codec, before + [MakeHello(b, last)]) == HelloLines(codec, before) + [line];
        OneMoreCarried(codec, Lane(b.self.id, y, true), HelloLines(codec, before), line);
        HelloCarriedIff(codec, b, last, y);
        assert (before + [MakeHello(b, last)])[..|before|] == before;
        assert MakeHello(b, last).to == last by { HelloIsTo(b, last); }
      } else {
        assert before + [] == before;
      }
    }
  }

  lemma HelloIsTo(b: Boot, to: Id)
    ensures MakeHello(b, to).to == to
  {
  }

  /** Two devices that have just started, over a relay that has accepted nothing from one for the other: the result
      above applies. */
  lemma StartedPairIsInOrder(prim: Primitives, codec: Codec, x: Starter, y: Starter, relay: Relay.State)
    requires CanMeet(prim, x, y)
    requires var p := Pair(StartedSide(codec, x), StartedSide(codec, y), relay);
             CodecOk(codec, p)
    requires Accepted(relay, x.boot.self.id, y.boot.self.id) == []
    requires Accepted(relay, y.boot.self.id, x.boot.self.id) == []
    ensures Handshake.LinkOk(prim, AsLink(codec, Pair(StartedSide(codec, x), StartedSide(codec, y), relay)))
  {
    hide CanMeet, CodecOk, Handshake.LinkOk, AllGreeted, HellosTo, FramesTo, Accepted, Pending;
    StartIsInOrder(prim, x, y);
    assert HelloCodecOk(codec, x.boot, y.boot.self.id) && HelloCodecOk(codec, y.boot, x.boot.self.id) by {
      HellosRead(codec, x, y, relay);
    }
    StartedPending(codec, x, y, relay);
    StartedPending(codec, y, x, relay);
  }

  lemma HellosRead(codec: Codec, x: Starter, y: Starter, relay: Relay.State)
    requires CodecOk(codec, Pair(StartedSide(codec, x), StartedSide(codec, y), relay))
    ensures HelloCodecOk(codec, x.boot, y.boot.self.id) && HelloCodecOk(codec, y.boot, x.boot.self.id)
  {
    hide HelloCodecOk;
  }

  lemma StartedPending(codec: Codec, x: Starter, y: Starter, relay: Relay.State)
    requires HelloCodecOk(codec, x.boot, y.boot.self.id) && Accepted(relay, x.boot.self.id, y.boot.self.id) == []
    ensures var a, b := StartedSide(codec, x), StartedSide(codec, y);
            Pending(codec, relay, LaneTo(a, b), WayTo(a, b))
            == FramesTo(HellosTo(x.boot, x.boot.peers, x.taken), y.boot.self.id)
  {
    StartedLane(codec, x.boot, y.boot.self.id, x.boot.peers, x.taken);
    hide AllCarried, AllGreeted, HellosTo, FramesTo, HelloLines, Accepted;
    var a, b := StartedSide(codec, x), StartedSide(codec, y);
    assert OnTheWay(relay, LaneTo(a, b), WayTo(a, b)) == a.up;
  }
}
