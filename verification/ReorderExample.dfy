/**
 * A run of a whole network in which messages of one key arrive out of the order in which they were sealed: the
 * sender installs the receiver's handshake twice, seals in both sessions, and the relay delivers from the second
 * session first. Within each session the order is kept, as EndToEndIntegrity says.
 */
module ReorderExample {
  import opened Bytes
  import opened Encoding
  import opened Crypto
  import opened Protocol
  import opened Device
  import opened Reinstall
  import opened ReinstallExample
  import opened Acceptance
  import opened Network
  import opened EndToEnd
  import CounterText

  const W: Bytes := [0x77]
  const X: Bytes := [0x78]
  const Y: Bytes := [0x79]
  const Z: Bytes := [0x7A]

  /** One device, and two boots of its only peer. */
  datatype Cast = Cast(setup: Setup, prim: Primitives, a: Party, former: Party, b: Party)

  ghost predicate CastOk(c: Cast) {
    && ValidSetup(c.setup)
    && WellFormedParty(c.a) && WellFormedParty(c.former) && WellFormedParty(c.b)
    && c.former.id == c.b.id != c.a.id
    && c.a.id in c.setup.peers && c.setup.peers[c.a.id] == [c.b.id]
    && c.b.id in c.setup.peers && c.setup.peers[c.b.id] == [c.a.id]
    && c.prim.onCurve(c.a.pub) && c.prim.onCurve(c.former.pub) && c.prim.onCurve(c.b.pub)
    && c.a.pub != c.former.pub && c.a.pub != c.b.pub && c.former.pub != c.b.pub
  }

  function BootOf(c: Cast, p: Party): Boot
    requires p.id in c.setup.peers
  {
    Boot(p, c.setup.peers[p.id], c.setup.maxMessage)
  }

  lemma CastBoots(c: Cast)
    requires CastOk(c)
    ensures Provisioned(BootOf(c, c.a), c.prim) && Provisioned(BootOf(c, c.b), c.prim)
    ensures Derivable(BootOf(c, c.a), c.prim, c.former)
    ensures Derivable(BootOf(c, c.a), c.prim, c.b)
    ensures Derivable(BootOf(c, c.b), c.prim, c.a)
  {
    hide TranscriptBytes;
  }

  // ---- One device of a network running on its own ------------------------

  ghost function RunFrom(c: Cast, net: Net, es: seq<NetEvent>): Net
    decreases |es|
  {
    if |es| == 0 then net else RunFrom(c, NetStep(c.setup, c.prim, net, es[0]), es[1..])
  }

  lemma {:induction false} RunFromAppend(c: Cast, net: Net, es: seq<NetEvent>, fs: seq<NetEvent>)
    ensures RunFrom(c, net, es + fs) == RunFrom(c, RunFrom(c, net, es), fs)
    decreases |es|
  {
    hide NetStep;
    if |es| == 0 {
      assert es + fs == fs;
    } else {
      RunFromAppend(c, NetStep(c.setup, c.prim, net, es[0]), es[1..], fs);
      assert (es + fs)[1..] == es[1..] + fs;
    }
  }

  lemma {:induction false} RunFromEmptyIsNetRun(c: Cast, es: seq<NetEvent>)
    ensures RunFrom(c, EMPTY_NET, es) == NetRun(c.setup, c.prim, es)
    decreases |es|
  {
    hide NetStep;
    if |es| == 0 {
      assert RunFrom(c, EMPTY_NET, es) == EMPTY_NET;
    } else {
      var init, last := es[..|es| - 1], es[|es| - 1];
      RunFromEmptyIsNetRun(c, init);
      RunFromAppend(c, EMPTY_NET, init, [last]);
      assert es == init + [last];
      var net := RunFrom(c, EMPTY_NET, init);
      assert [last][1..] == [];
      assert RunFrom(c, net, [last]) == RunFrom(c, NetStep(c.setup, c.prim, net, last), []);
    }
  }

  /** What the event brings was made by a device, so that the relay has it from now on. */
  ghost predicate Available(net: Net, e: Event) {
    match e
    case RxHello(Hello(_, _, _, _, Signed(signer, message))) =>
      exists k: nat, to :: SignedBy(net, k, to, signer, message)
    case RxData(Data(_, _, _, _, sealed)) => Made(net, sealed)
    case RxHello(_) => false
    case RxData(_) => false
    case _ => true
  }

  lemma AvailableArrives(c: Cast, net: Net, e: Event)
    requires Available(net, e)
    ensures Arrives(c.setup, net, e)
  {
  }

  lemma AvailableStays(net: Net, net': Net, e: Event)
    requires Available(net, e) && Extends(net, net')
    ensures Available(net', e)
  {
    match e
    case RxHello(Hello(_, _, _, _, Signed(signer, message))) =>
      var k: nat, to :| SignedBy(net, k, to, signer, message);
      assert SignedBy(net', k, to, signer, message);
    case RxData(Data(_, _, _, _, sealed)) => MadePersists(net, net', sealed);
    case _ =>
  }

  function Acts(id: Id, es: seq<Event>): seq<NetEvent> {
    seq(|es|, i requires 0 <= i < |es| => Act(id, es[i]))
  }

  /** While one device acts on what is available, the network is that device's own run. */
  lemma {:induction false} OneDeviceRuns(c: Cast, net: Net, id: Id, es: seq<Event>)
    requires id in net.live && net.live[id] < |net.nodes|
    requires forall e | e in es :: Available(net, e)
    ensures var k := net.live[id];
            var node := net.nodes[k];
            RunFrom(c, net, Acts(id, es))
            == net.(nodes := net.nodes[k := node.(state := Run(node.boot, c.prim, node.state, es))])
    decreases |es|
  {
    hide Step, Available, Arrives;
    var k := net.live[id];
    if |es| == 0 {
      assert net.nodes[k := net.nodes[k].(state := net.nodes[k].state)] == net.nodes;
    } else {
      AvailableArrives(c, net, es[0]);
      var next := NetStep(c.setup, c.prim, net, Act(id, es[0]));
      NetStepExtends(c.setup, c.prim, net, Act(id, es[0]));
      forall e | e in es[1..] ensures Available(next, e) {
        AvailableStays(net, next, e);
      }
      OneDeviceRuns(c, next, id, es[1..]);
      assert Acts(id, es)[0] == Act(id, es[0]);
      assert Acts(id, es)[1..] == Acts(id, es[1..]);
    }
  }

  // ---- The sender --------------------------------------------------------

  function SenderEvents(c: Cast): seq<Event> {
    HelloThenSend(c.b, c.a.id, X) + [TxAlloc(c.b.id, Y), TxSeal(true)]
    + HelloThenSend(c.former, c.a.id, W) + HelloThenSend(c.b, c.a.id, Z)
  }

  function SealOf(c: Cast, peer: Party, epoch: nat, counter: u64, text: Bytes): Seal
    requires c.a.id in c.setup.peers && DeriveSession(c.prim, c.a, peer).Some?
  {
    var d := DeriveSession(c.prim, c.a, peer).value;
    Seal(epoch, peer.id, d.tx, d.sid, counter, text)
  }

  lemma FirstSession(c: Cast, b: Boot)
    requires CastOk(c) && b == BootOf(c, c.a)
    ensures Derivable(b, c.prim, c.b)
    ensures var s := Run(b, c.prim, Run(b, c.prim, INIT, HelloThenSend(c.b, c.a.id, X)),
                         [TxAlloc(c.b.id, Y), TxSeal(true)]);
            && s.seals == [SealOf(c, c.b, 0, 1, X), SealOf(c, c.b, 0, 2, Y)]
            && s.installs == [c.b]
            && Quiet(s, c.b.id) && Holds(s, c.b)
  {
    FirstMessage(c, b);
    LimitAllowsOne(c);
    hide Run, HelloThenSend, CastOk, Derivable, Quiet, Holds;
    var s := Run(b, c.prim, INIT, HelloThenSend(c.b, c.a.id, X));
    assert NthSeal(s, c.b.id, 1, Y) == SealOf(c, c.b, 0, 2, Y);
    hide SealOf, NthSeal, CanSend;
    OneMore(b, c.prim, s, c.b, Y);
  }

  lemma FirstMessage(c: Cast, b: Boot)
    requires CastOk(c) && b == BootOf(c, c.a)
    ensures Derivable(b, c.prim, c.b)
    ensures var s := Run(b, c.prim, INIT, HelloThenSend(c.b, c.a.id, X));
            && s.seals == [SealOf(c, c.b, 0, 1, X)] && s.installs == [c.b]
            && Quiet(s, c.b.id) && Holds(s, c.b) && CanSend(b, s, c.b.id) && s.table[c.b.id].txCounter == 1
            && NthSeal(s, c.b.id, 0, X) == SealOf(c, c.b, 0, 1, X)
  {
    CastBoots(c);
    PeersDiffer(c);
    LimitAllowsOne(c);
    hide Run, HelloThenSend, DeriveSession, CastOk, Provisioned, Derivable, Quiet;
    assert Quiet(INIT, c.b.id) by { StartIsQuiet(c); }
    HelloThenSendStartsAtOne(b, c.prim, INIT, c.b, X);
  }

  lemma StartIsQuiet(c: Cast)
    requires CastOk(c)
    ensures Quiet(INIT, c.b.id)
  {
  }

  lemma OneMore(b: Boot, prim: Primitives, s: State, p: Party, text: Bytes)
    requires CanSend(b, s, p.id) && Quiet(s, p.id) && Holds(s, p)
    requires s.table[p.id].txCounter < U64_MAX && 0 < |text| <= b.maxMessage
    ensures var t := Run(b, prim, s, [TxAlloc(p.id, text), TxSeal(true)]);
            && t.seals == s.seals + [NthSeal(s, p.id, 1, text)]
            && t.installs == s.installs
            && Quiet(t, p.id) && Holds(t, p)
  {
    hide Run;
    RunOfPair(b, prim, s, TxAlloc(p.id, text), TxSeal(true));
    OneSend(b, s, p.id, text);
    hide StepAlloc, StepSeal;
  }

  lemma LaterSessions(c: Cast, b: Boot, s: State)
    requires CastOk(c) && b == BootOf(c, c.a)
    requires Quiet(s, c.b.id) && Holds(s, c.b)
    ensures Derivable(b, c.prim, c.b) && Derivable(b, c.prim, c.former)
    ensures var n := |s.installs|;
            var t := Run(b, c.prim, Run(b, c.prim, s, HelloThenSend(c.former, c.a.id, W)),
                         HelloThenSend(c.b, c.a.id, Z));
            && t.seals == s.seals + [SealOf(c, c.former, n, 1, W), SealOf(c, c.b, n + 1, 1, Z)]
            && t.installs == s.installs + [c.former, c.b]
            && c.b.id in t.signedFor
  {
    CastBoots(c);
    PeersDiffer(c);
    LimitAllowsOne(c);
    hide Run, HelloThenSend, DeriveSession, CanSend, CastOk, Provisioned, Derivable;
    HelloThenSendStartsAtOne(b, c.prim, s, c.former, W);
    var u := Run(b, c.prim, s, HelloThenSend(c.former, c.a.id, W));
    HelloThenSendStartsAtOne(b, c.prim, u, c.b, Z);
  }

  /** x and y in one session, w in another with the former boot, z in a third with the keys of the first. */
  lemma SenderSeals(c: Cast)
    requires CastOk(c)
    ensures Derivable(BootOf(c, c.a), c.prim, c.b) && Derivable(BootOf(c, c.a), c.prim, c.former)
    ensures var s := Run(BootOf(c, c.a), c.prim, INIT, SenderEvents(c));
            && s.seals == [SealOf(c, c.b, 0, 1, X), SealOf(c, c.b, 0, 2, Y), SealOf(c, c.former, 1, 1, W),
                           SealOf(c, c.b, 2, 1, Z)]
            && s.installs == [c.b, c.former, c.b]
            && c.b.id in s.signedFor
  {
    var b := BootOf(c, c.a);
    hide Run, HelloThenSend, DeriveSession, CastOk, SealOf, Quiet, Holds, Derivable;
    var e1, e2, e3 := HelloThenSend(c.b, c.a.id, X), HelloThenSend(c.former, c.a.id, W), HelloThenSend(c.b, c.a.id, Z);
    var send := [TxAlloc(c.b.id, Y), TxSeal(true)];
    FirstSession(c, b);
    var s := Run(b, c.prim, Run(b, c.prim, INIT, e1), send);
    LaterSessions(c, b, s);
    RunAppend(b, c.prim, INIT, e1, send);
    RunAppend(b, c.prim, INIT, e1 + send, e2);
    RunAppend(b, c.prim, INIT, e1 + send + e2, e3);
  }

  lemma LimitAllowsOne(c: Cast)
    requires CastOk(c)
    ensures 0 < BootOf(c, c.a).maxMessage
  {
  }

  lemma PeersDiffer(c: Cast)
    requires CastOk(c)
    ensures c.former.id == c.b.id && c.former.pub != c.b.pub
  {
  }

  // ---- The receiver ------------------------------------------------------

  const GREETING: seq<Event> := [RxReply(true), RxMark]

  /** A boot of the peer that has signed a hello for the device and done nothing else. */
  function Announced(c: Cast): State {
    INIT.(signedFor := {c.a.id})
  }

  function DataOf(c: Cast, r: Seal): Frame
    requires c.a.id in c.setup.peers
  {
    MakeData(BootOf(c, c.a), r.to, r.sid, r.counter, BoxOf(BootOf(c, c.a), r))
  }

  function ReceiverEvents(c: Cast): seq<Event>
    requires CastOk(c) && DeriveSession(c.prim, c.a, c.b).Some?
  {
    [RxHello(HelloOf(c.a, c.b.id)), RxReply(true), RxMark]
    + [RxData(DataOf(c, SealOf(c, c.b, 2, 1, Z))), RxOpen]
    + [RxData(DataOf(c, SealOf(c, c.b, 0, 2, Y))), RxOpen]
  }

  lemma HelloRun(b: Boot, prim: Primitives, s: State, f: Frame)
    ensures Run(b, prim, s, [RxHello(f), RxReply(true), RxMark]) == Settle(b, StepHello(b, prim, s, f))
  {
    hide StepHello, StepReply, StepRxMark;
    RunAppend(b, prim, s, [RxHello(f)], GREETING);
    assert [RxHello(f)] + GREETING == [RxHello(f), RxReply(true), RxMark];
    var t := StepHello(b, prim, s, f);
    assert Run(b, prim, s, [RxHello(f)]) == Run(b, prim, t, []) by { assert [RxHello(f)][1..] == []; }
    RunOfPair(b, prim, t, RxReply(true), RxMark);
  }

  lemma DataRun(b: Boot, prim: Primitives, s: State, f: Frame)
    ensures Run(b, prim, s, [RxData(f), RxOpen]) == Deliver(b, s, f)
  {
    hide Run, StepData, StepOpen;
    RunOfPair(b, prim, s, RxData(f), RxOpen);
  }

  /** The receiver holds the sender's handshake and has delivered these messages in its first session. */
  ghost predicate Hears(c: Cast, s: State, counter: nat, heard: seq<Message>)
    requires DeriveSession(c.prim, c.a, c.b).Some?
  {
    var d := DeriveSession(c.prim, c.a, c.b).value;
    && s.rx == RxIdle
    && s.installs == [c.a]
    && c.a.id in s.epoch && s.epoch[c.a.id] == 0
    && c.a.id in s.table && s.table[c.a.id].established
    && s.table[c.a.id].rx == d.tx && s.table[c.a.id].sid == d.sid
    && s.table[c.a.id].rxCounter == counter
    && DeliveredIn(s.deliveries, 0) == heard
  }

  lemma ReceiverGreets(c: Cast)
    requires CastOk(c)
    ensures DeriveSession(c.prim, c.a, c.b).Some?
    ensures var b := BootOf(c, c.b);
            Hears(c, Settle(b, StepHello(b, c.prim, Announced(c), HelloOf(c.a, c.b.id))), 0, [])
  {
    CastBoots(c);
    var b, s := BootOf(c, c.b), Announced(c);
    NewHelloInstalls(b, c.prim, s, c.a);
    InstallingEffect(b, c.prim, s, HelloOf(c.a, c.b.id));
    SettleKeepsSessions(b, StepHello(b, c.prim, s, HelloOf(c.a, c.b.id)), c.a.id);
    DerivationMirrors(c.prim, c.a, c.b);
    hide DeriveSession, StepHello, Settle, Installing, CheckHello, HelloOf;
  }

  lemma ReceiverHears(c: Cast, s: State, before: nat, epoch: nat, counter: u64, text: Bytes, heard: seq<Message>)
    requires CastOk(c) && DeriveSession(c.prim, c.a, c.b).Some?
    requires before < counter && Hears(c, s, before, heard)
    requires |text| == 1
    ensures Hears(c, Deliver(BootOf(c, c.b), s, DataOf(c, SealOf(c, c.b, epoch, counter, text))), counter,
                  heard + [Message(counter, text)])
  {
    hide DeriveSession, Deliver, DeliveredIn;
    var f := DataOf(c, SealOf(c, c.b, epoch, counter, text));
    assert Genuine(BootOf(c, c.b), s, f, counter, text) by {
      CounterText.CounterRoundTrip(counter);
      CounterText.ParseIff(f.counter, counter);
    }
    DeliveredIffGenuine(BootOf(c, c.b), s, f);
    hide Genuine, NonceBytes, AadBytes, CounterText.Parse, CounterText.Print;
    var t := Deliver(BootOf(c, c.b), s, f);
    assert t.deliveries[..|s.deliveries|] == s.deliveries;
    DeliveredAfter(s.deliveries, t.deliveries[|s.deliveries|], 0);
  }

  /** z arrives first, then y. */
  lemma ReceiverDelivers(c: Cast)
    requires CastOk(c)
    ensures DeriveSession(c.prim, c.a, c.b).Some?
    ensures Hears(c, Run(BootOf(c, c.b), c.prim, Announced(c), ReceiverEvents(c)), 2, [Message(1, Z), Message(2, Y)])
  {
    ReceiverGreets(c);
    var b, s := BootOf(c, c.b), Announced(c);
    hide DeriveSession, Deliver, StepHello, Settle, HelloOf, DataOf, SealOf, Run, Hears;
    var f, g := DataOf(c, SealOf(c, c.b, 2, 1, Z)), DataOf(c, SealOf(c, c.b, 0, 2, Y));
    var hello := [RxHello(HelloOf(c.a, c.b.id)), RxReply(true), RxMark];
    HelloRun(b, c.prim, s, HelloOf(c.a, c.b.id));
    var t := Run(b, c.prim, s, hello);
    DataRun(b, c.prim, t, f);
    assert [] + [Message(1, Z)] == [Message(1, Z)];
    ReceiverHears(c, t, 0, 2, 1, Z, []);
    var u := Deliver(b, t, f);
    DataRun(b, c.prim, u, g);
    ReceiverHears(c, u, 1, 0, 2, Y, [Message(1, Z)]);
    hide CastOk;
    RunAppend(b, c.prim, s, hello, [RxData(f), RxOpen]);
    RunAppend(b, c.prim, s, hello + [RxData(f), RxOpen], [RxData(g), RxOpen]);
  }

  // ---- The network -------------------------------------------------------

  /** Both boots of the peer sign a hello for the device, one after the other, and the device starts. */
  function Opening(c: Cast): seq<NetEvent> {
    [Restart(c.b.id, c.former.pub, c.former.nonce), Act(c.b.id, TxHello(c.a.id, false)),
     Restart(c.b.id, c.b.pub, c.b.nonce), Act(c.b.id, TxHello(c.a.id, false)),
     Restart(c.a.id, c.a.pub, c.a.nonce)]
  }

  function Started(c: Cast): Net
    requires CastOk(c)
  {
    Net([Node(BootOf(c, c.former), Announced(c)), Node(BootOf(c, c.b), Announced(c)), Node(BootOf(c, c.a), INIT)],
        map[c.b.id := 1, c.a.id := 2])
  }

  lemma Restarts(c: Cast, net: Net, p: Party)
    requires p.id in c.setup.peers && |p.pub| == PUBLIC_BYTES && |p.nonce| == BOOT_NONCE_BYTES && c.prim.onCurve(p.pub)
    requires forall k | 0 <= k < |net.nodes| :: net.nodes[k].boot.self.pub != p.pub
    ensures NetStep(c.setup, c.prim, net, Restart(p.id, p.pub, p.nonce))
            == Net(net.nodes + [Node(BootOf(c, p), INIT)], net.live[p.id := |net.nodes|])
  {
  }

  lemma Announces(c: Cast, net: Net)
    requires CastOk(c) && |net.nodes| > 0
    requires c.b.id in net.live && net.live[c.b.id] == |net.nodes| - 1
    requires net.nodes[|net.nodes| - 1].state == INIT && c.a.id in net.nodes[|net.nodes| - 1].boot.peers
    ensures var last := net.nodes[|net.nodes| - 1];
            NetStep(c.setup, c.prim, net, Act(c.b.id, TxHello(c.a.id, false)))
            == net.(nodes := net.nodes[..|net.nodes| - 1] + [last.(state := Announced(c))])
  {
    var k, boot := |net.nodes| - 1, net.nodes[|net.nodes| - 1].boot;
    assert Step(boot, c.prim, INIT, TxHello(c.a.id, false)) == Announced(c) by {
      assert INIT.signedFor + {c.a.id} == {c.a.id};
    }
    var node := net.nodes[k].(state := Announced(c));
    assert net.nodes[k := node] == net.nodes[..k] + [node];
  }

  lemma {:induction false} RunFromFive(c: Cast, net: Net, es: seq<NetEvent>)
    requires |es| == 5
    ensures RunFrom(c, net, es)
            == NetStep(c.setup, c.prim, NetStep(c.setup, c.prim, NetStep(c.setup, c.prim,
                 NetStep(c.setup, c.prim, NetStep(c.setup, c.prim, net, es[0]), es[1]), es[2]), es[3]), es[4])
  {
    hide NetStep;
    assert es[1..][1..][1..][1..] == [es[4]];
    var n1 := NetStep(c.setup, c.prim, net, es[0]);
    var n2 := NetStep(c.setup, c.prim, n1, es[1]);
    var n3 := NetStep(c.setup, c.prim, n2, es[2]);
    var n4 := NetStep(c.setup, c.prim, n3, es[3]);
    assert RunFrom(c, n1, es[1..]) == RunFrom(c, n2, es[1..][1..]);
    assert RunFrom(c, n2, es[1..][1..]) == RunFrom(c, n3, es[1..][1..][1..]);
    assert RunFrom(c, n3, es[1..][1..][1..]) == RunFrom(c, n4, es[1..][1..][1..][1..]);
  }

  /** A boot of the peer starts and signs its hello, whatever booted before it. */
  lemma PeerStarts(c: Cast, net: Net, p: Party)
    requires CastOk(c) && WellFormedParty(p) && p.id == c.b.id && c.prim.onCurve(p.pub)
    requires forall k | 0 <= k < |net.nodes| :: net.nodes[k].boot.self.pub != p.pub
    ensures NetStep(c.setup, c.prim, NetStep(c.setup, c.prim, net, Restart(p.id, p.pub, p.nonce)),
                    Act(c.b.id, TxHello(c.a.id, false)))
            == Net(net.nodes + [Node(BootOf(c, p), Announced(c))], net.live[p.id := |net.nodes|])
  {
    hide NetStep;
    Restarts(c, net, p);
    var next := Net(net.nodes + [Node(BootOf(c, p), INIT)], net.live[p.id := |net.nodes|]);
    Announces(c, next);
    assert next.nodes[..|net.nodes|] == net.nodes;
  }

  lemma OpeningStarts(c: Cast)
    requires CastOk(c)
    ensures RunFrom(c, EMPTY_NET, Opening(c)) == Started(c)
  {
    hide NetStep, RunFrom;
    RunFromFive(c, EMPTY_NET, Opening(c));
    PeerStarts(c, EMPTY_NET, c.former);
    var first := Net([Node(BootOf(c, c.former), Announced(c))], map[c.b.id := 0]);
    assert EMPTY_NET.nodes + first.nodes == first.nodes && EMPTY_NET.live[c.b.id := 0] == first.live;
    PeerStarts(c, first, c.b);
    var second := Net(first.nodes + [Node(BootOf(c, c.b), Announced(c))], map[c.b.id := 1]);
    assert first.live[c.b.id := 1] == second.live;
    Restarts(c, second, c.a);
    assert second.live[c.a.id := 2] == Started(c).live;
  }

  function Whole(c: Cast): seq<NetEvent>
    requires CastOk(c) && DeriveSession(c.prim, c.a, c.b).Some?
  {
    Opening(c) + Acts(c.a.id, SenderEvents(c)) + Acts(c.b.id, ReceiverEvents(c))
  }

  /** The network once the sender has sealed its four messages. */
  function Sealed(c: Cast): Net
    requires CastOk(c)
  {
    Started(c).(nodes := Started(c).nodes[2 :=
      Node(BootOf(c, c.a), Run(BootOf(c, c.a), c.prim, INIT, SenderEvents(c)))])
  }

  lemma SenderHasItsHellos(c: Cast)
    requires CastOk(c)
    ensures forall e | e in SenderEvents(c) :: Available(Started(c), e)
  {
    var net := Started(c);
    assert SignedBy(net, 0, c.a.id, c.b.id, HelloBytes(c.b.id, c.a.id, c.former.pub, c.former.nonce));
    assert SignedBy(net, 1, c.a.id, c.b.id, HelloBytes(c.b.id, c.a.id, c.b.pub, c.b.nonce));
    hide HelloBytes, SignedBy;
    forall e | e in SenderEvents(c) ensures Available(net, e) {
    }
  }

  lemma SenderMadeIts(c: Cast)
    requires CastOk(c)
    ensures DeriveSession(c.prim, c.a, c.b).Some?
    ensures SignedBy(Sealed(c), 2, c.b.id, c.a.id, HelloBytes(c.a.id, c.b.id, c.a.pub, c.a.nonce))
    ensures MadeBy(Sealed(c), 2, 3, DataOf(c, SealOf(c, c.b, 2, 1, Z)).sealed)
    ensures MadeBy(Sealed(c), 2, 1, DataOf(c, SealOf(c, c.b, 0, 2, Y)).sealed)
  {
    SenderSeals(c);
    hide DeriveSession, SealOf, Run, SenderEvents, BoxOf, HelloBytes;
  }

  ghost predicate AllAvailable(net: Net, es: seq<Event>) {
    forall e | e in es :: Available(net, e)
  }

  lemma BothAvailable(net: Net, es: seq<Event>, fs: seq<Event>)
    requires AllAvailable(net, es) && AllAvailable(net, fs)
    ensures AllAvailable(net, es + fs)
  {
  }

  lemma HelloAvailable(net: Net, f: Frame)
    requires Available(net, RxHello(f))
    ensures AllAvailable(net, [RxHello(f), RxReply(true), RxMark])
  {
  }

  lemma DataAvailable(net: Net, f: Frame)
    requires f.Data? && Made(net, f.sealed)
    ensures AllAvailable(net, [RxData(f), RxOpen])
  {
  }

  lemma ReceiverHasItsFrames(c: Cast)
    requires CastOk(c)
    ensures DeriveSession(c.prim, c.a, c.b).Some?
    ensures AllAvailable(Sealed(c), ReceiverEvents(c))
  {
    SenderMadeIts(c);
    var net := Sealed(c);
    hide DeriveSession, SealOf, Sealed, BoxOf, HelloBytes, SignedBy, MadeBy, AllAvailable;
    var f, g := DataOf(c, SealOf(c, c.b, 2, 1, Z)), DataOf(c, SealOf(c, c.b, 0, 2, Y));
    var hello := [RxHello(HelloOf(c.a, c.b.id)), RxReply(true), RxMark];
    HelloAvailable(net, HelloOf(c.a, c.b.id));
    DataAvailable(net, f);
    DataAvailable(net, g);
    BothAvailable(net, hello, [RxData(f), RxOpen]);
    BothAvailable(net, hello + [RxData(f), RxOpen], [RxData(g), RxOpen]);
  }

  lemma WholeRun(c: Cast)
    requires CastOk(c)
    ensures DeriveSession(c.prim, c.a, c.b).Some?
    ensures var b := BootOf(c, c.b);
            NetRun(c.setup, c.prim, Whole(c))
            == Sealed(c).(nodes := Sealed(c).nodes[1 := Node(b, Run(b, c.prim, Announced(c), ReceiverEvents(c)))])
  {
    OpeningStarts(c);
    SenderHasItsHellos(c);
    ReceiverHasItsFrames(c);
    hide NetStep, Run, RunFrom, DeriveSession, Opening, SenderEvents, ReceiverEvents, Available;
    RunFromEmptyIsNetRun(c, Whole(c));
    RunFromAppend(c, EMPTY_NET, Opening(c), Acts(c.a.id, SenderEvents(c)));
    OneDeviceRuns(c, Started(c), c.a.id, SenderEvents(c));
    RunFromAppend(c, EMPTY_NET, Opening(c) + Acts(c.a.id, SenderEvents(c)), Acts(c.b.id, ReceiverEvents(c)));
    OneDeviceRuns(c, Sealed(c), c.b.id, ReceiverEvents(c));
  }

  lemma SealedUnderTheKey(c: Cast, rs: seq<Seal>)
    requires CastOk(c) && DeriveSession(c.prim, c.a, c.b).Some? && DeriveSession(c.prim, c.a, c.former).Some?
    requires rs == [SealOf(c, c.b, 0, 1, X), SealOf(c, c.b, 0, 2, Y), SealOf(c, c.former, 1, 1, W),
                    SealOf(c, c.b, 2, 1, Z)]
    ensures SealedUnder(rs, DeriveSession(c.prim, c.a, c.b).value.tx) == [Message(1, X), Message(2, Y), Message(1, Z)]
  {
    var key := DeriveSession(c.prim, c.a, c.b).value.tx;
    if DeriveSession(c.prim, c.a, c.former).value.tx == key {
      KeyDeterminesPeer(c.prim, c.a, c.b, c.former);
    }
    hide DeriveSession, CastOk;
    assert rs[..3][..2] == [rs[0], rs[1]] && rs[..3][2] == rs[2];
    assert [rs[0], rs[1]][..1] == [rs[0]] && [rs[0]][..0] == [];
    assert SealedUnder([rs[0]], key) == [Message(1, X)];
    assert SealedUnder([rs[0], rs[1]], key) == [Message(1, X), Message(2, Y)];
    assert SealedUnder(rs[..3], key) == [Message(1, X), Message(2, Y)];
  }

  lemma NotInOrder()
    ensures !IsSubsequence([Message(1, Z), Message(2, Y)], [Message(1, X), Message(2, Y), Message(1, Z)])
  {
    var a, b := [Message(1, Z), Message(2, Y)], [Message(1, X), Message(2, Y), Message(1, Z)];
    assert X[0] != Z[0];
    assert a[1..] == [Message(2, Y)];
    assert b[1..] == [Message(2, Y), Message(1, Z)] && b[1..][1..] == [Message(1, Z)] && b[1..][1..][1..] == [];
    assert !IsSubsequence(a[1..], []);
    assert !IsSubsequence(a, b[1..][1..]);
    assert !IsSubsequence(a, b[1..]);
  }

  /** In this run what boot 1 delivered under its first handshake, z then y, is not a subsequence of what its author,
      boot 2, sealed under the key, x then y then z. Boot 2 has installed boot 1's handshake twice. */
  lemma DeliveredOutOfOrder(c: Cast)
    requires CastOk(c)
    ensures DeriveSession(c.prim, c.a, c.b).Some?
    ensures var net := NetRun(c.setup, c.prim, Whole(c));
            && |net.nodes| == 3 && |net.nodes[1].state.installs| == 1
            && Author(net, 1, net.nodes[1].state.installs[0], 2)
            && Derivable(net.nodes[1].boot, c.prim, net.nodes[1].state.installs[0])
            && net.nodes[2].state.installs == [net.nodes[1].boot.self, c.former, net.nodes[1].boot.self]
            && DeliveredIn(net.nodes[1].state.deliveries, 0) == [Message(1, Z), Message(2, Y)]
            && var key := Keys(net.nodes[1].boot, c.prim, net.nodes[1].state.installs[0]).rx;
               && SealedUnder(net.nodes[2].state.seals, key) == [Message(1, X), Message(2, Y), Message(1, Z)]
               && !IsSubsequence(DeliveredIn(net.nodes[1].state.deliveries, 0),
                                 SealedUnder(net.nodes[2].state.seals, key))
  {
    CastBoots(c);
    DerivationMirrors(c.prim, c.a, c.b);
    WholeRun(c);
    SenderSeals(c);
    ReceiverDelivers(c);
    hide DeriveSession, Run, NetRun, SealedUnder, DeliveredIn, IsSubsequence;
    hide SenderEvents, ReceiverEvents, Whole, SealOf;
    SealedUnderTheKey(c, Sealed(c).nodes[2].state.seals);
    NotInOrder();
  }

  /** Such a cast exists. */
  lemma ExampleCast() returns (c: Cast)
    ensures CastOk(c)
  {
    var former := Party([0x62], seq(PUBLIC_BYTES, i => 2 as byte), seq(BOOT_NONCE_BYTES, i => 2 as byte));
    var b := Party([0x62], seq(PUBLIC_BYTES, i => 3 as byte), seq(BOOT_NONCE_BYTES, i => 3 as byte));
    var a := Party([0x61], seq(PUBLIC_BYTES, i => 4 as byte), seq(BOOT_NONCE_BYTES, i => 4 as byte));
    assert former.pub[0] == 2 && b.pub[0] == 3 && a.pub[0] == 4;
    assert former.id[0] == 0x62 && a.id[0] == 0x61;
    var prim := Primitives((t, dh) => [0, 0, 0, 0, 0, 0, 0, 0], p => true);
    c := Cast(Setup(map[[0x61] := [[0x62]], [0x62] := [[0x61]]], 32), prim, a, former, b);
  }
}
