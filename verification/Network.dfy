/**
 * Many devices, any number of restarts, and a relay that is not trusted at all: it may drop, duplicate,
 * reorder and invent frames. It cannot sign for an honest device, and it cannot seal under a key whose two
 * ephemeral keys both belong to honest devices; a frame may contain such parts only if a device made them.
 */
module Network {
  import opened Bytes
  import opened Encoding
  import opened Crypto
  import opened Protocol
  import opened Device
  import opened DeviceSafety
  import opened Wrappers

  /** The honest devices and what each was configured with. */
  datatype Setup = Setup(peers: map<Id, seq<Id>>, maxMessage: nat)

  /** One boot of one device. */
  datatype Node = Node(boot: Boot, state: State)

  /** Every boot there has been, and for each device the one that is running. */
  datatype Net = Net(nodes: seq<Node>, live: map<Id, nat>)

  datatype NetEvent =
    | Restart(id: Id, pub: Bytes, nonce: Bytes)
    | Act(id: Id, event: Event)

  const EMPTY_NET := Net([], map[])

  ghost predicate ValidSetup(setup: Setup) {
    && 32 <= setup.maxMessage <= 1024
    && (forall id | id in setup.peers :: EncodableId(id) && NulFree(id))
    && (forall id | id in setup.peers :: forall p | p in setup.peers[id] :: EncodableId(p) && NulFree(p) && p != id)
    && (forall id | id in setup.peers :: forall i, j | 0 <= i < j < |setup.peers[id]| ::
          setup.peers[id][i] != setup.peers[id][j])
  }

  ghost predicate HonestKey(net: Net, pub: Bytes) {
    exists k | 0 <= k < |net.nodes| :: net.nodes[k].boot.self.pub == pub
  }

  // ---- What the relay can put in a frame ---------------------------------

  /** The box that node b made when it sealed r. */
  function BoxOf(b: Boot, r: Seal): Sealed {
    Box(r.key, NonceBytes(r.sid, r.counter), AadBytes(b.self.id, r.to, r.sid, r.counter), r.text)
  }

  ghost predicate MadeBy(net: Net, k: nat, j: nat, box: Sealed) {
    k < |net.nodes| && j < |net.nodes[k].state.seals| && BoxOf(net.nodes[k].boot, net.nodes[k].state.seals[j]) == box
  }

  ghost predicate Made(net: Net, box: Sealed) {
    exists k: nat, j: nat :: MadeBy(net, k, j, box)
  }

  ghost predicate SignedBy(net: Net, k: nat, to: Id, signer: Id, message: Bytes) {
    && k < |net.nodes|
    && net.nodes[k].boot.self.id == signer
    && to in net.nodes[k].state.signedFor
    && message == HelloBytes(signer, to, net.nodes[k].boot.self.pub, net.nodes[k].boot.self.nonce)
  }

  ghost predicate Constructible(setup: Setup, net: Net, f: Frame) {
    match f
    case Hello(_, _, _, _, Signed(signer, message)) =>
      signer in setup.peers ==> exists k: nat, to :: SignedBy(net, k, to, signer, message)
    case Hello(_, _, _, _, _) => true
    case Data(_, _, _, _, Box(Key(dir, transcript, dh), n, a, text)) =>
      (forall pub | pub in dh :: HonestKey(net, pub)) ==> Made(net, f.sealed)
    case Data(_, _, _, _, _) => true
  }

  ghost predicate Arrives(setup: Setup, net: Net, e: Event) {
    match e
    case RxHello(f) => Constructible(setup, net, f)
    case RxData(f) => Constructible(setup, net, f)
    case _ => true
  }

  // ---- Steps -------------------------------------------------------------

  ghost predicate CanRestart(setup: Setup, prim: Primitives, net: Net, id: Id, pub: Bytes, nonce: Bytes) {
    && id in setup.peers
    && |pub| == PUBLIC_BYTES && |nonce| == BOOT_NONCE_BYTES && prim.onCurve(pub)
    && !HonestKey(net, pub)
  }

  ghost predicate CanAct(setup: Setup, net: Net, id: Id, e: Event) {
    id in net.live && net.live[id] < |net.nodes| && Arrives(setup, net, e)
  }

  ghost function NetStep(setup: Setup, prim: Primitives, net: Net, ne: NetEvent): Net {
    match ne
    case Restart(id, pub, nonce) =>
      if !CanRestart(setup, prim, net, id, pub, nonce) then net
      else Net(net.nodes + [Node(Boot(Party(id, pub, nonce), setup.peers[id], setup.maxMessage), INIT)],
               net.live[id := |net.nodes|])
    case Act(id, e) =>
      if !CanAct(setup, net, id, e) then net
      else
        var k := net.live[id];
        var node := net.nodes[k];
        net.(nodes := net.nodes[k := Node(node.boot, Step(node.boot, prim, node.state, e))])
  }

  ghost function NetRun(setup: Setup, prim: Primitives, es: seq<NetEvent>): Net {
    if |es| == 0 then EMPTY_NET
    else NetStep(setup, prim, NetRun(setup, prim, es[..|es| - 1]), es[|es| - 1])
  }

  // ---- Invariant ---------------------------------------------------------

  ghost predicate NodeOk(setup: Setup, prim: Primitives, node: Node) {
    && node.boot.self.id in setup.peers
    && node.boot == Boot(node.boot.self, setup.peers[node.boot.self.id], setup.maxMessage)
    && Provisioned(node.boot, prim)
    && Inv(node.boot, prim, node.state)
  }

  /** Boot k is the author of a handshake held by boot i: the values are its own, signed for that device. */
  ghost predicate Author(net: Net, i: nat, peer: Party, k: nat) {
    && i < |net.nodes| && k < |net.nodes|
    && net.nodes[k].boot.self == peer
    && net.nodes[i].boot.self.id in net.nodes[k].state.signedFor
  }

  ghost predicate InstallsAuthored(setup: Setup, net: Net, i: nat)
    requires i < |net.nodes|
  {
    forall e | 0 <= e < |net.nodes[i].state.installs| && net.nodes[i].state.installs[e].id in setup.peers ::
      exists k: nat :: Author(net, i, net.nodes[i].state.installs[e], k)
  }

  /** Seal j of boot k is the origin of a message delivered at boot i. */
  ghost predicate Origin(net: Net, i: nat, d: Delivery, k: nat, j: nat) {
    && i < |net.nodes| && k < |net.nodes| && j < |net.nodes[k].state.seals|
    && net.nodes[k].boot.self.id == d.from
    && var r := net.nodes[k].state.seals[j];
       r.key == d.key && r.counter == d.counter && r.text == d.text && r.to == net.nodes[i].boot.self.id
  }

  ghost predicate DeliveriesSealed(setup: Setup, net: Net, i: nat)
    requires i < |net.nodes|
  {
    forall d | d in net.nodes[i].state.deliveries && d.from in setup.peers ::
      exists k: nat, j: nat :: Origin(net, i, d, k, j)
  }

  ghost predicate OpeningMade(setup: Setup, net: Net, i: nat)
    requires i < |net.nodes|
  {
    var rx := net.nodes[i].state.rx;
    rx.Opening? && rx.from in setup.peers && rx.sealed.Box? && rx.sealed.key == rx.key ==> Made(net, rx.sealed)
  }

  ghost predicate NetInv(setup: Setup, prim: Primitives, net: Net) {
    && (forall i | 0 <= i < |net.nodes| :: NodeOk(setup, prim, net.nodes[i]))
    && (forall i, j | 0 <= i < j < |net.nodes| :: net.nodes[i].boot.self.pub != net.nodes[j].boot.self.pub)
    && (forall i | 0 <= i < |net.nodes| :: InstallsAuthored(setup, net, i))
    && (forall i | 0 <= i < |net.nodes| :: DeliveriesSealed(setup, net, i))
    && (forall i | 0 <= i < |net.nodes| :: OpeningMade(setup, net, i))
  }

  /** Nothing that was sealed or signed is ever forgotten. */
  ghost predicate Extends(net: Net, net': Net) {
    && |net.nodes| <= |net'.nodes|
    && forall i | 0 <= i < |net.nodes| ::
         && net'.nodes[i].boot == net.nodes[i].boot
         && net.nodes[i].state.seals <= net'.nodes[i].state.seals
         && net.nodes[i].state.signedFor <= net'.nodes[i].state.signedFor
  }

  lemma StepRemembers(b: Boot, prim: Primitives, s: State, e: Event)
    ensures var t := Step(b, prim, s, e);
            s.seals <= t.seals && s.signedFor <= t.signedFor && s.installs <= t.installs
  {
    hide CheckHello, Encrypt, Decrypt;
  }

  lemma NetStepExtends(setup: Setup, prim: Primitives, net: Net, ne: NetEvent)
    ensures Extends(net, NetStep(setup, prim, net, ne))
  {
    hide Step, Arrives;
    if ne.Act? && CanAct(setup, net, ne.id, ne.event) {
      var node := net.nodes[net.live[ne.id]];
      StepRemembers(node.boot, prim, node.state, ne.event);
    }
  }

  lemma {:induction false} NetRunExtends(setup: Setup, prim: Primitives, es: seq<NetEvent>, more: seq<NetEvent>)
    ensures Extends(NetRun(setup, prim, es), NetRun(setup, prim, es + more))
    decreases |more|
  {
    hide NetStep;
    if |more| == 0 {
      assert es + more == es;
    } else {
      var last := |more| - 1;
      NetRunExtends(setup, prim, es, more[..last]);
      assert (es + more)[..|es + more| - 1] == es + more[..last];
      NetStepExtends(setup, prim, NetRun(setup, prim, es + more[..last]), more[last]);
    }
  }

  /** A frame around something this node signed or sealed, whatever else it says. */
  ghost predicate HasPartOf(node: Node, f: Frame) {
    var self := node.boot.self;
    match f
    case Hello(_, _, _, _, sig) =>
      exists to | to in node.state.signedFor :: sig == Signed(self.id, HelloBytes(self.id, to, self.pub, self.nonce))
    case Data(_, _, _, _, sealed) =>
      exists j | 0 <= j < |node.state.seals| :: sealed == BoxOf(node.boot, node.state.seals[j])
  }

  /** The relay keeps everything: at any later point it can deliver what a device once signed or sealed, as often as it
      likes, to whom it likes, under any ids, session id and counter. */
  lemma RelayCanReplay(setup: Setup, prim: Primitives, es: seq<NetEvent>, more: seq<NetEvent>, k: nat, f: Frame)
    requires k < |NetRun(setup, prim, es).nodes| && HasPartOf(NetRun(setup, prim, es).nodes[k], f)
    ensures Constructible(setup, NetRun(setup, prim, es + more), f)
  {
    var net, net' := NetRun(setup, prim, es), NetRun(setup, prim, es + more);
    NetRunExtends(setup, prim, es, more);
    var boot, state := net.nodes[k].boot, net.nodes[k].state;
    match f
    case Hello(_, _, _, _, sig) =>
      var self := boot.self;
      var to :| to in state.signedFor && sig == Signed(self.id, HelloBytes(self.id, to, self.pub, self.nonce));
      assert SignedBy(net', k, to, boot.self.id, sig.message);
    case Data(_, _, _, _, sealed) =>
      var j :| 0 <= j < |state.seals| && sealed == BoxOf(boot, state.seals[j]);
      assert MadeBy(net, k, j, sealed);
      MadePersists(net, net', sealed);
  }

  lemma MadePersists(net: Net, net': Net, box: Sealed)
    requires Extends(net, net') && Made(net, box)
    ensures Made(net', box)
  {
    var k: nat, j: nat :| MadeBy(net, k, j, box);
    assert net'.nodes[k].state.seals[j] == net.nodes[k].state.seals[j];
    assert MadeBy(net', k, j, box);
  }

  lemma AuthorPersists(net: Net, net': Net, i: nat, peer: Party, k: nat)
    requires Extends(net, net') && Author(net, i, peer, k)
    ensures Author(net', i, peer, k)
  {
  }

  lemma OriginPersists(net: Net, net': Net, i: nat, d: Delivery, k: nat, j: nat)
    requires Extends(net, net') && Origin(net, i, d, k, j)
    ensures Origin(net', i, d, k, j)
  {
    assert net'.nodes[k].state.seals[j] == net.nodes[k].state.seals[j];
  }

  /** A boot whose own state did not change keeps its part of the invariant. */
  lemma BystanderKeeps(setup: Setup, net: Net, net': Net, i: nat)
    requires Extends(net, net') && i < |net.nodes| && net'.nodes[i] == net.nodes[i]
    requires InstallsAuthored(setup, net, i) && DeliveriesSealed(setup, net, i) && OpeningMade(setup, net, i)
    ensures InstallsAuthored(setup, net', i) && DeliveriesSealed(setup, net', i) && OpeningMade(setup, net', i)
  {
    var s := net.nodes[i].state;
    forall e | 0 <= e < |s.installs| && s.installs[e].id in setup.peers
      ensures exists k: nat :: Author(net', i, s.installs[e], k)
    {
      var k: nat :| Author(net, i, s.installs[e], k);
      AuthorPersists(net, net', i, s.installs[e], k);
    }
    forall d | d in s.deliveries && d.from in setup.peers ensures exists k: nat, j: nat :: Origin(net', i, d, k, j) {
      var k: nat, j: nat :| Origin(net, i, d, k, j);
      OriginPersists(net, net', i, d, k, j);
    }
    if s.rx.Opening? && s.rx.from in setup.peers && s.rx.sealed.Box? && s.rx.sealed.key == s.rx.key {
      MadePersists(net, net', s.rx.sealed);
    }
  }

  // ---- The boot that acts ------------------------------------------------

  /** A hello that verifies was signed by a boot of its author, for this device and with these values. */
  lemma VerifiedHelloHasAuthor(setup: Setup, prim: Primitives, net: Net, i: nat, f: Frame) returns (k: nat)
    requires i < |net.nodes| && (forall k | 0 <= k < |net.nodes| :: NodeOk(setup, prim, net.nodes[k]))
    requires f.Hello? && Constructible(setup, net, f) && f.from in setup.peers
    requires WellFormedParty(PeerOf(f))
    requires f.sig == Signed(f.from, HelloBytes(f.from, net.nodes[i].boot.self.id, f.pub, f.nonce))
    ensures Author(net, i, PeerOf(f), k)
  {
    hide Inv;
    var to;
    k, to :| SignedBy(net, k, to, f.from, f.sig.message);
    var b := net.nodes[k].boot;
    assert NodeOk(setup, prim, net.nodes[i]) && NodeOk(setup, prim, net.nodes[k]);
    assert to in net.nodes[k].state.signedFor;
    HelloInjective(f.from, net.nodes[i].boot.self.id, f.pub, f.nonce, b.self.id, to, b.self.pub, b.self.nonce);
  }

  /** The one boot whose state an event changes. */
  ghost predicate ActsAt(setup: Setup, prim: Primitives, net: Net, net': Net, i: nat, e: Event) {
    && NetInv(setup, prim, net)
    && i < |net.nodes| && Arrives(setup, net, e)
    && net' == net.(nodes :=
         net.nodes[i := Node(net.nodes[i].boot, Step(net.nodes[i].boot, prim, net.nodes[i].state, e))])
    && Extends(net, net')
    && NodeOk(setup, prim, net'.nodes[i])
  }

  lemma ActorInstalls(setup: Setup, prim: Primitives, net: Net, net': Net, i: nat, e: Event)
    requires ActsAt(setup, prim, net, net', i, e)
    ensures InstallsAuthored(setup, net', i)
  {
    hide Step, Constructible, DeriveSession;
    var node := net.nodes[i];
    var s, t := node.state, net'.nodes[i].state;
    StepRemembers(node.boot, prim, s, e);
    forall x | 0 <= x < |t.installs| && t.installs[x].id in setup.peers
      ensures exists k: nat :: Author(net', i, t.installs[x], k)
    {
      if x < |s.installs| {
        assert InstallsAuthored(setup, net, i) && s.installs[x] == t.installs[x];
        var k: nat :| Author(net, i, s.installs[x], k);
        AuthorPersists(net, net', i, s.installs[x], k);
      } else {
        InstalledOnlyIfSigned(node.boot, prim, s, e);
        assert Derivable(node.boot, prim, t.installs[x]);
        var k := VerifiedHelloHasAuthor(setup, prim, net, i, e.hello);
        AuthorPersists(net, net', i, t.installs[x], k);
      }
    }
  }

  lemma OpeningComesFromData(b: Boot, prim: Primitives, s: State, e: Event)
    ensures var t := Step(b, prim, s, e);
            t.rx.Opening? && t.rx != s.rx ==>
              && e.RxData? && e.data.Data?
              && t.rx.sealed == e.data.sealed && t.rx.from == e.data.from
              && t.rx.from in s.table && s.table[t.rx.from].established
              && t.rx.key == s.table[t.rx.from].rx
  {
    hide CheckHello, Encrypt, Decrypt, CheckData;
  }

  /** Both ephemeral keys behind the receive key of a session with an honest peer belong to honest devices. */
  lemma SessionKeyIsHonest(setup: Setup, prim: Primitives, net: Net, i: nat, p: Id)
    requires NetInv(setup, prim, net) && i < |net.nodes| && p in setup.peers
    requires p in net.nodes[i].state.table && net.nodes[i].state.table[p].established
    ensures var key := net.nodes[i].state.table[p].rx;
            key.Key? && forall pub | pub in key.dh :: HonestKey(net, pub)
  {
    hide DeriveSession, Author, Inv, Provisioned;
    var node := net.nodes[i];
    assert NodeOk(setup, prim, node);
    var e := EstablishedHandshake(node.boot, prim, node.state, p);
    SessionKeyParts(prim, node.boot.self, node.state.installs[e]);
    assert InstallsAuthored(setup, net, i);
    AuthoredKeyIsHonest(setup, net, i, e);
    assert HonestKey(net, net.nodes[i].boot.self.pub);
  }

  lemma AuthoredKeyIsHonest(setup: Setup, net: Net, i: nat, e: nat)
    requires i < |net.nodes| && InstallsAuthored(setup, net, i) && e < |net.nodes[i].state.installs|
    requires net.nodes[i].state.installs[e].id in setup.peers
    ensures HonestKey(net, net.nodes[i].state.installs[e].pub)
  {
    var k: nat :| Author(net, i, net.nodes[i].state.installs[e], k);
    assert net.nodes[k].boot.self.pub == net.nodes[i].state.installs[e].pub;
  }

  lemma EstablishedHandshake(b: Boot, prim: Primitives, s: State, p: Id) returns (e: nat)
    requires Inv(b, prim, s) && p in s.table && s.table[p].established
    ensures e < |s.installs| && s.installs[e].id == p && Derivable(b, prim, s.installs[e])
    ensures s.table[p].rx == Keys(b, prim, s.installs[e]).rx
  {
    hide DeriveSession;
    assert SlotOk(b, prim, s.installs, s.epoch, p, s.table[p]);
    e := s.epoch[p];
  }

  lemma OnlyItsKeyOpensABox(key: Key, from: Id, to: Id, sid: SessionId, c: u64, box: Sealed)
    requires Decrypt(key, from, to, sid, c, box).Some?
    ensures box.Box? && box.key == key
  {
  }

  lemma ActorOpening(setup: Setup, prim: Primitives, net: Net, net': Net, i: nat, e: Event)
    requires ActsAt(setup, prim, net, net', i, e)
    ensures OpeningMade(setup, net', i)
  {
    hide Step, DeriveSession, Inv;
    var node, rx := net.nodes[i], net'.nodes[i].state.rx;
    if rx.Opening? && rx.from in setup.peers && rx.sealed.Box? && rx.sealed.key == rx.key {
      if rx == node.state.rx {
        assert OpeningMade(setup, net, i);
      } else {
        OpeningComesFromData(node.boot, prim, node.state, e);
        SessionKeyIsHonest(setup, prim, net, i, rx.from);
        assert Constructible(setup, net, e.data);
      }
      MadePersists(net, net', rx.sealed);
    }
  }

  lemma DeliveryComesFromOpening(b: Boot, prim: Primitives, s: State, e: Event)
    ensures var t := Step(b, prim, s, e);
            t.deliveries != s.deliveries ==>
              && s.rx.Opening? && |t.deliveries| == |s.deliveries| + 1 && t.deliveries[..|s.deliveries|] == s.deliveries
              && var d := t.deliveries[|s.deliveries|];
                 && d.from == s.rx.from && d.key == s.rx.key && d.counter == s.rx.counter
                 && Decrypt(s.rx.key, s.rx.from, b.self.id, s.rx.sid, s.rx.counter, s.rx.sealed) == Some(d.text)
  {
    hide CheckHello, Encrypt, CheckData;
  }

  /** What decrypts at boot i as coming from an honest device was sealed by that device for boot i. */
  lemma OpenedBoxHasOrigin(setup: Setup, prim: Primitives, net: Net, i: nat, d: Delivery, sid: SessionId, box: Sealed)
    returns (k: nat, j: nat)
    requires NetInv(setup, prim, net) && i < |net.nodes| && Made(net, box)
    requires Decrypt(d.key, d.from, net.nodes[i].boot.self.id, sid, d.counter, box) == Some(d.text)
    ensures Origin(net, i, d, k, j)
  {
    hide DeriveSession;
    k, j :| MadeBy(net, k, j, box);
    var node, r := net.nodes[k], net.nodes[k].state.seals[j];
    assert NodeOk(setup, prim, node) && NodeOk(setup, prim, net.nodes[i]);
    assert AllSeals(node.state)[j] == r;
    assert SealOk(node.boot, prim, node.state.installs, r);
    AadInjective(node.boot.self.id, r.to, r.sid, r.counter, d.from, net.nodes[i].boot.self.id, sid, d.counter);
  }

  lemma ActorDeliveries(setup: Setup, prim: Primitives, net: Net, net': Net, i: nat, e: Event)
    requires ActsAt(setup, prim, net, net', i, e)
    ensures DeliveriesSealed(setup, net', i)
  {
    hide Step, DeriveSession, Inv, Decrypt;
    var node, t := net.nodes[i], net'.nodes[i].state;
    forall d | d in t.deliveries && d.from in setup.peers ensures exists k: nat, j: nat :: Origin(net', i, d, k, j) {
      var k: nat, j: nat;
      if d in node.state.deliveries {
        assert DeliveriesSealed(setup, net, i);
        k, j :| Origin(net, i, d, k, j);
      } else {
        DeliveryComesFromOpening(node.boot, prim, node.state, e);
        var rx := node.state.rx;
        assert OpeningMade(setup, net, i);
        OnlyItsKeyOpensABox(rx.key, rx.from, node.boot.self.id, rx.sid, rx.counter, rx.sealed);
        k, j := OpenedBoxHasOrigin(setup, prim, net, i, d, rx.sid, rx.sealed);
      }
      OriginPersists(net, net', i, d, k, j);
    }
  }

  lemma ActKeepsInv(setup: Setup, prim: Primitives, net: Net, id: Id, e: Event)
    requires ValidSetup(setup) && NetInv(setup, prim, net)
    ensures NetInv(setup, prim, NetStep(setup, prim, net, Act(id, e)))
  {
    hide Step, DeriveSession, Inv, Provisioned, Arrives, InstallsAuthored, DeliveriesSealed, OpeningMade;
    var net' := NetStep(setup, prim, net, Act(id, e));
    if CanAct(setup, net, id, e) {
      var i := net.live[id];
      NetStepExtends(setup, prim, net, Act(id, e));
      assert NodeOk(setup, prim, net.nodes[i]);
      StepKeepsInv(net.nodes[i].boot, prim, net.nodes[i].state, e);
      ActorInstalls(setup, prim, net, net', i, e);
      ActorDeliveries(setup, prim, net, net', i, e);
      ActorOpening(setup, prim, net, net', i, e);
      forall j | 0 <= j < |net.nodes| && j != i
        ensures InstallsAuthored(setup, net', j) && DeliveriesSealed(setup, net', j) && OpeningMade(setup, net', j)
      {
        BystanderKeeps(setup, net, net', j);
      }
    }
  }

  lemma FreshBootOk(setup: Setup, prim: Primitives, id: Id, pub: Bytes, nonce: Bytes)
    requires ValidSetup(setup) && id in setup.peers
    requires |pub| == PUBLIC_BYTES && |nonce| == BOOT_NONCE_BYTES && prim.onCurve(pub)
    ensures NodeOk(setup, prim, Node(Boot(Party(id, pub, nonce), setup.peers[id], setup.maxMessage), INIT))
  {
  }

  lemma RestartKeepsInv(setup: Setup, prim: Primitives, net: Net, id: Id, pub: Bytes, nonce: Bytes)
    requires ValidSetup(setup) && NetInv(setup, prim, net)
    ensures NetInv(setup, prim, NetStep(setup, prim, net, Restart(id, pub, nonce)))
  {
    hide DeriveSession, Inv, Provisioned;
    var net' := NetStep(setup, prim, net, Restart(id, pub, nonce));
    if CanRestart(setup, prim, net, id, pub, nonce) {
      var last := |net.nodes|;
      FreshBootOk(setup, prim, id, pub, nonce);
      NetStepExtends(setup, prim, net, Restart(id, pub, nonce));
      assert net'.nodes[last].state == INIT;
      forall j | 0 <= j < last
        ensures InstallsAuthored(setup, net', j) && DeliveriesSealed(setup, net', j) && OpeningMade(setup, net', j)
      {
        BystanderKeeps(setup, net, net', j);
      }
    }
  }

  lemma {:induction false} NetRunInv(setup: Setup, prim: Primitives, es: seq<NetEvent>)
    requires ValidSetup(setup)
    ensures NetInv(setup, prim, NetRun(setup, prim, es))
  {
    hide NetStep;
    if |es| == 0 {
    } else {
      var net := NetRun(setup, prim, es[..|es| - 1]);
      NetRunInv(setup, prim, es[..|es| - 1]);
      hide NetInv;
      match es[|es| - 1]
      case Restart(id, pub, nonce) => RestartKeepsInv(setup, prim, net, id, pub, nonce);
      case Act(id, e) => ActKeepsInv(setup, prim, net, id, e);
    }
  }
}
