/** What protocol_send_hello_all leaves behind at start-up, and that two devices which have started agree. */
module StartUp {
  import opened Encoding
  import opened Crypto
  import opened Sessions
  import opened Protocol
  import opened Device
  import opened Wrappers
  import Handshake

  /** A hello to p was signed; if the transport took it, its sending is noted. */
  function Greeted(s: State, p: Id, took: bool): State {
    s.(table := if took then MarkHelloSent(s.table, p) else s.table, tx := TxIdle, signedFor := s.signedFor + {p})
  }

  /** taken: the peers whose hello the transport takes. */
  function AllGreeted(s: State, peers: seq<Id>, taken: set<Id>): State {
    if |peers| == 0 then s
    else
      var last := peers[|peers| - 1];
      Greeted(AllGreeted(s, peers[..|peers| - 1], taken), last, last in taken)
  }

  function HellosTo(b: Boot, peers: seq<Id>, taken: set<Id>): seq<Frame> {
    if |peers| == 0 then []
    else
      var last := peers[|peers| - 1];
      HellosTo(b, peers[..|peers| - 1], taken) + if last in taken then [MakeHello(b, last)] else []
  }

  lemma GreetedIsIdle(s: State, peers: seq<Id>, taken: set<Id>)
    ensures |peers| > 0 ==> AllGreeted(s, peers, taken).tx == TxIdle
  {
  }

  /** A greeting is a hello event and, if the hello left, its mark. */
  lemma GreetedKeepsInv(b: Boot, prim: Primitives, s: State, p: Id, took: bool)
    requires Inv(b, prim, s) && s.tx == TxIdle && p in b.peers
    ensures Inv(b, prim, Greeted(s, p, took))
  {
    hide Inv, MarkHelloSent;
    SendsKeepInv(b, prim, s, p, took);
    TxMarkKeepsInv(b, prim, StepTxHello(b, s, p, took));
  }

  /** The tasks are idle, and exactly these peers have been greeted. */
  ghost predicate HasGreeted(s: State, peers: seq<Id>, taken: set<Id>) {
    && s.rx == RxIdle && s.tx == TxIdle
    && s.signedFor == Members(peers)
    && s.table.Keys == Members(peers) * taken
    && OnlyGreeted(s.table)
  }

  ghost predicate OnlyGreeted(m: Table) {
    forall p | p in m :: m[p] == EMPTY_SESSION.(helloSent := true)
  }

  lemma GreetsOneMore(s: State, peers: seq<Id>, taken: set<Id>, p: Id)
    requires HasGreeted(s, peers, taken) && p !in peers && Open(s.table, p).Some?
    ensures HasGreeted(Greeted(s, p, p in taken), peers + [p], taken)
  {
    OneMoreMember(peers, taken, p);
    hide Members, Open, MarkHelloSent, OnlyGreeted;
    if p in taken {
      MarksNewSlot(s.table, p);
    }
  }

  lemma MarksNewSlot(m: Table, p: Id)
    requires p !in m && Open(m, p).Some? && OnlyGreeted(m)
    ensures MarkHelloSent(m, p).Keys == m.Keys + {p} && OnlyGreeted(MarkHelloSent(m, p))
  {
    assert MarkHelloSent(m, p) == m[p := EMPTY_SESSION.(helloSent := true)];
  }

  lemma OneMoreMember(peers: seq<Id>, taken: set<Id>, p: Id)
    ensures Members(peers + [p]) == Members(peers) + {p}
    ensures Members(peers + [p]) * taken == Members(peers) * taken + if p in taken then {p} else {}
    ensures p !in peers ==> p !in Members(peers)
  {
  }

  /** With at most eight peers, start-up signs a hello for every one of them, and gives those whose hello the
      transport takes a slot in which that is noted. */
  lemma {:induction false} StartUpReachesEveryPeer(b: Boot, prim: Primitives, peers: seq<Id>, taken: set<Id>)
    requires Provisioned(b, prim) && |b.peers| <= MAX_PEERS && peers <= b.peers
    ensures var s := AllGreeted(INIT, peers, taken); Inv(b, prim, s) && HasGreeted(s, peers, taken)
    decreases |peers|
  {
    hide Inv, Open;
    if |peers| == 0 {
      InitKeepsInv(b, prim);
    } else {
      hide HasGreeted, Greeted;
      var init, last := peers[..|peers| - 1], peers[|peers| - 1];
      NextIsNew(b, prim, peers);
      hide Provisioned;
      StartUpReachesEveryPeer(b, prim, init, taken);
      var s := AllGreeted(INIT, init, taken);
      IdleAndKnown(s, init, taken);
      GreetedKeepsInv(b, prim, s, last, last in taken);
      SlotForEveryPeer(b, prim, s.table, last);
      GreetsOneMore(s, init, taken, last);
    }
  }

  lemma NextIsNew(b: Boot, prim: Primitives, peers: seq<Id>)
    requires Provisioned(b, prim) && |peers| > 0 && peers <= b.peers
    ensures var init, last := peers[..|peers| - 1], peers[|peers| - 1];
            init <= b.peers && last in b.peers && last !in init && peers == init + [last]
            && Members(init) <= Members(b.peers)
  {
    assert peers[|peers| - 1] == b.peers[|peers| - 1];
  }

  lemma IdleAndKnown(s: State, peers: seq<Id>, taken: set<Id>)
    requires HasGreeted(s, peers, taken)
    ensures s.rx == RxIdle && s.tx == TxIdle && s.table.Keys <= Members(peers)
    ensures forall p :: Handshake.HeldIn(s.table, p) == None
  {
  }

  lemma InitKeepsInv(b: Boot, prim: Primitives)
    ensures Inv(b, prim, INIT)
  {
  }

  lemma SlotForEveryPeer(b: Boot, prim: Primitives, m: Table, p: Id)
    requires Provisioned(b, prim) && |b.peers| <= MAX_PEERS && m.Keys <= Members(b.peers) && p in b.peers
    ensures Open(m, p).Some?
  {
    MembersSize(b.peers);
    ProvisionedPeersAlwaysFit(m, Members(b.peers), p);
  }

  // ---- Two devices that start --------------------------------------------

  /** A started device, and whether its hello to its peer left. */
  datatype Starter = Starter(boot: Boot, taken: set<Id>)

  function StartedEnd(x: Starter, y: Starter): Handshake.End {
    Handshake.End(x.boot, AllGreeted(INIT, x.boot.peers, x.taken),
                  if x.boot.self.id in y.taken then [MakeHello(y.boot, x.boot.self.id)] else [])
  }

  function Started(x: Starter, y: Starter): Handshake.Link {
    Handshake.Link(StartedEnd(x, y), StartedEnd(y, x))
  }

  /** Each is a peer of the other, and at least one of the two hellos left. */
  ghost predicate CanMeet(prim: Primitives, x: Starter, y: Starter) {
    && Provisioned(x.boot, prim) && Provisioned(y.boot, prim)
    && y.boot.self.id in x.boot.peers && x.boot.self.id in y.boot.peers
    && |x.boot.peers| <= MAX_PEERS && |y.boot.peers| <= MAX_PEERS
    && (y.boot.self.id in x.taken || x.boot.self.id in y.taken)
  }

  /** What start-up of y sends is addressed from y to its peers, so x's inbox is what y sent to x. */
  lemma {:induction false} InboxIsWhatWasSent(x: Starter, y: Starter, peers: seq<Id>)
    requires forall i, j | 0 <= i < j < |peers| :: peers[i] != peers[j]
    ensures FramesTo(HellosTo(y.boot, peers, y.taken), x.boot.self.id)
            == if x.boot.self.id in peers && x.boot.self.id in y.taken then [MakeHello(y.boot, x.boot.self.id)] else []
  {
    if |peers| == 0 {
    } else {
      var init, last := peers[..|peers| - 1], peers[|peers| - 1];
      InboxIsWhatWasSent(x, y, init);
      assert peers == init + [last];
      var before := HellosTo(y.boot, init, y.taken);
      if last in y.taken {
        assert (before + [MakeHello(y.boot, last)])[..|before|] == before;
      } else {
        assert before + [] == before;
      }
    }
  }

  function FramesTo(fs: seq<Frame>, to: Id): seq<Frame> {
    if |fs| == 0 then []
    else FramesTo(fs[..|fs| - 1], to) + if fs[|fs| - 1].to == to then [fs[|fs| - 1]] else []
  }

  /** Both have greeted every peer, and the hellos for each other among those they sent are on the way. */
  lemma StartIsInOrder(prim: Primitives, x: Starter, y: Starter)
    requires CanMeet(prim, x, y)
    ensures Handshake.LinkOk(prim, Started(x, y))
    ensures Started(x, y).a.inbox == FramesTo(HellosTo(y.boot, y.boot.peers, y.taken), x.boot.self.id)
    ensures Started(x, y).b.inbox == FramesTo(HellosTo(x.boot, x.boot.peers, x.taken), y.boot.self.id)
  {
    InboxIsWhatWasSent(x, y, y.boot.peers);
    InboxIsWhatWasSent(y, x, x.boot.peers);
    hide FramesTo, HellosTo;
    hide AllGreeted, Inv, MakeHello, Handshake.LinkOk, Provisioned, Open, HasGreeted, Handshake.HeldIn;
    StartUpReachesEveryPeer(x.boot, prim, x.boot.peers, x.taken);
    StartUpReachesEveryPeer(y.boot, prim, y.boot.peers, y.taken);
    var sx, sy := AllGreeted(INIT, x.boot.peers, x.taken), AllGreeted(INIT, y.boot.peers, y.taken);
    IdleAndKnown(sx, x.boot.peers, x.taken);
    IdleAndKnown(sy, y.boot.peers, y.taken);
    SlotForEveryPeer(x.boot, prim, sx.table, y.boot.self.id);
    SlotForEveryPeer(y.boot, prim, sy.table, x.boot.self.id);
    if y.boot.self.id !in x.taken {
      Handshake.OneHelloIsEnough(prim, x.boot, y.boot, sx, sy);
    } else if x.boot.self.id !in y.taken {
      Handshake.OneHelloIsEnough(prim, y.boot, x.boot, sy, sx);
      Handshake.SymmetricLink(prim, StartedEnd(x, y), StartedEnd(y, x));
    } else {
      Handshake.FirstContactLeadsToAgreement(prim, x.boot, y.boot, sx, sy);
    }
  }

  /** Two devices that start and greet their peers, at least one of them with success: there is a way for their
      exchange to come to rest, and whatever is interleaved with it, it has no more moves than its measure, and
      when it rests both ends hold mirrored keys and one session id. */
  lemma StartedDevicesAgree(prim: Primitives, x: Starter, y: Starter, schedule: seq<Handshake.Turn>)
    returns (way: seq<Handshake.Turn>)
    requires CanMeet(prim, x, y)
    ensures Handshake.LinkRun(prim, Started(x, y), way).Some?
    ensures var m := Handshake.LinkRun(prim, Started(x, y), way).value;
            Handshake.Quiet(m.a) && Handshake.Quiet(m.b)
    ensures match Handshake.LinkRun(prim, Started(x, y), schedule)
            case None => true
            case Some(m) =>
              && Handshake.Exchanges(schedule) <= Handshake.Measure(Started(x, y))
              && (Handshake.Quiet(m.a) && Handshake.Quiet(m.b) ==> Handshake.Agreed(m.a, m.b))
  {
    hide CanMeet, Started, Handshake.LinkRun, Handshake.Agreed, Handshake.LinkOk, Handshake.Measure, Handshake.Quiet;
    StartIsInOrder(prim, x, y);
    way := Handshake.ExchangeCanFinish(prim, Started(x, y));
    var run := Handshake.LinkRun(prim, Started(x, y), schedule);
    if run.Some? {
      Handshake.ExchangeTerminates(prim, Started(x, y), schedule);
      if Handshake.Quiet(run.value.a) && Handshake.Quiet(run.value.b) {
        Handshake.ExchangeEndsInAgreement(prim, Started(x, y), schedule);
      }
    }
  }
}
