/** What every interleaving of one boot's receiver and console guarantees, and exactly when it does not. */
module DeviceSafety {
  import opened Bytes
  import opened Encoding
  import opened Crypto
  import opened Sessions
  import opened Protocol
  import opened Device
  import opened Wrappers

  // ---- Stored sessions ---------------------------------------------------

  /** In every reachable state an established slot's keys and session id are the derivation from this boot's
      values and the stored peer values; so the session-id comparison of the duplicate test decides nothing
      that the other two have not decided. */
  lemma StoredSessionsDerive(b: Boot, prim: Primitives, es: seq<Event>, p: Id, f: Frame)
    requires Provisioned(b, prim)
    requires p in Run(b, prim, INIT, es).table && Run(b, prim, INIT, es).table[p].established
    ensures var slot := Run(b, prim, INIT, es).table[p];
            && p in b.peers
            && DeriveSession(prim, b.self, Party(p, slot.peerPub, slot.peerNonce))
               == Some(Derived(slot.tx, slot.rx, slot.sid))
            && (f.Hello? && f.from == p && CheckHello(b, prim, f).Ok? ==>
                (Duplicate(slot, PeerOf(f), CheckHello(b, prim, f).value)
                 <==> slot.peerPub == f.pub && slot.peerNonce == f.nonce))
  {
    ReachableInv(b, prim, es);
    var s := Run(b, prim, INIT, es);
    assert SlotOk(b, prim, s.installs, s.epoch, p, s.table[p]);
  }

  /** Only what its peer signed for this very device is ever installed. */
  lemma InstalledOnlyIfSigned(b: Boot, prim: Primitives, s: State, e: Event)
    requires Provisioned(b, prim)
    ensures var t := Step(b, prim, s, e);
            t.installs != s.installs ==>
              && e.RxHello? && e.hello.Hello?
              && t.installs == s.installs + [PeerOf(e.hello)]
              && e.hello.from in b.peers
              && e.hello.sig == Signed(e.hello.from, HelloBytes(e.hello.from, b.self.id, e.hello.pub, e.hello.nonce))
  {
    if e.RxHello? && s.rx.RxIdle? && HelloEffectOn(b, prim, s, e.hello).Some? {
      assert CheckHello(b, prim, e.hello).Ok?;
    }
  }

  /** The event brings a hello with this party's values, signed by that party for this device. */
  ghost predicate BringsHelloOf(b: Boot, e: Event, peer: Party) {
    && e.RxHello? && e.hello.Hello?
    && PeerOf(e.hello) == peer
    && e.hello.sig == Signed(peer.id, HelloBytes(peer.id, b.self.id, peer.pub, peer.nonce))
  }

  /** Each handshake installed during a run has its signed hello among the events. */
  lemma {:induction false} InstallsWereBrought(b: Boot, prim: Primitives, s: State, es: seq<Event>, k: nat)
    requires Provisioned(b, prim)
    requires |s.installs| <= k < |Run(b, prim, s, es).installs|
    ensures exists e | e in es :: BringsHelloOf(b, e, Run(b, prim, s, es).installs[k])
    decreases |es|
  {
    hide Step, BringsHelloOf;
    var t := Step(b, prim, s, es[0]);
    InstallsGrow(b, prim, t, es[1..]);
    InstalledOnlyIfSigned(b, prim, s, es[0]);
    if k < |t.installs| {
      assert BringsHelloOf(b, es[0], t.installs[k]) by { BringsIts(b, prim, s, es[0]); }
    } else {
      InstallsWereBrought(b, prim, t, es[1..], k);
    }
  }

  lemma BringsIts(b: Boot, prim: Primitives, s: State, e: Event)
    requires Provisioned(b, prim) && Step(b, prim, s, e).installs != s.installs
    ensures BringsHelloOf(b, e, Step(b, prim, s, e).installs[|s.installs|])
  {
    InstalledOnlyIfSigned(b, prim, s, e);
    hide Step;
  }

  lemma {:induction false} InstallsGrow(b: Boot, prim: Primitives, s: State, es: seq<Event>)
    requires Provisioned(b, prim)
    ensures s.installs <= Run(b, prim, s, es).installs
    decreases |es|
  {
    hide Step;
    if |es| == 0 {
    } else {
      InstalledOnlyIfSigned(b, prim, s, es[0]);
      InstallsGrow(b, prim, Step(b, prim, s, es[0]), es[1..]);
    }
  }

  /** In every reachable state the peer values of an established slot came in a hello that this very peer signed
      for this device. */
  lemma StoredValuesWereSigned(b: Boot, prim: Primitives, es: seq<Event>, p: Id)
    requires Provisioned(b, prim)
    requires p in Run(b, prim, INIT, es).table && Run(b, prim, INIT, es).table[p].established
    ensures var slot := Run(b, prim, INIT, es).table[p];
            exists e | e in es :: BringsHelloOf(b, e, Party(p, slot.peerPub, slot.peerNonce))
  {
    hide BringsHelloOf;
    ReachableInv(b, prim, es);
    var s := Run(b, prim, INIT, es);
    assert SlotOk(b, prim, s.installs, s.epoch, p, s.table[p]);
    InstallsWereBrought(b, prim, INIT, es, s.epoch[p]);
  }

  /** The slots of every peer but q are the same, and a session with q is still one. */
  ghost predicate OnlyTouches(m: Table, m': Table, q: Id) {
    && (forall p | p != q :: (p in m <==> p in m') && (p in m ==> m'[p] == m[p]))
    && (q in m && m[q].established ==> q in m' && m'[q].established)
  }

  lemma SectionsTouchOneSlot(m: Table, peer: Party, d: Derived, counter: u64)
    ensures AcceptHello(m, peer, d).Some? ==> OnlyTouches(m, AcceptHello(m, peer, d).value.table, peer.id)
    ensures OnlyTouches(m, MarkHelloSent(m, peer.id), peer.id)
    ensures AllocateCounter(m, peer.id).Ok? ==> OnlyTouches(m, AllocateCounter(m, peer.id).value, peer.id)
    ensures OnlyTouches(m, AdvanceWindow(m, peer.id, counter), peer.id)
    ensures OnlyTouches(m, m, peer.id)
  {
  }

  /** No event ends a session, and none touches two slots. */
  lemma SessionsOnlyOpen(b: Boot, prim: Primitives, s: State, e: Event) returns (q: Id)
    ensures OnlyTouches(s.table, Step(b, prim, s, e).table, q)
  {
    hide OnlyTouches, CheckHello, AcceptHello, MarkHelloSent, AllocateCounter, AdvanceWindow;
    hide Encrypt, Decrypt, CheckData;
    q := match e
      case RxHello(f) => f.from
      case RxMark => if s.rx.RxMarking? then s.rx.peer else []
      case RxOpen => if s.rx.Opening? then s.rx.from else []
      case TxMark => if s.tx.TxMarking? then s.tx.peer else []
      case TxAlloc(to, _) => to
      case _ => [];
    var d := if e.RxHello? && e.hello.Hello? && CheckHello(b, prim, e.hello).Ok? then CheckHello(b, prim, e.hello).value
             else Derived(ZeroKey, ZeroKey, EMPTY_SESSION.sid);
    var peer := if e.RxHello? && e.hello.Hello? then PeerOf(e.hello) else Party(q, [], []);
    SectionsTouchOneSlot(s.table, peer, d, if s.rx.Opening? then s.rx.counter else 0);
  }

  /** In every reachable state of a device with at most eight peers, each of them has a slot or will get one. */
  lemma NoPeerIsTurnedAway(b: Boot, prim: Primitives, es: seq<Event>, p: Id)
    requires Provisioned(b, prim) && |b.peers| <= MAX_PEERS && p in b.peers
    ensures var s := Run(b, prim, INIT, es);
            s.table.Keys <= Members(b.peers) && |s.table| <= MAX_PEERS && Open(s.table, p).Some?
  {
    hide DeriveSession;
    ReachableInv(b, prim, es);
    hide Run;
    var s := Run(b, prim, INIT, es);
    forall q | q in s.table ensures q in b.peers {
      assert SlotOk(b, prim, s.installs, s.epoch, q, s.table[q]);
    }
    MembersSize(b.peers);
    Smaller(s.table.Keys, Members(b.peers));
    ProvisionedPeersAlwaysFit(s.table, Members(b.peers), p);
  }

  // ---- Nonces ------------------------------------------------------------

  predicate SameNonce(r: Seal, r': Seal) {
    r.key == r'.key && NonceBytes(r.sid, r.counter) == NonceBytes(r'.sid, r'.counter)
  }

  ghost predicate NoncesUnique(rs: seq<Seal>) {
    forall i, j | 0 <= i < j < |rs| :: !SameNonce(rs[i], rs[j])
  }

  ghost predicate KeyNamesEpoch(rs: seq<Seal>) {
    forall i, j | 0 <= i < j < |rs| && rs[i].key == rs[j].key :: rs[i].epoch == rs[j].epoch
  }

  lemma SameKeySameParty(b: Boot, prim: Primitives, installs: seq<Party>, i: nat, j: nat)
    requires Provisioned(b, prim) && InstallsOk(b, prim, installs) && i < |installs| && j < |installs|
    requires var k, k' := Keys(b, prim, installs[i]), Keys(b, prim, installs[j]); k.tx == k'.tx || k.rx == k'.rx
    ensures installs[i] == installs[j]
  {
    KeyDeterminesPeer(prim, b.self, installs[i], installs[j]);
  }

  lemma EpochKeysMakeNoncesUnique(b: Boot, prim: Primitives, installs: seq<Party>, rs: seq<Seal>)
    requires InstallsOk(b, prim, installs) && SealsOk(b, prim, installs, rs)
    requires SealsIncrease(rs) && KeyNamesEpoch(rs)
    ensures NoncesUnique(rs)
  {
    forall i, j | 0 <= i < j < |rs| ensures !SameNonce(rs[i], rs[j]) {
      if SameNonce(rs[i], rs[j]) {
        assert SealOk(b, prim, installs, rs[i]) && SealOk(b, prim, installs, rs[j]);
        NonceInjective(rs[i].sid, rs[i].counter, rs[j].counter);
        assert false;
      }
    }
  }

  // ---- Replay ------------------------------------------------------------

  /** Per installed session, without any hypothesis: while a message is being opened the second guard will
      succeed, the receive counter is the last delivered counter, and delivered counters strictly increase. */
  lemma SessionsAreReplayFree(b: Boot, prim: Primitives, es: seq<Event>)
    requires Provisioned(b, prim)
    ensures var s := Run(b, prim, INIT, es);
            && (s.rx.Opening? ==> s.rx.from in s.table
                                  && AdvanceWindow(s.table, s.rx.from, s.rx.counter)
                                  == s.table[s.rx.from := s.table[s.rx.from].(rxCounter := s.rx.counter)])
            && (forall p | p in s.table && s.table[p].established ::
                p in s.epoch && s.table[p].rxCounter == LastCounter(s.deliveries, s.epoch[p]))
            && DeliveriesIncrease(s.deliveries)
  {
    ReachableInv(b, prim, es);
    var s := Run(b, prim, INIT, es);
    forall p | p in s.table && s.table[p].established ensures p in s.epoch {
      assert SlotOk(b, prim, s.installs, s.epoch, p, s.table[p]);
    }
    if s.rx.Opening? {
      assert s.rx.from in s.table && s.table[s.rx.from].established && s.rx.counter > s.table[s.rx.from].rxCounter;
    }
  }

  ghost predicate NoReplay(ds: seq<Delivery>) {
    forall i, j | 0 <= i < j < |ds| :: !(ds[i].key == ds[j].key && ds[i].counter == ds[j].counter)
  }
}
