/** End-to-end integrity: what a device delivers is a subsequence of what its peer sealed for it. */
module EndToEnd {
  import opened Bytes
  import opened Encoding
  import opened Crypto
  import opened Device
  import opened Network

  datatype Message = Message(counter: u64, text: Bytes)

  ghost predicate Increasing(ms: seq<Message>) {
    forall i, j | 0 <= i < j < |ms| :: ms[i].counter < ms[j].counter
  }

  predicate IsSubsequence(a: seq<Message>, b: seq<Message>) {
    if |a| == 0 then true
    else if |b| == 0 then false
    else if a[0] == b[0] then IsSubsequence(a[1..], b[1..])
    else IsSubsequence(a, b[1..])
  }

  /** Two increasing sequences, one contained in the other as a set: it is a subsequence. */
  lemma {:induction false} IncreasingSubset(a: seq<Message>, b: seq<Message>)
    requires Increasing(a) && Increasing(b)
    requires forall m | m in a :: m in b
    ensures IsSubsequence(a, b)
    decreases |b|
  {
    if |a| == 0 {
    } else {
      assert a[0] in b;
      if a[0] == b[0] {
        forall m | m in a[1..] ensures m in b[1..] {
          assert m in a && m != a[0];
        }
        IncreasingSubset(a[1..], b[1..]);
      } else {
        forall m | m in a ensures m in b[1..] {
          var j :| 0 <= j < |b| && b[j] == a[0];
          assert b[0].counter < a[0].counter <= m.counter;
        }
        IncreasingSubset(a, b[1..]);
      }
    }
  }

  ghost predicate InstalledOnce(installs: seq<Party>, p: Party) {
    forall i, j | 0 <= i < j < |installs| && installs[i] == p :: installs[j] != p
  }

  /** The messages delivered under the epoch-th handshake, in order. */
  function DeliveredIn(ds: seq<Delivery>, epoch: nat): seq<Message> {
    if |ds| == 0 then []
    else
      var d := ds[|ds| - 1];
      DeliveredIn(ds[..|ds| - 1], epoch) + if d.epoch == epoch then [Message(d.counter, d.text)] else []
  }

  lemma DeliveredAfter(ds: seq<Delivery>, d: Delivery, epoch: nat)
    ensures DeliveredIn(ds + [d], epoch)
            == DeliveredIn(ds, epoch) + if d.epoch == epoch then [Message(d.counter, d.text)] else []
  {
    assert (ds + [d])[..|ds|] == ds;
  }

  /** The messages sealed under a key, in order. */
  function SealedUnder(rs: seq<Seal>, key: Key): seq<Message> {
    if |rs| == 0 then []
    else
      var r := rs[|rs| - 1];
      SealedUnder(rs[..|rs| - 1], key) + if r.key == key then [Message(r.counter, r.text)] else []
  }

  lemma {:induction false} DeliveredInIncreases(ds: seq<Delivery>, epoch: nat)
    requires DeliveriesIncrease(ds)
    ensures Increasing(DeliveredIn(ds, epoch))
    ensures forall m | m in DeliveredIn(ds, epoch) ::
              exists i :: 0 <= i < |ds| && ds[i].epoch == epoch && m == Message(ds[i].counter, ds[i].text)
  {
    if |ds| == 0 {
    } else {
      var init := ds[..|ds| - 1];
      DeliveredInIncreases(init, epoch);
      forall m | m in DeliveredIn(init, epoch)
        ensures exists i :: 0 <= i < |ds| && ds[i].epoch == epoch && m == Message(ds[i].counter, ds[i].text)
        ensures ds[|ds| - 1].epoch == epoch ==> m.counter < ds[|ds| - 1].counter
      {
        var i :| 0 <= i < |init| && init[i].epoch == epoch && m == Message(init[i].counter, init[i].text);
        assert ds[i] == init[i];
      }
    }
  }

  ghost predicate OneEpoch(rs: seq<Seal>, key: Key) {
    forall i, j | 0 <= i < j < |rs| && rs[i].key == rs[j].key == key :: rs[i].epoch == rs[j].epoch
  }

  lemma {:induction false} SealedUnderHolds(rs: seq<Seal>, key: Key, j: nat)
    requires j < |rs| && rs[j].key == key
    ensures Message(rs[j].counter, rs[j].text) in SealedUnder(rs, key)
  {
    if j == |rs| - 1 {
    } else {
      SealedUnderHolds(rs[..|rs| - 1], key, j);
    }
  }

  lemma {:induction false} SealOfMessage(rs: seq<Seal>, key: Key, m: Message) returns (j: nat)
    requires m in SealedUnder(rs, key)
    ensures j < |rs| && rs[j].key == key && m == Message(rs[j].counter, rs[j].text)
  {
    j := |rs| - 1;
    if m in SealedUnder(rs[..|rs| - 1], key) {
      j := SealOfMessage(rs[..|rs| - 1], key, m);
    }
  }

  lemma {:induction false} SealedUnderIncreases(rs: seq<Seal>, key: Key)
    requires SealsIncrease(rs) && OneEpoch(rs, key)
    ensures Increasing(SealedUnder(rs, key))
  {
    if |rs| == 0 {
    } else {
      var init, last := rs[..|rs| - 1], rs[|rs| - 1];
      SealedUnderIncreases(init, key);
      if last.key == key {
        forall m | m in SealedUnder(init, key) ensures m.counter < last.counter {
          var j := SealOfMessage(init, key, m);
          assert rs[j] == init[j];
        }
      }
    }
  }

  /** The origin of a message is the very boot whose handshake the message was delivered under. */
  lemma OriginIsAuthor(setup: Setup, prim: Primitives, net: Net, i: nat, d: Delivery, k: nat, j: nat)
    requires NetInv(setup, prim, net) && Origin(net, i, d, k, j) && d in net.nodes[i].state.deliveries
    ensures d.epoch < |net.nodes[i].state.installs|
    ensures net.nodes[k].boot.self == net.nodes[i].state.installs[d.epoch]
  {
    hide DeriveSession;
    var here, there := net.nodes[i], net.nodes[k];
    assert NodeOk(setup, prim, here) && NodeOk(setup, prim, there);
    var x :| 0 <= x < |here.state.deliveries| && here.state.deliveries[x] == d;
    assert DeliveryOk(here.boot, prim, here.state.installs, here.state.deliveries[x]);
    var r := there.state.seals[j];
    assert AllSeals(there.state)[j] == r;
    assert SealOk(there.boot, prim, there.state.installs, r);
    SharedKeyPairsEnds(prim, here.boot.self, here.state.installs[d.epoch],
                       there.boot.self, there.state.installs[r.epoch]);
  }

  lemma AuthorUnique(setup: Setup, prim: Primitives, net: Net, k: nat, k': nat)
    requires NetInv(setup, prim, net) && k < |net.nodes| && k' < |net.nodes|
    requires net.nodes[k].boot.self == net.nodes[k'].boot.self
    ensures k == k'
  {
    hide NodeOk, InstallsAuthored, DeliveriesSealed, OpeningMade;
  }

  /**
   * Against the untrusted relay, for every handshake a boot ever installed with an honest peer there is one boot k of
   * that peer whose values it holds and which signed them for this device. Boot k is another device: nothing is
   * reflected. Everything delivered under the handshake was sealed by boot k, for this device, with the same counter
   * and text, in one of the sessions boot k installed; counters strictly increase; and what was delivered out of
   * each such session is a subsequence of what boot k sealed in it.
   */
  lemma EndToEndIntegrity(setup: Setup, prim: Primitives, es: seq<NetEvent>, i: nat, epoch: nat) returns (k: nat)
    requires ValidSetup(setup)
    requires i < |NetRun(setup, prim, es).nodes|
    requires epoch < |NetRun(setup, prim, es).nodes[i].state.installs|
    requires NetRun(setup, prim, es).nodes[i].state.installs[epoch].id in setup.peers
    ensures var net := NetRun(setup, prim, es);
            var here := net.nodes[i];
            && Author(net, i, here.state.installs[epoch], k)
            && net.nodes[k].boot.self.id != here.boot.self.id
            && Derivable(here.boot, prim, here.state.installs[epoch])
            && var seals, delivered := net.nodes[k].state.seals, DeliveredIn(here.state.deliveries, epoch);
               var key := Keys(here.boot, prim, here.state.installs[epoch]).rx;
               && Increasing(delivered)
               && (forall d | d in here.state.deliveries && d.epoch == epoch ::
                     exists j: nat :: Origin(net, i, d, k, j))
               && SealedSessionBySession(delivered, seals, key)
  {
    hide NetRun, DeriveSession, IsSubsequence;
    var net := NetRun(setup, prim, es);
    NetRunInv(setup, prim, es);
    k := AuthorOf(setup, prim, net, i, epoch);
    hide NetInv;
    forall d | d in net.nodes[i].state.deliveries && d.epoch == epoch
      ensures exists j: nat :: Origin(net, i, d, k, j)
    {
      var j := OriginAtAuthor(setup, prim, net, i, d, k);
    }
    hide Author, Origin, DeliveredIn, SealedSessionBySession;
    DeliveredPerSession(setup, prim, net, i, epoch, k);
  }

  /** Every message was sealed under the key in some session of the sender, and what was sealed in any one session
      arrived, as far as it arrived, in the order it was sealed. */
  ghost predicate SealedSessionBySession(delivered: seq<Message>, seals: seq<Seal>, key: Key) {
    && (forall m | m in delivered :: exists e: nat :: m in SealedIn(seals, key, e))
    && (forall e: nat :: IsSubsequence(Among(delivered, SealedIn(seals, key, e)), SealedIn(seals, key, e)))
  }

  /** Every delivered message was sealed in a session of boot k, and session by session in the same order. */
  lemma DeliveredPerSession(setup: Setup, prim: Primitives, net: Net, i: nat, epoch: nat, k: nat)
    requires NetInv(setup, prim, net) && i < |net.nodes| && epoch < |net.nodes[i].state.installs|
    requires net.nodes[i].state.installs[epoch].id in setup.peers
    requires Author(net, i, net.nodes[i].state.installs[epoch], k)
    requires Derivable(net.nodes[i].boot, prim, net.nodes[i].state.installs[epoch])
    ensures var seals, delivered := net.nodes[k].state.seals, DeliveredIn(net.nodes[i].state.deliveries, epoch);
            var key := Keys(net.nodes[i].boot, prim, net.nodes[i].state.installs[epoch]).rx;
            SealedSessionBySession(delivered, seals, key)
  {
    hide NetInv, DeriveSession, IsSubsequence, DeliveredIn, SealedIn, Among;
    var seals, delivered := net.nodes[k].state.seals, DeliveredIn(net.nodes[i].state.deliveries, epoch);
    var key := Keys(net.nodes[i].boot, prim, net.nodes[i].state.installs[epoch]).rx;
    SealsOfBoot(setup, prim, net, k);
    DeliveriesOfBoot(setup, prim, net, i);
    DeliveredInIncreases(net.nodes[i].state.deliveries, epoch);
    hide SealsIncrease, DeliveriesIncrease, Increasing;
    forall m | m in delivered ensures exists e: nat :: m in SealedIn(seals, key, e) {
      var j := DeliveredWasSealed(setup, prim, net, i, epoch, k, m);
      SealedInHolds(seals, key, seals[j].epoch, j);
    }
    forall e: nat ensures IsSubsequence(Among(delivered, SealedIn(seals, key, e)), SealedIn(seals, key, e)) {
      SealedInIncreases(seals, key, e);
      CommonPartIsSubsequence(delivered, SealedIn(seals, key, e));
    }
  }

  /** If boot k installed this boot's handshake only once, there is only one such session, and all that was delivered
      is a subsequence of all that boot k sealed under the key. ReorderExample shows that this needs the condition. */
  lemma OneInstallKeepsOrder(setup: Setup, prim: Primitives, es: seq<NetEvent>, i: nat, epoch: nat, k: nat)
    requires ValidSetup(setup)
    requires i < |NetRun(setup, prim, es).nodes|
    requires epoch < |NetRun(setup, prim, es).nodes[i].state.installs|
    requires var net := NetRun(setup, prim, es);
             && net.nodes[i].state.installs[epoch].id in setup.peers
             && Author(net, i, net.nodes[i].state.installs[epoch], k)
             && InstalledOnce(net.nodes[k].state.installs, net.nodes[i].boot.self)
    ensures var net := NetRun(setup, prim, es);
            var here := net.nodes[i];
            && Derivable(here.boot, prim, here.state.installs[epoch])
            && IsSubsequence(DeliveredIn(here.state.deliveries, epoch),
                             SealedUnder(net.nodes[k].state.seals,
                                         Keys(here.boot, prim, here.state.installs[epoch]).rx))
  {
    hide NetRun, DeriveSession;
    NetRunInv(setup, prim, es);
    var k' := AuthorOf(setup, prim, NetRun(setup, prim, es), i, epoch);
    DeliveredIsSubsequence(setup, prim, NetRun(setup, prim, es), i, epoch, k);
  }

  /** The messages sealed under a key in one session of the sender, in order. */
  function SealedIn(rs: seq<Seal>, key: Key, epoch: nat): seq<Message> {
    if |rs| == 0 then []
    else
      var r := rs[|rs| - 1];
      SealedIn(rs[..|rs| - 1], key, epoch)
      + if r.key == key && r.epoch == epoch then [Message(r.counter, r.text)] else []
  }

  /** Those of ms that are also in others. */
  function Among(ms: seq<Message>, others: seq<Message>): seq<Message> {
    if |ms| == 0 then []
    else Among(ms[..|ms| - 1], others) + if ms[|ms| - 1] in others then [ms[|ms| - 1]] else []
  }

  lemma {:induction false} SealedInHolds(rs: seq<Seal>, key: Key, epoch: nat, j: nat)
    requires j < |rs| && rs[j].key == key && rs[j].epoch == epoch
    ensures Message(rs[j].counter, rs[j].text) in SealedIn(rs, key, epoch)
  {
    if j == |rs| - 1 {
    } else {
      SealedInHolds(rs[..|rs| - 1], key, epoch, j);
    }
  }

  lemma {:induction false} SealInSession(rs: seq<Seal>, key: Key, epoch: nat, m: Message) returns (j: nat)
    requires m in SealedIn(rs, key, epoch)
    ensures j < |rs| && rs[j].epoch == epoch && m == Message(rs[j].counter, rs[j].text)
  {
    j := |rs| - 1;
    if m in SealedIn(rs[..|rs| - 1], key, epoch) {
      j := SealInSession(rs[..|rs| - 1], key, epoch, m);
    }
  }

  lemma {:induction false} SealedInIncreases(rs: seq<Seal>, key: Key, epoch: nat)
    requires SealsIncrease(rs)
    ensures Increasing(SealedIn(rs, key, epoch))
  {
    if |rs| == 0 {
    } else {
      var init, last := rs[..|rs| - 1], rs[|rs| - 1];
      SealedInIncreases(init, key, epoch);
      if last.key == key && last.epoch == epoch {
        forall m | m in SealedIn(init, key, epoch) ensures m.counter < last.counter {
          var j := SealInSession(init, key, epoch, m);
          assert rs[j] == init[j];
        }
      }
    }
  }

  lemma {:induction false} AmongIncreases(ms: seq<Message>, others: seq<Message>)
    requires Increasing(ms)
    ensures Increasing(Among(ms, others))
    ensures forall m | m in Among(ms, others) :: m in ms && m in others
  {
    if |ms| == 0 {
      assert Among(ms, others) == [];
    } else {
      AmongIncreases(ms[..|ms| - 1], others);
      forall m | m in Among(ms[..|ms| - 1], others) ensures m in ms && m.counter < ms[|ms| - 1].counter {
        var j :| 0 <= j < |ms| - 1 && ms[j] == m;
      }
    }
  }

  lemma CommonPartIsSubsequence(ms: seq<Message>, others: seq<Message>)
    requires Increasing(ms) && Increasing(others)
    ensures IsSubsequence(Among(ms, others), others)
  {
    AmongIncreases(ms, others);
    IncreasingSubset(Among(ms, others), others);
  }

  lemma SealsOfBoot(setup: Setup, prim: Primitives, net: Net, k: nat)
    requires NetInv(setup, prim, net) && k < |net.nodes|
    ensures SealsIncrease(net.nodes[k].state.seals)
  {
    hide DeriveSession;
    var s := net.nodes[k].state;
    assert NodeOk(setup, prim, net.nodes[k]);
    assert forall j | 0 <= j < |s.seals| :: s.seals[j] == AllSeals(s)[j];
  }

  lemma DeliveredWasSealed(setup: Setup, prim: Primitives, net: Net, i: nat, epoch: nat, k: nat, m: Message)
    returns (j: nat)
    requires NetInv(setup, prim, net) && i < |net.nodes| && epoch < |net.nodes[i].state.installs|
    requires net.nodes[i].state.installs[epoch].id in setup.peers
    requires Author(net, i, net.nodes[i].state.installs[epoch], k)
    requires Derivable(net.nodes[i].boot, prim, net.nodes[i].state.installs[epoch])
    requires m in DeliveredIn(net.nodes[i].state.deliveries, epoch)
    ensures j < |net.nodes[k].state.seals|
    ensures var r := net.nodes[k].state.seals[j];
            && r.key == Keys(net.nodes[i].boot, prim, net.nodes[i].state.installs[epoch]).rx
            && m == Message(r.counter, r.text)
  {
    hide DeriveSession;
    var ds := net.nodes[i].state.deliveries;
    DeliveriesOfBoot(setup, prim, net, i);
    hide NetInv;
    DeliveredInIncreases(ds, epoch);
    var x :| 0 <= x < |ds| && ds[x].epoch == epoch && m == Message(ds[x].counter, ds[x].text);
    DeliveryNamesPeer(setup, prim, net, i, ds[x]);
    j := OriginAtAuthor(setup, prim, net, i, ds[x], k);
  }

  lemma AuthorOf(setup: Setup, prim: Primitives, net: Net, i: nat, epoch: nat) returns (k: nat)
    requires NetInv(setup, prim, net) && i < |net.nodes| && epoch < |net.nodes[i].state.installs|
    requires net.nodes[i].state.installs[epoch].id in setup.peers
    ensures Author(net, i, net.nodes[i].state.installs[epoch], k)
    ensures net.nodes[k].boot.self.id != net.nodes[i].boot.self.id
    ensures Derivable(net.nodes[i].boot, prim, net.nodes[i].state.installs[epoch])
    ensures Increasing(DeliveredIn(net.nodes[i].state.deliveries, epoch))
  {
    hide DeriveSession;
    assert NodeOk(setup, prim, net.nodes[i]) && InstallsAuthored(setup, net, i);
    k :| Author(net, i, net.nodes[i].state.installs[epoch], k);
    DeliveredInIncreases(net.nodes[i].state.deliveries, epoch);
  }

  lemma OriginAtAuthor(setup: Setup, prim: Primitives, net: Net, i: nat, d: Delivery, k: nat) returns (j: nat)
    requires NetInv(setup, prim, net) && i < |net.nodes| && d in net.nodes[i].state.deliveries
    requires d.epoch < |net.nodes[i].state.installs|
    requires net.nodes[i].state.installs[d.epoch].id in setup.peers
    requires Author(net, i, net.nodes[i].state.installs[d.epoch], k)
    ensures Origin(net, i, d, k, j)
  {
    hide DeriveSession;
    assert DeliveriesSealed(setup, net, i);
    DeliveryNamesPeer(setup, prim, net, i, d);
    hide NetInv;
    var k';
    k', j :| Origin(net, i, d, k', j);
    OriginIsAuthor(setup, prim, net, i, d, k', j);
    AuthorUnique(setup, prim, net, k, k');
  }

  lemma DeliveryNamesPeer(setup: Setup, prim: Primitives, net: Net, i: nat, d: Delivery)
    requires NetInv(setup, prim, net) && i < |net.nodes| && d in net.nodes[i].state.deliveries
    ensures d.epoch < |net.nodes[i].state.installs| && net.nodes[i].state.installs[d.epoch].id == d.from
    ensures InstallsOk(net.nodes[i].boot, prim, net.nodes[i].state.installs)
    ensures d.key == Keys(net.nodes[i].boot, prim, net.nodes[i].state.installs[d.epoch]).rx
  {
    hide DeriveSession;
    assert NodeOk(setup, prim, net.nodes[i]);
    var s := net.nodes[i].state;
    var x :| 0 <= x < |s.deliveries| && s.deliveries[x] == d;
    assert DeliveryOk(net.nodes[i].boot, prim, s.installs, s.deliveries[x]);
  }

  lemma DeliveredIsSubsequence(setup: Setup, prim: Primitives, net: Net, i: nat, epoch: nat, k: nat)
    requires NetInv(setup, prim, net) && i < |net.nodes| && epoch < |net.nodes[i].state.installs|
    requires net.nodes[i].state.installs[epoch].id in setup.peers
    requires Author(net, i, net.nodes[i].state.installs[epoch], k)
    requires InstalledOnce(net.nodes[k].state.installs, net.nodes[i].boot.self)
    requires Derivable(net.nodes[i].boot, prim, net.nodes[i].state.installs[epoch])
    ensures IsSubsequence(DeliveredIn(net.nodes[i].state.deliveries, epoch),
                          SealedUnder(net.nodes[k].state.seals,
                                      Keys(net.nodes[i].boot, prim, net.nodes[i].state.installs[epoch]).rx))
  {
    hide DeriveSession, IsSubsequence;
    var ds, rs := net.nodes[i].state.deliveries, net.nodes[k].state.seals;
    var key := Keys(net.nodes[i].boot, prim, net.nodes[i].state.installs[epoch]).rx;
    SealsOfPair(setup, prim, net, i, epoch, k);
    SealsOfBoot(setup, prim, net, k);
    DeliveriesOfBoot(setup, prim, net, i);
    hide NetInv;
    SealedUnderIncreases(rs, key);
    DeliveredInIncreases(ds, epoch);
    forall m | m in DeliveredIn(ds, epoch) ensures m in SealedUnder(rs, key) {
      var j := DeliveredWasSealed(setup, prim, net, i, epoch, k, m);
      SealedUnderHolds(rs, key, j);
    }
    IncreasingSubset(DeliveredIn(ds, epoch), SealedUnder(rs, key));
  }

  /** A message sealed under the key of a pair of boots was sealed in a session with the other one. */
  lemma SealNamesPair(setup: Setup, prim: Primitives, net: Net, i: nat, epoch: nat, k: nat, j: nat)
    requires NetInv(setup, prim, net) && i < |net.nodes| && epoch < |net.nodes[i].state.installs|
    requires k < |net.nodes| && j < |net.nodes[k].state.seals|
    requires Derivable(net.nodes[i].boot, prim, net.nodes[i].state.installs[epoch])
    requires net.nodes[k].state.seals[j].key == Keys(net.nodes[i].boot, prim, net.nodes[i].state.installs[epoch]).rx
    ensures var r := net.nodes[k].state.seals[j];
            r.epoch < |net.nodes[k].state.installs| && net.nodes[k].state.installs[r.epoch] == net.nodes[i].boot.self
  {
    hide DeriveSession;
    var here, there, peer := net.nodes[i].boot, net.nodes[k], net.nodes[i].state.installs[epoch];
    assert NodeOk(setup, prim, net.nodes[i]) && NodeOk(setup, prim, there);
    hide NetInv;
    var r := AllSeals(there.state)[j];
    assert r == there.state.seals[j];
    assert SealOk(there.boot, prim, there.state.installs, r);
    SharedKeyPairsEnds(prim, here.self, peer, there.boot.self, there.state.installs[r.epoch]);
  }

  /** Under the key of one pair of boots, a sender that installed the other one once seals in one session only. */
  lemma SealsOfPair(setup: Setup, prim: Primitives, net: Net, i: nat, epoch: nat, k: nat)
    requires NetInv(setup, prim, net) && i < |net.nodes| && epoch < |net.nodes[i].state.installs|
    requires k < |net.nodes| && InstalledOnce(net.nodes[k].state.installs, net.nodes[i].boot.self)
    requires Derivable(net.nodes[i].boot, prim, net.nodes[i].state.installs[epoch])
    ensures OneEpoch(net.nodes[k].state.seals, Keys(net.nodes[i].boot, prim, net.nodes[i].state.installs[epoch]).rx)
  {
    hide NetInv, Derivable, DeriveSession;
    var rs, key := net.nodes[k].state.seals, Keys(net.nodes[i].boot, prim, net.nodes[i].state.installs[epoch]).rx;
    forall j | 0 <= j < |rs| && rs[j].key == key
      ensures rs[j].epoch < |net.nodes[k].state.installs|
      ensures net.nodes[k].state.installs[rs[j].epoch] == net.nodes[i].boot.self
    {
      SealNamesPair(setup, prim, net, i, epoch, k, j);
    }
  }

  lemma DeliveriesOfBoot(setup: Setup, prim: Primitives, net: Net, i: nat)
    requires NetInv(setup, prim, net) && i < |net.nodes|
    ensures DeliveriesIncrease(net.nodes[i].state.deliveries)
  {
    assert NodeOk(setup, prim, net.nodes[i]);
  }
}
