/** From start-up to the last message: two started devices agree and then everything sent is delivered. */
module Conversation {
  import opened Encoding
  import opened Crypto
  import opened Protocol
  import opened Device
  import opened EndToEnd
  import opened StartUp
  import opened Wrappers
  import opened Handshake
  import Channel

  /** No message of y has been delivered in the current session, and none is in hand. */
  predicate Unspoken(s: State, y: Id) {
    && (y in s.table ==> s.table[y].rxCounter == 0)
    && !(s.rx.Opening? && s.rx.from == y)
  }

  /** No data frame of the other end comes into the exchange. */
  predicate Apart(l: Link, turn: Turn) {
    turn.Aside? && turn.event.RxData? ==>
      turn.event.data.from != (if turn.atA then l.b.boot.self.id else l.a.boot.self.id)
  }

  lemma StepStaysUnspoken(b: Boot, prim: Primitives, s: State, y: Id, e: Event)
    requires Unspoken(s, y) && !(e.RxData? && e.data.from == y)
    ensures Unspoken(Step(b, prim, s, e), y)
  {
    hide Unspoken, Step;
    if AtConsole(e) {
      ConsoleStaysUnspoken(b, prim, s, y, e);
    } else {
      ReceiverStaysUnspoken(b, prim, s, y, e);
    }
  }

  lemma ConsoleStaysUnspoken(b: Boot, prim: Primitives, s: State, y: Id, e: Event)
    requires Unspoken(s, y) && AtConsole(e)
    ensures Unspoken(Step(b, prim, s, e), y)
  {
    hide Encrypt, StepHello, StepReply, StepRxMark, StepData, StepOpen;
  }

  lemma ReceiverStaysUnspoken(b: Boot, prim: Primitives, s: State, y: Id, e: Event)
    requires Unspoken(s, y) && !AtConsole(e) && !(e.RxData? && e.data.from == y)
    ensures Unspoken(Step(b, prim, s, e), y)
  {
    hide CheckHello, Decrypt, CheckData, StepTxHello, StepTxMark, StepAlloc, StepSeal;
  }

  lemma ActStaysUnspoken(prim: Primitives, x: End, y: End, turn: Turn)
    requires Unspoken(x.state, y.boot.self.id)
    requires turn.Aside? && turn.event.RxData? ==> turn.event.data.from != y.boot.self.id
    requires Act(prim, x, y, turn).Some?
    ensures var m := Act(prim, x, y, turn).value;
            Unspoken(m.a.state, y.boot.self.id) && m.a.boot == x.boot && m.b == y.(inbox := m.b.inbox)
  {
    hide Unspoken, IsAside, MakeHello, StepHello, StepReply, StepRxMark;
    var e := match turn
      case Aside(_, event) => event
      case Exchange(_) =>
        match x.state.rx {
          case RxIdle => RxHello(if |x.inbox| > 0 then x.inbox[0] else MakeHello(x.boot, y.boot.self.id))
          case Replying(_) => RxReply(true)
          case _ => RxMark
        };
    StepStaysUnspoken(x.boot, prim, x.state, y.boot.self.id, e);
  }

  ghost predicate BothUnspoken(l: Link) {
    Unspoken(l.a.state, l.b.boot.self.id) && Unspoken(l.b.state, l.a.boot.self.id)
  }

  lemma {:induction false} ExchangeStaysUnspoken(prim: Primitives, l: Link, schedule: seq<Turn>)
    requires BothUnspoken(l) && (forall turn | turn in schedule :: Apart(l, turn))
    requires LinkRun(prim, l, schedule).Some?
    ensures var m := LinkRun(prim, l, schedule).value;
            BothUnspoken(m) && m.a.boot == l.a.boot && m.b.boot == l.b.boot
    decreases |schedule|
  {
    hide Unspoken, Act;
    if |schedule| == 0 {
      assert LinkRun(prim, l, schedule) == Some(l);
    } else {
      assert Apart(l, schedule[0]);
      if schedule[0].atA {
        ActStaysUnspoken(prim, l.a, l.b, schedule[0]);
      } else {
        ActStaysUnspoken(prim, l.b, l.a, schedule[0]);
      }
      var next := LinkStep(prim, l, schedule[0]).value;
      forall turn | turn in schedule[1..] ensures Apart(next, turn) {
        assert Apart(l, turn);
      }
      ExchangeStaysUnspoken(prim, next, schedule[1..]);
    }
  }

  lemma {:induction false} NothingDelivered(ds: seq<Delivery>, epoch: nat)
    requires forall i | 0 <= i < |ds| :: ds[i].counter > 0
    requires LastCounter(ds, epoch) == 0
    ensures DeliveredIn(ds, epoch) == []
  {
    if |ds| == 0 {
      assert DeliveredIn(ds, epoch) == [];
    } else {
      NothingDelivered(ds[..|ds| - 1], epoch);
    }
  }

  /** Two ends that agree and have heard nothing of each other can talk. */
  lemma AgreementOpensChannel(prim: Primitives, x: End, y: End)
    requires EndOk(prim, x, y.boot) && EndOk(prim, y, x.boot) && Agreed(x, y) && Unspoken(y.state, x.boot.self.id)
    requires x.boot.maxMessage <= y.boot.maxMessage && y.state.rx == RxIdle && x.state.tx == TxIdle
    ensures Channel.Mirrored(prim, Channel.Endpoint(x.boot, x.state), Channel.Endpoint(y.boot, y.state))
    ensures x.boot.self.id in y.state.epoch
    ensures DeliveredIn(y.state.deliveries, y.state.epoch[x.boot.self.id]) == []
  {
    hide DeriveSession, CheckHello, Provisioned;
    var s, p := y.state, x.boot.self.id;
    assert SlotOk(y.boot, prim, s.installs, s.epoch, p, s.table[p]);
    forall i | 0 <= i < |s.deliveries| ensures s.deliveries[i].counter > 0 {
      assert DeliveryOk(y.boot, prim, s.installs, s.deliveries[i]);
    }
    NothingDelivered(s.deliveries, s.epoch[p]);
  }

  /**
   * Two devices start and greet their peers, at least one of them with success. Let their hellos cross a lossless
   * in-order link until it is quiet, whatever else the two do meanwhile; from then on let the consoles do anything
   * and encryption or sending fail at will. If no further handshake between the two is installed, then whenever the
   * link is empty the messages delivered are exactly the messages put on it, in order.
   */
  lemma StartedDevicesCanTalk(prim: Primitives, x: Starter, y: Starter, schedule: seq<Turn>, es: seq<Channel.LinkEvent>)
    requires CanMeet(prim, x, y) && x.boot.maxMessage <= y.boot.maxMessage
    requires forall turn | turn in schedule :: Apart(Started(x, y), turn)
    requires LinkRun(prim, Started(x, y), schedule).Some?
    requires var m := LinkRun(prim, Started(x, y), schedule).value;
             Quiet(m.a) && Quiet(m.b) && m.a.state.tx == TxIdle
    ensures var m := LinkRun(prim, Started(x, y), schedule).value;
            var c := Channel.LinkRun(prim, Channel.Link(Channel.Endpoint(m.a.boot, m.a.state),
                                                        Channel.Endpoint(m.b.boot, m.b.state), [], []), es);
            && x.boot.self.id in m.b.state.epoch
            && (c.wire == [] && !c.y.state.rx.Opening? ==>
                DeliveredIn(c.y.state.deliveries, m.b.state.epoch[x.boot.self.id]) == c.log)
  {
    StartIsInOrder(prim, x, y);
    StartIsUnspoken(prim, x, y);
    hide CanMeet, LinkRun, LinkOk, Agreed, Channel.LinkRun, Channel.Mirrored;
    hide DeliveredIn, Apart, Unspoken, EndOk, AllGreeted;
    var l := Started(x, y);
    ExchangeTerminates(prim, l, schedule);
    ExchangeEndsInAgreement(prim, l, schedule);
    ExchangeStaysUnspoken(prim, l, schedule);
    var m := LinkRun(prim, l, schedule).value;
    EndsOfLink(prim, m);
    AgreementOpensChannel(prim, m.a, m.b);
    var a, b := Channel.Endpoint(m.a.boot, m.a.state), Channel.Endpoint(m.b.boot, m.b.state);
    var c := Channel.LinkRun(prim, Channel.Link(a, b, [], []), es);
    if c.wire == [] && !c.y.state.rx.Opening? {
      Channel.Completeness(prim, a, b, es);
    }
  }

  /** Such a schedule exists: the receivers alone bring the link to rest, and the consoles stay idle. */
  lemma SomeExchangeComesToRest(prim: Primitives, x: Starter, y: Starter) returns (schedule: seq<Turn>)
    requires CanMeet(prim, x, y)
    ensures forall turn | turn in schedule :: Apart(Started(x, y), turn)
    ensures LinkRun(prim, Started(x, y), schedule).Some?
    ensures var m := LinkRun(prim, Started(x, y), schedule).value;
            Quiet(m.a) && Quiet(m.b) && m.a.state.tx == TxIdle && m.b.state.tx == TxIdle
  {
    StartIsInOrder(prim, x, y);
    StartIsIdle(prim, x, y);
    hide CanMeet, LinkRun, LinkOk, Quiet, Started;
    schedule := ExchangeCanFinish(prim, Started(x, y));
    forall turn | turn in schedule ensures Apart(Started(x, y), turn) {
      assert FinishesTask(turn);
    }
  }

  lemma StartIsIdle(prim: Primitives, x: Starter, y: Starter)
    requires CanMeet(prim, x, y)
    ensures Started(x, y).a.state.tx == TxIdle && Started(x, y).b.state.tx == TxIdle
  {
    hide Inv, AllGreeted;
    StartUpReachesEveryPeer(x.boot, prim, x.boot.peers, x.taken);
    StartUpReachesEveryPeer(y.boot, prim, y.boot.peers, y.taken);
  }

  lemma StartIsUnspoken(prim: Primitives, x: Starter, y: Starter)
    requires CanMeet(prim, x, y)
    ensures BothUnspoken(Started(x, y))
  {
    hide Inv, AllGreeted;
    StartUpReachesEveryPeer(x.boot, prim, x.boot.peers, x.taken);
    StartUpReachesEveryPeer(y.boot, prim, y.boot.peers, y.taken);
  }
}
