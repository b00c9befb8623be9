/**
 * The hello exchange between two devices over lossless in-order links, with no further restart and no hello to
 * each other from the consoles. Data frames, messages and the hellos of other peers may come between its moves.
 * It stops under every schedule, and when it has stopped both ends agree.
 */
module Handshake {
  import opened Bytes
  import opened Encoding
  import opened Crypto
  import opened Sessions
  import opened Protocol
  import opened Device
  import opened Wrappers

  /** A device and the hellos on their way to it. */
  datatype End = End(boot: Boot, state: State, inbox: seq<Frame>)

  datatype Link = Link(a: End, b: End)

  /** What x's receiver does next in its exchange with y, if it is free to and has anything to do. */
  function Move(prim: Primitives, x: End, y: End): Option<Link> {
    match x.state.rx
    case RxIdle =>
      if |x.inbox| == 0 then None
      else Some(Link(x.(state := StepHello(x.boot, prim, x.state, x.inbox[0]), inbox := x.inbox[1..]), y))
    case Replying(p) =>
      if p != y.boot.self.id then None
      else Some(Link(x.(state := StepReply(x.boot, x.state, true)), y.(inbox := y.inbox + [MakeHello(x.boot, p)])))
    case RxMarking(p) =>
      if p != y.boot.self.id then None else Some(Link(x.(state := StepRxMark(x.state)), y))
    case Opening(_, _, _, _, _) => None
  }

  /** e is not part of the exchange with y: any data frame, any message, a hello from or to another peer. It must
      leave y a slot, which it always does with at most eight peers: see RoomIsKept. */
  predicate IsAside(prim: Primitives, b: Boot, s: State, y: Id, e: Event) {
    && (match e
        case RxHello(f) => f.Hello? ==> f.from != y
        case RxReply(_) => s.rx != Replying(y)
        case RxMark => s.rx != RxMarking(y)
        case TxHello(to, _) => to != y
        case TxMark => s.tx != TxMarking(y)
        case _ => true)
    && Open(Step(b, prim, s, e).table, y).Some?
  }

  /** A schedule says which end makes a move of the exchange, or does something else. */
  datatype Turn = Exchange(atA: bool) | Aside(atA: bool, event: Event)

  function Act(prim: Primitives, x: End, y: End, turn: Turn): Option<Link> {
    match turn
    case Exchange(_) => Move(prim, x, y)
    case Aside(_, e) =>
      if IsAside(prim, x.boot, x.state, y.boot.self.id, e)
      then Some(Link(x.(state := Step(x.boot, prim, x.state, e)), y))
      else None
  }

  /** A turn that is not possible cannot be scheduled. */
  function LinkStep(prim: Primitives, l: Link, turn: Turn): Option<Link> {
    if turn.atA then Act(prim, l.a, l.b, turn)
    else match Act(prim, l.b, l.a, turn)
      case None => None
      case Some(m) => Some(Link(m.b, m.a))
  }

  function LinkRun(prim: Primitives, l: Link, schedule: seq<Turn>): Option<Link>
    decreases |schedule|
  {
    if |schedule| == 0 then Some(l)
    else match LinkStep(prim, l, schedule[0])
      case None => None
      case Some(m) => LinkRun(prim, m, schedule[1..])
  }

  /** How many turns of a schedule belong to the exchange. */
  function Exchanges(schedule: seq<Turn>): nat {
    if |schedule| == 0 then 0 else (if schedule[0].Exchange? then 1 else 0) + Exchanges(schedule[1..])
  }

  // ---- What an end holds and what it is about to hear ---------------------

  function Holding(x: End, y: Id): Option<Party> {
    HeldIn(x.state.table, y)
  }

  function HeldIn(m: Table, y: Id): Option<Party> {
    if y in m && m[y].established then Some(Party(y, m[y].peerPub, m[y].peerNonce)) else None
  }

  function Sent(x: End, y: Id): bool {
    SentIn(x.state.table, y)
  }

  function SentIn(m: Table, y: Id): bool {
    y in m && m[y].helloSent
  }

  /** The receiver is not in the middle of answering y. */
  function Free(rx: RxTask, y: Id): bool {
    rx != Replying(y) && rx != RxMarking(y)
  }

  function Heard(f: Frame): Option<Party> {
    if f.Hello? then Some(PeerOf(f)) else None
  }

  /** How often the value changes along held, then each pending hello. */
  function Changes(held: Option<Party>, inbox: seq<Frame>): nat
    decreases |inbox|
  {
    if |inbox| == 0 then 0
    else (if held != Heard(inbox[0]) then 1 else 0) + Changes(Heard(inbox[0]), inbox[1..])
  }

  function Last(held: Option<Party>, inbox: seq<Frame>): Option<Party> {
    if |inbox| == 0 then held else Heard(inbox[|inbox| - 1])
  }

  lemma {:induction false} ChangesAppend(held: Option<Party>, inbox: seq<Frame>, f: Frame)
    ensures Changes(held, inbox + [f]) == Changes(held, inbox) + if Last(held, inbox) != Heard(f) then 1 else 0
    ensures Last(held, inbox + [f]) == Heard(f)
    decreases |inbox|
  {
    if |inbox| > 0 {
      assert (inbox + [f])[1..] == inbox[1..] + [f];
      ChangesAppend(Heard(inbox[0]), inbox[1..], f);
    } else {
      assert (inbox + [f])[1..] == [];
    }
  }

  /** Once everything pending is handled, x will hold y's current handshake. */
  predicate Current(x: End, y: End) {
    Last(Holding(x, y.boot.self.id), x.inbox) == Some(y.boot.self)
  }

  /** x has a hello for y to send, or will find that it has while handling what is pending. */
  predicate WillReply(x: End, y: Id) {
    || x.state.rx == Replying(y)
    || Changes(Holding(x, y), x.inbox) > 0
    || (Free(x.state.rx, y) && !Sent(x, y) && |x.inbox| > 0)
  }

  ghost predicate EndOk(prim: Primitives, x: End, y: Boot) {
    && Provisioned(x.boot, prim)
    && Inv(x.boot, prim, x.state)
    && y.self.id in x.boot.peers
    && Open(x.state.table, y.self.id).Some?
    && (forall f | f in x.inbox :: f.Hello? && f.from == y.self.id && CheckHello(x.boot, prim, f).Ok?)
  }

  ghost predicate LinkOk(prim: Primitives, l: Link) {
    && EndOk(prim, l.a, l.b.boot)
    && EndOk(prim, l.b, l.a.boot)
    && (Current(l.a, l.b) || WillReply(l.b, l.a.boot.self.id))
    && (Current(l.b, l.a) || WillReply(l.a, l.b.boot.self.id))
  }

  // ---- The measure -------------------------------------------------------

  function Work(rx: RxTask, y: Id): nat {
    if rx == Replying(y) then 3 else if rx == RxMarking(y) then 1 else 0
  }

  /** Value changes still to come, a current hello still to be heard, the opening hello still to be sent;
      each may cost three moves; then the hellos pending and the steps begun. */
  function EndMeasure(x: End, y: End): nat {
    3 * (Changes(Holding(x, y.boot.self.id), x.inbox)
         + (if Current(x, y) then 0 else 1)
         + (if !Sent(x, y.boot.self.id) && Free(x.state.rx, y.boot.self.id) then 1 else 0))
    + |x.inbox| + Work(x.state.rx, y.boot.self.id)
  }

  function Measure(l: Link): nat {
    EndMeasure(l.a, l.b) + EndMeasure(l.b, l.a)
  }

  // ---- One move ----------------------------------------------------------

  /** Delivering a hello: a copy of what is held changes nothing, anything else is installed and answered. */
  lemma DeliverEffect(prim: Primitives, x: End, y: Boot)
    requires EndOk(prim, x, y) && x.state.rx == RxIdle && |x.inbox| > 0
    ensures var t := x.(state := StepHello(x.boot, prim, x.state, x.inbox[0]), inbox := x.inbox[1..]);
            var p := y.self.id;
            && Holding(t, p) == Heard(x.inbox[0])
            && Sent(t, p) == Sent(x, p)
            && t.state.rx == (if Holding(x, p) == Heard(x.inbox[0]) && Sent(x, p) then RxIdle else Replying(p))
            && p in t.state.table
            && Inv(t.boot, prim, t.state)
  {
    hide DeriveSession, CheckHello;
    var f := x.inbox[0];
    assert f in x.inbox;
    HelloKeepsInv(x.boot, prim, x.state, f);
    assert PeerOf(f).id == y.self.id;
    var d := CheckHello(x.boot, prim, f).value;
    SameValuesSameSession(x.boot, prim, x.state, f);
    hide Inv;
    var slot := AcceptHelloTouchesOneSlot(x.state.table, PeerOf(f), d);
  }

  lemma SameValuesSameSession(b: Boot, prim: Primitives, s: State, f: Frame)
    requires Inv(b, prim, s) && f.Hello? && CheckHello(b, prim, f).Ok?
    ensures f.from in s.table ==>
            (Duplicate(s.table[f.from], PeerOf(f), CheckHello(b, prim, f).value)
             <==> (&& s.table[f.from].established
                   && s.table[f.from].peerPub == f.pub && s.table[f.from].peerNonce == f.nonce))
  {
    hide TranscriptBytes, StrLess, VerifyHello;
    if f.from in s.table {
      assert SlotOk(b, prim, s.installs, s.epoch, f.from, s.table[f.from]);
    }
  }

  lemma ReplyEffect(prim: Primitives, x: End, y: Boot)
    requires EndOk(prim, x, y) && x.state.rx == Replying(y.self.id)
    ensures var t := x.(state := StepReply(x.boot, x.state, true));
            && t.state == x.state.(rx := RxMarking(y.self.id), signedFor := t.state.signedFor)
            && Inv(t.boot, prim, t.state)
  {
    SendsKeepInv(x.boot, prim, x.state, [], true);
  }

  lemma MarkEffect(prim: Primitives, x: End, y: Boot)
    requires EndOk(prim, x, y) && x.state.rx == RxMarking(y.self.id)
    ensures var t := x.(state := StepRxMark(x.state));
            && t.state.rx == RxIdle
            && Sent(t, y.self.id)
            && Holding(t, y.self.id) == Holding(x, y.self.id)
            && y.self.id in t.state.table
            && Inv(t.boot, prim, t.state)
  {
    RxMarkKeepsInv(x.boot, prim, x.state);
    hide Inv;
  }

  /** The hello a boot makes passes every check at the peer it is for. */
  lemma OwnHelloIsAccepted(prim: Primitives, x: Boot, y: Boot)
    requires Provisioned(x, prim) && Provisioned(y, prim) && x.self.id in y.peers
    ensures var f := MakeHello(x, y.self.id);
            f.Hello? && PeerOf(f) == x.self && CheckHello(y, prim, f).Ok?
  {
    hide TranscriptBytes, StrLess, HelloBytes;
  }

  lemma DeliverDescends(prim: Primitives, x: End, y: End)
    requires LinkOk(prim, Link(x, y)) && x.state.rx == RxIdle && |x.inbox| > 0
    ensures var m := Move(prim, x, y).value; LinkOk(prim, m) && Measure(m) < Measure(Link(x, y))
  {
    hide Provisioned, Inv, CheckHello, StepHello, Holding, Sent, AcceptHello;
    DeliverEffect(prim, x, y.boot);
  }

  lemma ReplyDescends(prim: Primitives, x: End, y: End)
    requires LinkOk(prim, Link(x, y)) && x.state.rx == Replying(y.boot.self.id)
    ensures var m := Move(prim, x, y).value; LinkOk(prim, m) && Measure(m) < Measure(Link(x, y))
  {
    hide Provisioned, Inv, CheckHello, StepReply, MakeHello;
    ReplyEffect(prim, x, y.boot);
    OwnHelloIsAccepted(prim, x.boot, y.boot);
    ChangesAppend(Holding(y, x.boot.self.id), y.inbox, MakeHello(x.boot, y.boot.self.id));
  }

  lemma MarkDescends(prim: Primitives, x: End, y: End)
    requires LinkOk(prim, Link(x, y)) && x.state.rx == RxMarking(y.boot.self.id)
    ensures var m := Move(prim, x, y).value; LinkOk(prim, m) && Measure(m) < Measure(Link(x, y))
  {
    hide Provisioned, Inv, CheckHello, StepRxMark, Holding, Sent;
    MarkEffect(prim, x, y.boot);
  }

  lemma MoveDescends(prim: Primitives, x: End, y: End)
    requires LinkOk(prim, Link(x, y)) && Move(prim, x, y).Some?
    ensures var m := Move(prim, x, y).value;
            LinkOk(prim, m) && Measure(m) < Measure(Link(x, y))
  {
    match x.state.rx
    case RxIdle => DeliverDescends(prim, x, y);
    case Replying(_) => ReplyDescends(prim, x, y);
    case RxMarking(_) => MarkDescends(prim, x, y);
  }

  // ---- What comes between ------------------------------------------------

  /** Critical sections that are not about y, or do not handle hellos, leave what the table says about y. */
  lemma SectionsKeepStanding(m: Table, peer: Party, d: Derived, counter: u64, y: Id)
    ensures var p := peer.id;
            && (p != y && AcceptHello(m, peer, d).Some? ==> SameStanding(m, AcceptHello(m, peer, d).value.table, y))
            && (p != y ==> SameStanding(m, MarkHelloSent(m, p), y))
            && (AllocateCounter(m, p).Ok? ==> SameStanding(m, AllocateCounter(m, p).value, y))
            && SameStanding(m, AdvanceWindow(m, p, counter), y)
  {
  }

  ghost predicate SameStanding(m: Table, m': Table, y: Id) {
    HeldIn(m', y) == HeldIn(m, y) && SentIn(m', y) == SentIn(m, y)
  }

  lemma AsideKeepsStanding(prim: Primitives, b: Boot, s: State, y: Id, e: Event)
    requires IsAside(prim, b, s, y, e)
    ensures SameStanding(s.table, Step(b, prim, s, e).table, y)
  {
    hide SameStanding, CheckHello, AcceptHello, MarkHelloSent, AllocateCounter, AdvanceWindow;
    hide Encrypt, Decrypt, CheckData, Open;
    var q := match e
      case RxHello(f) => f.from
      case RxMark => if s.rx.RxMarking? then s.rx.peer else []
      case RxOpen => if s.rx.Opening? then s.rx.from else []
      case TxMark => if s.tx.TxMarking? then s.tx.peer else []
      case TxAlloc(to, _) => to
      case _ => [];
    var d := if e.RxHello? && e.hello.Hello? && CheckHello(b, prim, e.hello).Ok? then CheckHello(b, prim, e.hello).value
             else Derived(ZeroKey, ZeroKey, EMPTY_SESSION.sid);
    var peer := if e.RxHello? && e.hello.Hello? then PeerOf(e.hello) else Party(q, [], []);
    SectionsKeepStanding(s.table, peer, d, if s.rx.Opening? then s.rx.counter else 0, y);
    StandingIsReflexive(s.table, y);
  }

  lemma AsideKeepsTask(prim: Primitives, b: Boot, s: State, y: Id, e: Event)
    requires IsAside(prim, b, s, y, e)
    ensures s.rx == Replying(y) <==> Step(b, prim, s, e).rx == Replying(y)
    ensures s.rx == RxMarking(y) <==> Step(b, prim, s, e).rx == RxMarking(y)
  {
    hide CheckHello, AcceptHello, MarkHelloSent, AllocateCounter, AdvanceWindow, Encrypt, Decrypt, CheckData, Open;
  }

  lemma StandingIsReflexive(m: Table, y: Id)
    ensures SameStanding(m, m, y)
  {
  }

  /** Nothing that comes between moves the exchange forward or back. */
  lemma AsideKeepsLink(prim: Primitives, x: End, y: End, e: Event)
    requires LinkOk(prim, Link(x, y)) && IsAside(prim, x.boot, x.state, y.boot.self.id, e)
    ensures var m := Link(x.(state := Step(x.boot, prim, x.state, e)), y);
            LinkOk(prim, m) && Measure(m) == Measure(Link(x, y))
  {
    hide Provisioned, Inv, CheckHello, Step, HeldIn, SentIn;
    StepKeepsInv(x.boot, prim, x.state, e);
    AsideKeepsStanding(prim, x.boot, x.state, y.boot.self.id, e);
    AsideKeepsTask(prim, x.boot, x.state, y.boot.self.id, e);
  }

  /** With at most eight peers an event always leaves every peer a slot. */
  lemma RoomIsKept(prim: Primitives, b: Boot, s: State, y: Id, e: Event)
    requires Provisioned(b, prim) && Inv(b, prim, s) && |b.peers| <= MAX_PEERS && y in b.peers
    ensures Open(Step(b, prim, s, e).table, y).Some?
  {
    hide DeriveSession, Step;
    StepKeepsInv(b, prim, s, e);
    var t := Step(b, prim, s, e);
    forall q | q in t.table ensures q in b.peers {
      assert SlotOk(b, prim, t.installs, t.epoch, q, t.table[q]);
    }
    MembersSize(b.peers);
    ProvisionedPeersAlwaysFit(t.table, Members(b.peers), y);
  }

  lemma SymmetricLink(prim: Primitives, x: End, y: End)
    ensures LinkOk(prim, Link(x, y)) <==> LinkOk(prim, Link(y, x))
    ensures Measure(Link(x, y)) == Measure(Link(y, x))
  {
  }

  lemma ActDescends(prim: Primitives, x: End, y: End, turn: Turn)
    requires LinkOk(prim, Link(x, y)) && Act(prim, x, y, turn).Some?
    ensures var m := Act(prim, x, y, turn).value;
            LinkOk(prim, m) && Measure(m) + (if turn.Exchange? then 1 else 0) <= Measure(Link(x, y))
  {
    hide LinkOk, Move, Measure;
    match turn
    case Exchange(_) => MoveDescends(prim, x, y);
    case Aside(_, e) => AsideKeepsLink(prim, x, y, e);
  }

  lemma LinkStepDescends(prim: Primitives, l: Link, turn: Turn)
    requires LinkOk(prim, l) && LinkStep(prim, l, turn).Some?
    ensures var m := LinkStep(prim, l, turn).value;
            LinkOk(prim, m) && Measure(m) + (if turn.Exchange? then 1 else 0) <= Measure(l)
  {
    hide LinkOk, Act, Measure;
    if turn.atA {
      ActDescends(prim, l.a, l.b, turn);
    } else {
      SymmetricLink(prim, l.a, l.b);
      ActDescends(prim, l.b, l.a, turn);
      var m := Act(prim, l.b, l.a, turn).value;
      SymmetricLink(prim, m.a, m.b);
    }
  }

  // ---- Termination and agreement -----------------------------------------

  /** However the moves of the exchange and anything else are interleaved, there are no more of its moves than the
      measure of the link they start from: the exchange stops. */
  lemma {:induction false} ExchangeTerminates(prim: Primitives, l: Link, schedule: seq<Turn>)
    requires LinkOk(prim, l) && LinkRun(prim, l, schedule).Some?
    ensures var m := LinkRun(prim, l, schedule).value;
            LinkOk(prim, m) && Exchanges(schedule) + Measure(m) <= Measure(l)
    decreases |schedule|
  {
    hide LinkOk, LinkStep, Measure;
    if |schedule| == 0 {
      assert Exchanges(schedule) == 0;
    } else {
      LinkStepDescends(prim, l, schedule[0]);
      ExchangeTerminates(prim, LinkStep(prim, l, schedule[0]).value, schedule[1..]);
    }
  }

  /** Nothing pending, nothing begun. */
  predicate Quiet(x: End) {
    x.state.rx == RxIdle && x.inbox == []
  }

  ghost predicate Agreed(x: End, y: End) {
    && Holding(x, y.boot.self.id) == Some(y.boot.self)
    && Holding(y, x.boot.self.id) == Some(x.boot.self)
    && var here, there := x.state.table[y.boot.self.id], y.state.table[x.boot.self.id];
       here.tx == there.rx && here.rx == there.tx && here.sid == there.sid
  }

  lemma HoldingDerives(prim: Primitives, x: End, y: Boot)
    requires EndOk(prim, x, y) && Holding(x, y.self.id) == Some(y.self)
    ensures var slot := x.state.table[y.self.id];
            DeriveSession(prim, x.boot.self, y.self) == Some(Derived(slot.tx, slot.rx, slot.sid))
  {
    hide DeriveSession;
    assert SlotOk(x.boot, prim, x.state.installs, x.state.epoch, y.self.id, x.state.table[y.self.id]);
  }

  lemma QuietEndIsCurrent(prim: Primitives, x: End, y: End)
    requires LinkOk(prim, Link(x, y)) && Quiet(x) && Quiet(y)
    ensures Holding(x, y.boot.self.id) == Some(y.boot.self)
  {
    hide Inv, Provisioned, CheckHello, Holding;
  }

  /** When nothing is pending, both hold the other's current handshake, with mirrored keys and one session id. */
  lemma QuietEndsAgree(prim: Primitives, l: Link)
    requires LinkOk(prim, l) && Quiet(l.a) && Quiet(l.b)
    ensures Agreed(l.a, l.b)
  {
    hide Inv;
    QuietEndIsCurrent(prim, l.a, l.b);
    QuietEndIsCurrent(prim, l.b, l.a);
    HoldingDerives(prim, l.a, l.b.boot);
    HoldingDerives(prim, l.b, l.a.boot);
    hide DeriveSession;
    DerivationMirrors(prim, l.a.boot.self, l.b.boot.self);
  }

  /** Every run that has become quiet has reached agreement, whatever the schedule was. */
  lemma ExchangeEndsInAgreement(prim: Primitives, l: Link, schedule: seq<Turn>)
    requires LinkOk(prim, l) && LinkRun(prim, l, schedule).Some?
    requires Quiet(LinkRun(prim, l, schedule).value.a) && Quiet(LinkRun(prim, l, schedule).value.b)
    ensures Agreed(LinkRun(prim, l, schedule).value.a, LinkRun(prim, l, schedule).value.b)
  {
    hide LinkOk, LinkStep, LinkRun, Agreed, Quiet;
    ExchangeTerminates(prim, l, schedule);
    QuietEndsAgree(prim, LinkRun(prim, l, schedule).value);
  }

  /** What keeps the receiver from its exchange with y: at most a frame in hand, a reply and its mark. */
  function Elsewhere(x: End, y: End): nat {
    match x.state.rx
    case Opening(_, _, _, _, _) => 1
    case Replying(p) => if p == y.boot.self.id then 0 else 2
    case RxMarking(p) => if p == y.boot.self.id then 0 else 1
    case RxIdle => 0
  }

  /** A move of the exchange, or the receiver's next step in what it has begun. */
  predicate FinishesTask(turn: Turn) {
    turn.Exchange? || turn.event == RxOpen || turn.event == RxReply(true) || turn.event == RxMark
  }

  lemma FinishingKeepsConsole(prim: Primitives, l: Link, turn: Turn)
    requires FinishesTask(turn) && LinkStep(prim, l, turn).Some?
    ensures var m := LinkStep(prim, l, turn).value;
            m.a.state.tx == l.a.state.tx && m.b.state.tx == l.b.state.tx
  {
    hide CheckHello, AcceptHello, MarkHelloSent, AdvanceWindow, Decrypt, MakeHello, IsAside;
  }

  /** An end that is not quiet can do something: move, or finish what keeps it from moving. */
  lemma SomeTurn(prim: Primitives, x: End, y: End, atA: bool) returns (turn: Turn)
    requires EndOk(prim, x, y.boot) && !Quiet(x)
    ensures turn.atA == atA && Act(prim, x, y, turn).Some?
    ensures FinishesTask(turn)
    ensures turn.Aside? ==>
              var m := Act(prim, x, y, turn).value;
              m.b == y && m.a.boot == x.boot && Elsewhere(m.a, m.b) < Elsewhere(x, y)
  {
    hide Provisioned, Inv, CheckHello, StepHello, MakeHello, IsAside;
    if Elsewhere(x, y) == 0 {
      turn := Exchange(atA);
    } else {
      WayBack(prim, x.boot, x.state, y.boot.self.id);
      turn := Aside(atA, NextOf(x.state.rx));
    }
  }

  /** The receiver's next step when it has begun something. */
  function NextOf(rx: RxTask): Event {
    match rx
    case Replying(_) => RxReply(true)
    case RxMarking(_) => RxMark
    case _ => RxOpen
  }

  lemma WayBack(prim: Primitives, b: Boot, s: State, y: Id)
    requires Inv(b, prim, s) && Open(s.table, y).Some?
    requires s.rx != RxIdle && Free(s.rx, y)
    ensures IsAside(prim, b, s, y, NextOf(s.rx))
    ensures var rx := Step(b, prim, s, NextOf(s.rx)).rx;
            rx == RxIdle || (s.rx.Replying? && rx == RxMarking(s.rx.peer))
  {
    hide Inv, Open, StepOpen, StepReply, StepRxMark, Step;
    NextIsItsStep(prim, b, s);
    match s.rx
    case Opening(_, _, _, _, _) => OpenKeepsRoom(b, s, y);
    case Replying(_) => ReplyKeepsTable(b, s);
    case RxMarking(_) =>
      MarkedPeerHasSlot(prim, b, s);
      MarkKeepsRoom(s, y);
  }

  lemma NextIsItsStep(prim: Primitives, b: Boot, s: State)
    ensures Step(b, prim, s, NextOf(s.rx)) == match s.rx
                                              case Replying(_) => StepReply(b, s, true)
                                              case RxMarking(_) => StepRxMark(s)
                                              case _ => StepOpen(b, s)
  {
  }

  lemma MarkedPeerHasSlot(prim: Primitives, b: Boot, s: State)
    requires Inv(b, prim, s) && s.rx.RxMarking?
    ensures s.rx.peer in s.table
  {
  }

  lemma OpenKeepsRoom(b: Boot, s: State, y: Id)
    requires s.rx.Opening? && Open(s.table, y).Some?
    ensures Open(StepOpen(b, s).table, y).Some? && StepOpen(b, s).rx == RxIdle
  {
    hide Decrypt, Open;
    RoomByKeys(s.table, StepOpen(b, s).table, y);
  }

  lemma ReplyKeepsTable(b: Boot, s: State)
    requires s.rx.Replying?
    ensures StepReply(b, s, true).table == s.table
    ensures StepReply(b, s, true).rx == RxIdle || StepReply(b, s, true).rx == RxMarking(s.rx.peer)
  {
  }

  lemma MarkKeepsRoom(s: State, y: Id)
    requires s.rx.RxMarking? && s.rx.peer in s.table && Open(s.table, y).Some?
    ensures Open(StepRxMark(s).table, y).Some? && StepRxMark(s).rx == RxIdle
  {
    assert StepRxMark(s).table.Keys == s.table.Keys;
    hide Open;
    RoomByKeys(s.table, StepRxMark(s).table, y);
  }

  lemma RoomByKeys(m: Table, m': Table, y: Id)
    requires m'.Keys == m.Keys && Open(m, y).Some?
    ensures Open(m', y).Some?
  {
    assert |m'| == |m'.Keys| && |m| == |m.Keys|;
  }

  /** Every link can be brought to rest, with nothing but the receivers' own work. */
  lemma {:induction false} ExchangeCanFinish(prim: Primitives, l: Link) returns (schedule: seq<Turn>)
    requires LinkOk(prim, l)
    ensures LinkRun(prim, l, schedule).Some?
    ensures forall turn | turn in schedule :: FinishesTask(turn)
    ensures var m := LinkRun(prim, l, schedule).value;
            && Quiet(m.a) && Quiet(m.b)
            && m.a.state.tx == l.a.state.tx && m.b.state.tx == l.b.state.tx
    decreases Measure(l), Elsewhere(l.a, l.b) + Elsewhere(l.b, l.a)
  {
    hide LinkOk, Act, Measure, Elsewhere, Quiet, FinishesTask;
    if Quiet(l.a) && Quiet(l.b) {
      schedule := [];
    } else {
      var atA := !Quiet(l.a);
      EndsOfLink(prim, l);
      var turn := SomeTurn(prim, if atA then l.a else l.b, if atA then l.b else l.a, atA);
      LinkStepDescends(prim, l, turn);
      FinishingKeepsConsole(prim, l, turn);
      var m := LinkStep(prim, l, turn).value;
      if turn.Aside? {
        ElsewhereOfOther(m, l, atA);
      }
      var rest := ExchangeCanFinish(prim, m);
      schedule := [turn] + rest;
      assert schedule[1..] == rest;
    }
  }

  lemma EndsOfLink(prim: Primitives, l: Link)
    requires LinkOk(prim, l)
    ensures EndOk(prim, l.a, l.b.boot) && EndOk(prim, l.b, l.a.boot)
  {
  }

  lemma ElsewhereOfOther(m: Link, l: Link, atA: bool)
    requires if atA then m.b == l.b && m.a.boot == l.a.boot else m.a == l.a && m.b.boot == l.b.boot
    ensures if atA then Elsewhere(m.b, m.a) == Elsewhere(l.b, l.a) else Elsewhere(m.a, m.b) == Elsewhere(l.a, l.b)
  {
  }

  lemma AcceptanceIgnoresOwnKeys(prim: Primitives, b: Boot, b': Boot, f: Frame)
    requires f.Hello? && b'.self.id == b.self.id && b'.peers == b.peers && CheckHello(b, prim, f).Ok?
    ensures CheckHello(b', prim, f).Ok?
  {
    hide TranscriptBytes, StrLess, VerifyHello;
  }

  /** While one device is running, the other restarts and its opening hello is on the way: the conditions of
      the two results above hold again, so one restart always leads back to agreement. */
  lemma RestartLeadsToAgreement(prim: Primitives, l: Link, boot: Boot, state: State)
    requires LinkOk(prim, l)
    requires Provisioned(boot, prim) && boot.self.id == l.b.boot.self.id && boot.peers == l.b.boot.peers
    requires Inv(boot, prim, state) && state.rx == RxIdle && Open(state.table, l.a.boot.self.id).Some?
    requires Last(Holding(l.a, boot.self.id), l.a.inbox) != Some(boot.self)
    ensures LinkOk(prim, Link(l.a.(inbox := l.a.inbox + [MakeHello(boot, l.a.boot.self.id)]),
                              End(boot, state, l.b.inbox)))
  {
    hide Inv, Provisioned, CheckHello, MakeHello;
    var f := MakeHello(boot, l.a.boot.self.id);
    OwnHelloIsAccepted(prim, boot, l.a.boot);
    ChangesAppend(Holding(l.a, boot.self.id), l.a.inbox, f);
    forall g | g in l.b.inbox ensures CheckHello(boot, prim, g).Ok? {
      AcceptanceIgnoresOwnKeys(prim, l.b.boot, boot, g);
    }
  }

  /** Two devices that have just started, each with the other's opening hello on the way. */
  lemma FirstContactLeadsToAgreement(prim: Primitives, x: Boot, y: Boot, sx: State, sy: State)
    requires Provisioned(x, prim) && Provisioned(y, prim) && y.self.id in x.peers && x.self.id in y.peers
    requires Inv(x, prim, sx) && sx.rx == RxIdle && Open(sx.table, y.self.id).Some?
    requires Inv(y, prim, sy) && sy.rx == RxIdle && Open(sy.table, x.self.id).Some?
    ensures LinkOk(prim, Link(End(x, sx, [MakeHello(y, x.self.id)]), End(y, sy, [MakeHello(x, y.self.id)])))
  {
    hide Inv, Provisioned, CheckHello, MakeHello;
    OwnHelloIsAccepted(prim, x, y);
    OwnHelloIsAccepted(prim, y, x);
  }

  /** One of the two opening hellos is enough: its reader holds no session with its author and will answer. */
  lemma OneHelloIsEnough(prim: Primitives, x: Boot, y: Boot, sx: State, sy: State)
    requires Provisioned(x, prim) && Provisioned(y, prim) && y.self.id in x.peers && x.self.id in y.peers
    requires Inv(x, prim, sx) && sx.rx == RxIdle && Open(sx.table, y.self.id).Some?
    requires Inv(y, prim, sy) && sy.rx == RxIdle && Open(sy.table, x.self.id).Some?
    requires HeldIn(sx.table, y.self.id) == None
    ensures LinkOk(prim, Link(End(x, sx, [MakeHello(y, x.self.id)]), End(y, sy, [])))
  {
    hide Inv, Provisioned, CheckHello, MakeHello;
    OwnHelloIsAccepted(prim, y, x);
  }
}
