/**
 * server/relay_server.py: a registry of live connections and bounded offline queues, mutated by interleaved
 * connection handlers. A handler can be suspended only while a drain() is awaited, so each event below runs
 * from one such point to the next. An event that is not enabled leaves the state unchanged.
 */
module Relay {
  import opened Bytes
  import opened Encoding
  import opened Wrappers

  const MAX_LINE: nat := 4096
  const MAX_OFFLINE: nat := 100

  /** A connection; no two have the same number. */
  type Conn = nat

  /** An accepted frame as it will be written: the connection it came in on, its two ids, and its octets. */
  datatype Frame = Frame(via: Conn, from: Id, to: Id, line: Bytes)

  /** What json.loads finds in a line: an unsupported type, or ids that are missing or not strings, show as such. */
  datatype Payload = Payload(supported: bool, from: Option<Id>, to: Option<Id>)

  /** The device_id of a registration: a string, something that is no dictionary key, or anything else. */
  datatype Claim = Named(id: Id) | Unhashable | Other

  /** Broken: failing, with a device_id that makes the cleanup itself raise. */
  datatype Phase = New | Registering | Serving | Failing | Broken | Ended

  datatype Handler = Handler(cert: Id, phase: Phase)

  /** A registration suspended at its status drain, with the frames it has popped and not yet written. */
  datatype Waiting = Waiting(conn: Conn, id: Id, queued: seq<Frame>)

  datatype Write = Write(conn: Conn, frame: Frame)

  /** The history of one recipient: what was accepted for it, what became of it, and what was accepted since
      the recipient was last registered. */
  datatype Ledger = Ledger(
    accepted: seq<Frame>,
    written: seq<Write>,
    evicted: seq<Frame>,
    lost: seq<Frame>,
    since: seq<Frame>)

  const NO_LEDGER := Ledger([], [], [], [], [])

  /** The registry, the queues, the handlers, the connections closed so far, the suspended registrations. */
  datatype State = State(
    clients: map<Id, Conn>,
    offline: map<Id, seq<Frame>>,
    handlers: map<Conn, Handler>,
    closed: set<Conn>,
    waiting: seq<Waiting>,
    ledgers: map<Id, Ledger>)

  datatype Event =
    | Connect(conn: Conn, cert: Id)                         // the TLS handshake is done
    | Register(conn: Conn, claimed: Claim)                  // first line read; register_client up to the status drain
    | Resume(conn: Conn)                                    // register_client after the status drain
    | Forward(conn: Conn, payload: Payload, raw: Bytes)     // one line of the main loop
    | Finish(conn: Conn)                                    // end of stream or an exception: the cleanup

  const INIT := State(map[], map[], map[], {}, [], map[])

  function Queue(s: State, r: Id): seq<Frame> {
    if r in s.offline then s.offline[r] else []
  }

  function Book(s: State, r: Id): Ledger {
    if r in s.ledgers then s.ledgers[r] else NO_LEDGER
  }

  /** raw_line.rstrip(b"\r\n") + b"\n". */
  function StripLineEnd(raw: Bytes): Bytes {
    if |raw| > 0 && (raw[|raw| - 1] == 0x0D || raw[|raw| - 1] == 0x0A) then StripLineEnd(raw[..|raw| - 1]) else raw
  }

  function Framed(raw: Bytes): Bytes {
    StripLineEnd(raw) + [0x0A]
  }

  /** deque(maxlen=100).append. */
  function Append(q: seq<Frame>, f: Frame): seq<Frame> {
    if |q| < MAX_OFFLINE then q + [f] else q[|q| - MAX_OFFLINE + 1..] + [f]
  }

  function Evicted(q: seq<Frame>): seq<Frame> {
    if |q| < MAX_OFFLINE then [] else q[..|q| - MAX_OFFLINE + 1]
  }

  predicate InPhase(s: State, c: Conn, phase: Phase) {
    c in s.handlers && s.handlers[c].phase == phase
  }

  function ToPhase(s: State, c: Conn, phase: Phase): State
    requires c in s.handlers
  {
    s.(handlers := s.handlers[c := s.handlers[c].(phase := phase)])
  }

  // ---- Steps -------------------------------------------------------------

  function StepConnect(s: State, c: Conn, cert: Id): State {
    if c in s.handlers then s else s.(handlers := s.handlers[c := Handler(cert, New)])
  }

  /** The connection a registration takes over from, which it closes. */
  function Previous(s: State, id: Id, c: Conn): set<Conn> {
    if id in s.clients && s.clients[id] != c then {s.clients[id]} else {}
  }

  /** The new connection takes over the registry entry and pops the queue, in one step. */
  function StepRegister(allowed: set<Id>, s: State, c: Conn, claimed: Claim): State {
    if !InPhase(s, c, New) then s
    else
      var id := s.handlers[c].cert;
      if id == [] || id !in allowed then ToPhase(s, c, Failing)
      else if claimed == Unhashable then ToPhase(s, c, Broken)
      else if claimed != Named(id) then ToPhase(s, c, Failing)
      else
        ToPhase(s, c, Registering).(
          clients := s.clients[id := c],
          offline := s.offline - {id},
          closed := s.closed + Previous(s, id, c),
          waiting := s.waiting + [Waiting(c, id, Queue(s, id))])
  }

  function FindWaiting(ws: seq<Waiting>, c: Conn): (k: nat)
    ensures k <= |ws|
    ensures k < |ws| ==> ws[k].conn == c
    ensures forall i | 0 <= i < k :: ws[i].conn != c
  {
    if |ws| == 0 || ws[0].conn == c then 0 else 1 + FindWaiting(ws[1..], c)
  }

  function Without(ws: seq<Waiting>, k: nat): seq<Waiting>
    requires k < |ws|
  {
    ws[..k] + ws[k + 1..]
  }

  function Writes(c: Conn, fs: seq<Frame>): seq<Write> {
    if |fs| == 0 then [] else Writes(c, fs[..|fs| - 1]) + [Write(c, fs[|fs| - 1])]
  }

  function StepResume(s: State, c: Conn): State {
    var k := FindWaiting(s.waiting, c);
    if !InPhase(s, c, Registering) || k == |s.waiting| then s
    else
      var w := s.waiting[k];
      var book := Book(s, w.id);
      ToPhase(s, c, Serving).(
        waiting := Without(s.waiting, k),
        ledgers := s.ledgers[w.id := book.(written := book.written + Writes(c, w.queued))])
  }

  /** The checks of forward_frame: the recipient, or None where it raises. */
  function Recipient(allowed: set<Id>, cert: Id, payload: Payload, raw: Bytes): (r: Option<Id>)
    ensures r.Some? ==> payload.from.Some?
  {
    if |raw| > MAX_LINE || !payload.supported || payload.from != Some(cert) then None
    else match payload.to
      case None => None
      case Some(r) => if r in allowed then Some(r) else None
  }

  /** An accepted frame is written to the recipient's connection or queued for it. */
  function Accept(s: State, f: Frame): State {
    var r, book := f.to, Book(s, f.to);
    if r in s.clients then
      s.(ledgers := s.ledgers[r := book.(accepted := book.accepted + [f],
                                         written := book.written + [Write(s.clients[r], f)])])
    else
      s.(offline := s.offline[r := Append(Queue(s, r), f)],
         ledgers := s.ledgers[r := book.(accepted := book.accepted + [f],
                                         evicted := book.evicted + Evicted(Queue(s, r)),
                                         since := book.since + [f])])
  }

  function StepForward(allowed: set<Id>, s: State, c: Conn, payload: Payload, raw: Bytes): State {
    if !InPhase(s, c, Serving) then s
    else match Recipient(allowed, s.handlers[c].cert, payload, raw)
      case None => ToPhase(s, c, Failing)
      case Some(r) => Accept(s, Frame(c, payload.from.value, r, Framed(raw)))
  }

  /** A registration that ends while suspended never writes the frames it popped. */
  function DropWaiting(s: State, c: Conn): State {
    var k := FindWaiting(s.waiting, c);
    if k == |s.waiting| then s
    else
      var w := s.waiting[k];
      s.(waiting := Without(s.waiting, k),
         ledgers := s.ledgers[w.id := Book(s, w.id).(lost := Book(s, w.id).lost + w.queued)])
  }

  /** The finally block: only the connection that is still registered removes its entry. */
  function Unregister(s: State, c: Conn, id: Id): State {
    if id in s.clients && s.clients[id] == c
    then s.(clients := s.clients - {id}, ledgers := s.ledgers[id := Book(s, id).(since := [])])
    else s
  }

  /** The end of a handler. One that is broken does not reach the line that closes its connection. */
  function StepFinish(s: State, c: Conn): State {
    if c !in s.handlers || s.handlers[c].phase == Ended then s
    else
      ToPhase(Unregister(DropWaiting(s, c), c, s.handlers[c].cert), c, Ended).(
        closed := s.closed + if s.handlers[c].phase == Broken then {} else {c})
  }

  function Step(allowed: set<Id>, s: State, e: Event): State {
    match e
    case Connect(c, cert) => StepConnect(s, c, cert)
    case Register(c, claimed) => StepRegister(allowed, s, c, claimed)
    case Resume(c) => StepResume(s, c)
    case Forward(c, payload, raw) => StepForward(allowed, s, c, payload, raw)
    case Finish(c) => StepFinish(s, c)
  }

  function Run(allowed: set<Id>, s: State, es: seq<Event>): State
    decreases |es|
  {
    if |es| == 0 then s else Run(allowed, Step(allowed, s, es[0]), es[1..])
  }

  // ---- The registry ------------------------------------------------------

  /** Every registered connection carries the certificate identity it is filed under and has not ended; a
      registered recipient has an empty queue. */
  ghost predicate RegistryOk(clients: map<Id, Conn>, offline: map<Id, seq<Frame>>, handlers: map<Conn, Handler>) {
    forall r | r in clients ::
      && clients[r] in handlers
      && handlers[clients[r]].cert == r
      && handlers[clients[r]].phase in {Registering, Serving, Failing}
      && r !in offline
  }

  /** A registered connection is open; a connection is closed by its own handler or by a later registration. */
  ghost predicate ClosedOk(clients: map<Id, Conn>, closed: set<Conn>, handlers: map<Conn, Handler>) {
    && (forall r | r in clients :: clients[r] !in closed)
    && (forall c | c in closed :: c in handlers && handlers[c].phase != New)
  }

  ghost predicate WaitingOk(waiting: seq<Waiting>, handlers: map<Conn, Handler>) {
    && (forall i | 0 <= i < |waiting| :: waiting[i].conn in handlers
                                         && handlers[waiting[i].conn] == Handler(waiting[i].id, Registering))
    && (forall i, j | 0 <= i < j < |waiting| :: waiting[i].conn != waiting[j].conn)
  }

  function LastN(fs: seq<Frame>, n: nat): seq<Frame> {
    if |fs| <= n then fs else fs[|fs| - n..]
  }

  /** An unregistered recipient's queue is the last 100 frames accepted since it was last registered. */
  ghost predicate QueuesOk(s: State) {
    forall r | r !in s.clients :: Queue(s, r) == LastN(Book(s, r).since, MAX_OFFLINE)
  }

  /** The frames suspended registrations of r hold, in the order the registrations were made. */
  function Held(ws: seq<Waiting>, r: Id): seq<Frame> {
    if |ws| == 0 then [] else (if ws[0].id == r then ws[0].queued else []) + Held(ws[1..], r)
  }

  function Frames(ws: seq<Write>): seq<Frame> {
    if |ws| == 0 then [] else Frames(ws[..|ws| - 1]) + [ws[|ws| - 1].frame]
  }

  /** Each accepted frame is in exactly one place, as often as it was accepted. */
  ghost predicate Balanced(book: Ledger, queue: seq<Frame>, held: seq<Frame>) {
    multiset(book.accepted)
    == multiset(Frames(book.written)) + multiset(queue) + multiset(held) + multiset(book.evicted) + multiset(book.lost)
  }

  /** Conservation for one recipient: written, queued, held by a suspended registration, evicted by the bound,
      or lost with a registration that ended first. */
  ghost predicate Conserved(s: State, r: Id) {
    Balanced(Book(s, r), Queue(s, r), Held(s.waiting, r))
  }

  /** Every accepted frame names its recipient and carries the identity of the connection it came in on. */
  ghost predicate OriginsOk(ledgers: map<Id, Ledger>, handlers: map<Conn, Handler>) {
    forall r | r in ledgers :: forall f | f in ledgers[r].accepted ::
      f.to == r && f.via in handlers && handlers[f.via].cert == f.from
  }

  ghost predicate Inv(s: State) {
    && RegistryOk(s.clients, s.offline, s.handlers)
    && WaitingOk(s.waiting, s.handlers)
    && QueuesOk(s)
    && OriginsOk(s.ledgers, s.handlers)
    && ClosedOk(s.clients, s.closed, s.handlers)
  }

  // ---- Sequence facts ----------------------------------------------------

  lemma {:induction false} HeldConcat(a: seq<Waiting>, b: seq<Waiting>, r: Id)
    ensures Held(a + b, r) == Held(a, r) + Held(b, r)
  {
    if |a| == 0 {
      assert a + b == b;
    } else {
      HeldConcat(a[1..], b, r);
      assert (a + b)[1..] == a[1..] + b;
      Assoc(if a[0].id == r then a[0].queued else [], Held(a[1..], r), Held(b, r));
    }
  }

  lemma Assoc(x: seq<Frame>, y: seq<Frame>, z: seq<Frame>)
    ensures x + (y + z) == (x + y) + z
  {
  }

  /** Removing one registration takes exactly its frames out of what is held. */
  lemma HeldSplit(ws: seq<Waiting>, k: nat, r: Id)
    requires k < |ws|
    ensures var q := if ws[k].id == r then ws[k].queued else [];
            && Held(ws, r) == Held(ws[..k], r) + (q + Held(ws[k + 1..], r))
            && Held(Without(ws, k), r) == Held(ws[..k], r) + Held(ws[k + 1..], r)
  {
    assert ws == ws[..k] + ws[k..];
    HeldConcat(ws[..k], ws[k..], r);
    HeldConcat(ws[..k], ws[k + 1..], r);
    assert ws[k..][1..] == ws[k + 1..];
  }

  lemma {:induction false} FramesAppend(a: seq<Write>, b: seq<Write>)
    ensures Frames(a + b) == Frames(a) + Frames(b)
    decreases |b|
  {
    if |b| == 0 {
      assert a + b == a;
    } else {
      FramesAppend(a, b[..|b| - 1]);
      assert (a + b)[..|a + b| - 1] == a + b[..|b| - 1];
    }
  }

  lemma {:induction false} FramesOfWrites(c: Conn, fs: seq<Frame>)
    ensures Frames(Writes(c, fs)) == fs
    decreases |fs|
  {
    if |fs| == 0 {
    } else {
      FramesOfWrites(c, fs[..|fs| - 1]);
      assert Writes(c, fs)[..|Writes(c, fs)| - 1] == Writes(c, fs[..|fs| - 1]);
    }
  }

  lemma AppendEvicts(q: seq<Frame>, f: Frame)
    ensures Evicted(q) + Append(q, f) == q + [f]
  {
  }

  lemma LastNAppend(fs: seq<Frame>, f: Frame)
    ensures Append(LastN(fs, MAX_OFFLINE), f) == LastN(fs + [f], MAX_OFFLINE)
  {
  }

  // ---- Every step keeps the invariant ------------------------------------

  lemma ConnectKeepsInv(s: State, c: Conn, cert: Id)
    requires Inv(s)
    ensures Inv(StepConnect(s, c, cert))
  {
  }

  lemma WithoutKeepsWaiting(waiting: seq<Waiting>, handlers: map<Conn, Handler>, k: nat)
    requires WaitingOk(waiting, handlers) && k < |waiting|
    ensures WaitingOk(Without(waiting, k), handlers)
    ensures forall i | 0 <= i < |waiting| - 1 :: Without(waiting, k)[i].conn != waiting[k].conn
  {
  }

  /** A ledger whose accepted frames are unchanged moves no queue and no origin. */
  lemma BookkeepingKeepsInv(s: State, r: Id, book: Ledger)
    requires Inv(s)
    requires book.accepted == Book(s, r).accepted && book.since == Book(s, r).since
    ensures Inv(s.(ledgers := s.ledgers[r := book]))
  {
    hide LastN, RegistryOk, WaitingOk;
    var t := s.(ledgers := s.ledgers[r := book]);
    forall q | q !in t.clients ensures Queue(t, q) == LastN(Book(t, q).since, MAX_OFFLINE) {
      assert Queue(s, q) == LastN(Book(s, q).since, MAX_OFFLINE);
    }
  }

  lemma TakeoverKeepsInv(s: State, c: Conn)
    requires Inv(s) && InPhase(s, c, New)
    ensures var id, t := s.handlers[c].cert, ToPhase(s, c, Registering);
            && RegistryOk(t.clients[id := c], t.offline - {id}, t.handlers)
            && WaitingOk(t.waiting + [Waiting(c, id, Queue(s, id))], t.handlers)
            && OriginsOk(t.ledgers, t.handlers)
            && ClosedOk(t.clients[id := c], t.closed + Previous(s, id, c), t.handlers)
  {
    hide QueuesOk;
  }

  lemma RegisterKeepsInv(allowed: set<Id>, s: State, c: Conn, claimed: Claim)
    requires Inv(s)
    ensures Inv(StepRegister(allowed, s, c, claimed))
  {
    hide LastN, RegistryOk, WaitingOk, OriginsOk, ClosedOk, Previous;
    var t := StepRegister(allowed, s, c, claimed);
    if InPhase(s, c, New) {
      TakeoverKeepsInv(s, c);
      NewIsOutside(s, c);
      PhaseKeepsInv(s, c, Failing);
      PhaseKeepsInv(s, c, Broken);
      forall r | r !in t.clients ensures Queue(t, r) == LastN(Book(t, r).since, MAX_OFFLINE) {
        assert Queue(s, r) == LastN(Book(s, r).since, MAX_OFFLINE);
      }
    }
  }

  lemma NewIsOutside(s: State, c: Conn)
    requires Inv(s) && InPhase(s, c, New)
    ensures forall i | 0 <= i < |s.waiting| :: s.waiting[i].conn != c
    ensures forall r | r in s.clients :: s.clients[r] != c
  {
  }

  lemma ResumeKeepsInv(s: State, c: Conn)
    requires Inv(s)
    ensures Inv(StepResume(s, c))
  {
    hide LastN, Writes;
    var k := FindWaiting(s.waiting, c);
    if InPhase(s, c, Registering) && k < |s.waiting| {
      var t := s.(waiting := Without(s.waiting, k));
      var w := s.waiting[k];
      WithoutKeepsWaiting(s.waiting, s.handlers, k);
      assert Inv(t);
      PhaseKeepsInv(t, c, Serving);
      var u := ToPhase(t, c, Serving);
      BookkeepingKeepsInv(u, w.id, Book(s, w.id).(written := Book(s, w.id).written + Writes(c, w.queued)));
    }
  }

  lemma AcceptKeepsQueues(s: State, f: Frame)
    requires QueuesOk(s) && RegistryOk(s.clients, s.offline, s.handlers)
    ensures QueuesOk(Accept(s, f)) && RegistryOk(s.clients, Accept(s, f).offline, s.handlers)
  {
    hide Append, LastN;
    LastNAppend(Book(s, f.to).since, f);
  }

  lemma AcceptKeepsOrigins(s: State, f: Frame)
    requires OriginsOk(s.ledgers, s.handlers) && f.via in s.handlers && s.handlers[f.via].cert == f.from
    ensures OriginsOk(Accept(s, f).ledgers, s.handlers)
  {
    var t := Accept(s, f);
    forall r | r in t.ledgers ensures forall g | g in t.ledgers[r].accepted ::
      g.to == r && g.via in s.handlers && s.handlers[g.via].cert == g.from
    {
      assert r != f.to ==> r in s.ledgers;
      assert r == f.to ==> t.ledgers[r].accepted == Book(s, r).accepted + [f];
    }
  }

  lemma ForwardKeepsInv(allowed: set<Id>, s: State, c: Conn, payload: Payload, raw: Bytes)
    requires Inv(s)
    ensures Inv(StepForward(allowed, s, c, payload, raw))
  {
    hide Append, LastN;
    if InPhase(s, c, Serving) {
      var r := Recipient(allowed, s.handlers[c].cert, payload, raw);
      if r.Some? {
        var f := Frame(c, payload.from.value, r.value, Framed(raw));
        AcceptKeepsQueues(s, f);
        AcceptKeepsOrigins(s, f);
      } else {
        PhaseKeepsInv(s, c, Failing);
      }
    }
  }

  /** A handler that is neither registered nor suspended can move to any phase but the first, a registered one
      to any but the first and the last. */
  lemma PhaseKeepsInv(s: State, c: Conn, phase: Phase)
    requires Inv(s) && c in s.handlers && phase != New
    requires forall i | 0 <= i < |s.waiting| :: s.waiting[i].conn != c
    requires (forall r | r in s.clients :: s.clients[r] != c) || phase in {Serving, Failing}
    ensures Inv(ToPhase(s, c, phase))
  {
    hide LastN;
  }

  lemma DropKeepsInv(s: State, c: Conn)
    requires Inv(s)
    ensures var t := DropWaiting(s, c);
            && Inv(t)
            && t.handlers == s.handlers && t.clients == s.clients
            && t.closed == s.closed
            && (forall i | 0 <= i < |t.waiting| :: t.waiting[i].conn != c)
  {
    hide LastN;
    var k := FindWaiting(s.waiting, c);
    if k < |s.waiting| {
      var w := s.waiting[k];
      WithoutKeepsWaiting(s.waiting, s.handlers, k);
      assert Inv(s.(waiting := Without(s.waiting, k)));
      BookkeepingKeepsInv(s.(waiting := Without(s.waiting, k)), w.id,
                          Book(s, w.id).(lost := Book(s, w.id).lost + w.queued));
    }
  }

  lemma UnregisterKeepsInv(s: State, c: Conn, id: Id)
    requires Inv(s) && c in s.handlers && s.handlers[c].cert == id
    ensures var t := Unregister(s, c, id);
            && Inv(t)
            && t.handlers == s.handlers && t.waiting == s.waiting && t.closed == s.closed
            && (forall r | r in t.clients :: t.clients[r] != c)
  {
  }

  lemma ClosingKeepsInv(s: State, c: Conn)
    requires Inv(s) && c in s.handlers && s.handlers[c].phase == Ended
    requires forall r | r in s.clients :: s.clients[r] != c
    ensures Inv(s.(closed := s.closed + {c}))
  {
    hide LastN;
  }

  lemma FinishKeepsInv(s: State, c: Conn)
    requires Inv(s)
    ensures Inv(StepFinish(s, c))
  {
    hide Inv, DropWaiting, Unregister;
    if c in s.handlers && s.handlers[c].phase != Ended {
      var id := s.handlers[c].cert;
      DropKeepsInv(s, c);
      UnregisterKeepsInv(DropWaiting(s, c), c, id);
      var t := Unregister(DropWaiting(s, c), c, id);
      PhaseKeepsInv(t, c, Ended);
      ClosingKeepsInv(ToPhase(t, c, Ended), c);
      assert s.closed + {} == s.closed;
    }
  }

  lemma StepKeepsInv(allowed: set<Id>, s: State, e: Event)
    requires Inv(s)
    ensures Inv(Step(allowed, s, e))
  {
    match e
    case Connect(c, cert) => ConnectKeepsInv(s, c, cert);
    case Register(c, claimed) => RegisterKeepsInv(allowed, s, c, claimed);
    case Resume(c) => ResumeKeepsInv(s, c);
    case Forward(c, payload, raw) => ForwardKeepsInv(allowed, s, c, payload, raw);
    case Finish(c) => FinishKeepsInv(s, c);
  }

  lemma {:induction false} RunKeepsInv(allowed: set<Id>, s: State, es: seq<Event>)
    requires Inv(s)
    ensures Inv(Run(allowed, s, es))
    decreases |es|
  {
    hide Inv, Step;
    if |es| == 0 {
    } else {
      StepKeepsInv(allowed, s, es[0]);
      RunKeepsInv(allowed, Step(allowed, s, es[0]), es[1..]);
    }
  }

  /** The registry invariant, for every interleaving of handlers. */
  lemma RegistryInvariant(allowed: set<Id>, es: seq<Event>)
    ensures var s := Run(allowed, INIT, es);
            && (forall r | r in s.clients ::
                  && s.clients[r] in s.handlers
                  && s.handlers[s.clients[r]].cert == r
                  && s.handlers[s.clients[r]].phase in {Registering, Serving, Failing}
                  && s.clients[r] !in s.closed
                  && Queue(s, r) == [])
            && (forall r | r !in s.clients :: Queue(s, r) == LastN(Book(s, r).since, MAX_OFFLINE))
  {
    RunKeepsInv(allowed, INIT, es);
  }

  /** What forward_frame writes goes to the connection its recipient is registered on, which no one has closed. */
  lemma ForwardsGoToOpenConnections(allowed: set<Id>, s: State, c: Conn, payload: Payload, raw: Bytes, r: Id)
    requires Inv(s)
    requires Book(StepForward(allowed, s, c, payload, raw), r).written != Book(s, r).written
    ensures r in s.clients && s.clients[r] !in s.closed && s.handlers[s.clients[r]].cert == r
    ensures exists f :: Book(StepForward(allowed, s, c, payload, raw), r).written
                        == Book(s, r).written + [Write(s.clients[r], f)]
  {
  }

  /** Whatever an older connection's handler does on its way out, a newer registration stays. */
  lemma CleanupSparesNewer(s: State, c: Conn, r: Id)
    requires r in s.clients && s.clients[r] != c
    ensures var t := StepFinish(s, c); r in t.clients && t.clients[r] == s.clients[r]
  {
  }
}
