/**
 * Who gets in at the relay and what passes it: the exact condition and the whole effect of each event, and what
 * the allow-list means over every interleaving of the handlers.
 */
module RelayAccess {
  import opened Bytes
  import opened Encoding
  import opened Wrappers
  import opened Relay
  import opened RelayLedger

  // ---- Registration ------------------------------------------------------

  /** The checks of handle_client before register_client: a new connection, a nonempty certificate identity on the
      allow-list, and a claim that is this identity. */
  predicate MayRegister(allowed: set<Id>, s: State, c: Conn, claimed: Claim) {
    && InPhase(s, c, New)
    && s.handlers[c].cert != []
    && s.handlers[c].cert in allowed
    && claimed.Named? && claimed.id == s.handlers[c].cert
  }

  /** An entry of the registry is made by a registration that passes the checks, and by nothing else. */
  lemma EntryIffRegistration(allowed: set<Id>, s: State, e: Event, r: Id, c: Conn)
    requires Inv(s) && !(r in s.clients && s.clients[r] == c)
    ensures var t := Step(allowed, s, e);
            r in t.clients && t.clients[r] == c
            <==> e == Register(c, Named(r)) && MayRegister(allowed, s, c, Named(r))
  {
    if e.Register? {
      hide QueuesOk, OriginsOk, ClosedOk, WaitingOk, StepResume, StepForward, StepFinish, Previous;
    } else {
      OtherStepsAdmit(allowed, s, e);
      hide Step, Inv;
    }
  }

  lemma OtherStepsAdmit(allowed: set<Id>, s: State, e: Event)
    requires !e.Register?
    ensures forall r | r in Step(allowed, s, e).clients ::
              r in s.clients && Step(allowed, s, e).clients[r] == s.clients[r]
  {
    hide Append, Writes, Framed, Evicted, Without;
    match e
    case Finish(c) => DropIsAside(s, c); hide DropWaiting;
    case _ =>
  }

  /** A registration that passes takes over the entry, closes the connection that had it, and takes the queue away. */
  lemma RegisterOutcome(allowed: set<Id>, s: State, c: Conn, claimed: Claim)
    requires Inv(s) && MayRegister(allowed, s, c, claimed)
    ensures var id, t := s.handlers[c].cert, Step(allowed, s, Register(c, claimed));
            && InPhase(t, c, Registering) && OthersKept(s, t, c)
            && t.ledgers == s.ledgers
            && (forall r :: r in t.clients <==> r in s.clients || r == id)
            && t.clients[id] == c
            && (forall r | r in s.clients && r != id :: t.clients[r] == s.clients[r])
            && t.closed == (if id in s.clients then s.closed + {s.clients[id]} else s.closed)
            && (forall r :: Queue(t, r) == if r == id then [] else Queue(s, r))
            && t.waiting == s.waiting + [Waiting(c, id, Queue(s, id))]
  {
    NewIsOutside(s, c);
    hide Inv;
  }

  /** Any other registration of a new connection ends its handler and does nothing else. */
  lemma RefusalOutcome(allowed: set<Id>, s: State, c: Conn, claimed: Claim)
    requires InPhase(s, c, New) && !MayRegister(allowed, s, c, claimed)
    ensures var id, t := s.handlers[c].cert, Step(allowed, s, Register(c, claimed));
            && OthersKept(s, t, c)
            && t.clients == s.clients && t.closed == s.closed && t.offline == s.offline && t.waiting == s.waiting
            && t.ledgers == s.ledgers
            && (InPhase(t, c, Broken) <==> id != [] && id in allowed && claimed == Unhashable)
            && (InPhase(t, c, Failing) <==> !InPhase(t, c, Broken))
  {
    hide StepConnect, StepResume, StepForward, StepFinish;
  }

  /** No handler but c's moves, and no certificate changes. */
  ghost predicate OthersKept(s: State, t: State, c: Conn) {
    && (forall d :: d in t.handlers <==> d in s.handlers)
    && (forall d | d in s.handlers :: t.handlers[d].cert == s.handlers[d].cert)
    && (forall d | d in s.handlers && d != c :: t.handlers[d] == s.handlers[d])
  }

  // ---- Forwarding --------------------------------------------------------

  /** The checks of forward_frame: a supported type, the sender's own identity as "from", a recipient on the
      allow-list, and no more than 4096 octets. */
  predicate MayForward(allowed: set<Id>, s: State, c: Conn, payload: Payload, raw: Bytes, r: Id) {
    && InPhase(s, c, Serving)
    && |raw| <= 4096
    && r in allowed
    && payload == Payload(true, Some(s.handlers[c].cert), Some(r))
  }

  /** A frame is accepted for a recipient by a forwarding that passes the checks, and by nothing else. */
  lemma AcceptedIffForwarded(allowed: set<Id>, s: State, e: Event, r: Id)
    ensures var t := Step(allowed, s, e);
            Book(t, r).accepted != Book(s, r).accepted
            <==> e.Forward? && MayForward(allowed, s, e.conn, e.payload, e.raw, r)
  {
    hide Append, Writes, Framed, Evicted;
    if e.Forward? {
      hide StepRegister, StepConnect, StepResume, StepFinish;
    } else {
      OtherStepsAccept(allowed, s, e, r);
      hide Step;
    }
  }

  lemma OtherStepsAccept(allowed: set<Id>, s: State, e: Event, r: Id)
    requires !e.Forward?
    ensures Book(Step(allowed, s, e), r).accepted == Book(s, r).accepted
  {
    hide StepRegister, StepResume, StepFinish;
    match e
    case Connect(_, _) =>
    case Register(c, claimed) => RegistrationAccepts(allowed, s, c, claimed);
    case Resume(c) => ResumptionAccepts(s, c, r);
    case Finish(c) => FinishAccepts(s, c, r);
  }

  lemma RegistrationAccepts(allowed: set<Id>, s: State, c: Conn, claimed: Claim)
    ensures StepRegister(allowed, s, c, claimed).ledgers == s.ledgers
  {
  }

  lemma ResumptionAccepts(s: State, c: Conn, r: Id)
    ensures Book(StepResume(s, c), r).accepted == Book(s, r).accepted
  {
    hide Writes;
  }

  lemma FinishAccepts(s: State, c: Conn, r: Id)
    ensures Book(StepFinish(s, c), r).accepted == Book(s, r).accepted
  {
    if c in s.handlers && s.handlers[c].phase != Ended {
      var id := s.handlers[c].cert;
      UnregisterIsAside(DropWaiting(s, c), c, id);
      assert Book(DropWaiting(s, c), r).accepted == Book(s, r).accepted;
      hide DropWaiting, Unregister;
      assert StepFinish(s, c).ledgers == Unregister(DropWaiting(s, c), c, id).ledgers;
    }
  }

  /** A line that passes is written to the recipient's connection if it has one, or goes to the end of its queue, of
      which the last 100 are kept; any other line of a serving connection ends its handler and does nothing else. */
  lemma ForwardOutcome(allowed: set<Id>, s: State, c: Conn, payload: Payload, raw: Bytes)
    requires InPhase(s, c, Serving)
    ensures var t := Step(allowed, s, Forward(c, payload, raw));
            && t.clients == s.clients && t.closed == s.closed && t.waiting == s.waiting
            && if payload.to.Some? && MayForward(allowed, s, c, payload, raw, payload.to.value) then
                 var r, f := payload.to.value, Frame(c, s.handlers[c].cert, payload.to.value, Framed(raw));
                 && t.handlers == s.handlers
                 && (forall q | q != r :: Queue(t, q) == Queue(s, q) && Book(t, q) == Book(s, q))
                 && Book(t, r).accepted == Book(s, r).accepted + [f]
                 && Book(t, r).written == Book(s, r).written + (if r in s.clients then [Write(s.clients[r], f)] else [])
                 && Queue(t, r) == (if r in s.clients then Queue(s, r) else Append(Queue(s, r), f))
               else
                 InPhase(t, c, Failing) && OthersKept(s, t, c) && t.offline == s.offline && t.ledgers == s.ledgers
  {
    hide Append, Writes, Framed, Evicted;
  }

  predicate IsLineEnd(b: byte) {
    b == 0x0D || b == 0x0A
  }

  /** The bounded append keeps the last 100 entries, the new one at the end. */
  lemma AppendKeepsLast(q: seq<Frame>, f: Frame)
    requires |q| <= 100
    ensures |Append(q, f)| == (if |q| < 100 then |q| + 1 else 100)
    ensures Append(q, f) == (q + [f])[|q| + 1 - |Append(q, f)|..]
  {
  }

  /** What is passed on of a line is the part up to the last octet that is no CR or LF, and one LF. */
  lemma {:induction false} FramedIsLine(raw: Bytes)
    ensures exists n :: 0 <= n <= |raw| && Framed(raw) == raw[..n] + [0x0A]
                        && (n == 0 || !IsLineEnd(raw[n - 1]))
                        && (forall i | n <= i < |raw| :: IsLineEnd(raw[i]))
    decreases |raw|
  {
    if |raw| == 0 || !IsLineEnd(raw[|raw| - 1]) {
      assert raw[..|raw|] == raw;
    } else {
      var body := raw[..|raw| - 1];
      FramedIsLine(body);
      var n :| 0 <= n <= |body| && Framed(body) == body[..n] + [0x0A] && (n == 0 || !IsLineEnd(body[n - 1]))
               && (forall i | n <= i < |body| :: IsLineEnd(body[i]));
      assert body[..n] == raw[..n];
      assert forall i | n <= i < |raw| :: i < |body| ==> body[i] == raw[i];
    }
  }

  // ---- The end of a registration, the end of a handler --------------------

  /** Every registration that has not got to its drain's end is suspended, and can resume. */
  ghost predicate SuspendedOk(s: State) {
    forall c | InPhase(s, c, Registering) :: c in Suspended(s.waiting)
  }

  function Suspended(ws: seq<Waiting>): set<Conn> {
    set i | 0 <= i < |ws| :: ws[i].conn
  }

  /** A resumed registration writes the frames it popped to its own connection, one by one, and then serves. */
  lemma ResumeOutcome(allowed: set<Id>, s: State, c: Conn)
    requires Inv(s) && SuspendedOk(s) && InPhase(s, c, Registering)
    ensures var id, t := s.handlers[c].cert, Step(allowed, s, Resume(c));
            && InPhase(t, c, Serving) && OthersKept(s, t, c)
            && t.clients == s.clients && t.closed == s.closed && t.offline == s.offline
            && (forall q | q != id :: Book(t, q) == Book(s, q))
            && exists k :: 0 <= k < |s.waiting| && s.waiting[k].conn == c
                 && t.waiting == s.waiting[..k] + s.waiting[k + 1..]
                 && var fs, before, after := s.waiting[k].queued, Book(s, id), Book(t, id);
                    && after.accepted == before.accepted && after.lost == before.lost
                    && |after.written| == |before.written| + |fs|
                    && after.written[..|before.written|] == before.written
                    && forall i | 0 <= i < |fs| :: after.written[|before.written| + i] == Write(c, fs[i])
  {
    hide QueuesOk, OriginsOk, ClosedOk, Writes;
    var k := FindWaiting(s.waiting, c);
    var w := s.waiting[k];
    WritesAt(c, w.queued);
    assert s.handlers[c] == Handler(w.id, Registering);
    var t := Step(allowed, s, Resume(c));
    assert Book(t, w.id).written == Book(s, w.id).written + Writes(c, w.queued);
    assert t.waiting == s.waiting[..k] + s.waiting[k + 1..];
  }

  lemma {:induction false} WritesAt(c: Conn, fs: seq<Frame>)
    ensures |Writes(c, fs)| == |fs|
    ensures forall i | 0 <= i < |fs| :: Writes(c, fs)[i] == Write(c, fs[i])
    decreases |fs|
  {
    if |fs| > 0 {
      WritesAt(c, fs[..|fs| - 1]);
    }
  }

  /** A handler that ends takes its own entry with it and closes its connection unless it is broken; no queue moves. */
  lemma FinishOutcome(allowed: set<Id>, s: State, c: Conn)
    requires Inv(s) && c in s.handlers && s.handlers[c].phase != Ended
    ensures var t := Step(allowed, s, Finish(c));
            && InPhase(t, c, Ended) && OthersKept(s, t, c)
            && t.offline == s.offline
            && (forall r :: r in t.clients <==> r in s.clients && s.clients[r] != c)
            && (forall r | r in t.clients :: t.clients[r] == s.clients[r])
            && (forall d :: d in t.closed <==> d in s.closed || (d == c && s.handlers[c].phase != Broken))
  {
    hide QueuesOk, OriginsOk, ClosedOk, WaitingOk;
    DropIsAside(s, c);
    hide DropWaiting;
  }

  lemma DropIsAside(s: State, c: Conn)
    ensures var t := DropWaiting(s, c);
            t.offline == s.offline && t.clients == s.clients && t.closed == s.closed && t.handlers == s.handlers
  {
  }

  /** The frames of its suspended registration are lost, all others stay what they were. */
  lemma FinishLoses(allowed: set<Id>, s: State, c: Conn)
    requires Inv(s) && c in s.handlers && s.handlers[c].phase != Ended
    ensures var id, t := s.handlers[c].cert, Step(allowed, s, Finish(c));
            && (forall q | q != id :: Book(t, q) == Book(s, q))
            && Book(t, id).accepted == Book(s, id).accepted && Book(t, id).written == Book(s, id).written
            && (c !in Suspended(s.waiting) ==> t.waiting == s.waiting && Book(t, id).lost == Book(s, id).lost)
            && (c in Suspended(s.waiting) ==>
                exists k :: 0 <= k < |s.waiting| && s.waiting[k].conn == c
                  && t.waiting == s.waiting[..k] + s.waiting[k + 1..]
                  && Book(t, id).lost == Book(s, id).lost + s.waiting[k].queued)
  {
    var id, t := s.handlers[c].cert, DropWaiting(s, c);
    DropLoses(s, c);
    UnregisterIsAside(t, c, id);
    hide DropWaiting, Unregister, Inv;
  }

  lemma UnregisterIsAside(s: State, c: Conn, id: Id)
    ensures var t := Unregister(s, c, id);
            && t.waiting == s.waiting && t.handlers == s.handlers
            && (forall q | q != id :: Book(t, q) == Book(s, q))
            && Book(t, id) == Book(s, id).(since := Book(t, id).since)
  {
  }

  lemma DropLoses(s: State, c: Conn)
    requires Inv(s) && c in s.handlers
    ensures var id, t := s.handlers[c].cert, DropWaiting(s, c);
            && t.handlers == s.handlers
            && (forall q | q != id :: Book(t, q) == Book(s, q))
            && Book(t, id).accepted == Book(s, id).accepted && Book(t, id).written == Book(s, id).written
            && (c !in Suspended(s.waiting) ==> t.waiting == s.waiting && Book(t, id).lost == Book(s, id).lost)
            && (c in Suspended(s.waiting) ==>
                exists k :: 0 <= k < |s.waiting| && s.waiting[k].conn == c
                  && t.waiting == s.waiting[..k] + s.waiting[k + 1..]
                  && Book(t, id).lost == Book(s, id).lost + s.waiting[k].queued)
  {
    hide QueuesOk, OriginsOk, ClosedOk, RegistryOk;
    var k := FindWaiting(s.waiting, c);
    if k < |s.waiting| {
      assert s.handlers[s.waiting[k].conn] == Handler(s.waiting[k].id, Registering);
      assert Without(s.waiting, k) == s.waiting[..k] + s.waiting[k + 1..];
    } else {
      assert c !in Suspended(s.waiting);
    }
  }

  // ---- Over every run ----------------------------------------------------

  /** Whoever got past the registration checks has a nonempty identity on the allow-list. */
  ghost predicate AdmittedOk(allowed: set<Id>, handlers: map<Conn, Handler>) {
    forall c | c in handlers && handlers[c].phase in {Registering, Serving} ::
      handlers[c].cert != [] && handlers[c].cert in allowed
  }

  ghost predicate EntriesOk(allowed: set<Id>, clients: map<Id, Conn>) {
    forall r | r in clients :: r != [] && r in allowed
  }

  /** Frames are accepted and queued for recipients on the allow-list only. */
  ghost predicate RecipientsOk(allowed: set<Id>, s: State) {
    forall r | Book(s, r).accepted != [] || Queue(s, r) != [] :: r in allowed
  }

  /** Frames are accepted from senders on the allow-list only. */
  ghost predicate SendersOk(allowed: set<Id>, s: State) {
    forall r, f | f in Book(s, r).accepted :: f.from in allowed
  }

  /** A frame is only ever written to a connection of its recipient. */
  ghost predicate WritesOk(s: State) {
    forall r, w | w in Book(s, r).written :: w.conn in s.handlers && s.handlers[w.conn].cert == r
  }

  ghost predicate AccessOk(allowed: set<Id>, s: State) {
    && AdmittedOk(allowed, s.handlers)
    && EntriesOk(allowed, s.clients)
    && RecipientsOk(allowed, s)
    && SendersOk(allowed, s)
    && WritesOk(s)
    && SuspendedOk(s)
  }

  lemma StepKeepsAdmitted(allowed: set<Id>, s: State, e: Event)
    requires AdmittedOk(allowed, s.handlers)
    ensures AdmittedOk(allowed, Step(allowed, s, e).handlers)
  {
    hide StepRegister, StepResume, StepFinish;
    match e
    case Connect(_, _) =>
    case Register(c, claimed) => RegistrationAdmits(allowed, s, c, claimed);
    case Resume(c) => ResumptionHandlers(s, c);
    case Forward(_, _, _) => hide Append, Framed, Evicted, Queue;
    case Finish(c) => FinishHandlers(s, c);
  }

  lemma RegistrationAdmits(allowed: set<Id>, s: State, c: Conn, claimed: Claim)
    requires AdmittedOk(allowed, s.handlers)
    ensures AdmittedOk(allowed, StepRegister(allowed, s, c, claimed).handlers)
  {
    hide Queue, Previous;
  }

  lemma StepKeepsEntries(allowed: set<Id>, s: State, e: Event)
    requires Inv(s) && EntriesOk(allowed, s.clients)
    ensures EntriesOk(allowed, Step(allowed, s, e).clients)
  {
    hide Inv, Step;
    var t := Step(allowed, s, e);
    forall r | r in t.clients ensures r != [] && r in allowed {
      if r !in s.clients || s.clients[r] != t.clients[r] {
        EntryIffRegistration(allowed, s, e, r, t.clients[r]);
      }
    }
  }

  lemma StepKeepsRecipients(allowed: set<Id>, s: State, e: Event)
    requires RecipientsOk(allowed, s)
    ensures RecipientsOk(allowed, Step(allowed, s, e))
  {
    var t := Step(allowed, s, e);
    forall r | Book(t, r).accepted != [] || Queue(t, r) != [] ensures r in allowed {
      AcceptedIffForwarded(allowed, s, e, r);
      if Book(t, r).accepted == Book(s, r).accepted {
        QueueFedByAccepted(allowed, s, e, r);
      }
    }
  }

  lemma QueueFedByAccepted(allowed: set<Id>, s: State, e: Event, r: Id)
    requires Book(Step(allowed, s, e), r).accepted == Book(s, r).accepted
    ensures Queue(Step(allowed, s, e), r) in {Queue(s, r), []}
  {
    hide Writes, Framed, Evicted;
    match e
    case Finish(c) => DropIsAside(s, c); hide DropWaiting;
    case _ =>
  }

  lemma StepKeepsSenders(allowed: set<Id>, s: State, e: Event)
    requires SendersOk(allowed, s) && AdmittedOk(allowed, s.handlers)
    ensures SendersOk(allowed, Step(allowed, s, e))
  {
    hide Step, Framed, Append;
    var t := Step(allowed, s, e);
    forall r, f | f in Book(t, r).accepted ensures f.from in allowed {
      AcceptedIffForwarded(allowed, s, e, r);
      if Book(t, r).accepted != Book(s, r).accepted {
        ForwardOutcome(allowed, s, e.conn, e.payload, e.raw);
      }
    }
  }

  lemma CertsStay(allowed: set<Id>, s: State, e: Event)
    ensures forall c | c in s.handlers ::
              c in Step(allowed, s, e).handlers && Step(allowed, s, e).handlers[c].cert == s.handlers[c].cert
  {
    hide StepRegister, StepResume, StepForward, StepFinish;
    match e
    case Connect(_, _) =>
    case Register(c, claimed) => RegistrationHandlers(allowed, s, c, claimed);
    case Resume(c) => ResumptionHandlers(s, c);
    case Forward(c, payload, raw) => ForwardHandlers(allowed, s, c, payload, raw);
    case Finish(c) => FinishHandlers(s, c);
  }

  /** What a handler's own event may do to the handlers: it moves on alone, past the registration checks only from
      New. */
  ghost predicate HandlersMove(s: State, t: State, c: Conn) {
    && OthersKept(s, t, c)
    && (InPhase(t, c, Registering) ==> InPhase(s, c, New) || InPhase(s, c, Registering))
  }

  lemma RegistrationHandlers(allowed: set<Id>, s: State, c: Conn, claimed: Claim)
    ensures var t := StepRegister(allowed, s, c, claimed);
            && HandlersMove(s, t, c)
            && if InPhase(t, c, Registering) && InPhase(s, c, New)
               then t.waiting == s.waiting + [Waiting(c, s.handlers[c].cert, Queue(s, s.handlers[c].cert))]
               else t.waiting == s.waiting
  {
  }

  lemma ResumptionHandlers(s: State, c: Conn)
    ensures var t, k := StepResume(s, c), FindWaiting(s.waiting, c);
            && HandlersMove(s, t, c)
            && if InPhase(s, c, Registering) && k < |s.waiting|
               then InPhase(t, c, Serving) && t.waiting == Without(s.waiting, k)
               else t == s
  {
    hide Writes, Without;
  }

  lemma ForwardHandlers(allowed: set<Id>, s: State, c: Conn, payload: Payload, raw: Bytes)
    ensures var t := StepForward(allowed, s, c, payload, raw);
            && HandlersMove(s, t, c) && t.waiting == s.waiting
            && (InPhase(t, c, Registering) ==> InPhase(s, c, Registering))
  {
    hide Append, Framed, Evicted;
  }

  lemma FinishHandlers(s: State, c: Conn)
    ensures var t, k := StepFinish(s, c), FindWaiting(s.waiting, c);
            if c in s.handlers && s.handlers[c].phase != Ended then
              && OthersKept(s, t, c) && InPhase(t, c, Ended)
              && t.waiting == (if k < |s.waiting| then Without(s.waiting, k) else s.waiting)
            else t == s
  {
    if c in s.handlers && s.handlers[c].phase != Ended {
      UnregisterIsAside(DropWaiting(s, c), c, s.handlers[c].cert);
      hide Unregister;
    }
  }

  lemma WritesGoToRecipient(allowed: set<Id>, s: State, e: Event, r: Id, w: Write)
    requires Inv(s) && w in Book(Step(allowed, s, e), r).written && w !in Book(s, r).written
    ensures w.conn in s.handlers && s.handlers[w.conn].cert == r
  {
    hide StepRegister, StepResume, StepForward, StepFinish;
    match e
    case Connect(_, _) =>
    case Register(c, claimed) => RegistrationAccepts(allowed, s, c, claimed);
    case Resume(c) => ResumptionWrites(s, c, r, w);
    case Forward(c, payload, raw) => ForwardWrites(allowed, s, c, payload, raw, r);
    case Finish(c) => FinishWrites(s, c, r);
  }

  lemma ForwardWrites(allowed: set<Id>, s: State, c: Conn, payload: Payload, raw: Bytes, r: Id)
    requires Inv(s)
    ensures forall w | w in Book(StepForward(allowed, s, c, payload, raw), r).written && w !in Book(s, r).written ::
              w.conn in s.handlers && s.handlers[w.conn].cert == r
  {
    hide WaitingOk, QueuesOk, OriginsOk, ClosedOk, Framed, Append, Evicted;
  }

  lemma ResumptionWrites(s: State, c: Conn, r: Id, w: Write)
    requires Inv(s) && w in Book(StepResume(s, c), r).written && w !in Book(s, r).written
    ensures w.conn in s.handlers && s.handlers[w.conn].cert == r
  {
    hide RegistryOk, QueuesOk, OriginsOk, ClosedOk, Writes;
    var k := FindWaiting(s.waiting, c);
    WritesAt(c, s.waiting[k].queued);
    assert s.handlers[s.waiting[k].conn] == Handler(s.waiting[k].id, Registering);
  }

  lemma FinishWrites(s: State, c: Conn, r: Id)
    ensures Book(StepFinish(s, c), r).written == Book(s, r).written
  {
    if c in s.handlers && s.handlers[c].phase != Ended {
      var id := s.handlers[c].cert;
      UnregisterIsAside(DropWaiting(s, c), c, id);
      assert Book(DropWaiting(s, c), r).written == Book(s, r).written;
      hide DropWaiting, Unregister;
      assert StepFinish(s, c).ledgers == Unregister(DropWaiting(s, c), c, id).ledgers;
    }
  }

  lemma StepKeepsWrites(allowed: set<Id>, s: State, e: Event)
    requires Inv(s) && WritesOk(s)
    ensures WritesOk(Step(allowed, s, e))
  {
    hide Inv, Step;
    CertsStay(allowed, s, e);
    var t := Step(allowed, s, e);
    forall r, w | w in Book(t, r).written ensures w.conn in t.handlers && t.handlers[w.conn].cert == r {
      if w !in Book(s, r).written {
        WritesGoToRecipient(allowed, s, e, r, w);
      }
    }
  }

  lemma WithoutSuspends(ws: seq<Waiting>, k: nat)
    ensures k < |ws| ==> Suspended(ws) - {ws[k].conn} <= Suspended(Without(ws, k))
  {
    if k < |ws| {
      forall c | c in Suspended(ws) && c != ws[k].conn ensures c in Suspended(Without(ws, k)) {
        var i :| 0 <= i < |ws| && ws[i].conn == c;
        assert Without(ws, k)[if i < k then i else i - 1] == ws[i];
      }
    }
  }

  lemma StepKeepsSuspended(allowed: set<Id>, s: State, e: Event)
    requires SuspendedOk(s)
    ensures SuspendedOk(Step(allowed, s, e))
  {
    hide StepRegister, StepResume, StepForward, StepFinish, Without, Suspended;
    match e
    case Connect(_, _) =>
    case Register(c, claimed) =>
      RegistrationHandlers(allowed, s, c, claimed);
      if InPhase(s, c, New) {
        var id := s.handlers[c].cert;
        StillSuspended(s.waiting, Waiting(c, id, Queue(s, id)));
      }
    case Resume(c) =>
      ResumptionHandlers(s, c);
      WithoutSuspends(s.waiting, FindWaiting(s.waiting, c));
    case Forward(c, payload, raw) => ForwardHandlers(allowed, s, c, payload, raw);
    case Finish(c) =>
      FinishHandlers(s, c);
      WithoutSuspends(s.waiting, FindWaiting(s.waiting, c));
  }

  lemma StillSuspended(ws: seq<Waiting>, w: Waiting)
    ensures Suspended(ws + [w]) == Suspended(ws) + {w.conn}
  {
    forall c | c in Suspended(ws) ensures c in Suspended(ws + [w]) {
      var i :| 0 <= i < |ws| && ws[i].conn == c;
      assert (ws + [w])[i] == ws[i];
    }
    assert (ws + [w])[|ws|] == w;
  }

  lemma {:induction false} RunKeepsAccess(allowed: set<Id>, s: State, es: seq<Event>)
    requires Inv(s) && AccessOk(allowed, s)
    ensures AccessOk(allowed, Run(allowed, s, es))
    decreases |es|
  {
    hide Inv, Step;
    if |es| == 0 {
    } else {
      StepKeepsInv(allowed, s, es[0]);
      StepKeepsAdmitted(allowed, s, es[0]);
      StepKeepsEntries(allowed, s, es[0]);
      StepKeepsRecipients(allowed, s, es[0]);
      StepKeepsSenders(allowed, s, es[0]);
      StepKeepsWrites(allowed, s, es[0]);
      StepKeepsSuspended(allowed, s, es[0]);
      hide AdmittedOk, EntriesOk, RecipientsOk, SendersOk, WritesOk, SuspendedOk;
      RunKeepsAccess(allowed, Step(allowed, s, es[0]), es[1..]);
    }
  }

  /** Over every interleaving: only devices on the allow-list are registered, wait or serve, only frames from such
      devices for such devices are accepted or queued, and a frame is written to a connection of its recipient and
      to no other. */
  lemma AllowListHolds(allowed: set<Id>, es: seq<Event>)
    ensures var s := Run(allowed, INIT, es);
            && (forall c | c in s.handlers && s.handlers[c].phase in {Registering, Serving} ::
                  s.handlers[c].cert != [] && s.handlers[c].cert in allowed)
            && (forall r | r in s.clients ::
                  r != [] && r in allowed && s.clients[r] in s.handlers && s.handlers[s.clients[r]].cert == r)
            && (forall i | 0 <= i < |s.waiting| :: s.waiting[i].id != [] && s.waiting[i].id in allowed)
            && (forall c | InPhase(s, c, Registering) :: c in Suspended(s.waiting))
            && (forall r | Book(s, r).accepted != [] || Queue(s, r) != [] :: r in allowed)
            && (forall r, f | f in Book(s, r).accepted :: f.to == r && f.from in allowed)
            && (forall r, w | w in Book(s, r).written ::
                  w.conn in s.handlers && s.handlers[w.conn].cert == r && w.frame in Book(s, r).accepted)
  {
    RunKeepsInv(allowed, INIT, es);
    RunKeepsAccess(allowed, INIT, es);
    var s := Run(allowed, INIT, es);
    hide Run, QueuesOk, ClosedOk;
    assert forall i | 0 <= i < |s.waiting| ::
        s.waiting[i].conn in s.handlers && s.handlers[s.waiting[i].conn].cert == s.waiting[i].id;
    forall r, w | w in Book(s, r).written ensures w.frame in Book(s, r).accepted {
      RelayConserves(allowed, es, r);
      WrittenIsFrame(Book(s, r).written, w);
      assert w.frame in multiset(Frames(Book(s, r).written));
      assert w.frame in multiset(Book(s, r).accepted);
    }
  }

  lemma {:induction false} WrittenIsFrame(ws: seq<Write>, w: Write)
    requires w in ws
    ensures w.frame in Frames(ws)
    decreases |ws|
  {
    if ws[|ws| - 1] != w {
      WrittenIsFrame(ws[..|ws| - 1], w);
    }
  }
}
