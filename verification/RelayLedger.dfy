/** What the relay does with the frames it accepts: conservation, and when it is an in-order link. */
module RelayLedger {
  import opened Bytes
  import opened Encoding
  import opened Relay
  import opened Wrappers

  // ---- Conservation ------------------------------------------------------

  lemma HeldAppend(ws: seq<Waiting>, w: Waiting, r: Id)
    ensures Held(ws + [w], r) == Held(ws, r) + if w.id == r then w.queued else []
  {
    HeldConcat(ws, [w], r);
    assert [w][1..] == [];
  }

  lemma RegisterConserves(allowed: set<Id>, s: State, c: Conn, claimed: Claim, r: Id)
    requires Conserved(s, r)
    ensures Conserved(StepRegister(allowed, s, c, claimed), r)
  {
    hide Frames, Held, Balanced;
    var t := StepRegister(allowed, s, c, claimed);
    if t.waiting != s.waiting {
      HeldAppend(s.waiting, Waiting(c, s.handlers[c].cert, Queue(s, s.handlers[c].cert)), r);
      QueueBecomesHeld(Book(s, r), Queue(s, r), Held(s.waiting, r));
    }
  }

  lemma QueueBecomesHeld(book: Ledger, queue: seq<Frame>, held: seq<Frame>)
    requires Balanced(book, queue, held)
    ensures Balanced(book, [], held + queue)
    ensures Balanced(book, queue, held + [])
  {
    hide Frames;
    assert held + [] == held;
  }

  lemma ResumeConserves(s: State, c: Conn, r: Id)
    requires Conserved(s, r)
    ensures Conserved(StepResume(s, c), r)
  {
    hide Held, Frames, Writes;
    var k := FindWaiting(s.waiting, c);
    if InPhase(s, c, Registering) && k < |s.waiting| {
      HeldSplit(s.waiting, k, r);
      FramesAppend(Book(s, r).written, Writes(c, s.waiting[k].queued));
      FramesOfWrites(c, s.waiting[k].queued);
    }
  }

  lemma FramesOfOne(c: Conn, f: Frame)
    ensures Frames([Write(c, f)]) == [f]
  {
    assert [Write(c, f)][..0] == [];
  }

  /** A frame accepted and written at once. */
  lemma WriteBalances(book: Ledger, queue: seq<Frame>, held: seq<Frame>, c: Conn, f: Frame)
    requires Balanced(book, queue, held)
    ensures Balanced(book.(accepted := book.accepted + [f], written := book.written + [Write(c, f)]), queue, held)
  {
    hide Frames;
    FramesAppend(book.written, [Write(c, f)]);
    FramesOfOne(c, f);
  }

  /** A frame accepted and queued, evicting what the bound leaves no room for. */
  lemma QueueingBalances(book: Ledger, queue: seq<Frame>, held: seq<Frame>, f: Frame)
    requires Balanced(book, queue, held)
    ensures Balanced(book.(accepted := book.accepted + [f],
                           evicted := book.evicted + Evicted(queue),
                           since := book.since + [f]),
                     Append(queue, f), held)
  {
    hide Frames, Append, Evicted;
    AppendEvicts(queue, f);
    assert multiset(Evicted(queue) + Append(queue, f)) == multiset(queue + [f]);
    MoveBetween(multiset(Frames(book.written)), multiset(queue), multiset(held), multiset(book.evicted),
                multiset(book.lost), multiset([f]), multiset(Append(queue, f)), multiset(Evicted(queue)));
    assert multiset(book.evicted + Evicted(queue)) == multiset(book.evicted) + multiset(Evicted(queue));
    assert multiset(book.accepted + [f]) == multiset(book.accepted) + multiset([f]);
  }

  lemma MoveBetween<T>(w: multiset<T>, q: multiset<T>, h: multiset<T>, e: multiset<T>, l: multiset<T>,
                       f: multiset<T>, kept: multiset<T>, out: multiset<T>)
    requires out + kept == q + f
    ensures w + q + h + e + l + f == w + kept + h + (e + out) + l
  {
    forall x ensures (w + q + h + e + l + f)[x] == (w + kept + h + (e + out) + l)[x] {
      assert (out + kept)[x] == (q + f)[x];
    }
  }

  lemma AcceptConserves(s: State, f: Frame, r: Id)
    requires Conserved(s, r)
    ensures Conserved(Accept(s, f), r)
  {
    hide Held, Append, Evicted, Balanced;
    if f.to == r {
      if r in s.clients {
        WriteBalances(Book(s, r), Queue(s, r), Held(s.waiting, r), s.clients[r], f);
      } else {
        QueueingBalances(Book(s, r), Queue(s, r), Held(s.waiting, r), f);
      }
    }
  }

  lemma DropConserves(s: State, c: Conn, r: Id)
    requires Conserved(s, r)
    ensures Conserved(DropWaiting(s, c), r)
  {
    hide Held, Frames;
    var k := FindWaiting(s.waiting, c);
    if k < |s.waiting| {
      HeldSplit(s.waiting, k, r);
    }
  }

  lemma FinishConserves(s: State, c: Conn, r: Id)
    requires Conserved(s, r)
    ensures Conserved(StepFinish(s, c), r)
  {
    hide Held, Frames, DropWaiting;
    DropConserves(s, c, r);
  }

  lemma ForwardConserves(allowed: set<Id>, s: State, c: Conn, payload: Payload, raw: Bytes, r: Id)
    requires Conserved(s, r)
    ensures Conserved(StepForward(allowed, s, c, payload, raw), r)
  {
    hide Conserved, Accept, Framed;
    if InPhase(s, c, Serving) {
      match Recipient(allowed, s.handlers[c].cert, payload, raw) {
        case None => PhaseConserves(s, c, Failing, r);
        case Some(to) => AcceptConserves(s, Frame(c, payload.from.value, to, Framed(raw)), r);
      }
    }
  }

  lemma PhaseConserves(s: State, c: Conn, phase: Phase, r: Id)
    requires Conserved(s, r) && c in s.handlers
    ensures Conserved(ToPhase(s, c, phase), r)
  {
    hide Balanced, Held;
  }

  lemma ConnectConserves(s: State, c: Conn, cert: Id, r: Id)
    requires Conserved(s, r)
    ensures Conserved(StepConnect(s, c, cert), r)
  {
    hide Balanced, Held;
  }

  lemma StepConserves(allowed: set<Id>, s: State, e: Event, r: Id)
    requires Conserved(s, r)
    ensures Conserved(Step(allowed, s, e), r)
  {
    hide Conserved, StepConnect, StepRegister, StepResume, StepForward, StepFinish;
    match e
    case Connect(c, cert) => ConnectConserves(s, c, cert, r);
    case Register(c, claimed) => RegisterConserves(allowed, s, c, claimed, r);
    case Resume(c) => ResumeConserves(s, c, r);
    case Forward(c, payload, raw) => ForwardConserves(allowed, s, c, payload, raw, r);
    case Finish(c) => FinishConserves(s, c, r);
  }

  lemma {:induction false} RunConserves(allowed: set<Id>, s: State, es: seq<Event>, r: Id)
    requires Conserved(s, r)
    ensures Conserved(Run(allowed, s, es), r)
    decreases |es|
  {
    hide Conserved, Step;
    if |es| == 0 {
    } else {
      StepConserves(allowed, s, es[0], r);
      RunConserves(allowed, Step(allowed, s, es[0]), es[1..], r);
    }
  }

  /** Over every interleaving and for each recipient, the accepted frames are, as a multiset, those written to
      its connections, queued, popped by a suspended registration, evicted, and lost with an ended one. */
  lemma RelayConserves(allowed: set<Id>, es: seq<Event>, r: Id)
    ensures var s := Run(allowed, INIT, es);
            var book := Book(s, r);
            multiset(book.accepted)
            == multiset(Frames(book.written)) + multiset(Queue(s, r)) + multiset(Held(s.waiting, r))
               + multiset(book.evicted) + multiset(book.lost)
  {
    hide Run;
    RunConserves(allowed, INIT, es, r);
  }

  // ---- Order -------------------------------------------------------------

  /** Written so far, then held, then queued: exactly what was accepted, in order. */
  ghost predicate InOrder(s: State, r: Id) {
    Book(s, r).accepted == Frames(Book(s, r).written) + Held(s.waiting, r) + Queue(s, r)
  }

  /** Only one suspended registration of r has frames in hand. */
  ghost predicate OneHolder(ws: seq<Waiting>, r: Id) {
    forall k | 0 <= k < |ws| && ws[k].id == r && ws[k].queued != [] :: Held(ws, r) == ws[k].queued
  }

  /** In order, one holder, and nothing queued behind it: no resumption can reorder anything. */
  ghost predicate Settled(s: State, r: Id) {
    && InOrder(s, r)
    && OneHolder(s.waiting, r)
    && (Held(s.waiting, r) != [] ==> Queue(s, r) == [])
  }

  /**
   * A frame for a registered r overtakes nothing but copies of itself; one for an unregistered r finds room in the
   * queue and no earlier registration with frames in hand; no registration of r ends with frames in hand.
   */
  predicate Calm(allowed: set<Id>, s: State, e: Event, r: Id) {
    match e
    case Forward(c, payload, raw) =>
      InPhase(s, c, Serving) && Recipient(allowed, s.handlers[c].cert, payload, raw) == Some(r) ==>
        Passes(s, Frame(c, payload.from.value, r, Framed(raw)))
    case Finish(c) => !LosesFrames(s, c, r)
    case _ => true
  }

  /** For a registered recipient, no suspended registration holds a different frame; for an unregistered one, the
      queue has room. */
  predicate OvertakesNothing(s: State, f: Frame) {
    if f.to in s.clients then forall g | g in Held(s.waiting, f.to) :: g == f
    else |Queue(s, f.to)| < MAX_OFFLINE
  }

  predicate Passes(s: State, f: Frame) {
    OvertakesNothing(s, f) && (f.to in s.clients || Held(s.waiting, f.to) == [])
  }

  predicate LosesFrames(s: State, c: Conn, r: Id) {
    var k := FindWaiting(s.waiting, c);
    k < |s.waiting| && s.waiting[k].id == r && s.waiting[k].queued != []
  }

  predicate CalmRun(allowed: set<Id>, s: State, es: seq<Event>, r: Id)
    decreases |es|
  {
    |es| == 0 || (Calm(allowed, s, es[0], r) && CalmRun(allowed, Step(allowed, s, es[0]), es[1..], r))
  }

  lemma {:induction false} AllSameUpTo(f: Frame, fs: seq<Frame>, i: nat)
    requires [f] + fs == fs + [f] && i < |fs|
    ensures fs[i] == f
  {
    if i > 0 {
      AllSameUpTo(f, fs, i - 1);
      assert ([f] + fs)[i] == fs[i - 1];
      assert (fs + [f])[i] == fs[i];
    } else {
      assert ([f] + fs)[0] == f;
      assert (fs + [f])[0] == fs[0];
    }
  }

  lemma CommutesIffSame(f: Frame, fs: seq<Frame>)
    ensures [f] + fs == fs + [f] <==> forall g | g in fs :: g == f
  {
    if [f] + fs == fs + [f] {
      forall g | g in fs ensures g == f {
        var i :| 0 <= i < |fs| && fs[i] == g;
        AllSameUpTo(f, fs, i);
      }
    }
    if forall g | g in fs :: g == f {
      forall i | 0 <= i <= |fs| ensures ([f] + fs)[i] == f && (fs + [f])[i] == f {
        assert i > 0 ==> fs[i - 1] in fs;
        assert i < |fs| ==> fs[i] in fs;
      }
    }
  }

  /** Accepting a frame leaves what is written, held and queued in order if and only if it overtakes nothing. */
  lemma AcceptKeepsOrderIff(s: State, f: Frame)
    requires Inv(s) && InOrder(s, f.to)
    ensures InOrder(Accept(s, f), f.to) <==> OvertakesNothing(s, f)
  {
    hide Frames, Held, QueuesOk, WaitingOk, OriginsOk;
    var r, t := f.to, Accept(s, f);
    var w, h, q := Frames(Book(s, r).written), Held(s.waiting, r), Queue(s, r);
    if r in s.clients {
      FramesAppend(Book(s, r).written, [Write(s.clients[r], f)]);
      FramesOfOne(s.clients[r], f);
      CommutesIffSame(f, h);
      assert q == [] && w + h + q == w + h;
      assert Book(t, r).accepted == w + (h + [f]);
      assert Frames(Book(t, r).written) + h + q == w + ([f] + h);
      PrefixCancels(w, h + [f], [f] + h);
      assert Queue(t, r) == [] && Held(t.waiting, r) == h;
      assert (Frames(Book(t, r).written) + h) + [] == Frames(Book(t, r).written) + h;
    } else {
      assert Book(t, r).accepted == w + h + (q + [f]);
      PrefixCancels(w + h, q + [f], Append(q, f));
      assert |q| >= MAX_OFFLINE ==> |Append(q, f)| < |q + [f]|;
    }
  }

  lemma PrefixCancels(w: seq<Frame>, a: seq<Frame>, b: seq<Frame>)
    ensures w + a == w + b <==> a == b
  {
    if w + a == w + b {
      assert a == (w + a)[|w|..] && b == (w + b)[|w|..];
    }
  }

  lemma AppendGrows(queue: seq<Frame>, f: Frame)
    ensures |Append(queue, f)| > 0
  {
  }

  lemma OthersStaySettled(s: State, f: Frame, r: Id)
    requires Settled(s, r) && f.to != r
    ensures Settled(Accept(s, f), r)
  {
    hide Frames, Held, Append, Evicted;
  }

  /**
   * Accepting a frame keeps the link settled if and only if the frame can pass. That the frame overtakes nothing yet
   * is not enough: see RelayExample.
   */
  lemma AcceptStaysSettledIff(s: State, f: Frame)
    requires Inv(s) && Settled(s, f.to)
    ensures Settled(Accept(s, f), f.to) <==> Passes(s, f)
  {
    hide Frames, Held, QueuesOk, WaitingOk, OriginsOk, ClosedOk, OvertakesNothing, Append, Evicted;
    AcceptKeepsOrderIff(s, f);
    assert |Append(Queue(s, f.to), f)| > 0 by { AppendGrows(Queue(s, f.to), f); }
    var t := Accept(s, f);
    assert Held(t.waiting, f.to) == Held(s.waiting, f.to);
    if f.to in s.clients {
      assert Queue(t, f.to) == [];
    } else {
      assert Queue(t, f.to) == Append(Queue(s, f.to), f) != [];
    }
  }

  /** A registration moves the queue behind what is held, or changes nothing of a link. */
  lemma RegisterEffect(allowed: set<Id>, s: State, c: Conn, claimed: Claim, r: Id)
    ensures var t := StepRegister(allowed, s, c, claimed);
            && Book(t, r) == Book(s, r)
            && ((t.waiting == s.waiting && Queue(t, r) == Queue(s, r))
                || (exists w :: && t.waiting == s.waiting + [w]
                                && if w.id == r then w.queued == Queue(s, r) && Queue(t, r) == []
                                   else Queue(t, r) == Queue(s, r)))
  {
    var t := StepRegister(allowed, s, c, claimed);
    if t.offline != s.offline || t.waiting != s.waiting {
      var id := s.handlers[c].cert;
      var w := Waiting(c, id, Queue(s, id));
      assert t.waiting == s.waiting + [w] && t.offline == s.offline - {id};
      hide StepRegister;
      assert id == r ==> Queue(t, r) == [];
      assert id != r ==> Queue(t, r) == Queue(s, r);
    }
  }

  lemma OneMoreHolder(ws: seq<Waiting>, w: Waiting, r: Id)
    requires OneHolder(ws, r) && (w.id == r ==> Held(ws, r) == [] || w.queued == [])
    ensures OneHolder(ws + [w], r)
  {
    HeldAppend(ws, w, r);
    hide Held;
    if w.id == r && w.queued != [] {
      assert forall k | 0 <= k < |ws| && ws[k].id == r :: ws[k].queued == [];
    }
  }

  lemma RegisterStaysSettled(allowed: set<Id>, s: State, c: Conn, claimed: Claim, r: Id)
    requires Settled(s, r)
    ensures Settled(StepRegister(allowed, s, c, claimed), r)
  {
    RegisterEffect(allowed, s, c, claimed, r);
    hide Frames, Held, OneHolder, StepRegister, Queue, Book;
    var t := StepRegister(allowed, s, c, claimed);
    if t.waiting != s.waiting {
      var w :| t.waiting == s.waiting + [w] && if w.id == r then w.queued == Queue(s, r) && Queue(t, r) == []
                                               else Queue(t, r) == Queue(s, r);
      HeldAppend(s.waiting, w, r);
      OneMoreHolder(s.waiting, w, r);
    }
  }

  lemma WithoutKeepsOneHolder(ws: seq<Waiting>, k: nat, r: Id)
    requires OneHolder(ws, r) && k < |ws|
    ensures OneHolder(Without(ws, k), r)
    ensures Held(ws, r) == (if ws[k].id == r then ws[k].queued else []) + Held(Without(ws, k), r)
  {
    hide Held;
    HeldSplit(ws, k, r);
    var us := Without(ws, k);
    forall j | 0 <= j < |us| && us[j].id == r && us[j].queued != [] ensures Held(us, r) == us[j].queued {
      var i := if j < k then j else j + 1;
      assert ws[i] == us[j];
      HeldSplit(us, j, r);
    }
  }

  lemma ResumeStaysSettled(s: State, c: Conn, r: Id)
    requires Settled(s, r)
    ensures Settled(StepResume(s, c), r)
  {
    hide Held, Frames, Writes, OneHolder;
    var k := FindWaiting(s.waiting, c);
    if InPhase(s, c, Registering) && k < |s.waiting| {
      WithoutKeepsOneHolder(s.waiting, k, r);
      FramesAppend(Book(s, r).written, Writes(c, s.waiting[k].queued));
      FramesOfWrites(c, s.waiting[k].queued);
    }
  }

  /** A handler's end keeps the link settled if and only if it takes no popped frames with it. */
  lemma FinishStaysSettledIff(s: State, c: Conn, r: Id)
    requires Inv(s) && Settled(s, r)
    ensures Settled(StepFinish(s, c), r) <==> !LosesFrames(s, c, r)
  {
    hide Settled, Inv, StepFinish, Held;
    FinishEffect(s, c, r);
    var k := FindWaiting(s.waiting, c);
    if LosesFrames(s, c, r) {
      LossUnsettles(s, StepFinish(s, c), k, r);
    } else {
      NoLossStaysSettled(s, StepFinish(s, c), k, c, r);
    }
  }

  lemma LossUnsettles(s: State, t: State, k: nat, r: Id)
    requires Settled(s, r) && k < |s.waiting| && s.waiting[k].id == r && s.waiting[k].queued != []
    requires t.waiting == Without(s.waiting, k) && Queue(t, r) == Queue(s, r)
    requires Book(t, r).accepted == Book(s, r).accepted && Book(t, r).written == Book(s, r).written
    ensures !Settled(t, r)
  {
    hide Frames, Held, OneHolder, Without, Queue, Book;
    OnlyHolder(s.waiting, k, r);
    assert |Book(t, r).accepted| > |Frames(Book(t, r).written) + Held(t.waiting, r) + Queue(t, r)|;
  }

  lemma NoLossStaysSettled(s: State, t: State, k: nat, c: Conn, r: Id)
    requires Settled(s, r) && k == FindWaiting(s.waiting, c) && !LosesFrames(s, c, r)
    requires t.waiting == (if k < |s.waiting| then Without(s.waiting, k) else s.waiting) && Queue(t, r) == Queue(s, r)
    requires Book(t, r).accepted == Book(s, r).accepted && Book(t, r).written == Book(s, r).written
    ensures Settled(t, r)
  {
    hide Frames, Held, OneHolder, Without, Queue, Book;
    if k < |s.waiting| {
      WithoutKeepsOneHolder(s.waiting, k, r);
      assert Held(t.waiting, r) == Held(s.waiting, r);
    }
  }

  /** The end of a handler takes the frames it holds out of the line, and writes and queues nothing. */
  lemma FinishEffect(s: State, c: Conn, r: Id)
    requires Inv(s)
    ensures var t, k := StepFinish(s, c), FindWaiting(s.waiting, c);
            && t.waiting == (if k < |s.waiting| then Without(s.waiting, k) else s.waiting)
            && Queue(t, r) == Queue(s, r)
            && Book(t, r).accepted == Book(s, r).accepted && Book(t, r).written == Book(s, r).written
  {
    hide QueuesOk, OriginsOk, ClosedOk, RegistryOk;
    var k := FindWaiting(s.waiting, c);
    if k < |s.waiting| {
      assert s.handlers[c] == Handler(s.waiting[k].id, Registering);
    }
    hide Inv;
    assert Book(DropWaiting(s, c), r).accepted == Book(s, r).accepted;
    assert Book(DropWaiting(s, c), r).written == Book(s, r).written;
  }

  lemma OnlyHolder(ws: seq<Waiting>, k: nat, r: Id)
    requires OneHolder(ws, r) && k < |ws| && ws[k].id == r && ws[k].queued != []
    ensures Held(ws, r) == ws[k].queued && Held(Without(ws, k), r) == []
  {
    WithoutKeepsOneHolder(ws, k, r);
  }

  /** Every event keeps the link settled if and only if it is calm. */
  lemma StepStaysSettledIff(allowed: set<Id>, s: State, e: Event, r: Id)
    requires Inv(s) && Settled(s, r)
    ensures Settled(Step(allowed, s, e), r) <==> Calm(allowed, s, e, r)
  {
    hide Inv, Settled, StepRegister, StepResume, StepFinish, Accept, Passes, LosesFrames;
    match e
    case Connect(c, cert) => ConnectStaysSettled(s, c, cert, r);
    case Register(c, claimed) => RegisterStaysSettled(allowed, s, c, claimed, r);
    case Resume(c) => ResumeStaysSettled(s, c, r);
    case Forward(c, payload, raw) =>
      if InPhase(s, c, Serving) {
        match Recipient(allowed, s.handlers[c].cert, payload, raw) {
          case None => PhaseStaysSettled(s, c, Failing, r);
          case Some(to) =>
            var f := Frame(c, payload.from.value, to, Framed(raw));
            if to == r {
              AcceptStaysSettledIff(s, f);
            } else {
              OthersStaySettled(s, f, r);
            }
        }
      }
    case Finish(c) => FinishStaysSettledIff(s, c, r);
  }

  /** The link to r is settled before and after every event of the run. */
  ghost predicate SettledThroughout(allowed: set<Id>, s: State, es: seq<Event>, r: Id)
    decreases |es|
  {
    Settled(s, r) && (|es| == 0 || SettledThroughout(allowed, Step(allowed, s, es[0]), es[1..], r))
  }

  /** Calm runs are exactly the runs that keep the link settled throughout. */
  lemma {:induction false} CalmRunIff(allowed: set<Id>, s: State, es: seq<Event>, r: Id)
    requires Inv(s) && Settled(s, r)
    ensures CalmRun(allowed, s, es, r) <==> SettledThroughout(allowed, s, es, r)
    decreases |es|
  {
    hide Inv, Settled, Step, Calm;
    if |es| == 0 {
    } else {
      StepStaysSettledIff(allowed, s, es[0], r);
      StepKeepsInv(allowed, s, es[0]);
      if Calm(allowed, s, es[0], r) {
        CalmRunIff(allowed, Step(allowed, s, es[0]), es[1..], r);
      }
    }
  }

  lemma ConnectStaysSettled(s: State, c: Conn, cert: Id, r: Id)
    requires Settled(s, r)
    ensures Settled(StepConnect(s, c, cert), r)
  {
  }

  lemma PhaseStaysSettled(s: State, c: Conn, phase: Phase, r: Id)
    requires Settled(s, r) && c in s.handlers
    ensures Settled(ToPhase(s, c, phase), r)
  {
  }

  lemma {:induction false} CalmRunStaysSettled(allowed: set<Id>, s: State, es: seq<Event>, r: Id)
    requires Inv(s) && Settled(s, r) && CalmRun(allowed, s, es, r)
    ensures Settled(Run(allowed, s, es), r) && Inv(Run(allowed, s, es))
    decreases |es|
  {
    hide Inv, Settled, Step, Calm;
    if |es| == 0 {
    } else {
      StepStaysSettledIff(allowed, s, es[0], r);
      StepKeepsInv(allowed, s, es[0]);
      CalmRunStaysSettled(allowed, Step(allowed, s, es[0]), es[1..], r);
    }
  }

  // ---- The relay as a link -----------------------------------------------

  /** The frames of one sender. */
  function FromSender(fs: seq<Frame>, from: Id): seq<Frame> {
    if |fs| == 0 then []
    else FromSender(fs[..|fs| - 1], from) + if fs[|fs| - 1].from == from then [fs[|fs| - 1]] else []
  }

  lemma {:induction false} FromSenderConcat(a: seq<Frame>, b: seq<Frame>, from: Id)
    ensures FromSender(a + b, from) == FromSender(a, from) + FromSender(b, from)
    decreases |b|
  {
    if |b| == 0 {
      assert a + b == a;
    } else {
      FromSenderConcat(a, b[..|b| - 1], from);
      assert (a + b)[..|a + b| - 1] == a + b[..|b| - 1];
    }
  }

  /** In a calm run the relay is an in-order lossless link from every sender to r: what was accepted from the
      sender is what was written to r's successive connections, then what is still on its way, in order; and
      each frame carries the certificate identity of the connection it came in on. */
  lemma RelayIsAnInOrderLink(allowed: set<Id>, es: seq<Event>, r: Id, from: Id)
    requires CalmRun(allowed, INIT, es, r)
    ensures var s := Run(allowed, INIT, es);
            && Book(s, r).accepted == Frames(Book(s, r).written) + Held(s.waiting, r) + Queue(s, r)
            && FromSender(Book(s, r).accepted, from)
               == FromSender(Frames(Book(s, r).written), from) + FromSender(Held(s.waiting, r) + Queue(s, r), from)
            && (forall f | f in Book(s, r).accepted ::
                  f.to == r && f.via in s.handlers && s.handlers[f.via].cert == f.from)
  {
    hide Run, CalmRun, Inv, Settled, OneHolder, FromSender;
    StartIsSettled(r);
    CalmRunStaysSettled(allowed, INIT, es, r);
    InOrderBySender(Run(allowed, INIT, es), r, from);
  }

  lemma StartIsSettled(r: Id)
    ensures Inv(INIT) && Settled(INIT, r)
  {
  }

  lemma InOrderBySender(s: State, r: Id, from: Id)
    requires Inv(s) && Settled(s, r)
    ensures Book(s, r).accepted == Frames(Book(s, r).written) + Held(s.waiting, r) + Queue(s, r)
    ensures FromSender(Book(s, r).accepted, from)
            == FromSender(Frames(Book(s, r).written), from) + FromSender(Held(s.waiting, r) + Queue(s, r), from)
    ensures forall f | f in Book(s, r).accepted ::
              f.to == r && f.via in s.handlers && s.handlers[f.via].cert == f.from
  {
    hide RegistryOk, WaitingOk, QueuesOk, ClosedOk, Held, Frames, FromSender, OneHolder;
    var w, h, q := Frames(Book(s, r).written), Held(s.waiting, r), Queue(s, r);
    assert w + h + q == w + (h + q);
    FromSenderConcat(w, h + q, from);
  }
}
