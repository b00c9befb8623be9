/** Relay runs that are not calm: a message overtakes an older one that waited in the offline queue. */
module RelayExample {
  import opened Encoding
  import opened Relay
  import opened RelayLedger
  import opened Wrappers

  const ALLOWED: set<Id> := {[1], [2]}
  const TO_TWO := Payload(true, Some([1]), Some([2]))
  const X := Frame(0, [1], [2], [0x78, 0x0A])
  const Y := Frame(0, [1], [2], [0x79, 0x0A])

  /** Device 1 connects and sends x; device 2 connects, and its registration is suspended at its status drain. */
  const START: seq<Event> :=
    [Connect(0, [1]), Register(0, Named([1])), Resume(0), Forward(0, TO_TWO, [0x78]),
     Connect(1, [2]), Register(1, Named([2]))]

  /** Now y is sent, and the registration resumes. */
  const OVERTAKE: seq<Event> := [Forward(0, TO_TWO, [0x79]), Resume(1)]

  /** Or device 2 registers once more and that connection ends; y is sent and queued; a third connection of
      device 2 registers and resumes; the first registration resumes. */
  const OVERTAKE_LATER: seq<Event> :=
    [Connect(2, [2]), Register(2, Named([2])), Finish(2), Forward(0, TO_TWO, [0x79]),
     Connect(3, [2]), Register(3, Named([2])), Resume(3), Resume(1)]

  // ---- Running a list of events ------------------------------------------

  lemma {:induction false} RunAppend(allowed: set<Id>, s: State, es: seq<Event>, fs: seq<Event>)
    ensures Run(allowed, s, es + fs) == Run(allowed, Run(allowed, s, es), fs)
    decreases |es|
  {
    hide Step;
    if |es| == 0 {
      assert es + fs == fs;
    } else {
      RunAppend(allowed, Step(allowed, s, es[0]), es[1..], fs);
      assert (es + fs)[1..] == es[1..] + fs;
    }
  }

  lemma RunOfTwo(allowed: set<Id>, s: State, e: Event, f: Event)
    ensures Run(allowed, s, [e, f]) == Step(allowed, Step(allowed, s, e), f)
  {
    hide Step;
    var t := Step(allowed, s, e);
    assert Run(allowed, s, [e, f]) == Run(allowed, t, [f]) by { assert [e, f][1..] == [f]; }
    assert Run(allowed, t, [f]) == Run(allowed, Step(allowed, t, f), []) by { assert [f][1..] == []; }
  }

  lemma RunOfFour(allowed: set<Id>, s: State, e: Event, f: Event, g: Event, h: Event)
    ensures Run(allowed, s, [e, f, g, h])
            == Step(allowed, Step(allowed, Step(allowed, Step(allowed, s, e), f), g), h)
  {
    hide Step, Run;
    RunOfTwo(allowed, s, e, f);
    RunOfTwo(allowed, Step(allowed, Step(allowed, s, e), f), g, h);
    RunAppend(allowed, s, [e, f], [g, h]);
    assert [e, f] + [g, h] == [e, f, g, h];
  }

  // ---- The common start --------------------------------------------------

  const SENDER: map<Id, Conn> := map[[1] := 0]

  const SENDER_READY := State(SENDER, map[], map[0 := Handler([1], Serving)], {}, [], map[[1] := NO_LEDGER])

  const X_BOOK := Ledger([X], [], [], [], [X])

  const X_QUEUED :=
    State(SENDER, map[[2] := [X]], map[0 := Handler([1], Serving)], {}, [], map[[1] := NO_LEDGER, [2] := X_BOOK])

  const X_HELD :=
    State(map[[1] := 0, [2] := 1], map[], map[0 := Handler([1], Serving), 1 := Handler([2], Registering)], {},
          [Waiting(1, [2], [X])], map[[1] := NO_LEDGER, [2] := X_BOOK])

  lemma SenderGetsReady()
    ensures Step(ALLOWED, Step(ALLOWED, Step(ALLOWED, INIT, START[0]), START[1]), START[2]) == SENDER_READY
  {
    var s1 := StepConnect(INIT, 0, [1]);
    var s2 := StepRegister(ALLOWED, s1, 0, Named([1]));
    assert s1.handlers == map[0 := Handler([1], New)];
    assert s2.waiting == [Waiting(0, [1], [])];
    assert s2 == State(SENDER, map[], map[0 := Handler([1], Registering)], {}, [Waiting(0, [1], [])], map[]);
    assert Without(s2.waiting, 0) == [];
    assert Writes(0, []) == [];
    assert StepResume(s2, 0) == SENDER_READY;
  }

  lemma XIsQueued()
    ensures Step(ALLOWED, SENDER_READY, START[3]) == X_QUEUED
  {
    assert Framed([0x78]) == [0x78, 0x0A];
    assert Recipient(ALLOWED, [1], TO_TWO, [0x78]) == Some([2]);
    assert Append([], X) == [X] && NO_LEDGER.accepted + [X] == [X];
    var s4 := StepForward(ALLOWED, SENDER_READY, 0, TO_TWO, [0x78]);
    assert Book(s4, [2]) == X_BOOK;
    assert s4.ledgers == X_QUEUED.ledgers;
    assert s4.offline == X_QUEUED.offline;
  }

  lemma XIsPopped()
    ensures Step(ALLOWED, Step(ALLOWED, X_QUEUED, START[4]), START[5]) == X_HELD
  {
    var s5 := StepConnect(X_QUEUED, 1, [2]);
    assert s5.handlers == map[0 := Handler([1], Serving), 1 := Handler([2], New)];
    var s6 := StepRegister(ALLOWED, s5, 1, Named([2]));
    assert s6.clients == X_HELD.clients && s6.offline == X_HELD.offline && s6.handlers == X_HELD.handlers;
  }

  lemma XIsHeld()
    ensures Run(ALLOWED, INIT, START) == X_HELD
  {
    hide Step, Run;
    RunOfFour(ALLOWED, INIT, START[0], START[1], START[2], START[3]);
    SenderGetsReady();
    XIsQueued();
    RunOfTwo(ALLOWED, X_QUEUED, START[4], START[5]);
    XIsPopped();
    RunAppend(ALLOWED, INIT, [START[0], START[1], START[2], START[3]], [START[4], START[5]]);
    assert START == [START[0], START[1], START[2], START[3]] + [START[4], START[5]];
  }

  // ---- Overtaking at once ------------------------------------------------

  const Y_OVERTAKES := Ledger([X, Y], [Write(1, Y), Write(1, X)], [], [], [X])

  lemma YIsWrittenFirst()
    ensures Book(Step(ALLOWED, Step(ALLOWED, X_HELD, OVERTAKE[0]), OVERTAKE[1]), [2]) == Y_OVERTAKES
  {
    assert Framed([0x79]) == [0x79, 0x0A];
    assert Recipient(ALLOWED, [1], TO_TWO, [0x79]) == Some([2]);
    var s7 := StepForward(ALLOWED, X_HELD, 0, TO_TWO, [0x79]);
    assert Book(s7, [2]) == Ledger([X, Y], [Write(1, Y)], [], [], [X]);
    assert Writes(1, [X]) == [Write(1, X)] by { assert [X][..0] == []; }
    assert Without(s7.waiting, 0) == [];
    assert Book(StepResume(s7, 1), [2]) == Y_OVERTAKES;
  }

  /** What was accepted as x, y is written as y, x. */
  lemma ForwardDuringRegistrationOvertakes()
    ensures Book(Run(ALLOWED, INIT, START + OVERTAKE), [2]).accepted == [X, Y]
    ensures Frames(Book(Run(ALLOWED, INIT, START + OVERTAKE), [2]).written) == [Y, X]
    ensures X != Y
  {
    hide Step, Run;
    RunAppend(ALLOWED, INIT, START, OVERTAKE);
    XIsHeld();
    RunOfTwo(ALLOWED, X_HELD, OVERTAKE[0], OVERTAKE[1]);
    YIsWrittenFirst();
    FramesOfTwo(Write(1, Y), Write(1, X));
    assert X.line[0] != Y.line[0];
  }

  lemma FramesOfTwo(u: Write, v: Write)
    ensures Frames([u, v]) == [u.frame, v.frame]
  {
    FramesAppend([u], [v]);
    FramesOfOne(u.conn, u.frame);
    FramesOfOne(v.conn, v.frame);
  }

  // ---- Overtaking later --------------------------------------------------

  const X_STILL_HELD :=
    State(SENDER, map[],
          map[0 := Handler([1], Serving), 1 := Handler([2], Registering), 2 := Handler([2], Ended)], {1, 2},
          [Waiting(1, [2], [X])], map[[1] := NO_LEDGER, [2] := Ledger([X], [], [], [], [])])

  const BOTH_ACCEPTED := Ledger([X, Y], [], [], [], [Y])

  const Y_QUEUED :=
    X_STILL_HELD.(offline := map[[2] := [Y]], ledgers := map[[1] := NO_LEDGER, [2] := BOTH_ACCEPTED])

  const TWICE :=
    State(map[[1] := 0, [2] := 2], map[],
          map[0 := Handler([1], Serving), 1 := Handler([2], Registering), 2 := Handler([2], Registering)], {1},
          [Waiting(1, [2], [X]), Waiting(2, [2], [])], X_HELD.ledgers)

  lemma DeviceTwoRegistersAgain()
    ensures Step(ALLOWED, Step(ALLOWED, X_HELD, OVERTAKE_LATER[0]), OVERTAKE_LATER[1]) == TWICE
  {
    var s1 := StepConnect(X_HELD, 2, [2]);
    assert s1.handlers == X_HELD.handlers[2 := Handler([2], New)];
    var s2 := StepRegister(ALLOWED, s1, 2, Named([2]));
    assert s2.clients == TWICE.clients && s2.offline == TWICE.offline && s2.handlers == TWICE.handlers;
    assert s2.closed == TWICE.closed;
  }

  lemma SecondRegistrationEnds()
    ensures Step(ALLOWED, TWICE, OVERTAKE_LATER[2]) == X_STILL_HELD
  {
    assert TWICE.waiting[1..] == [Waiting(2, [2], [])];
    assert FindWaiting(TWICE.waiting, 2) == 1;
    assert Without(TWICE.waiting, 1) == [Waiting(1, [2], [X])];
    var s3 := DropWaiting(TWICE, 2);
    assert Book(s3, [2]) == X_BOOK;
    assert s3 == TWICE.(waiting := [Waiting(1, [2], [X])]) by { assert s3.ledgers == TWICE.ledgers; }
    UnregistrationClearsSince(s3);
  }

  lemma UnregistrationClearsSince(s: State)
    requires s == TWICE.(waiting := [Waiting(1, [2], [X])])
    ensures Unregister(s, 2, [2]) == s.(clients := SENDER, ledgers := X_STILL_HELD.ledgers)
  {
    assert Unregister(s, 2, [2]).clients == SENDER;
    assert Unregister(s, 2, [2]).ledgers == X_STILL_HELD.ledgers;
  }

  lemma YIsQueuedBehind()
    ensures Step(ALLOWED, X_STILL_HELD, OVERTAKE_LATER[3]) == Y_QUEUED
  {
    assert Framed([0x79]) == [0x79, 0x0A];
    assert Recipient(ALLOWED, [1], TO_TWO, [0x79]) == Some([2]);
    assert Append([], Y) == [Y];
    var t := StepForward(ALLOWED, X_STILL_HELD, 0, TO_TWO, [0x79]);
    assert Book(t, [2]) == BOTH_ACCEPTED;
    assert t.ledgers == Y_QUEUED.ledgers;
  }

  const BOTH_HELD := [Waiting(1, [2], [X]), Waiting(3, [2], [Y])]

  lemma BothAreHeld()
    ensures var s := StepRegister(ALLOWED, StepConnect(Y_QUEUED, 3, [2]), 3, Named([2]));
            && s.waiting == BOTH_HELD && s.ledgers == Y_QUEUED.ledgers
            && InPhase(s, 3, Registering) && InPhase(s, 1, Registering)
  {
    var s5 := StepConnect(Y_QUEUED, 3, [2]);
    assert s5.handlers == Y_QUEUED.handlers[3 := Handler([2], New)];
  }

  lemma YIsWrittenBeforeX()
    ensures var s := Step(ALLOWED, Step(ALLOWED, Y_QUEUED, OVERTAKE_LATER[4]), OVERTAKE_LATER[5]);
            Book(Step(ALLOWED, Step(ALLOWED, s, OVERTAKE_LATER[6]), OVERTAKE_LATER[7]), [2])
            == BOTH_ACCEPTED.(written := [Write(3, Y), Write(1, X)])
  {
    hide StepConnect, StepRegister;
    var s6 := StepRegister(ALLOWED, StepConnect(Y_QUEUED, 3, [2]), 3, Named([2]));
    BothAreHeld();
    assert BOTH_HELD[1..] == [Waiting(3, [2], [Y])];
    assert FindWaiting(BOTH_HELD, 3) == 1;
    assert Without(BOTH_HELD, 1) == [Waiting(1, [2], [X])];
    assert Writes(3, [Y]) == [Write(3, Y)] by { assert [Y][..0] == []; }
    assert Writes(1, [X]) == [Write(1, X)] by { assert [X][..0] == []; }
    var s7 := StepResume(s6, 3);
    assert Book(s7, [2]) == BOTH_ACCEPTED.(written := [Write(3, Y)]);
    assert s7.waiting == [Waiting(1, [2], [X])];
    assert InPhase(s7, 1, Registering);
  }

  /**
   * When y is accepted it overtakes nothing yet: what is written, held and queued is still in order. But its
   * recipient is unregistered while an earlier registration holds x, and what is written in the end is y, x.
   */
  lemma QueueBehindRegistrationOvertakes()
    ensures InOrder(Y_QUEUED, [2]) && !Passes(X_STILL_HELD, Y)
    ensures Book(Run(ALLOWED, INIT, START + OVERTAKE_LATER), [2]).accepted == [X, Y]
    ensures Frames(Book(Run(ALLOWED, INIT, START + OVERTAKE_LATER), [2]).written) == [Y, X]
    ensures Book(Run(ALLOWED, INIT, START + OVERTAKE_LATER), [2]).evicted == []
    ensures Book(Run(ALLOWED, INIT, START + OVERTAKE_LATER), [2]).lost == []
  {
    hide Step, Run;
    assert Held([Waiting(1, [2], [X])], [2]) == [X];
    var es := OVERTAKE_LATER;
    XIsHeld();
    RunOfFour(ALLOWED, X_HELD, es[0], es[1], es[2], es[3]);
    DeviceTwoRegistersAgain();
    SecondRegistrationEnds();
    YIsQueuedBehind();
    RunOfFour(ALLOWED, Y_QUEUED, es[4], es[5], es[6], es[7]);
    YIsWrittenBeforeX();
    RunAppend(ALLOWED, X_HELD, [es[0], es[1], es[2], es[3]], [es[4], es[5], es[6], es[7]]);
    assert es == [es[0], es[1], es[2], es[3]] + [es[4], es[5], es[6], es[7]];
    RunAppend(ALLOWED, INIT, START, es);
    FramesOfTwo(Write(3, Y), Write(1, X));
  }
}
