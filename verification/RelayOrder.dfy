/** When the link to a recipient, in order at the moment, can still be brought out of order by its registrations. */
module RelayOrder {
  import opened Encoding
  import opened Relay
  import opened RelayLedger

  /** New connections, registrations and resumptions: nothing is forwarded and no handler ends. */
  predicate IsRegistration(e: Event) {
    e.Connect? || e.Register? || e.Resume?
  }

  predicate Registrations(es: seq<Event>) {
    forall e | e in es :: IsRegistration(e)
  }

  predicate Commute(a: seq<Frame>, b: seq<Frame>) {
    a + b == b + a
  }

  /** The frames that registrations of r hold, and those queued for it, could be written in any order of these blocks
      with the same result. */
  ghost predicate Interchangeable(s: State, r: Id) {
    && (forall i, j | 0 <= i < j < |s.waiting| && s.waiting[i].id == r && s.waiting[j].id == r ::
          Commute(s.waiting[i].queued, s.waiting[j].queued))
    && (forall i | 0 <= i < |s.waiting| && s.waiting[i].id == r :: Commute(s.waiting[i].queued, Queue(s, r)))
  }

  // ---- Sequence facts ----------------------------------------------------

  lemma CommuteIsSymmetric(a: seq<Frame>, b: seq<Frame>)
    ensures Commute(a, b) <==> Commute(b, a)
  {
  }

  lemma CommutesWithBoth(q: seq<Frame>, a: seq<Frame>, b: seq<Frame>)
    requires Commute(q, a) && Commute(q, b)
    ensures Commute(q, a + b)
  {
    assert q + (a + b) == (q + a) + b == (a + q) + b == a + (q + b) == a + (b + q) == (a + b) + q;
  }

  lemma {:induction false} CommutesWithHeld(ws: seq<Waiting>, r: Id, q: seq<Frame>)
    requires forall i | 0 <= i < |ws| && ws[i].id == r :: Commute(q, ws[i].queued)
    ensures Commute(q, Held(ws, r))
  {
    if |ws| == 0 {
      assert q + [] == [] + q;
    } else {
      hide Commute;
      CommutesWithHeld(ws[1..], r, q);
      assert Commute(q, if ws[0].id == r then ws[0].queued else []) by { CommutesWithNothing(q); }
      CommutesWithBoth(q, if ws[0].id == r then ws[0].queued else [], Held(ws[1..], r));
    }
  }

  lemma CommutesWithNothing(q: seq<Frame>)
    ensures Commute(q, []) && Commute([], q)
  {
    assert q + [] == q == [] + q;
  }

  lemma {:induction false} NoneHeld(ws: seq<Waiting>, r: Id)
    requires forall i | 0 <= i < |ws| :: ws[i].id != r
    ensures Held(ws, r) == []
  {
    if |ws| == 0 {
    } else {
      NoneHeld(ws[1..], r);
    }
  }

  lemma OneHeld(ws: seq<Waiting>, i: nat, r: Id)
    requires i < |ws| && ws[i].id == r && forall m | 0 <= m < |ws| && m != i :: ws[m].id != r
    ensures Held(ws, r) == ws[i].queued
  {
    hide Held;
    HeldSplit(ws, i, r);
    NoneHeld(ws[..i], r);
    NoneHeld(ws[i + 1..], r);
  }

  lemma FindsWaiting(ws: seq<Waiting>, k: nat)
    requires k < |ws| && forall i, j | 0 <= i < j < |ws| :: ws[i].conn != ws[j].conn
    ensures FindWaiting(ws, ws[k].conn) == k
  {
  }

  /** Moving a block to the front changes nothing exactly if it commutes with what was before it. */
  lemma MovesToFront(w: seq<Frame>, before: seq<Frame>, q: seq<Frame>, rest: seq<Frame>)
    ensures (w + q) + (before + rest) == w + (before + (q + rest)) <==> Commute(q, before)
  {
    assert (w + q) + (before + rest) == w + ((q + before) + rest);
    assert w + (before + (q + rest)) == w + ((before + q) + rest);
    PrefixCancels(w, (q + before) + rest, (before + q) + rest);
    if (q + before) + rest == (before + q) + rest {
      assert q + before == ((q + before) + rest)[..|q + before|];
      assert before + q == ((before + q) + rest)[..|q + before|];
    }
  }

  // ---- One resumption ----------------------------------------------------

  lemma ResumeEffect(s: State, k: nat)
    requires Inv(s) && k < |s.waiting|
    ensures var t, w := StepResume(s, s.waiting[k].conn), s.waiting[k];
            && t.waiting == Without(s.waiting, k)
            && t.offline == s.offline
            && Book(t, w.id).accepted == Book(s, w.id).accepted
            && Book(t, w.id).written == Book(s, w.id).written + Writes(w.conn, w.queued)
            && forall r | r != w.id :: Book(t, r) == Book(s, r)
  {
    FindsWaiting(s.waiting, k);
    hide Writes, QueuesOk, RegistryOk, OriginsOk, ClosedOk;
  }

  /** A resumption keeps the order if and only if its frames can move before those of earlier registrations. */
  lemma ResumeKeepsOrderIff(s: State, k: nat, r: Id)
    requires Inv(s) && InOrder(s, r) && k < |s.waiting| && s.waiting[k].id == r
    ensures InOrder(StepResume(s, s.waiting[k].conn), r) <==> Commute(s.waiting[k].queued, Held(s.waiting[..k], r))
  {
    hide Inv, Held, Frames, Writes, StepResume, Commute;
    var t, w, ws := StepResume(s, s.waiting[k].conn), s.waiting[k], s.waiting;
    ResumeEffect(s, k);
    HeldSplit(ws, k, r);
    FramesAppend(Book(s, r).written, Writes(w.conn, w.queued));
    FramesOfWrites(w.conn, w.queued);
    var out, before, later, queue := Frames(Book(s, r).written), Held(ws[..k], r), Held(ws[k + 1..], r), Queue(s, r);
    MovesToFront(out, before, w.queued, later + queue);
    assert Book(s, r).accepted == out + (before + (w.queued + (later + queue)));
    assert Frames(Book(t, r).written) + Held(t.waiting, r) + Queue(t, r)
        == (out + w.queued) + (before + (later + queue));
  }

  // ---- Interchangeable blocks stay so -------------------------------------

  ghost predicate Safe(s: State, r: Id) {
    InOrder(s, r) && Interchangeable(s, r)
  }

  lemma ResumeStaysSafe(s: State, c: Conn, r: Id)
    requires Inv(s) && Safe(s, r)
    ensures Safe(StepResume(s, c), r)
  {
    hide Inv, Held, Frames, Writes, Commute, InOrder;
    var k := FindWaiting(s.waiting, c);
    if StepResume(s, c) != s {
      var ws, t := s.waiting, StepResume(s, c);
      assert k < |ws|;
      ResumeEffect(s, k);
      hide StepResume;
      if ws[k].id == r {
        forall i | 0 <= i < k && ws[i].id == r ensures Commute(ws[k].queued, ws[i].queued) {
          CommuteIsSymmetric(ws[i].queued, ws[k].queued);
        }
        CommutesWithHeld(ws[..k], r, ws[k].queued);
        ResumeKeepsOrderIff(s, k, r);
      } else {
        HeldSplit(ws, k, r);
        SameLinkInOrder(s, t, r);
      }
      FewerInterchangeable(s, t, k, r);
    }
  }

  lemma SameLinkInOrder(s: State, t: State, r: Id)
    requires InOrder(s, r) && Book(t, r).accepted == Book(s, r).accepted && Book(t, r).written == Book(s, r).written
    requires Held(t.waiting, r) + Queue(t, r) == Held(s.waiting, r) + Queue(s, r)
    ensures InOrder(t, r)
  {
    hide Held, Frames;
    var out := Frames(Book(s, r).written);
    assert out + Held(t.waiting, r) + Queue(t, r) == out + (Held(t.waiting, r) + Queue(t, r));
    assert out + Held(s.waiting, r) + Queue(s, r) == out + (Held(s.waiting, r) + Queue(s, r));
  }

  lemma FewerInterchangeable(s: State, t: State, k: nat, r: Id)
    requires Interchangeable(s, r) && k < |s.waiting| && t.waiting == Without(s.waiting, k) && t.offline == s.offline
    ensures Interchangeable(t, r)
  {
    hide Commute, Queue, Without;
    assert Queue(t, r) == Queue(s, r) by { SameQueue(s, t, r); }
    forall i | 0 <= i < |t.waiting|
      ensures var n := if i < k then i else i + 1; n < |s.waiting| && t.waiting[i] == s.waiting[n]
    {
      WithoutAt(s.waiting, k, i);
    }
    forall i, j | 0 <= i < j < |t.waiting| && t.waiting[i].id == r && t.waiting[j].id == r
      ensures Commute(t.waiting[i].queued, t.waiting[j].queued)
    {
      var m, n := if i < k then i else i + 1, if j < k then j else j + 1;
      assert t.waiting[i] == s.waiting[m] && t.waiting[j] == s.waiting[n];
    }
  }

  lemma SameQueue(s: State, t: State, r: Id)
    requires t.offline == s.offline
    ensures Queue(t, r) == Queue(s, r)
  {
  }

  lemma WithoutAt(ws: seq<Waiting>, k: nat, i: nat)
    requires k < |ws| && i < |Without(ws, k)|
    ensures var n := if i < k then i else i + 1; n < |ws| && Without(ws, k)[i] == ws[n]
  {
  }

  lemma RegisterKeepsOrder(allowed: set<Id>, s: State, c: Conn, claimed: Claim, r: Id)
    requires InOrder(s, r)
    ensures InOrder(StepRegister(allowed, s, c, claimed), r)
  {
    RegisterEffect(allowed, s, c, claimed, r);
    hide Held, InOrder, StepRegister, Queue, Book;
    var t := StepRegister(allowed, s, c, claimed);
    if t.waiting != s.waiting {
      var w :| t.waiting == s.waiting + [w] && if w.id == r then w.queued == Queue(s, r) && Queue(t, r) == []
                                               else Queue(t, r) == Queue(s, r);
      HeldAppend(s.waiting, w, r);
      assert Held(s.waiting, r) + [] == Held(s.waiting, r);
      assert (Held(s.waiting, r) + Queue(s, r)) + [] == Held(s.waiting, r) + Queue(s, r);
    }
    SameLinkInOrder(s, t, r);
  }

  lemma MoreInterchangeable(s: State, t: State, r: Id, w: Waiting)
    requires Interchangeable(s, r) && t.waiting == s.waiting + [w]
    requires if w.id == r then w.queued == Queue(s, r) && Queue(t, r) == [] else Queue(t, r) == Queue(s, r)
    ensures Interchangeable(t, r)
  {
    hide Commute, Queue;
    forall q: seq<Frame> ensures Commute(q, []) {
      CommutesWithNothing(q);
    }
  }

  lemma RegisterStaysSafe(allowed: set<Id>, s: State, c: Conn, claimed: Claim, r: Id)
    requires Safe(s, r)
    ensures Safe(StepRegister(allowed, s, c, claimed), r)
  {
    RegisterKeepsOrder(allowed, s, c, claimed, r);
    RegisterEffect(allowed, s, c, claimed, r);
    hide InOrder, StepRegister, Queue, Commute;
    var t := StepRegister(allowed, s, c, claimed);
    if t.waiting != s.waiting {
      var w :| t.waiting == s.waiting + [w] && if w.id == r then w.queued == Queue(s, r) && Queue(t, r) == []
                                               else Queue(t, r) == Queue(s, r);
      MoreInterchangeable(s, t, r, w);
    }
  }

  lemma ConnectStaysSafe(s: State, c: Conn, cert: Id, r: Id)
    requires Safe(s, r)
    ensures Safe(StepConnect(s, c, cert), r)
  {
    hide Held, Frames, Commute;
  }

  lemma StepStaysSafe(allowed: set<Id>, s: State, e: Event, r: Id)
    requires Inv(s) && Safe(s, r) && IsRegistration(e)
    ensures Safe(Step(allowed, s, e), r)
  {
    hide Inv, Safe, StepConnect, StepRegister, StepResume;
    match e
    case Connect(c, cert) => ConnectStaysSafe(s, c, cert, r);
    case Register(c, claimed) => RegisterStaysSafe(allowed, s, c, claimed, r);
    case Resume(c) => ResumeStaysSafe(s, c, r);
  }

  lemma {:induction false} RunStaysSafe(allowed: set<Id>, s: State, es: seq<Event>, r: Id)
    requires Inv(s) && Safe(s, r) && Registrations(es)
    ensures Safe(Run(allowed, s, es), r)
    decreases |es|
  {
    hide Inv, Safe, Step;
    if |es| == 0 {
    } else {
      assert es[0] in es;
      StepKeepsInv(allowed, s, es[0]);
      StepStaysSafe(allowed, s, es[0], r);
      RunStaysSafe(allowed, Step(allowed, s, es[0]), es[1..], r);
    }
  }

  // ---- Other blocks can be exchanged --------------------------------------

  lemma RunOfOne(allowed: set<Id>, s: State, e: Event)
    ensures Run(allowed, s, [e]) == Step(allowed, s, e)
  {
    hide Step;
    assert [e][1..] == [];
    assert Run(allowed, Step(allowed, s, e), []) == Step(allowed, s, e);
  }

  /** Two registrations hold blocks that do not commute: resuming some registrations of r breaks the order. */
  lemma {:induction false} HoldersBreakOrder(allowed: set<Id>, s: State, r: Id, i: nat, j: nat)
    returns (es: seq<Event>)
    requires Inv(s) && InOrder(s, r) && i < j < |s.waiting| && s.waiting[i].id == r && s.waiting[j].id == r
    requires !Commute(s.waiting[i].queued, s.waiting[j].queued)
    ensures Registrations(es) && !InOrder(Run(allowed, s, es), r)
    decreases |s.waiting|
  {
    hide Inv, InOrder, Held, Commute, StepResume, Run;
    var ws := s.waiting;
    if m :| 0 <= m < j && m != i && ws[m].id == r {
      es := [Resume(ws[m].conn)];
      RunOfOne(allowed, s, es[0]);
      var t := StepResume(s, ws[m].conn);
      if InOrder(t, r) {
        ResumeEffect(s, m);
        ResumeKeepsInv(s, ws[m].conn);
        var rest := HoldersBreakOrder(allowed, t, r, if m < i then i - 1 else i, j - 1);
        OneMoreEvent(allowed, s, es[0], rest);
        es := es + rest;
      }
    } else {
      OneHeld(ws[..j], i, r);
      CommuteIsSymmetric(ws[i].queued, ws[j].queued);
      ResumeKeepsOrderIff(s, j, r);
      es := [Resume(ws[j].conn)];
      RunOfOne(allowed, s, es[0]);
    }
  }

  lemma OneMoreEvent(allowed: set<Id>, s: State, e: Event, es: seq<Event>)
    ensures Run(allowed, s, [e] + es) == Run(allowed, Step(allowed, s, e), es)
  {
    hide Step;
    assert ([e] + es)[1..] == es;
  }

  lemma {:induction false} FreshConnection(cs: set<Conn>) returns (c: Conn)
    ensures forall d | d in cs :: d < c
    decreases |cs|
  {
    if cs == {} {
      c := 0;
    } else {
      var d :| d in cs;
      c := FreshConnection(cs - {d});
      c := if c <= d then d + 1 else c;
      assert forall e | e in cs :: e == d || e in cs - {d};
    }
  }

  lemma QueueIsPopped(allowed: set<Id>, s: State, r: Id, c: Conn)
    requires Inv(s) && r in allowed && r != [] && c !in s.handlers
    ensures var t := StepRegister(allowed, StepConnect(s, c, r), c, Named(r));
            t.waiting == s.waiting + [Waiting(c, r, Queue(s, r))]
  {
    hide QueuesOk, OriginsOk, ClosedOk;
  }

  lemma ConnectAndRegister(allowed: set<Id>, s: State, r: Id, c: Conn)
    requires Inv(s) && InOrder(s, r)
    ensures var t := StepRegister(allowed, StepConnect(s, c, r), c, Named(r)); Inv(t) && InOrder(t, r)
  {
    hide Inv, Held, Frames;
    ConnectKeepsInv(s, c, r);
    RegisterKeepsInv(allowed, StepConnect(s, c, r), c, Named(r));
    RegisterKeepsOrder(allowed, StepConnect(s, c, r), c, Named(r), r);
  }

  /** A registration holds a block that does not commute with the queue: another connection of r pops the queue. */
  lemma QueueBreaksOrder(allowed: set<Id>, s: State, r: Id, i: nat) returns (es: seq<Event>)
    requires Inv(s) && InOrder(s, r) && r in allowed && r != []
    requires i < |s.waiting| && s.waiting[i].id == r && !Commute(s.waiting[i].queued, Queue(s, r))
    ensures Registrations(es) && !InOrder(Run(allowed, s, es), r)
  {
    hide Inv, InOrder, Commute, StepRegister, StepConnect, Run;
    var c := FreshConnection(s.handlers.Keys);
    QueueIsPopped(allowed, s, r, c);
    ConnectAndRegister(allowed, s, r, c);
    var t := StepRegister(allowed, StepConnect(s, c, r), c, Named(r));
    var rest := HoldersBreakOrder(allowed, t, r, i, |s.waiting|);
    OneMoreEvent(allowed, StepConnect(s, c, r), Register(c, Named(r)), rest);
    OneMoreEvent(allowed, s, Connect(c, r), [Register(c, Named(r))] + rest);
    es := [Connect(c, r)] + ([Register(c, Named(r))] + rest);
  }

  // ---- The exact condition -----------------------------------------------

  /** A link in order stays in order whatever connects, registers and resumes, if and only if the blocks held and queued
      for its recipient are interchangeable. */
  lemma OrderIsSafeIff(allowed: set<Id>, s: State, r: Id)
    requires Inv(s) && InOrder(s, r) && r in allowed && r != []
    ensures (forall es | Registrations(es) :: InOrder(Run(allowed, s, es), r)) <==> Interchangeable(s, r)
  {
    hide Inv, InOrder, Commute, Run, Registrations;
    if Interchangeable(s, r) {
      forall es | Registrations(es) ensures InOrder(Run(allowed, s, es), r) {
        RunStaysSafe(allowed, s, es, r);
      }
    } else if i, j :| 0 <= i < j < |s.waiting| && s.waiting[i].id == r && s.waiting[j].id == r
                      && !Commute(s.waiting[i].queued, s.waiting[j].queued) {
      var es := HoldersBreakOrder(allowed, s, r, i, j);
    } else {
      var i :| 0 <= i < |s.waiting| && s.waiting[i].id == r && !Commute(s.waiting[i].queued, Queue(s, r));
      var es := QueueBreaksOrder(allowed, s, r, i);
    }
  }

  /** A settled link is one of them. */
  lemma SettledIsInterchangeable(s: State, r: Id)
    requires Settled(s, r)
    ensures Interchangeable(s, r)
  {
    hide Commute, Held;
    forall q: seq<Frame> ensures Commute(q, []) && Commute([], q) {
      CommutesWithNothing(q);
    }
    forall i, j | 0 <= i < j < |s.waiting| && s.waiting[i].id == r && s.waiting[j].id == r
      ensures s.waiting[i].queued == [] || s.waiting[j].queued == []
    {
      if s.waiting[i].queued != [] && s.waiting[j].queued != [] {
        TwoHolders(s.waiting, i, j, r);
      }
    }
  }

  /** With two holders no one of them holds everything. */
  lemma TwoHolders(ws: seq<Waiting>, i: nat, j: nat, r: Id)
    requires i < j < |ws| && ws[i].id == r && ws[j].id == r && ws[i].queued != [] && ws[j].queued != []
    ensures Held(ws, r) != ws[i].queued
  {
    hide Held;
    HeldSplit(ws, i, r);
    HeldSplit(ws[i + 1..], j - i - 1, r);
    assert ws[i + 1..][j - i - 1] == ws[j];
    assert |Held(ws, r)| >= |ws[i].queued| + |ws[j].queued|;
  }
}
