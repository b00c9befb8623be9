/**
 * One direction between two devices, over the relay: lines on their way up from the sender, frames the relay has
 * accepted, and those of them it has written and the receiver has read. As long as the relay keeps its link to the
 * receiver settled, a lane is a queue.
 */
module Lanes {
  import opened Bytes
  import opened Encoding
  import opened Protocol
  import opened Wrappers
  import Lines
  import Relay
  import RelayLedger

  /** How frames are printed and parsed, by the firmware and by the relay. */
  datatype Codec = Codec(write: Frame -> Bytes, read: Bytes -> Option<Frame>, head: Bytes -> Relay.Payload)

  /** The hellos, or the data frames, from one device to another. */
  datatype Lane = Lane(from: Id, to: Id, hellos: bool)

  /** up: lines sent and not yet read by the relay. seen: how many of the frames that the relay wrote from the sender
      to the receiver the receiver has read. */
  datatype Way = Way(up: seq<Bytes>, seen: nat)

  function Printed(codec: Codec, f: Frame): Bytes {
    codec.write(f) + [Lines.LF]
  }

  /** The frame of the lane that a line carries, if it does. */
  function Carried(codec: Codec, l: Lane, line: Bytes): seq<Frame> {
    match codec.read(Relay.Framed(line))
    case None => []
    case Some(f) => if f.Hello? == l.hellos && f.from == l.from && f.to == l.to then [f] else []
  }

  function AllCarried(codec: Codec, l: Lane, lines: seq<Bytes>): seq<Frame> {
    if |lines| == 0 then [] else Carried(codec, l, lines[0]) + AllCarried(codec, l, lines[1..])
  }

  function LinesOf(fs: seq<Relay.Frame>): seq<Bytes> {
    seq(|fs|, i requires 0 <= i < |fs| => fs[i].line)
  }

  /** What the relay has accepted from x for y. */
  function Accepted(s: Relay.State, x: Id, y: Id): seq<Bytes> {
    LinesOf(RelayLedger.FromSender(Relay.Book(s, y).accepted, x))
  }

  /** What the relay has written from x to connections of y. */
  function Written(s: Relay.State, x: Id, y: Id): seq<Bytes> {
    LinesOf(RelayLedger.FromSender(Relay.Frames(Relay.Book(s, y).written), x))
  }

  /** The relay event by which a line of the sender is read on its connection c. */
  function Reading(codec: Codec, c: Relay.Conn, line: Bytes): Relay.Event {
    Relay.Forward(c, codec.head(line), line)
  }

  predicate IsConnectionOf(s: Relay.State, c: Relay.Conn, id: Id) {
    Relay.InPhase(s, c, Relay.Serving) && s.handlers[c].cert == id
  }

  /** The event forwards a line that came in on a connection of x. */
  predicate ForwardsFor(s: Relay.State, e: Relay.Event, x: Id) {
    e.Forward? && IsConnectionOf(s, e.conn, x)
  }

  /** A line the relay accepts from x for y. */
  predicate Passable(codec: Codec, x: Id, y: Id, line: Bytes) {
    |line| <= Relay.MAX_LINE && codec.head(line) == Relay.Payload(true, Some(x), Some(y))
  }

  /** Lines between the two ends, the oldest first. */
  function OnTheWay(s: Relay.State, l: Lane, w: Way): seq<Bytes> {
    var accepted := Accepted(s, l.from, l.to);
    (if w.seen <= |accepted| then accepted[w.seen..] else []) + w.up
  }

  /** The frames of the lane between the two ends. */
  function Pending(codec: Codec, s: Relay.State, l: Lane, w: Way): seq<Frame> {
    AllCarried(codec, l, OnTheWay(s, l, w))
  }

  ghost predicate WayOk(codec: Codec, allowed: set<Id>, s: Relay.State, l: Lane, w: Way) {
    && l.to in allowed
    && Relay.Inv(s)
    && RelayLedger.Settled(s, l.to)
    && w.seen <= |Written(s, l.from, l.to)|
    && (forall line | line in w.up && Carried(codec, l, line) != [] :: Passable(codec, l.from, l.to, line))
  }

  // ---- Sequence facts ----------------------------------------------------

  lemma {:induction false} AllCarriedConcat(codec: Codec, l: Lane, a: seq<Bytes>, b: seq<Bytes>)
    ensures AllCarried(codec, l, a + b) == AllCarried(codec, l, a) + AllCarried(codec, l, b)
  {
    hide Carried;
    if |a| == 0 {
      assert a + b == b;
    } else {
      AllCarriedConcat(codec, l, a[1..], b);
      assert (a + b)[1..] == a[1..] + b;
      assert Carried(codec, l, a[0]) + (AllCarried(codec, l, a[1..]) + AllCarried(codec, l, b))
          == (Carried(codec, l, a[0]) + AllCarried(codec, l, a[1..])) + AllCarried(codec, l, b);
    }
  }

  lemma OneCarried(codec: Codec, l: Lane, line: Bytes)
    ensures AllCarried(codec, l, [line]) == Carried(codec, l, line)
  {
    hide Carried;
    assert AllCarried(codec, l, [line][1..]) == [];
  }

  lemma {:induction false} StripTwice(raw: Bytes)
    ensures Relay.StripLineEnd(Relay.StripLineEnd(raw) + [0x0A]) == Relay.StripLineEnd(raw)
  {
    var s := Relay.StripLineEnd(raw);
    StripEnds(raw);
    assert (s + [0x0A])[..|s|] == s;
  }

  lemma {:induction false} StripEnds(raw: Bytes)
    ensures Relay.StripLineEnd(Relay.StripLineEnd(raw)) == Relay.StripLineEnd(raw)
  {
    if |raw| > 0 && (raw[|raw| - 1] == 0x0D || raw[|raw| - 1] == 0x0A) {
      StripEnds(raw[..|raw| - 1]);
    } else {
      assert Relay.StripLineEnd(raw) == raw;
    }
  }

  /** The relay's line end treatment changes nothing in what a line carries. */
  lemma FramingKeepsCarried(codec: Codec, l: Lane, line: Bytes)
    ensures Carried(codec, l, Relay.Framed(line)) == Carried(codec, l, line)
  {
    StripTwice(line);
  }

  lemma {:induction false} FromSenderPrefix(a: seq<Relay.Frame>, b: seq<Relay.Frame>, from: Id)
    requires a <= b
    ensures RelayLedger.FromSender(a, from) <= RelayLedger.FromSender(b, from)
  {
    assert b == a + b[|a|..];
    RelayLedger.FromSenderConcat(a, b[|a|..], from);
  }

  lemma OneMoreCarried(codec: Codec, l: Lane, lines: seq<Bytes>, line: Bytes)
    ensures AllCarried(codec, l, lines + [line]) == AllCarried(codec, l, lines) + Carried(codec, l, line)
  {
    hide Carried, AllCarried;
    AllCarriedConcat(codec, l, lines, [line]);
    OneCarried(codec, l, line);
  }

  lemma FirstCarried(codec: Codec, l: Lane, line: Bytes, rest: seq<Bytes>)
    ensures AllCarried(codec, l, [line] + rest) == Carried(codec, l, line) + AllCarried(codec, l, rest)
  {
    hide Carried, AllCarried;
    AllCarriedConcat(codec, l, [line], rest);
    OneCarried(codec, l, line);
  }

  /** Whether a line is on its way up or has been accepted makes no difference, and one that carries nothing may
      be refused. */
  lemma UploadKeepsCarried(codec: Codec, l: Lane, before: seq<Bytes>, later: seq<Bytes>, line: Bytes,
                           rest: seq<Bytes>)
    requires later == before + [Relay.Framed(line)] || (later == before && Carried(codec, l, line) == [])
    ensures AllCarried(codec, l, later + rest) == AllCarried(codec, l, before + ([line] + rest))
  {
    hide Carried, AllCarried, Relay.Framed;
    assert before + ([line] + rest) == (before + [line]) + rest;
    AllCarriedConcat(codec, l, before + [line], rest);
    AllCarriedConcat(codec, l, later, rest);
    OneMoreCarried(codec, l, before, line);
    if later != before {
      OneMoreCarried(codec, l, before, Relay.Framed(line));
      FramingKeepsCarried(codec, l, line);
    }
  }

  // ---- The relay's part --------------------------------------------------

  /** In order, what was written is a prefix of what was accepted. */
  lemma WrittenIsPrefix(s: Relay.State, x: Id, y: Id)
    requires RelayLedger.Settled(s, y)
    ensures Written(s, x, y) <= Accepted(s, x, y)
  {
    var w, h, q := Relay.Frames(Relay.Book(s, y).written), Relay.Held(s.waiting, y), Relay.Queue(s, y);
    assert w <= w + h + q;
    FromSenderPrefix(w, Relay.Book(s, y).accepted, x);
  }

  /** No step takes back what was written. */
  lemma WrittenGrows(allowed: set<Id>, s: Relay.State, e: Relay.Event, x: Id, y: Id)
    ensures |Written(s, x, y)| <= |Written(Relay.Step(allowed, s, e), x, y)|
  {
    hide RelayLedger.FromSender, Relay.Frames, Relay.Step, Relay.Book;
    var before, later := Relay.Book(s, y).written, Relay.Book(Relay.Step(allowed, s, e), y).written;
    assert before <= later by { LedgerGrows(allowed, s, e, y); }
    assert later == before + later[|before|..];
    Relay.FramesAppend(before, later[|before|..]);
    FromSenderPrefix(Relay.Frames(before), Relay.Frames(later), x);
  }

  lemma LedgerGrows(allowed: set<Id>, s: Relay.State, e: Relay.Event, y: Id)
    ensures Relay.Book(s, y).written <= Relay.Book(Relay.Step(allowed, s, e), y).written
  {
    match e
    case Finish(c) =>
      assert Relay.Book(Relay.DropWaiting(s, c), y).written == Relay.Book(s, y).written;
      hide Relay.DropWaiting;
    case Forward(_, _, _) => hide Relay.Append, Relay.Evicted, Relay.Framed;
    case Resume(_) => hide Relay.Writes;
    case _ =>
  }

  /** Only a forward on a connection of x adds to what was accepted from x. */
  lemma OthersAddNothing(allowed: set<Id>, s: Relay.State, e: Relay.Event, x: Id, y: Id)
    requires !ForwardsFor(s, e, x)
    ensures Accepted(Relay.Step(allowed, s, e), x, y) == Accepted(s, x, y)
  {
    hide RelayLedger.FromSender;
    var a, b := Relay.Book(s, y).accepted, Relay.Book(Relay.Step(allowed, s, e), y).accepted;
    AcceptedGrows(allowed, s, e, y);
    if a != b {
      RelayLedger.FromSenderConcat(a, [b[|a|]], x);
      OneFrame(b[|a|], x);
    }
  }

  lemma AcceptedGrows(allowed: set<Id>, s: Relay.State, e: Relay.Event, y: Id)
    ensures var a, b := Relay.Book(s, y).accepted, Relay.Book(Relay.Step(allowed, s, e), y).accepted;
            b == a
            || (&& e.Forward? && Relay.InPhase(s, e.conn, Relay.Serving)
                && e.payload.from == Some(s.handlers[e.conn].cert)
                && b == a + [Relay.Frame(e.conn, e.payload.from.value, y, Relay.Framed(e.raw))])
  {
    hide Relay.StepForward, Relay.StepRegister, Relay.StepResume, Relay.StepFinish;
    match e
    case Connect(_, _) =>
    case Register(c, claimed) => RegisterAccepts(allowed, s, c, claimed, y);
    case Resume(c) => ResumeAccepts(s, c, y);
    case Forward(c, payload, raw) => ForwardAccepts(allowed, s, c, payload, raw, y);
    case Finish(c) => FinishAccepts(s, c, y);
  }

  lemma ForwardAccepts(allowed: set<Id>, s: Relay.State, c: Relay.Conn, payload: Relay.Payload, raw: Bytes, y: Id)
    ensures var a := Relay.Book(s, y).accepted;
            var b := Relay.Book(Relay.StepForward(allowed, s, c, payload, raw), y).accepted;
            b == a
            || (&& Relay.InPhase(s, c, Relay.Serving)
                && payload.from == Some(s.handlers[c].cert)
                && b == a + [Relay.Frame(c, payload.from.value, y, Relay.Framed(raw))])
  {
    hide Relay.Append, Relay.Evicted, Relay.Framed;
  }

  lemma RegisterAccepts(allowed: set<Id>, s: Relay.State, c: Relay.Conn, claimed: Relay.Claim, y: Id)
    ensures Relay.Book(Relay.StepRegister(allowed, s, c, claimed), y).accepted == Relay.Book(s, y).accepted
  {
  }

  lemma ResumeAccepts(s: Relay.State, c: Relay.Conn, y: Id)
    ensures Relay.Book(Relay.StepResume(s, c), y).accepted == Relay.Book(s, y).accepted
  {
    hide Relay.Writes;
  }

  lemma FinishAccepts(s: Relay.State, c: Relay.Conn, y: Id)
    ensures Relay.Book(Relay.StepFinish(s, c), y).accepted == Relay.Book(s, y).accepted
  {
    assert Relay.Book(Relay.DropWaiting(s, c), y).accepted == Relay.Book(s, y).accepted;
    hide Relay.DropWaiting;
  }

  lemma OneFrame(f: Relay.Frame, x: Id)
    ensures RelayLedger.FromSender([f], x) == if f.from == x then [f] else []
  {
    assert [f][..0] == [];
  }

  /** A line the relay can pass is accepted; any other line may be. */
  lemma UploadAdds(allowed: set<Id>, codec: Codec, s: Relay.State, c: Relay.Conn, line: Bytes, x: Id, y: Id)
    requires IsConnectionOf(s, c, x) && y in allowed
    ensures var t := Relay.Step(allowed, s, Reading(codec, c, line));
            && (Accepted(t, x, y) == Accepted(s, x, y) + [Relay.Framed(line)] || Accepted(t, x, y) == Accepted(s, x, y))
            && (Passable(codec, x, y, line) ==> Accepted(t, x, y) == Accepted(s, x, y) + [Relay.Framed(line)])
  {
    hide RelayLedger.FromSender, Relay.Framed;
    var e := Reading(codec, c, line);
    var a, b := Relay.Book(s, y).accepted, Relay.Book(Relay.Step(allowed, s, e), y).accepted;
    AcceptedGrows(allowed, s, e, y);
    if Passable(codec, x, y, line) {
      PassableIsAccepted(allowed, codec, s, c, line, x, y);
    }
    if a != b {
      RelayLedger.FromSenderConcat(a, [b[|a|]], x);
      OneFrame(b[|a|], x);
    }
  }

  lemma PassableIsAccepted(allowed: set<Id>, codec: Codec, s: Relay.State, c: Relay.Conn, line: Bytes, x: Id, y: Id)
    requires IsConnectionOf(s, c, x) && y in allowed && Passable(codec, x, y, line)
    ensures var t := Relay.Step(allowed, s, Reading(codec, c, line));
            |Relay.Book(t, y).accepted| == |Relay.Book(s, y).accepted| + 1
  {
    hide Relay.Append, Relay.Evicted, Relay.Framed;
  }

  // ---- A lane is a queue -------------------------------------------------

  lemma SeenWasAccepted(codec: Codec, allowed: set<Id>, s: Relay.State, l: Lane, w: Way)
    requires WayOk(codec, allowed, s, l, w)
    ensures w.seen <= |Accepted(s, l.from, l.to)|
  {
    WrittenIsPrefix(s, l.from, l.to);
    hide Relay.Inv, RelayLedger.Settled, Accepted, Written, Passable, Carried;
  }

  /** What the sender sends is behind all that is pending. */
  lemma SendingAdds(codec: Codec, allowed: set<Id>, s: Relay.State, l: Lane, w: Way, line: Bytes)
    requires WayOk(codec, allowed, s, l, w)
    requires Carried(codec, l, line) == [] || Passable(codec, l.from, l.to, line)
    ensures var t := w.(up := w.up + [line]);
            && WayOk(codec, allowed, s, l, t)
            && Pending(codec, s, l, t) == Pending(codec, s, l, w) + Carried(codec, l, line)
  {
    hide Relay.Inv, RelayLedger.Settled, Accepted, Written, Passable, Carried, AllCarried;
    var t := w.(up := w.up + [line]);
    assert OnTheWay(s, l, t) == OnTheWay(s, l, w) + [line];
    OneMoreCarried(codec, l, OnTheWay(s, l, w), line);
  }

  lemma RelayKeepsWay(codec: Codec, allowed: set<Id>, s: Relay.State, l: Lane, w: Way, e: Relay.Event)
    requires WayOk(codec, allowed, s, l, w) && RelayLedger.Calm(allowed, s, e, l.to)
    ensures WayOk(codec, allowed, Relay.Step(allowed, s, e), l, w)
  {
    hide Relay.Inv, RelayLedger.Settled, Relay.Step, RelayLedger.Calm, Written, Passable, Carried;
    Relay.StepKeepsInv(allowed, s, e);
    RelayLedger.StepStaysSettledIff(allowed, s, e, l.to);
    WrittenGrows(allowed, s, e, l.from, l.to);
  }

  /** What the relay does on other connections moves nothing on the lane. */
  lemma RelayMovesNothing(codec: Codec, allowed: set<Id>, s: Relay.State, l: Lane, w: Way, e: Relay.Event)
    requires WayOk(codec, allowed, s, l, w) && RelayLedger.Calm(allowed, s, e, l.to) && !ForwardsFor(s, e, l.from)
    ensures WayOk(codec, allowed, Relay.Step(allowed, s, e), l, w)
    ensures Pending(codec, Relay.Step(allowed, s, e), l, w) == Pending(codec, s, l, w)
  {
    hide WayOk, Relay.Step, Accepted, RelayLedger.Calm;
    RelayKeepsWay(codec, allowed, s, l, w, e);
    OthersAddNothing(allowed, s, e, l.from, l.to);
  }

  lemma OldestIsPassable(codec: Codec, allowed: set<Id>, s: Relay.State, l: Lane, w: Way)
    requires WayOk(codec, allowed, s, l, w) && |w.up| > 0
    ensures l.to in allowed && (Carried(codec, l, w.up[0]) != [] ==> Passable(codec, l.from, l.to, w.up[0]))
    ensures WayOk(codec, allowed, s, l, w.(up := w.up[1..]))
  {
    hide Relay.Inv, RelayLedger.Settled, Written, Passable, Carried;
  }

  /** Nor does reading a line of the sender: it goes from what is sent to what is accepted. */
  lemma UploadMovesNothing(codec: Codec, allowed: set<Id>, s: Relay.State, l: Lane, w: Way, c: Relay.Conn)
    requires WayOk(codec, allowed, s, l, w) && |w.up| > 0 && IsConnectionOf(s, c, l.from)
    requires RelayLedger.Calm(allowed, s, Reading(codec, c, w.up[0]), l.to)
    ensures var t, v := Relay.Step(allowed, s, Reading(codec, c, w.up[0])), w.(up := w.up[1..]);
            WayOk(codec, allowed, t, l, v) && Pending(codec, t, l, v) == Pending(codec, s, l, w)
  {
    hide WayOk, Relay.Step, Accepted, Passable, Carried, AllCarried, Relay.Framed, Reading, RelayLedger.Calm;
    var line, t := w.up[0], Relay.Step(allowed, s, Reading(codec, c, w.up[0]));
    RelayKeepsWay(codec, allowed, s, l, w, Reading(codec, c, line));
    OldestIsPassable(codec, allowed, s, l, w);
    OldestIsPassable(codec, allowed, t, l, w);
    UploadAdds(allowed, codec, s, c, line, l.from, l.to);
    SeenWasAccepted(codec, allowed, s, l, w);
    var before, later := Accepted(s, l.from, l.to), Accepted(t, l.from, l.to);
    assert w.up == [line] + w.up[1..];
    if later == before + [Relay.Framed(line)] {
      assert later[w.seen..] == before[w.seen..] + [Relay.Framed(line)];
    }
    UploadKeepsCarried(codec, l, before[w.seen..], later[w.seen..], line, w.up[1..]);
  }

  /** What the receiver reads is the oldest line of all that is on the way. */
  lemma ReadingTakesOldest(codec: Codec, allowed: set<Id>, s: Relay.State, l: Lane, w: Way)
    requires WayOk(codec, allowed, s, l, w) && w.seen < |Written(s, l.from, l.to)|
    ensures var v := w.(seen := w.seen + 1);
            && WayOk(codec, allowed, s, l, v)
            && Pending(codec, s, l, w) == Carried(codec, l, Written(s, l.from, l.to)[w.seen]) + Pending(codec, s, l, v)
  {
    var v := w.(seen := w.seen + 1);
    WrittenIsPrefix(s, l.from, l.to);
    hide Relay.Inv, RelayLedger.Settled, Accepted, Written, AllCarried, Carried, Passable;
    var line := Written(s, l.from, l.to)[w.seen];
    assert OnTheWay(s, l, w) == [line] + OnTheWay(s, l, v);
    FirstCarried(codec, l, line, OnTheWay(s, l, v));
  }

  /** Everything sent was accepted, and everything accepted was written and read. */
  predicate Drained(s: Relay.State, l: Lane, w: Way) {
    w.up == [] && w.seen == |Accepted(s, l.from, l.to)|
  }

  lemma DrainedIsEmpty(codec: Codec, s: Relay.State, l: Lane, w: Way)
    requires Drained(s, l, w)
    ensures Pending(codec, s, l, w) == []
  {
    assert OnTheWay(s, l, w) == [];
  }
}
