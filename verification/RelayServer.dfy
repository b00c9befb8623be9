/**
 * The relay's handlers as they run: each method is one stretch of server/relay_server.py between two points where
 * the handler can be suspended, and changes the module-level dictionaries in place.
 */
module RelayServer {
  import opened Bytes
  import opened Encoding
  import opened Wrappers
  import opened Relay

  class Server {
    const allowed: set<Id>
    var clients: map<Id, Conn>
    var offline: map<Id, seq<Frame>>
    var handlers: map<Conn, Handler>
    var closed: set<Conn>
    var waiting: seq<Waiting>
    ghost var ledgers: map<Id, Ledger>

    ghost function View(): State
      reads this
    {
      State(clients, offline, handlers, closed, waiting, ledgers)
    }

    constructor (allowed: set<Id>)
      ensures this.allowed == allowed && View() == INIT
    {
      this.allowed := allowed;
      clients, offline, handlers, closed, waiting, ledgers := map[], map[], map[], {}, [], map[];
    }

    method SetPhase(c: Conn, phase: Phase)
      requires c in handlers
      modifies this`handlers
      ensures View() == ToPhase(old(View()), c, phase)
    {
      handlers := handlers[c := handlers[c].(phase := phase)];
    }

    method Connect(c: Conn, cert: Id)
      modifies this
      ensures View() == StepConnect(old(View()), c, cert)
    {
      if c !in handlers {
        handlers := handlers[c := Handler(cert, New)];
      }
    }

    /** The registration checks, and register_client up to its status drain. */
    method RegisterClient(c: Conn, claimed: Claim)
      modifies this
      ensures View() == StepRegister(allowed, old(View()), c, claimed)
    {
      if c !in handlers || handlers[c].phase != New {
        return;
      }
      var id := handlers[c].cert;
      if id == [] || id !in allowed || claimed != Named(id) {
        SetPhase(c, if id != [] && id in allowed && claimed == Unhashable then Broken else Failing);
        return;
      }
      var previous: Option<Conn> := if id in clients then Some(clients[id]) else None;
      clients := clients[id := c];
      var queued := [];
      if id in offline {
        queued := offline[id];
        offline := offline - {id};
      }
      if previous.Some? && previous.value != c {
        closed := closed + {previous.value};
      }
      waiting := waiting + [Waiting(c, id, queued)];
      SetPhase(c, Registering);
      assert offline == old(offline) - {id};
      assert closed == old(closed) + Previous(old(View()), id, c);
    }

    method FindWaiting(c: Conn) returns (k: nat)
      ensures k == Relay.FindWaiting(waiting, c)
    {
      k := 0;
      while k < |waiting| && waiting[k].conn != c
        invariant k <= |waiting|
        invariant Relay.FindWaiting(waiting, c) == k + Relay.FindWaiting(waiting[k..], c)
      {
        k := k + 1;
      }
    }

    /** destination.write. */
    method Write(c: Conn, f: Frame, ghost owner: Id)
      requires owner in ledgers
      modifies this`ledgers
      ensures var book := old(ledgers)[owner];
              ledgers == old(ledgers)[owner := book.(written := book.written + [Relay.Write(c, f)])]
    {
      ledgers := ledgers[owner := ledgers[owner].(written := ledgers[owner].written + [Relay.Write(c, f)])];
    }

    /** register_client after its status drain: the popped frames are written one by one. */
    method FinishRegistration(c: Conn)
      modifies this
      ensures View() == StepResume(old(View()), c)
    {
      var k := FindWaiting(c);
      if c !in handlers || handlers[c].phase != Registering || k == |waiting| {
        return;
      }
      var w := waiting[k];
      ghost var book := Book(View(), w.id);
      waiting := waiting[..k] + waiting[k + 1..];
      ledgers := ledgers[w.id := book];
      assert book.written + Writes(c, w.queued[..0]) == book.written;
      for i := 0 to |w.queued|
        invariant w.id in ledgers && ledgers == old(ledgers)[w.id := ledgers[w.id]]
        invariant ledgers[w.id] == book.(written := book.written + Writes(c, w.queued[..i]))
        invariant clients == old(clients) && offline == old(offline) && handlers == old(handlers)
        invariant closed == old(closed)
        invariant waiting == Without(old(waiting), k)
      {
        assert w.queued[..i + 1][..i] == w.queued[..i];
        assert Writes(c, w.queued[..i + 1]) == Writes(c, w.queued[..i]) + [Relay.Write(c, w.queued[i])];
        Write(c, w.queued[i], w.id);
      }
      assert w.queued[..|w.queued|] == w.queued;
      SetPhase(c, Serving);
    }

    /** offline[recipient].append, on a queue that keeps its last 100 entries. */
    method Enqueue(r: Id, f: Frame)
      modifies this`offline
      ensures offline == old(offline)[r := Append(Queue(old(View()), r), f)]
    {
      var q := if r in offline then offline[r] else [];
      if |q| >= MAX_OFFLINE {
        q := q[|q| - MAX_OFFLINE + 1..];
      }
      offline := offline[r := q + [f]];
    }

    /** One line of the main loop: the checks in their order, then a write or an append with no suspension between. */
    method ForwardFrame(c: Conn, payload: Payload, raw: Bytes)
      modifies this
      ensures View() == StepForward(allowed, old(View()), c, payload, raw)
    {
      if c !in handlers || handlers[c].phase != Serving {
        return;
      }
      var id := handlers[c].cert;
      if |raw| > MAX_LINE || !payload.supported || payload.from != Some(id)
         || payload.to.None? || payload.to.value !in allowed {
        SetPhase(c, Failing);
        return;
      }
      var r := payload.to.value;
      var f := Frame(c, payload.from.value, r, Framed(raw));
      ghost var book := Book(View(), r);
      if r in clients {
        ledgers := ledgers[r := book.(accepted := book.accepted + [f])];
        Write(clients[r], f, r);
      } else {
        ledgers := ledgers[r := book.(accepted := book.accepted + [f],
                                      evicted := book.evicted + Evicted(Queue(View(), r)),
                                      since := book.since + [f])];
        Enqueue(r, f);
      }
    }

    /** Frames a suspended registration popped and did not write are gone. */
    method DropPopped(c: Conn)
      modifies this`waiting, this`ledgers
      ensures View() == DropWaiting(old(View()), c)
    {
      var k := FindWaiting(c);
      if k < |waiting| {
        var w := waiting[k];
        ledgers := ledgers[w.id := Book(View(), w.id).(lost := Book(View(), w.id).lost + w.queued)];
        waiting := waiting[..k] + waiting[k + 1..];
      }
    }

    /** The registry entry goes if it is still this connection's. */
    method RemoveEntry(c: Conn, id: Id)
      modifies this`clients, this`ledgers
      ensures View() == Unregister(old(View()), c, id)
    {
      if id in clients && clients[id] == c {
        ledgers := ledgers[id := Book(View(), id).(since := [])];
        clients := clients - {id};
      }
    }

    /** The handler ends: the finally block, which closes the connection unless the cleanup itself raises. */
    method Cleanup(c: Conn)
      modifies this
      ensures View() == StepFinish(old(View()), c)
    {
      hide DropWaiting, Unregister;
      if c !in handlers || handlers[c].phase == Ended {
        return;
      }
      DropPopped(c);
      RemoveEntry(c, handlers[c].cert);
      if handlers[c].phase != Broken {
        closed := closed + {c};
      }
      SetPhase(c, Ended);
    }
  }
}
