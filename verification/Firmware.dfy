/**
 * main/protocol.c over the session manager: each method is one stretch of code between two points where the
 * other task may run, and does to the device exactly what the state machine's event of the same name does.
 */
module Firmware {
  import opened Bytes
  import opened Encoding
  import opened Crypto
  import opened Sessions
  import opened Protocol
  import opened Device
  import opened StartUp
  import opened Wrappers
  import CounterText

  /** What handle_hello returns up to its unlock: an error, or whether a reply is due. */
  function HelloResult(b: Boot, prim: Primitives, m: Table, f: Frame): Result<bool, Error>
    requires f.Hello?
  {
    match CheckHello(b, prim, f)
    case Err(e) => Err(e)
    case Ok(d) =>
      match AcceptHello(m, PeerOf(f), d)
      case None => Err(NoMem)
      case Some(e) => Ok(e.reply)
  }

  /** What handle_data returns when it stops at its first critical section, and Ok when it goes on. */
  function DataResult(b: Boot, m: Table, f: Frame): Result<u64, Error>
    requires f.Data?
  {
    match CheckData(b, f)
    case Err(e) => Err(e)
    case Ok(c) => if InWindow(m, f.from, f.sid, c) then Ok(c) else Err(InvalidState)
  }

  /** What handle_data returns, when nothing comes between its stretches: its own errors, or that of decryption. */
  function MessageResult(b: Boot, m: Table, f: Frame): Result<Bytes, Error>
    requires f.Data?
  {
    match DataResult(b, m, f)
    case Err(e) => Err(e)
    case Ok(c) => Opened(b, m[f.from].rx, f.from, m[f.from].sid, c, f.sealed)
  }

  /** What crypto_decrypt_message makes of a frame in hand. */
  function Opened(b: Boot, key: Key, from: Id, sid: SessionId, c: u64, sealed: Sealed): Result<Bytes, Error> {
    if c == 0 || !EncodableId(from) || !EncodableId(b.self.id) then Err(InvalidArg)
    else match Decrypt(key, from, b.self.id, sid, c, sealed)
      case None => Err(InvalidCrc)
      case Some(text) => Ok(text)
  }

  /** What protocol_send_message returns up to its unlock: an error, or the counter it took. */
  function CounterResult(b: Boot, m: Table, to: Id, text: Bytes): Result<u64, Error> {
    if CheckMessage(b, text).Err? then Err(InvalidSize)
    else if AllocateCounter(m, to).Err? then Err(InvalidState)
    else Ok(m[to].txCounter + 1)
  }

  /** What protocol_send_message returns, when nothing comes between its stretches. */
  function SendResult(b: Boot, m: Table, to: Id, text: Bytes, libraryWorks: bool, transportTakes: bool)
    : Result<(), Error>
  {
    match CounterResult(b, m, to, text)
    case Err(e) => Err(e)
    case Ok(_) =>
      if !EncodableId(b.self.id) || !EncodableId(to) then Err(InvalidArg)
      else if !libraryWorks || !transportTakes then Err(Failed)
      else Ok(())
  }

  /** The frame that protocol_send_message makes of a text, from the session as it was before the call. */
  function SentFrame(b: Boot, slot: Session, to: Id, text: Bytes): Frame
    requires slot.txCounter < U64_MAX
  {
    var c: u64 := slot.txCounter + 1;
    Data(b.self.id, to, slot.sid, CounterText.Print(c),
         Box(slot.tx, NonceBytes(slot.sid, c), AadBytes(b.self.id, to, slot.sid, c), text))
  }

  /** A text of legal length, a session that has counters left, ids that can be encoded. */
  predicate CanSendNow(b: Boot, m: Table, to: Id, text: Bytes) {
    && 0 < |text| <= b.maxMessage
    && to in m && m[to].established && m[to].txCounter < U64_MAX
    && EncodableId(b.self.id) && EncodableId(to)
  }

  /** What the console task holds between two critical sections. */
  datatype Console = AtRest | Outgoing(to: Id, key: Key, sid: SessionId, counter: u64, text: Bytes) | Noting(peer: Id)

  /** The same without history. */
  function ConsoleOf(tx: TxTask): Console {
    match tx
    case TxIdle => AtRest
    case Sealing(r) => Outgoing(r.to, r.key, r.sid, r.counter, r.text)
    case TxMarking(p) => Noting(p)
  }

  class ProtocolEngine {
    const boot: Boot
    const prim: Primitives
    const sessions: SessionManager

    /** What each task holds between two critical sections. */
    var rx: RxTask
    var console: Console

    /** History. tx is the console's task with the session it belongs to. */
    ghost var tx: TxTask
    ghost var installs: seq<Party>
    ghost var epoch: map<Id, nat>
    ghost var clean: bool
    ghost var seals: seq<Seal>
    ghost var deliveries: seq<Delivery>
    ghost var signedFor: set<Id>

    ghost predicate Valid()
      reads this, sessions, sessions.slots
    {
      sessions.Valid() && Provisioned(boot, prim) && console == ConsoleOf(tx)
    }

    ghost function View(): State
      reads this, sessions, sessions.slots
    {
      State(sessions.View(), rx, tx, installs, epoch, clean, seals, deliveries, signedFor)
    }

    constructor (boot: Boot, prim: Primitives, sessions: SessionManager)
      requires Provisioned(boot, prim) && sessions.Valid() && sessions.View() == map[]
      ensures Valid() && View() == INIT
      ensures this.boot == boot && this.prim == prim && this.sessions == sessions
    {
      this.boot, this.prim, this.sessions := boot, prim, sessions;
      rx, console, tx := RxIdle, AtRest, TxIdle;
      installs, epoch, clean, seals, deliveries, signedFor := [], map[], true, [], [], {};
    }

    /** peer_store_find. */
    method FindPeer(id: Id) returns (found: bool)
      ensures found == (id in boot.peers)
    {
      for i := 0 to |boot.peers|
        invariant forall j | 0 <= j < i :: boot.peers[j] != id
      {
        if boot.peers[i] == id {
          return true;
        }
      }
      return false;
    }

    /** The checks of handle_hello, in the order of the code. */
    method AuthenticateHello(f: Frame) returns (r: Result<Derived, Error>)
      requires Valid() && f.Hello?
      ensures r == CheckHello(boot, prim, f)
      ensures r.Ok? ==> f.from in boot.peers
    {
      hide TranscriptBytes, StrLess, HelloBytes;
      if f.to != boot.self.id || |f.from| >= DEVICE_ID_MAX {
        return Err(InvalidArg);
      }
      var found := FindPeer(f.from);
      if !found {
        return Err(NotFound);
      }
      if |f.pub| != PUBLIC_BYTES || |f.nonce| != BOOT_NONCE_BYTES || f.sig == Undecodable {
        return Err(InvalidSize);
      }
      var valid := VerifyHelloMessage(f.from, f.to, f.pub, f.nonce, f.sig);
      if !valid {
        return Err(InvalidCrc);
      }
      var derived := DeriveKeys(prim, boot.self, Party(f.from, f.pub, f.nonce));
      return match derived
        case None => Err(Failed)
        case Some(d) => Ok(d);
    }

    /** The critical section of handle_hello: an established, octet-identical handshake is left alone. */
    method AcceptHandshake(peer: Party, d: Derived) returns (ok: bool, installed: bool, reply: bool)
      requires Valid()
      modifies sessions.slots
      ensures Valid()
      ensures match AcceptHello(old(sessions.View()), peer, d)
              case None => !ok && sessions.View() == old(sessions.View())
              case Some(e) => ok && HelloEffect(sessions.View(), installed, reply) == e
    {
      var k := sessions.GetOrCreate(peer.id);
      if k < 0 {
        return false, false, false;
      }
      var session := sessions.slots[k].session;
      var duplicate := session.established && session.peerPub == peer.pub && session.peerNonce == peer.nonce
                       && session.sid == d.sid;
      ok, installed, reply := true, !duplicate, !session.helloSent || !duplicate;
      if !duplicate {
        sessions.Store(k, Installed(session, peer, d));
      }
    }

    /** handle_hello up to its unlock. */
    method ReceiveHello(f: Frame) returns (r: Result<bool, Error>)
      requires Valid() && f.Hello? && rx == RxIdle
      modifies this, sessions.slots
      ensures Valid() && View() == StepHello(boot, prim, old(View()), f)
      ensures r == HelloResult(boot, prim, old(sessions.View()), f)
      ensures r.Ok? ==> f.from in boot.peers
    {
      hide CheckHello, Provisioned, AcceptHello;
      var checked := AuthenticateHello(f);
      if checked.Err? {
        return Err(checked.error);
      }
      var peer := Party(f.from, f.pub, f.nonce);
      var ok, installed, reply := AcceptHandshake(peer, checked.value);
      if !ok {
        return Err(NoMem);
      }
      if installed {
        clean := clean && peer !in installs;
        epoch := epoch[peer.id := |installs|];
        installs := installs + [peer];
      }
      rx := if reply then Replying(f.from) else RxIdle;
      return Ok(reply);
    }

    /** The reply handle_hello owes, signed and handed to the transport. */
    method SendReply(transportTakes: bool) returns (frame: Option<Frame>)
      requires Valid() && rx.Replying?
      modifies this
      ensures Valid() && View() == StepReply(boot, old(View()), transportTakes)
      ensures frame == if old(rx).peer in boot.peers && transportTakes then Some(MakeHello(boot, old(rx).peer))
                       else None
    {
      var to := rx.peer;
      var found := FindPeer(to);
      if !found {
        rx := RxIdle;
        return None;
      }
      var hello := SignedHello(to);
      signedFor := signedFor + {to};
      rx := if transportTakes then RxMarking(to) else RxIdle;
      return if transportTakes then Some(hello) else None;
    }

    /** The frame protocol_send_hello builds for a provisioned peer. */
    method SignedHello(to: Id) returns (frame: Frame)
      requires Valid() && to in boot.peers
      ensures frame == MakeHello(boot, to)
    {
      var sig := SignHelloMessage(boot.self, to);
      frame := Hello(boot.self.id, to, boot.self.pub, boot.self.nonce, sig.value);
    }

    /** The critical section after a hello left; a full table is ignored. */
    method MarkSent(peer: Id)
      requires Valid()
      modifies sessions.slots
      ensures Valid() && sessions.View() == MarkHelloSent(old(sessions.View()), peer)
    {
      var k := sessions.GetOrCreate(peer);
      if k >= 0 {
        sessions.Store(k, sessions.slots[k].session.(helloSent := true));
      }
    }

    method MarkReply()
      requires Valid() && rx.RxMarking?
      modifies this, sessions.slots
      ensures Valid() && View() == StepRxMark(old(View()))
    {
      MarkSent(rx.peer);
      rx := RxIdle;
    }

    /** handle_hello from start to end, when nothing comes between its stretches: an error of its own, or that of
        sending a reply that is due. */
    method HandleHello(f: Frame, transportTakes: bool) returns (r: Result<(), Error>, reply: Option<Frame>)
      requires Valid() && f.Hello? && rx == RxIdle
      modifies this, sessions.slots
      ensures Valid() && rx == RxIdle
      ensures View() == StepRxMark(StepReply(boot, StepHello(boot, prim, old(View()), f), transportTakes))
      ensures r == match HelloResult(boot, prim, old(sessions.View()), f)
                   case Err(e) => Err(e)
                   case Ok(due) => if due && !transportTakes then Err(Failed) else Ok(())
      ensures reply == if HelloResult(boot, prim, old(sessions.View()), f) == Ok(true) && transportTakes
                       then Some(MakeHello(boot, f.from)) else None
    {
      hide CheckHello, AcceptHello, MakeHello;
      reply := None;
      var received := ReceiveHello(f);
      r := match received case Err(e) => Err(e) case Ok(_) => Ok(());
      if rx.Replying? {
        reply := SendReply(transportTakes);
        if reply.None? {
          r := Err(Failed);
        }
        if rx.RxMarking? {
          MarkReply();
        }
      }
    }

    /** protocol_send_hello from the console or at start-up, up to the transport's answer. */
    method SendHello(to: Id, transportTakes: bool) returns (frame: Option<Frame>)
      requires Valid() && tx == TxIdle
      modifies this
      ensures Valid() && View() == StepTxHello(boot, old(View()), to, transportTakes)
      ensures frame == if to in boot.peers && transportTakes then Some(MakeHello(boot, to)) else None
    {
      var found := FindPeer(to);
      if !found {
        return None;
      }
      var hello := SignedHello(to);
      signedFor := signedFor + {to};
      console := if transportTakes then Noting(to) else AtRest;
      tx := if transportTakes then TxMarking(to) else TxIdle;
      return if transportTakes then Some(hello) else None;
    }

    method MarkHello()
      requires Valid() && tx.TxMarking?
      modifies this, sessions.slots
      ensures Valid() && View() == StepTxMark(old(View()))
    {
      MarkSent(console.peer);
      console, tx := AtRest, TxIdle;
    }

    /** protocol_send_message up to its unlock: the next counter is taken and the key copied. */
    method TakeCounter(to: Id, text: Bytes) returns (r: Result<u64, Error>)
      requires Valid() && tx == TxIdle
      modifies this, sessions.slots
      ensures Valid() && View() == StepAlloc(boot, old(View()), to, text)
      ensures r == CounterResult(boot, old(sessions.View()), to, text)
      ensures r.Ok? <==> tx.Sealing?
      ensures r.Err? ==> View() == old(View())
    {
      if |text| == 0 || |text| > boot.maxMessage {
        return Err(InvalidSize);
      }
      var k := sessions.Find(to);
      if k < 0 || !sessions.slots[k].session.established || sessions.slots[k].session.txCounter == U64_MAX {
        return Err(InvalidState);
      }
      var session := sessions.slots[k].session;
      var counter: u64 := session.txCounter + 1;
      sessions.Store(k, session.(txCounter := counter));
      console := Outgoing(to, session.tx, session.sid, counter, text);
      tx := Sealing(Seal(if to in epoch then epoch[to] else 0, to, session.tx, session.sid, counter, text));
      return Ok(counter);
    }

    /** Encryption with the captured key, and the frame handed to the transport; libraryWorks says whether AES-GCM
        itself succeeds, transportTakes whether the frame leaves. */
    method SealMessage(libraryWorks: bool, transportTakes: bool) returns (r: Result<(), Error>, frame: Option<Frame>)
      requires Valid() && tx.Sealing?
      modifies this
      ensures Valid() && View() == StepSeal(boot, old(View()), libraryWorks)
      ensures frame.Some? <==> seals != old(seals)
      ensures var m := old(tx).pending;
              && (frame.Some? ==>
                  Encrypt(m.key, boot.self.id, m.to, m.sid, m.counter, m.text).Some?
                  && frame.value == MakeData(boot, m.to, m.sid, m.counter,
                                             Encrypt(m.key, boot.self.id, m.to, m.sid, m.counter, m.text).value))
              && r == if Encrypt(m.key, boot.self.id, m.to, m.sid, m.counter, m.text).None? then Err(InvalidArg)
                      else if !libraryWorks || !transportTakes then Err(Failed) else Ok(())
    {
      var m := console;
      ghost var pending := tx.pending;
      console, tx := AtRest, TxIdle;
      var box := EncryptMessage(m.key, boot.self.id, m.to, m.sid, m.counter, m.text);
      if box.None? {
        return Err(InvalidArg), None;
      }
      if !libraryWorks {
        return Err(Failed), None;
      }
      seals := seals + [pending];
      frame := Some(MakeData(boot, m.to, m.sid, m.counter, box.value));
      r := if transportTakes then Ok(()) else Err(Failed);
    }

    /** handle_data up to its first unlock. */
    method ReceiveData(f: Frame) returns (r: Result<u64, Error>)
      requires Valid() && f.Data? && rx == RxIdle
      modifies this
      ensures Valid() && View() == StepData(boot, old(View()), f)
      ensures r == DataResult(boot, old(sessions.View()), f)
    {
      if f.to != boot.self.id {
        return Err(InvalidArg);
      }
      var counter := CounterText.Parse(f.counter);
      if counter.None? {
        return Err(InvalidArg);
      }
      if |f.sid| != SESSION_ID_BYTES || CiphertextLength(f.sealed) == 0
         || CiphertextLength(f.sealed) > boot.maxMessage {
        return Err(InvalidSize);
      }
      var k := sessions.Find(f.from);
      if k < 0 || !sessions.slots[k].session.established || sessions.slots[k].session.sid != f.sid {
        return Err(InvalidState);
      }
      var session := sessions.slots[k].session;
      if counter.value <= session.rxCounter {
        return Err(InvalidState);
      }
      rx := Opening(f.from, counter.value, session.rx, session.sid, f.sealed);
      return Ok(counter.value);
    }

    /** Decryption, the second critical section, and the message for the user. */
    method OpenMessage() returns (r: Result<Bytes, Error>)
      requires Valid() && rx.Opening?
      modifies this, sessions.slots
      ensures Valid() && View() == StepOpen(boot, old(View()))
      ensures var task := old(rx); r == Opened(boot, task.key, task.from, task.sid, task.counter, task.sealed)
      ensures r.Ok? <==> deliveries != old(deliveries)
      ensures r.Ok? ==> deliveries[|deliveries| - 1].text == r.value
    {
      var from, counter, key, sid := rx.from, rx.counter, rx.key, rx.sid;
      var message := DecryptMessage(key, from, boot.self.id, sid, counter, rx.sealed);
      rx := RxIdle;
      if message.None? {
        return if counter == 0 || |from| == 0 || |from| >= DEVICE_ID_MAX then Err(InvalidArg) else Err(InvalidCrc);
      }
      DecryptNeedsIds(key, from, boot.self.id, sid, counter, old(rx).sealed);
      hide Decrypt;
      var k := sessions.Find(from);
      if k >= 0 {
        var session := sessions.slots[k].session;
        if session.established && counter > session.rxCounter {
          sessions.Store(k, session.(rxCounter := counter));
        }
      }
      ghost var n := if from in epoch then epoch[from] else 0;
      deliveries := deliveries + [Delivery(n, from, key, sid, counter, message.value)];
      return Ok(message.value);
    }

    /** handle_data from start to end, when nothing comes between its stretches. */
    method HandleData(f: Frame) returns (r: Result<Bytes, Error>)
      requires Valid() && f.Data? && rx == RxIdle
      modifies this, sessions.slots
      ensures Valid() && rx == RxIdle
      ensures View() == StepOpen(boot, StepData(boot, old(View()), f))
      ensures r == MessageResult(boot, old(sessions.View()), f)
      ensures r.Ok? <==> deliveries != old(deliveries)
      ensures r.Ok? ==> deliveries[|deliveries| - 1].text == r.value
    {
      hide CheckData, Decrypt;
      var received := ReceiveData(f);
      match received {
        case Err(e) => r := Err(e);
        case Ok(_) => r := OpenMessage();
      }
    }

    /** protocol_send_message from start to end, when nothing comes between its stretches. */
    method SendMessage(to: Id, text: Bytes, libraryWorks: bool, transportTakes: bool)
      returns (r: Result<(), Error>, frame: Option<Frame>)
      requires Valid() && tx == TxIdle
      modifies this, sessions.slots
      ensures Valid() && tx == TxIdle
      ensures View() == StepSeal(boot, StepAlloc(boot, old(View()), to, text), libraryWorks)
      ensures frame.Some? <==> seals != old(seals)
      ensures frame == if CanSendNow(boot, old(sessions.View()), to, text) && libraryWorks
                       then Some(SentFrame(boot, old(sessions.View())[to], to, text)) else None
      ensures r == SendResult(boot, old(sessions.View()), to, text, libraryWorks, transportTakes)
    {
      var taken := TakeCounter(to, text);
      match taken {
        case Err(e) => return Err(e), None;
        case Ok(_) => r, frame := SealMessage(libraryWorks, transportTakes);
      }
    }

    /** protocol_send_hello from start to end, to a provisioned peer. */
    method Greet(to: Id, transportTakes: bool) returns (frame: Option<Frame>)
      requires Valid() && tx == TxIdle && to in boot.peers
      modifies this, sessions.slots
      ensures Valid() && View() == Greeted(old(View()), to, transportTakes)
      ensures frame == if transportTakes then Some(MakeHello(boot, to)) else None
    {
      hide MakeHello, MarkHelloSent, Provisioned;
      frame := SendHello(to, transportTakes);
      if console.Noting? {
        MarkHello();
      }
    }

    /** protocol_send_hello_all at start-up, before the receiver runs; taken says whose hello the transport takes. A
        failure does not stop the others, and is what the call returns. */
    method SendHelloToAll(taken: set<Id>) returns (r: Result<(), Error>, frames: seq<Frame>)
      requires Valid() && tx == TxIdle
      modifies this, sessions.slots
      ensures Valid() && View() == AllGreeted(old(View()), boot.peers, taken)
      ensures frames == HellosTo(boot, boot.peers, taken)
      ensures r == if Members(boot.peers) <= taken then Ok(()) else Err(Failed)
    {
      hide Greeted, MakeHello, Provisioned;
      r, frames := Ok(()), [];
      for i := 0 to |boot.peers|
        invariant Valid() && tx == TxIdle
        invariant frames == HellosTo(boot, boot.peers[..i], taken)
        invariant View() == AllGreeted(old(View()), boot.peers[..i], taken)
        invariant r == if forall j | 0 <= j < i :: boot.peers[j] in taken then Ok(()) else Err(Failed)
      {
        var frame := Greet(boot.peers[i], boot.peers[i] in taken);
        GreetedIsIdle(old(View()), boot.peers[..i + 1], taken);
        match frame {
          case None => r := Err(Failed);
          case Some(hello) => frames := frames + [hello];
        }
        assert boot.peers[..i + 1][..i] == boot.peers[..i];
      }
      assert boot.peers[..|boot.peers|] == boot.peers;
    }
  }
}
