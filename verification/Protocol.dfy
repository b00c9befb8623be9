/**
 * The frames of main/protocol.c and its critical sections, each as a function on the session table.
 * A frame carries its fields after JSON and base64 decoding.
 */
module Protocol {
  import opened Bytes
  import opened Encoding
  import opened Crypto
  import opened Sessions
  import opened Wrappers
  import CounterText

  /** What is fixed from one start of a device to the next. */
  datatype Boot = Boot(self: Party, peers: seq<Id>, maxMessage: nat)

  datatype Error = InvalidArg | NotFound | InvalidSize | InvalidState | InvalidCrc | NoMem | Failed

  datatype Frame =
    | Hello(from: Id, to: Id, pub: Bytes, nonce: Bytes, sig: Signature)
    | Data(from: Id, to: Id, sid: Bytes, counter: Bytes, sealed: Sealed)

  /** What configure_device.py and Kconfig guarantee: valid ids, no self-peer, no repeated peer. */
  ghost predicate Provisioned(b: Boot, prim: Primitives) {
    && WellFormedParty(b.self)
    && prim.onCurve(b.self.pub)
    && 32 <= b.maxMessage <= 1024
    && (forall p | p in b.peers :: EncodableId(p) && NulFree(p) && p != b.self.id)
    && (forall i, j | 0 <= i < j < |b.peers| :: b.peers[i] != b.peers[j])
  }

  // ---- handle_hello ------------------------------------------------------

  /** Everything handle_hello checks before it takes the lock. */
  function CheckHello(b: Boot, prim: Primitives, f: Frame): Result<Derived, Error>
    requires f.Hello?
  {
    if f.to != b.self.id || |f.from| >= DEVICE_ID_MAX then Err(InvalidArg)
    else if f.from !in b.peers then Err(NotFound)
    else if |f.pub| != PUBLIC_BYTES || |f.nonce| != BOOT_NONCE_BYTES || f.sig == Undecodable then Err(InvalidSize)
    else if !VerifyHello(f.from, f.to, f.pub, f.nonce, f.sig) then Err(InvalidCrc)
    else match DeriveSession(prim, b.self, Party(f.from, f.pub, f.nonce))
      case None => Err(Failed)
      case Some(d) => Ok(d)
  }

  /** The handshake the slot already holds, octet for octet. */
  predicate Duplicate(s: Session, peer: Party, d: Derived) {
    s.established && s.peerPub == peer.pub && s.peerNonce == peer.nonce && s.sid == d.sid
  }

  function Installed(s: Session, peer: Party, d: Derived): Session {
    Session(s.helloSent, true, peer.pub, peer.nonce, d.tx, d.rx, d.sid, 0, 0)
  }

  datatype HelloEffect = HelloEffect(table: Table, installed: bool, reply: bool)

  /** The critical section of handle_hello: None where there is no slot left. */
  function AcceptHello(m: Table, peer: Party, d: Derived): Option<HelloEffect> {
    match Open(m, peer.id)
    case None => None
    case Some(found) =>
      var s := found[peer.id];
      var duplicate := Duplicate(s, peer, d);
      Some(HelloEffect(
        if duplicate then found else found[peer.id := Installed(s, peer, d)],
        !duplicate,
        !s.helloSent || !duplicate))
  }

  // ---- protocol_send_hello -----------------------------------------------

  function HelloOf(p: Party, to: Id): Frame {
    Hello(p.id, to, p.pub, p.nonce, Signed(p.id, HelloBytes(p.id, to, p.pub, p.nonce)))
  }

  /** The hello this boot sends to a provisioned peer. */
  function MakeHello(b: Boot, to: Id): Frame {
    HelloOf(b.self, to)
  }

  /** The critical section after a hello left: a full table is ignored. */
  function MarkHelloSent(m: Table, peer: Id): Table {
    match Open(m, peer)
    case None => m
    case Some(found) => found[peer := found[peer].(helloSent := true)]
  }

  /** p's slot with another hello_sent flag; a slot that was free is a cleared one. */
  predicate SameSession(table: Table, p: Id, slot: Session) {
    if p in table then slot == table[p].(helloSent := slot.helloSent)
    else slot == EMPTY_SESSION.(helloSent := slot.helloSent)
  }

  lemma AcceptHelloTouchesOneSlot(m: Table, peer: Party, d: Derived) returns (slot: Session)
    requires AcceptHello(m, peer, d).Some?
    ensures var e := AcceptHello(m, peer, d).value;
            && e.table == m[peer.id := slot]
            && (if e.installed then slot == Installed(slot, peer, d) else SameSession(m, peer.id, slot))
  {
    slot := AcceptHello(m, peer, d).value.table[peer.id];
  }

  lemma MarkKeepsSession(m: Table, peer: Id)
    requires Open(m, peer).Some?
    ensures peer in MarkHelloSent(m, peer)
    ensures var slot := MarkHelloSent(m, peer)[peer];
            SameSession(m, peer, slot) && MarkHelloSent(m, peer) == m[peer := slot]
  {
  }

  // ---- protocol_send_message ---------------------------------------------

  function CheckMessage(b: Boot, text: Bytes): Result<(), Error> {
    if |text| == 0 || |text| > b.maxMessage then Err(InvalidSize) else Ok(())
  }

  /** The critical section that takes the next transmit counter: the new table, whose session is captured. */
  function AllocateCounter(m: Table, to: Id): Result<Table, Error> {
    if to !in m || !m[to].established || m[to].txCounter == U64_MAX then Err(InvalidState)
    else Ok(m[to := m[to].(txCounter := m[to].txCounter + 1)])
  }

  function MakeData(b: Boot, to: Id, sid: Bytes, counter: u64, sealed: Sealed): Frame {
    Data(b.self.id, to, sid, CounterText.Print(counter), sealed)
  }

  // ---- handle_data -------------------------------------------------------

  /** Everything handle_data checks before it takes the lock: the counter it read. */
  function CheckData(b: Boot, f: Frame): Result<u64, Error>
    requires f.Data?
  {
    if f.to != b.self.id then Err(InvalidArg)
    else match CounterText.Parse(f.counter)
      case None => Err(InvalidArg)
      case Some(c) =>
        if |f.sid| != SESSION_ID_BYTES || CiphertextLength(f.sealed) == 0 || CiphertextLength(f.sealed) > b.maxMessage
        then Err(InvalidSize) else Ok(c)
  }

  /** The first critical section of handle_data. */
  predicate InWindow(m: Table, from: Id, sid: Bytes, counter: u64) {
    from in m && m[from].established && m[from].sid == sid && counter > m[from].rxCounter
  }

  /** The second critical section of handle_data. */
  function AdvanceWindow(m: Table, from: Id, counter: u64): Table {
    if from in m && m[from].established && counter > m[from].rxCounter
    then m[from := m[from].(rxCounter := counter)]
    else m
  }
}
