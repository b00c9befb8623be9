/**
 * One boot of a device as a state machine. Its two tasks, the receiver and the console, interleave at the
 * critical sections of main/protocol.c; between two critical sections a task holds what it copied out under
 * the lock. An event that is not enabled leaves the state unchanged, so every sequence of events is a run.
 */
module Device {
  import opened Bytes
  import opened Encoding
  import opened Crypto
  import opened Sessions
  import opened Protocol
  import opened Wrappers

  /** A message sealed for a peer, under the epoch-th handshake this boot installed. */
  datatype Seal = Seal(epoch: nat, to: Id, key: Key, sid: SessionId, counter: u64, text: Bytes)

  /** A message handed to the user, under the epoch-th handshake this boot installed. */
  datatype Delivery = Delivery(epoch: nat, from: Id, key: Key, sid: SessionId, counter: u64, text: Bytes)

  datatype RxTask =
    | RxIdle
    | Opening(from: Id, counter: u64, key: Key, sid: SessionId, sealed: Sealed)
    | Replying(peer: Id)
    | RxMarking(peer: Id)

  datatype TxTask =
    | TxIdle
    | Sealing(pending: Seal)
    | TxMarking(peer: Id)

  /**
   * table, rx and tx are the firmware's own state. The rest is history: the handshakes installed so far and,
   * per peer, the index of the last one; whether any of them had been installed before (clean says no);
   * the messages sealed and delivered; the peers a hello was signed for.
   */
  datatype State = State(
    table: Table,
    rx: RxTask,
    tx: TxTask,
    installs: seq<Party>,
    epoch: map<Id, nat>,
    clean: bool,
    seals: seq<Seal>,
    deliveries: seq<Delivery>,
    signedFor: set<Id>)

  datatype Event =
    | RxHello(hello: Frame)          // handle_hello up to its unlock
    | RxReply(sent: bool)            // the reply of handle_hello, handed to the transport
    | RxMark                         // hello_sent set after a reply
    | RxData(data: Frame)            // handle_data up to its first unlock
    | RxOpen                         // decryption, second critical section, delivery
    | TxHello(to: Id, sent: bool)    // protocol_send_hello from the console or at start-up
    | TxMark                         // hello_sent set after that hello
    | TxAlloc(to: Id, text: Bytes)   // protocol_send_message up to its unlock
    | TxSeal(encrypted: bool)        // encryption with the captured key, which the library may fail

  predicate AtConsole(e: Event) {
    e.TxHello? || e.TxMark? || e.TxAlloc? || e.TxSeal?
  }

  const INIT := State(map[], RxIdle, TxIdle, [], map[], true, [], [], {})

  // ---- Steps -------------------------------------------------------------

  function PeerOf(f: Frame): Party
    requires f.Hello?
  {
    Party(f.from, f.pub, f.nonce)
  }

  /** What the critical section of handle_hello does to this hello, if it gets that far. */
  function HelloEffectOn(b: Boot, prim: Primitives, s: State, f: Frame): Option<HelloEffect> {
    if !f.Hello? || CheckHello(b, prim, f).Err? then None
    else AcceptHello(s.table, PeerOf(f), CheckHello(b, prim, f).value)
  }

  function Install(s: State, peer: Party): State {
    s.(installs := s.installs + [peer],
       epoch := s.epoch[peer.id := |s.installs|],
       clean := s.clean && peer !in s.installs)
  }

  function StepHello(b: Boot, prim: Primitives, s: State, f: Frame): State {
    if s.rx != RxIdle then s
    else match HelloEffectOn(b, prim, s, f)
      case None => s
      case Some(e) =>
        var t := if e.installed then Install(s, PeerOf(f)) else s;
        t.(table := e.table, rx := if e.reply then Replying(f.from) else RxIdle)
  }

  function StepReply(b: Boot, s: State, sent: bool): State {
    match s.rx
    case Replying(p) =>
      if p !in b.peers then s.(rx := RxIdle)
      else s.(rx := if sent then RxMarking(p) else RxIdle, signedFor := s.signedFor + {p})
    case _ => s
  }

  function StepRxMark(s: State): State {
    match s.rx
    case RxMarking(p) => s.(table := MarkHelloSent(s.table, p), rx := RxIdle)
    case _ => s
  }

  function StepData(b: Boot, s: State, f: Frame): State {
    if s.rx != RxIdle || !f.Data? then s
    else match CheckData(b, f)
      case Err(_) => s
      case Ok(counter) =>
        if InWindow(s.table, f.from, f.sid, counter)
        then s.(rx := Opening(f.from, counter, s.table[f.from].rx, s.table[f.from].sid, f.sealed))
        else s
  }

  function StepOpen(b: Boot, s: State): State {
    if !s.rx.Opening? then s
    else
      var from, counter := s.rx.from, s.rx.counter;
      match Decrypt(s.rx.key, from, b.self.id, s.rx.sid, counter, s.rx.sealed)
      case None => s.(rx := RxIdle)
      case Some(text) =>
        var epoch := if from in s.epoch then s.epoch[from] else 0;
        s.(table := AdvanceWindow(s.table, from, counter),
           rx := RxIdle,
           deliveries := s.deliveries + [Delivery(epoch, from, s.rx.key, s.rx.sid, counter, text)])
  }

  function StepTxHello(b: Boot, s: State, to: Id, sent: bool): State {
    if s.tx != TxIdle || to !in b.peers then s
    else s.(tx := if sent then TxMarking(to) else TxIdle, signedFor := s.signedFor + {to})
  }

  function StepTxMark(s: State): State {
    match s.tx
    case TxMarking(p) => s.(table := MarkHelloSent(s.table, p), tx := TxIdle)
    case _ => s
  }

  function StepAlloc(b: Boot, s: State, to: Id, text: Bytes): State {
    if s.tx != TxIdle || CheckMessage(b, text).Err? then s
    else match AllocateCounter(s.table, to)
      case Err(_) => s
      case Ok(m) =>
        var epoch := if to in s.epoch then s.epoch[to] else 0;
        s.(table := m, tx := Sealing(Seal(epoch, to, m[to].tx, m[to].sid, m[to].txCounter, text)))
  }

  function StepSeal(b: Boot, s: State, encrypted: bool): State {
    match s.tx
    case Sealing(r) =>
      if encrypted && Encrypt(r.key, b.self.id, r.to, r.sid, r.counter, r.text).Some?
      then s.(tx := TxIdle, seals := s.seals + [r])
      else s.(tx := TxIdle)
    case _ => s
  }

  function Step(b: Boot, prim: Primitives, s: State, e: Event): State {
    match e
    case RxHello(f) => StepHello(b, prim, s, f)
    case RxReply(sent) => StepReply(b, s, sent)
    case RxMark => StepRxMark(s)
    case RxData(f) => StepData(b, s, f)
    case RxOpen => StepOpen(b, s)
    case TxHello(to, sent) => StepTxHello(b, s, to, sent)
    case TxMark => StepTxMark(s)
    case TxAlloc(to, text) => StepAlloc(b, s, to, text)
    case TxSeal(encrypted) => StepSeal(b, s, encrypted)
  }

  function Run(b: Boot, prim: Primitives, s: State, es: seq<Event>): State
    decreases |es|
  {
    if |es| == 0 then s else Run(b, prim, Step(b, prim, s, es[0]), es[1..])
  }

  // ---- The invariant -----------------------------------------------------

  /** A handshake this boot can hold: with a provisioned peer, and with keys that derive. */
  ghost predicate Derivable(b: Boot, prim: Primitives, p: Party) {
    && WellFormedParty(p)
    && p.id in b.peers
    && DeriveSession(prim, b.self, p).Some?
  }

  ghost function Keys(b: Boot, prim: Primitives, p: Party): Derived
    requires Derivable(b, prim, p)
  {
    DeriveSession(prim, b.self, p).value
  }

  ghost predicate InstallsOk(b: Boot, prim: Primitives, installs: seq<Party>) {
    forall i | 0 <= i < |installs| :: Derivable(b, prim, installs[i])
  }

  /** epoch names, per peer, the last handshake installed. */
  ghost predicate EpochsOk(installs: seq<Party>, epoch: map<Id, nat>) {
    && (forall i | 0 <= i < |installs| :: installs[i].id in epoch && i <= epoch[installs[i].id])
    && (forall p | p in epoch :: epoch[p] < |installs| && installs[epoch[p]].id == p)
  }

  ghost predicate CleanOk(installs: seq<Party>, clean: bool) {
    clean ==> forall i, j | 0 <= i < j < |installs| :: installs[i] != installs[j]
  }

  /** The stored-session invariant: an established slot holds exactly the derivation from its own boot values
      and the peer values of the last handshake installed for that peer. */
  ghost predicate SlotOk(b: Boot, prim: Primitives, installs: seq<Party>, epoch: map<Id, nat>, p: Id, slot: Session)
    requires InstallsOk(b, prim, installs) && EpochsOk(installs, epoch)
  {
    && p in b.peers
    && (slot.established <==> p in epoch)
    && (slot.established ==>
        && installs[epoch[p]] == Party(p, slot.peerPub, slot.peerNonce)
        && Keys(b, prim, installs[epoch[p]]) == Derived(slot.tx, slot.rx, slot.sid))
  }

  ghost predicate TableOk(b: Boot, prim: Primitives, installs: seq<Party>, epoch: map<Id, nat>, table: Table)
    requires InstallsOk(b, prim, installs) && EpochsOk(installs, epoch)
  {
    && (forall p | p in table :: SlotOk(b, prim, installs, epoch, p, table[p]))
    && (forall p | p in epoch :: p in table)
  }

  /** The counter of the last message delivered under a handshake, 0 if there is none. */
  function LastCounter(ds: seq<Delivery>, epoch: nat): u64 {
    if |ds| == 0 then 0
    else if ds[|ds| - 1].epoch == epoch then ds[|ds| - 1].counter
    else LastCounter(ds[..|ds| - 1], epoch)
  }

  /** A slot's receive counter is the counter of the last message delivered in its session. */
  ghost predicate WindowsOk(table: Table, epoch: map<Id, nat>, ds: seq<Delivery>) {
    forall p | p in epoch :: p in table && table[p].rxCounter == LastCounter(ds, epoch[p])
  }

  ghost predicate SealOk(b: Boot, prim: Primitives, installs: seq<Party>, r: Seal)
    requires InstallsOk(b, prim, installs)
  {
    && r.epoch < |installs|
    && installs[r.epoch].id == r.to
    && Keys(b, prim, installs[r.epoch]).tx == r.key
    && Keys(b, prim, installs[r.epoch]).sid == r.sid
    && 0 < r.counter
    && 0 < |r.text| <= b.maxMessage
  }

  ghost predicate SealsOk(b: Boot, prim: Primitives, installs: seq<Party>, rs: seq<Seal>)
    requires InstallsOk(b, prim, installs)
  {
    forall i | 0 <= i < |rs| :: SealOk(b, prim, installs, rs[i])
  }

  ghost predicate SealsIncrease(rs: seq<Seal>) {
    forall i, j | 0 <= i < j < |rs| && rs[i].epoch == rs[j].epoch :: rs[i].counter < rs[j].counter
  }

  /** No message of the current session was sealed beyond its transmit counter. */
  ghost predicate CountersOk(table: Table, epoch: map<Id, nat>, rs: seq<Seal>) {
    forall i | 0 <= i < |rs| ::
      rs[i].to in epoch && rs[i].to in table
      && (rs[i].epoch == epoch[rs[i].to] ==> rs[i].counter <= table[rs[i].to].txCounter)
  }

  /** The messages sealed so far and, if there is one, the message about to be sealed. */
  ghost function AllSeals(s: State): seq<Seal> {
    if s.tx.Sealing? then s.seals + [s.tx.pending] else s.seals
  }

  ghost predicate DeliveryOk(b: Boot, prim: Primitives, installs: seq<Party>, d: Delivery)
    requires InstallsOk(b, prim, installs)
  {
    && d.epoch < |installs|
    && installs[d.epoch].id == d.from
    && Keys(b, prim, installs[d.epoch]).rx == d.key
    && Keys(b, prim, installs[d.epoch]).sid == d.sid
    && 0 < d.counter
    && 0 < |d.text| <= b.maxMessage
  }

  ghost predicate DeliveriesOk(b: Boot, prim: Primitives, installs: seq<Party>, ds: seq<Delivery>)
    requires InstallsOk(b, prim, installs)
  {
    forall i | 0 <= i < |ds| :: DeliveryOk(b, prim, installs, ds[i])
  }

  ghost predicate DeliveriesIncrease(ds: seq<Delivery>) {
    forall i, j | 0 <= i < j < |ds| && ds[i].epoch == ds[j].epoch :: ds[i].counter < ds[j].counter
  }

  /** While handle_data is between its critical sections, its peer's window has not moved: the second
      guard is bound to succeed. A peer whose hello is being answered has a slot. */
  ghost predicate TasksOk(b: Boot, table: Table, rx: RxTask, tx: TxTask) {
    && match rx {
         case Opening(from, counter, key, sid, sealed) =>
           && InWindow(table, from, sid, counter) && key == table[from].rx
           && 0 < CiphertextLength(sealed) <= b.maxMessage
         case Replying(p) => p in b.peers && p in table
         case RxMarking(p) => p in b.peers && p in table
         case RxIdle => true
       }
    && (tx.TxMarking? ==> tx.peer in b.peers)
  }

  ghost predicate Inv(b: Boot, prim: Primitives, s: State) {
    && InstallsOk(b, prim, s.installs)
    && EpochsOk(s.installs, s.epoch)
    && CleanOk(s.installs, s.clean)
    && TableOk(b, prim, s.installs, s.epoch, s.table)
    && WindowsOk(s.table, s.epoch, s.deliveries)
    && SealsOk(b, prim, s.installs, AllSeals(s))
    && SealsIncrease(AllSeals(s))
    && CountersOk(s.table, s.epoch, AllSeals(s))
    && DeliveriesOk(b, prim, s.installs, s.deliveries)
    && DeliveriesIncrease(s.deliveries)
    && TasksOk(b, s.table, s.rx, s.tx)
  }

  // ---- Every step keeps it -----------------------------------------------

  lemma {:induction false} LastCounterOfNewEpoch(ds: seq<Delivery>, epoch: nat)
    requires forall i | 0 <= i < |ds| :: ds[i].epoch < epoch
    ensures LastCounter(ds, epoch) == 0
  {
    if |ds| == 0 {
    } else {
      LastCounterOfNewEpoch(ds[..|ds| - 1], epoch);
    }
  }

  lemma {:induction false} LastCounterIsLargest(ds: seq<Delivery>, i: nat)
    requires DeliveriesIncrease(ds) && i < |ds|
    ensures ds[i].counter <= LastCounter(ds, ds[i].epoch)
  {
    var k := |ds| - 1;
    if ds[k].epoch == ds[i].epoch {
      assert i < k ==> ds[i].counter < ds[k].counter;
    } else {
      LastCounterIsLargest(ds[..k], i);
    }
  }

  /** Opening a slot, or noting that a hello left, changes no session. */
  lemma SameSessionKeepsTable(b: Boot, prim: Primitives, installs: seq<Party>, epoch: map<Id, nat>, table: Table,
                              ds: seq<Delivery>, rs: seq<Seal>, p: Id, slot: Session)
    requires InstallsOk(b, prim, installs) && EpochsOk(installs, epoch)
    requires TableOk(b, prim, installs, epoch, table) && WindowsOk(table, epoch, ds) && CountersOk(table, epoch, rs)
    requires p in b.peers && SameSession(table, p, slot)
    ensures var t := table[p := slot];
            TableOk(b, prim, installs, epoch, t) && WindowsOk(t, epoch, ds) && CountersOk(t, epoch, rs)
  {
    var t := table[p := slot];
    forall q | q in t ensures SlotOk(b, prim, installs, epoch, q, t[q]) {
      if q in table {
        assert SlotOk(b, prim, installs, epoch, q, table[q]);
      }
    }
  }

  lemma HelloSentIsHarmless(b: Boot, prim: Primitives, s: State, p: Id, slot: Session)
    requires Inv(b, prim, s) && p in b.peers && SameSession(s.table, p, slot)
    ensures Inv(b, prim, s.(table := s.table[p := slot]))
  {
    SameSessionKeepsTable(b, prim, s.installs, s.epoch, s.table, s.deliveries, AllSeals(s), p, slot);
  }

  lemma NewInstallOk(b: Boot, prim: Primitives, installs: seq<Party>, epoch: map<Id, nat>, table: Table,
                     peer: Party, slot: Session)
    requires InstallsOk(b, prim, installs) && EpochsOk(installs, epoch)
    requires TableOk(b, prim, installs, epoch, table)
    requires Derivable(b, prim, peer)
    requires slot == Installed(slot, peer, Keys(b, prim, peer))
    ensures InstallsOk(b, prim, installs + [peer]) && EpochsOk(installs + [peer], epoch[peer.id := |installs|])
    ensures TableOk(b, prim, installs + [peer], epoch[peer.id := |installs|], table[peer.id := slot])
  {
    var t, installs', epoch' := table[peer.id := slot], installs + [peer], epoch[peer.id := |installs|];
    forall q | q in t ensures SlotOk(b, prim, installs', epoch', q, t[q]) {
      if q != peer.id {
        assert SlotOk(b, prim, installs, epoch, q, table[q]);
      }
    }
  }

  lemma NewInstallCounters(installs: seq<Party>, epoch: map<Id, nat>, table: Table,
                           ds: seq<Delivery>, rs: seq<Seal>, p: Id, slot: Session)
    requires WindowsOk(table, epoch, ds) && CountersOk(table, epoch, rs)
    requires forall i | 0 <= i < |ds| :: ds[i].epoch < |installs|
    requires forall i | 0 <= i < |rs| :: rs[i].epoch < |installs|
    requires slot.rxCounter == 0
    ensures WindowsOk(table[p := slot], epoch[p := |installs|], ds)
    ensures CountersOk(table[p := slot], epoch[p := |installs|], rs)
  {
    LastCounterOfNewEpoch(ds, |installs|);
  }

  lemma InstallKeepsInv(b: Boot, prim: Primitives, s: State, peer: Party, slot: Session)
    requires Inv(b, prim, s) && s.rx.RxIdle?
    requires Derivable(b, prim, peer)
    requires slot == Installed(slot, peer, Keys(b, prim, peer))
    ensures Inv(b, prim, Install(s, peer).(table := s.table[peer.id := slot]))
  {
    hide DeriveSession, Encrypt, Decrypt, TranscriptBytes, StrLess;
    var t := Install(s, peer).(table := s.table[peer.id := slot]);
    NewInstallOk(b, prim, s.installs, s.epoch, s.table, peer, slot);
    forall i | 0 <= i < |s.deliveries|
      ensures DeliveryOk(b, prim, t.installs, s.deliveries[i]) && s.deliveries[i].epoch < |s.installs|
    {
      assert DeliveryOk(b, prim, s.installs, s.deliveries[i]);
    }
    var rs := AllSeals(s);
    forall i | 0 <= i < |rs| ensures SealOk(b, prim, t.installs, rs[i]) && rs[i].epoch < |s.installs| {
      assert SealOk(b, prim, s.installs, rs[i]);
    }
    NewInstallCounters(s.installs, s.epoch, s.table, s.deliveries, rs, peer.id, slot);
  }

  lemma HelloKeepsInv(b: Boot, prim: Primitives, s: State, f: Frame)
    requires Provisioned(b, prim) && Inv(b, prim, s)
    ensures Inv(b, prim, StepHello(b, prim, s, f))
  {
    hide TranscriptBytes, StrLess;
    if s.rx.RxIdle? && HelloEffectOn(b, prim, s, f).Some? {
      var e := HelloEffectOn(b, prim, s, f).value;
      var slot := AcceptHelloTouchesOneSlot(s.table, PeerOf(f), CheckHello(b, prim, f).value);
      if e.installed {
        InstallKeepsInv(b, prim, s, PeerOf(f), slot);
      } else {
        HelloSentIsHarmless(b, prim, s, f.from, slot);
      }
    }
  }

  lemma DataKeepsInv(b: Boot, prim: Primitives, s: State, f: Frame)
    requires Inv(b, prim, s)
    ensures Inv(b, prim, StepData(b, s, f))
  {
    hide DeriveSession, Encrypt, Decrypt, TranscriptBytes, StrLess;
  }

  lemma LastCounterAfter(ds: seq<Delivery>, d: Delivery, epoch: nat)
    ensures LastCounter(ds + [d], epoch) == if d.epoch == epoch then d.counter else LastCounter(ds, epoch)
  {
    assert (ds + [d])[..|ds|] == ds;
  }

  lemma NewDelivery(ds: seq<Delivery>, d: Delivery, epoch: map<Id, nat>, table: Table, p: Id)
    requires DeliveriesIncrease(ds) && WindowsOk(table, epoch, ds)
    requires p in epoch && d.epoch == epoch[p] && d.counter > table[p].rxCounter
    requires forall q | q in epoch && q != p :: epoch[q] != epoch[p]
    ensures DeliveriesIncrease(ds + [d])
    ensures WindowsOk(table[p := table[p].(rxCounter := d.counter)], epoch, ds + [d])
  {
    forall i | 0 <= i < |ds| && ds[i].epoch == d.epoch ensures ds[i].counter < d.counter {
      LastCounterIsLargest(ds, i);
    }
    var t := table[p := table[p].(rxCounter := d.counter)];
    forall q | q in epoch ensures q in t && t[q].rxCounter == LastCounter(ds + [d], epoch[q]) {
      LastCounterAfter(ds, d, epoch[q]);
    }
  }

  lemma AdvanceKeepsTable(b: Boot, prim: Primitives, installs: seq<Party>, epoch: map<Id, nat>, table: Table,
                          rs: seq<Seal>, p: Id, tx: u64, rx: u64)
    requires InstallsOk(b, prim, installs) && EpochsOk(installs, epoch)
    requires TableOk(b, prim, installs, epoch, table) && CountersOk(table, epoch, rs)
    requires p in table && tx >= table[p].txCounter
    ensures var t := table[p := table[p].(txCounter := tx, rxCounter := rx)];
            TableOk(b, prim, installs, epoch, t) && CountersOk(t, epoch, rs)
  {
    var t := table[p := table[p].(txCounter := tx, rxCounter := rx)];
    forall q | q in t ensures SlotOk(b, prim, installs, epoch, q, t[q]) {
      assert SlotOk(b, prim, installs, epoch, q, table[q]);
    }
  }

  lemma OpenKeepsInv(b: Boot, prim: Primitives, s: State)
    requires Inv(b, prim, s)
    ensures Inv(b, prim, StepOpen(b, s))
  {
    hide DeriveSession, Encrypt, Decrypt, TranscriptBytes, StrLess;
    if s.rx.Opening? && Decrypt(s.rx.key, s.rx.from, b.self.id, s.rx.sid, s.rx.counter, s.rx.sealed).Some? {
      var t, p := StepOpen(b, s), s.rx.from;
      var d := t.deliveries[|s.deliveries|];
      assert SlotOk(b, prim, s.installs, s.epoch, p, s.table[p]);
      DecryptKeepsLength(s.rx.key, s.rx.from, b.self.id, s.rx.sid, s.rx.counter, s.rx.sealed);
      NewDelivery(s.deliveries, d, s.epoch, s.table, p);
      AdvanceKeepsTable(b, prim, s.installs, s.epoch, s.table, AllSeals(s), p, s.table[p].txCounter, d.counter);
      assert t.table == s.table[p := s.table[p].(rxCounter := d.counter)];
      assert AllSeals(t) == AllSeals(s);
    }
  }

  lemma RxMarkKeepsInv(b: Boot, prim: Primitives, s: State)
    requires Inv(b, prim, s)
    ensures Inv(b, prim, StepRxMark(s))
  {
    hide DeriveSession, Encrypt, Decrypt, TranscriptBytes, StrLess;
    if s.rx.RxMarking? && Open(s.table, s.rx.peer).Some? {
      MarkKeepsSession(s.table, s.rx.peer);
      HelloSentIsHarmless(b, prim, s, s.rx.peer, MarkHelloSent(s.table, s.rx.peer)[s.rx.peer]);
    }
  }

  lemma TxMarkKeepsInv(b: Boot, prim: Primitives, s: State)
    requires Inv(b, prim, s)
    ensures Inv(b, prim, StepTxMark(s))
  {
    hide DeriveSession, Encrypt, Decrypt, TranscriptBytes, StrLess;
    if s.tx.TxMarking? && Open(s.table, s.tx.peer).Some? {
      MarkKeepsSession(s.table, s.tx.peer);
      HelloSentIsHarmless(b, prim, s, s.tx.peer, MarkHelloSent(s.table, s.tx.peer)[s.tx.peer]);
    }
  }

  lemma NewSeal(rs: seq<Seal>, r: Seal, epoch: map<Id, nat>, table: Table, to: Id)
    requires SealsIncrease(rs) && CountersOk(table, epoch, rs)
    requires to in table && to in epoch && r.to == to && r.epoch == epoch[to] && r.counter == table[to].txCounter + 1
    requires forall i | 0 <= i < |rs| && rs[i].epoch == r.epoch :: rs[i].to == to
    ensures SealsIncrease(rs + [r])
    ensures CountersOk(table[to := table[to].(txCounter := r.counter)], epoch, rs + [r])
  {
  }

  lemma AllocKeepsWindows(b: Boot, table: Table, epoch: map<Id, nat>, ds: seq<Delivery>, rx: RxTask, to: Id, tx: u64)
    requires WindowsOk(table, epoch, ds) && TasksOk(b, table, rx, TxIdle) && to in table
    ensures var t := table[to := table[to].(txCounter := tx)]; WindowsOk(t, epoch, ds) && TasksOk(b, t, rx, TxIdle)
  {
  }

  lemma EpochNamesPeer(b: Boot, prim: Primitives, installs: seq<Party>, rs: seq<Seal>)
    requires InstallsOk(b, prim, installs) && SealsOk(b, prim, installs, rs)
    ensures forall i | 0 <= i < |rs| :: rs[i].epoch < |installs| && rs[i].to == installs[rs[i].epoch].id
  {
    forall i | 0 <= i < |rs| ensures rs[i].epoch < |installs| && rs[i].to == installs[rs[i].epoch].id {
      assert SealOk(b, prim, installs, rs[i]);
    }
  }

  lemma AllocKeepsInv(b: Boot, prim: Primitives, s: State, to: Id, text: Bytes)
    requires Inv(b, prim, s)
    ensures Inv(b, prim, StepAlloc(b, s, to, text))
  {
    hide DeriveSession, Encrypt, Decrypt, TranscriptBytes, StrLess;
    if s.tx.TxIdle? && CheckMessage(b, text).Ok? && AllocateCounter(s.table, to).Ok? {
      var t := StepAlloc(b, s, to, text);
      var r := t.tx.pending;
      assert SlotOk(b, prim, s.installs, s.epoch, to, s.table[to]);
      EpochNamesPeer(b, prim, s.installs, s.seals);
      NewSeal(s.seals, r, s.epoch, s.table, to);
      AdvanceKeepsTable(b, prim, s.installs, s.epoch, s.table, s.seals, to, r.counter, s.table[to].rxCounter);
      AllocKeepsWindows(b, s.table, s.epoch, s.deliveries, s.rx, to, r.counter);
      assert AllSeals(s) == s.seals && AllSeals(t) == s.seals + [r];
    }
  }

  lemma SealKeepsInv(b: Boot, prim: Primitives, s: State, encrypted: bool)
    requires Inv(b, prim, s)
    ensures Inv(b, prim, StepSeal(b, s, encrypted))
  {
    hide DeriveSession, Encrypt, Decrypt, TranscriptBytes, StrLess;
    if s.tx.Sealing? {
      var rs := AllSeals(s);
      assert s.seals == rs[..|s.seals|];
      assert forall i | 0 <= i < |s.seals| :: s.seals[i] == rs[i];
    }
  }

  lemma SendsKeepInv(b: Boot, prim: Primitives, s: State, to: Id, sent: bool)
    requires Inv(b, prim, s)
    ensures Inv(b, prim, StepReply(b, s, sent))
    ensures Inv(b, prim, StepTxHello(b, s, to, sent))
  {
    hide DeriveSession, Encrypt, Decrypt, TranscriptBytes, StrLess;
  }

  lemma StepKeepsInv(b: Boot, prim: Primitives, s: State, e: Event)
    requires Provisioned(b, prim) && Inv(b, prim, s)
    ensures Inv(b, prim, Step(b, prim, s, e))
  {
    match e
    case RxHello(f) => HelloKeepsInv(b, prim, s, f);
    case RxReply(sent) => SendsKeepInv(b, prim, s, [], sent);
    case RxMark => RxMarkKeepsInv(b, prim, s);
    case RxData(f) => DataKeepsInv(b, prim, s, f);
    case RxOpen => OpenKeepsInv(b, prim, s);
    case TxHello(to, sent) => SendsKeepInv(b, prim, s, to, sent);
    case TxMark => TxMarkKeepsInv(b, prim, s);
    case TxAlloc(to, text) => AllocKeepsInv(b, prim, s, to, text);
    case TxSeal(encrypted) => SealKeepsInv(b, prim, s, encrypted);
  }

  /** The invariant holds after every run. */
  lemma {:induction false} RunKeepsInv(b: Boot, prim: Primitives, s: State, es: seq<Event>)
    requires Provisioned(b, prim) && Inv(b, prim, s)
    ensures Inv(b, prim, Run(b, prim, s, es))
    decreases |es|
  {
    if |es| == 0 {
    } else {
      StepKeepsInv(b, prim, s, es[0]);
      RunKeepsInv(b, prim, Step(b, prim, s, es[0]), es[1..]);
    }
  }

  lemma ReachableInv(b: Boot, prim: Primitives, es: seq<Event>)
    requires Provisioned(b, prim)
    ensures Inv(b, prim, Run(b, prim, INIT, es))
  {
    RunKeepsInv(b, prim, INIT, es);
  }
}
