/** The fixed table of pairwise sessions, main/session_manager.c: eight slots that behave as a bounded map. */
module Sessions {
  import opened Bytes
  import opened Encoding
  import opened Crypto
  import opened Wrappers

  const MAX_PEERS: nat := 8

  datatype Session = Session(
    helloSent: bool,
    established: bool,
    peerPub: Bytes,
    peerNonce: Bytes,
    tx: Key,
    rx: Key,
    sid: SessionId,
    txCounter: u64,
    rxCounter: u64)

  /** A slot after memset: nothing sent, nothing established, all octets zero. */
  const EMPTY_SESSION: Session := Session(
    false, false, BigEndian(0, PUBLIC_BYTES), BigEndian(0, BOOT_NONCE_BYTES),
    ZeroKey, ZeroKey, [0, 0, 0, 0, 0, 0, 0, 0], 0, 0)

  /** Every flag, counter and octet is zero. */
  ghost predicate Cleared(s: Session) {
    && !s.helloSent && !s.established && s.txCounter == 0 && s.rxCounter == 0
    && s.tx == ZeroKey && s.rx == ZeroKey && (forall i | 0 <= i < |s.sid| :: s.sid[i] == 0)
    && |s.peerPub| == PUBLIC_BYTES && (forall i | 0 <= i < |s.peerPub| :: s.peerPub[i] == 0)
    && |s.peerNonce| == BOOT_NONCE_BYTES && (forall i | 0 <= i < |s.peerNonce| :: s.peerNonce[i] == 0)
  }

  lemma {:induction false} BigEndianZero(n: nat)
    ensures forall i | 0 <= i < n :: BigEndian(0, n)[i] == 0
  {
    if n == 0 {
    } else {
      BigEndianZero(n - 1);
    }
  }

  lemma EmptyIsCleared()
    ensures Cleared(EMPTY_SESSION)
  {
    BigEndianZero(PUBLIC_BYTES);
    BigEndianZero(BOOT_NONCE_BYTES);
  }

  type Table = map<Id, Session>

  /** session_manager_get_or_create on the map: None where the code returns NULL. */
  function Open(m: Table, id: Id): Option<Table> {
    if id in m then Some(m)
    else if |id| >= DEVICE_ID_MAX || |m| >= MAX_PEERS then None
    else Some(m[id := EMPTY_SESSION])
  }

  /** With at most eight provisioned peers, all with valid ids, a slot is found for every one of them. */
  lemma ProvisionedPeersAlwaysFit(m: Table, peers: set<Id>, id: Id)
    requires m.Keys <= peers && |peers| <= MAX_PEERS && id in peers
    requires EncodableId(id)
    ensures Open(m, id).Some?
  {
    if id !in m {
      assert m.Keys <= peers - {id};
      Smaller(m.Keys, peers - {id});
    }
  }

  lemma {:induction false} Smaller<T>(a: set<T>, b: set<T>)
    requires a <= b
    ensures |a| <= |b|
    decreases a
  {
    if a == {} {
    } else {
      var x :| x in a;
      Smaller(a - {x}, b - {x});
    }
  }

  function Members(peers: seq<Id>): set<Id> {
    set p | p in peers
  }

  lemma {:induction false} MembersSize(peers: seq<Id>)
    ensures |Members(peers)| <= |peers|
  {
    if |peers| == 0 {
    } else {
      MembersSize(peers[1..]);
      assert Members(peers) == {peers[0]} + Members(peers[1..]) by { assert peers == [peers[0]] + peers[1..]; }
    }
  }

  // ---- Slots -------------------------------------------------------------

  datatype Slot = Slot(used: bool, id: Id, session: Session)

  ghost predicate DistinctIds(s: seq<Slot>) {
    forall i, j | 0 <= i < j < |s| && s[i].used && s[j].used :: s[i].id != s[j].id
  }

  ghost function ToMap(s: seq<Slot>): Table {
    if |s| == 0 then map[]
    else
      var m, last := ToMap(s[..|s| - 1]), s[|s| - 1];
      if last.used then m[last.id := last.session] else m
  }

  /** The slot holding an id, or -1. */
  ghost function Where(s: seq<Slot>, id: Id): (k: int)
    ensures -1 <= k < |s|
    ensures k >= 0 ==> s[k].used && s[k].id == id
    ensures k < 0 ==> forall i | 0 <= i < |s| :: s[i].used ==> s[i].id != id
  {
    if |s| == 0 then -1
    else if s[|s| - 1].used && s[|s| - 1].id == id then |s| - 1
    else Where(s[..|s| - 1], id)
  }

  lemma {:induction false} ToMapAt(s: seq<Slot>, id: Id)
    ensures id in ToMap(s) <==> Where(s, id) >= 0
    ensures id in ToMap(s) ==> ToMap(s)[id] == s[Where(s, id)].session
  {
    if |s| == 0 {
    } else {
      ToMapAt(s[..|s| - 1], id);
    }
  }

  ghost predicate AllUsed(s: seq<Slot>) {
    forall i | 0 <= i < |s| :: s[i].used
  }

  /** The map is full exactly when every slot is used. */
  lemma {:induction false} ToMapSize(s: seq<Slot>)
    requires DistinctIds(s)
    ensures |ToMap(s)| <= |s|
    ensures |ToMap(s)| == |s| <==> AllUsed(s)
  {
    if |s| == 0 {
    } else {
      var init, last := s[..|s| - 1], s[|s| - 1];
      ToMapSize(init);
      assert AllUsed(s) <==> AllUsed(init) && last.used by {
        assert forall i | 0 <= i < |init| :: s[i] == init[i];
      }
      if last.used {
        ToMapAt(init, last.id);
        assert ToMap(s).Keys == ToMap(init).Keys + {last.id};
      }
    }
  }

  /** Writing a slot, whether it was free or already held this id, updates one key of the map. */
  lemma ToMapUpdate(s: seq<Slot>, k: nat, id: Id, v: Session)
    requires DistinctIds(s) && k < |s|
    requires if s[k].used then s[k].id == id else id !in ToMap(s)
    ensures var t := s[k := Slot(true, id, v)]; DistinctIds(t) && ToMap(t) == ToMap(s)[id := v]
  {
    var t := s[k := Slot(true, id, v)];
    ToMapAt(s, id);
    assert forall i | 0 <= i < |s| && i != k && s[i].used :: s[i].id != id;
    assert DistinctIds(t);
    assert t[k].used && t[k].id == id;
    forall x
      ensures x in ToMap(t) <==> x in ToMap(s)[id := v]
      ensures x in ToMap(t) ==> ToMap(t)[x] == ToMap(s)[id := v][x]
    {
      ToMapAt(s, x);
      ToMapAt(t, x);
      var i, j := Where(s, x), Where(t, x);
      if x != id {
        assert i >= 0 ==> t[i] == s[i];
        assert j >= 0 ==> t[j] == s[j];
      }
    }
  }

  class SessionManager {
    const slots: array<Slot>

    ghost predicate Valid()
      reads this, slots
    {
      slots.Length == MAX_PEERS && DistinctIds(slots[..])
    }

    ghost function View(): Table
      reads this, slots
    {
      ToMap(slots[..])
    }

    constructor ()
      ensures Valid() && fresh(slots) && View() == map[]
    {
      slots := new Slot[MAX_PEERS](_ => Slot(false, [], EMPTY_SESSION));
      new;
      AllUnusedIsEmpty(slots[..]);
    }

    static lemma {:induction false} AllUnusedIsEmpty(s: seq<Slot>)
      requires forall i | 0 <= i < |s| :: !s[i].used
      ensures DistinctIds(s) && ToMap(s) == map[]
    {
      if |s| == 0 {
      } else {
        AllUnusedIsEmpty(s[..|s| - 1]);
      }
    }

    /** session_manager_find: the index of the slot, or -1 where the code returns NULL. */
    method Find(id: Id) returns (k: int)
      requires Valid()
      ensures -1 <= k < MAX_PEERS
      ensures k >= 0 <==> id in View()
      ensures k >= 0 ==> slots[k].used && slots[k].id == id && slots[k].session == View()[id]
    {
      ToMapAt(slots[..], id);
      for i := 0 to MAX_PEERS
        invariant forall j | 0 <= j < i :: slots[j].used ==> slots[j].id != id
      {
        if slots[i].used && slots[i].id == id {
          return i;
        }
      }
      return -1;
    }

    /** The first slot that is not in use, or -1. */
    method FindFree() returns (k: int)
      requires Valid()
      ensures -1 <= k < MAX_PEERS
      ensures k >= 0 <==> !AllUsed(slots[..])
      ensures k >= 0 ==> !slots[k].used && forall j | 0 <= j < k :: slots[j].used
    {
      for i := 0 to MAX_PEERS
        invariant forall j | 0 <= j < i :: slots[j].used
      {
        if !slots[i].used {
          assert !slots[..][i].used;
          return i;
        }
      }
      return -1;
    }

    /** session_manager_get_or_create: refines Open, and touches at most the slot it returns. */
    method GetOrCreate(id: Id) returns (k: int)
      requires Valid()
      modifies slots
      ensures Valid() && -1 <= k < MAX_PEERS
      ensures Open(old(View()), id) == if k < 0 then None else Some(View())
      ensures k < 0 ==> slots[..] == old(slots[..])
      ensures k >= 0 ==> slots[k].used && slots[k].id == id && id in View() && slots[k].session == View()[id]
      ensures forall i | 0 <= i < MAX_PEERS && i != k :: slots[i] == old(slots[i])
      ensures k < 0 <==> && (forall i | 0 <= i < MAX_PEERS && old(slots[i].used) :: old(slots[i].id) != id)
                         && (|id| >= 32 || forall i | 0 <= i < MAX_PEERS :: old(slots[i].used))
      ensures k >= 0 && old(slots[k].used) ==> slots[k] == old(slots[k])
      ensures k >= 0 && !old(slots[k].used) ==> Cleared(slots[k].session)
    {
      ToMapAt(slots[..], id);
      k := Find(id);
      if k >= 0 {
        return;
      }
      EmptyIsCleared();
      hide Cleared;
      if |id| >= DEVICE_ID_MAX {
        return -1;
      }
      ToMapSize(slots[..]);
      k := FindFree();
      if k >= 0 {
        ToMapUpdate(slots[..], k, id, EMPTY_SESSION);
        assert !AllUsed(slots[..]);
        hide AllUsed;
        slots[k] := Slot(true, id, EMPTY_SESSION);
        assert slots[..] == old(slots[..])[k := Slot(true, id, EMPTY_SESSION)];
      }
    }

    /** A write through the session pointer that Find or GetOrCreate returned. */
    method Store(k: nat, v: Session)
      requires Valid() && k < MAX_PEERS && slots[k].used
      modifies slots
      ensures Valid() && View() == old(View())[slots[k].id := v]
      ensures slots[k].used && slots[k].id == old(slots[k].id)
      ensures forall i | 0 <= i < MAX_PEERS && i != k :: slots[i] == old(slots[i])
    {
      ToMapUpdate(slots[..], k, slots[k].id, v);
      slots[k] := slots[k].(session := v);
      assert slots[..] == old(slots[..])[k := Slot(true, old(slots[k].id), v)];
    }
  }
}
