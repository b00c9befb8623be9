/**
 * The cryptographic operations of main/crypto_engine.c over ideal primitives.
 *
 * Signatures, session keys and AES-GCM boxes are terms of free datatypes: a term can only be equal to
 * another one built from the same parts. The octets of a session id come out of HKDF and are used as
 * octets (in the GCM nonce and the associated data), so they are given by an arbitrary function of the
 * same inputs; nothing below assumes that two sessions get different session ids.
 */
module Crypto {
  import opened Bytes
  import opened Encoding
  import opened Wrappers

  type SessionId = s: Bytes | |s| == 8 witness [0, 0, 0, 0, 0, 0, 0, 0]

  /** What the P-256 and HKDF code decides: the id octets of a session and the valid public keys. */
  datatype Primitives = Primitives(
    sessionId: (Bytes, set<Bytes>) -> SessionId,
    onCurve: Bytes -> bool)

  datatype Direction = LowToHigh | HighToLow

  /** An AES key: all-zero storage, or one half of the HKDF output for a transcript and an ECDH secret.
      The secret is named by the unordered pair of public keys it is computed from. */
  datatype Key = ZeroKey | Key(dir: Direction, transcript: Bytes, dh: set<Bytes>)

  datatype Signature = Signed(signer: Id, message: Bytes) | Forged | Undecodable

  /** Ciphertext and tag: one produced by AES-GCM, or octets of some length that no one sealed. */
  datatype Sealed = Box(key: Key, nonce: Bytes, aad: Bytes, text: Bytes) | Scrap(length: nat)

  function CiphertextLength(c: Sealed): nat {
    match c
    case Box(_, _, _, text) => |text|
    case Scrap(n) => n
  }

  // ---- Signed hellos -----------------------------------------------------

  /** crypto_sign_hello: the signature by the identity of `from`, or None for an id that cannot be encoded. */
  function SignHello(local: Party, to: Id): Option<Signature> {
    if EncodableId(local.id) && EncodableId(to)
    then Some(Signed(local.id, HelloBytes(local.id, to, local.pub, local.nonce)))
    else None
  }

  /** crypto_verify_hello with the identity key provisioned for `from`. */
  predicate VerifyHello(from: Id, to: Id, pub: Bytes, nonce: Bytes, sig: Signature) {
    && EncodableId(from)
    && EncodableId(to)
    && sig == Signed(from, HelloBytes(from, to, pub, nonce))
  }

  // ---- Session derivation ------------------------------------------------

  datatype Derived = Derived(tx: Key, rx: Key, sid: SessionId)

  /** crypto_derive_session: None for a point off the curve or an id that cannot be encoded. */
  function DeriveSession(prim: Primitives, local: Party, peer: Party): Option<Derived> {
    if !prim.onCurve(peer.pub) || !EncodableId(local.id) || !EncodableId(peer.id) then None
    else
      var transcript := TranscriptBytes(local, peer);
      var dh := {local.pub, peer.pub};
      var lowToHigh := Key(LowToHigh, transcript, dh);
      var highToLow := Key(HighToLow, transcript, dh);
      var sid := prim.sessionId(transcript, dh);
      if StrLess(local.id, peer.id)
      then Some(Derived(lowToHigh, highToLow, sid))
      else Some(Derived(highToLow, lowToHigh, sid))
  }

  /** What each key and the session id are made of: the one transcript and the one secret of the two ends, and for the
      keys the direction, in which the end whose id comes first in the dictionary order is low. */
  lemma DerivationParts(prim: Primitives, local: Party, peer: Party)
    requires WellFormedParty(local) && WellFormedParty(peer) && local.id != peer.id
    ensures DeriveSession(prim, local, peer).Some? <==> prim.onCurve(peer.pub)
    ensures DeriveSession(prim, local, peer).Some? ==>
              var d := DeriveSession(prim, local, peer).value;
              var transcript, dh := TranscriptBytes(local, peer), {local.pub, peer.pub};
              && d.sid == prim.sessionId(transcript, dh)
              && (Precedes(local.id, peer.id) ==>
                  d.tx == Key(LowToHigh, transcript, dh) && d.rx == Key(HighToLow, transcript, dh))
              && (Precedes(peer.id, local.id) ==>
                  d.tx == Key(HighToLow, transcript, dh) && d.rx == Key(LowToHigh, transcript, dh))
    ensures Precedes(local.id, peer.id) || Precedes(peer.id, local.id)
  {
    hide TranscriptBytes;
    StrLessIsDictionaryOrder(local.id, peer.id);
    StrLessIsDictionaryOrder(peer.id, local.id);
    StrLessIsStrictTotalOrder(local.id, peer.id, local.id);
  }

  /** Running the derivation at both ends gives mirrored keys and one session id. */
  lemma DerivationMirrors(prim: Primitives, p: Party, q: Party)
    requires WellFormedParty(p) && WellFormedParty(q) && p.id != q.id
    requires prim.onCurve(p.pub) && prim.onCurve(q.pub)
    ensures TranscriptBytes(p, q) == TranscriptBytes(q, p)
    ensures DeriveSession(prim, p, q).Some? && DeriveSession(prim, q, p).Some?
    ensures var here, there := DeriveSession(prim, p, q).value, DeriveSession(prim, q, p).value;
            && here.tx == there.rx
            && here.rx == there.tx
            && here.sid == there.sid
            && here.tx != here.rx
  {
    TranscriptSymmetric(p, q);
    StrLessIsStrictTotalOrder(p.id, q.id, p.id);
    assert {p.pub, q.pub} == {q.pub, p.pub};
  }

  /** A device's transmit key names the handshake it came from, and so does its receive key. */
  lemma KeyDeterminesPeer(prim: Primitives, local: Party, q: Party, q': Party)
    requires WellFormedParty(local) && WellFormedParty(q) && WellFormedParty(q')
    requires q.id != local.id && q'.id != local.id
    requires DeriveSession(prim, local, q).Some? && DeriveSession(prim, local, q').Some?
    requires var d, d' := DeriveSession(prim, local, q).value, DeriveSession(prim, local, q').value;
             d.tx == d'.tx || d.rx == d'.rx
    ensures q == q'
  {
    TranscriptInjective(local, q, local, q');
  }

  /** If one device's receive key is some device's transmit key, the two are the ends of one handshake. */
  lemma SharedKeyPairsEnds(prim: Primitives, p: Party, q: Party, r: Party, t: Party)
    requires WellFormedParty(p) && WellFormedParty(q) && WellFormedParty(r) && WellFormedParty(t)
    requires p.id != q.id && r.id != t.id
    requires DeriveSession(prim, p, q).Some? && DeriveSession(prim, r, t).Some?
    requires DeriveSession(prim, p, q).value.rx == DeriveSession(prim, r, t).value.tx
    ensures r == q && t == p
  {
    TranscriptInjective(p, q, r, t);
    StrLessIsStrictTotalOrder(p.id, q.id, p.id);
  }

  lemma SessionKeyParts(prim: Primitives, local: Party, peer: Party)
    requires DeriveSession(prim, local, peer).Some?
    ensures var d := DeriveSession(prim, local, peer).value;
            d.tx.Key? && d.rx.Key? && d.tx.dh == d.rx.dh == {local.pub, peer.pub}
  {
  }

  // ---- Message protection ------------------------------------------------

  /** crypto_encrypt_message. */
  function Encrypt(key: Key, from: Id, to: Id, sid: Bytes, counter: u64, text: Bytes): Option<Sealed>
    requires |sid| == SESSION_ID_BYTES
  {
    if counter == 0 || !EncodableId(from) || !EncodableId(to) then None
    else Some(Box(key, NonceBytes(sid, counter), AadBytes(from, to, sid, counter), text))
  }

  /** crypto_decrypt_message: the plaintext, or None when authentication fails. */
  function Decrypt(key: Key, from: Id, to: Id, sid: Bytes, counter: u64, c: Sealed): Option<Bytes>
    requires |sid| == SESSION_ID_BYTES
  {
    if counter == 0 || !EncodableId(from) || !EncodableId(to) then None
    else match c
      case Box(k, n, a, text) =>
        if k == key && n == NonceBytes(sid, counter) && a == AadBytes(from, to, sid, counter)
        then Some(text) else None
      case Scrap(_) => None
  }

  /** Decryption succeeds exactly on what was sealed with the same key, ids, session and counter. */
  lemma DecryptInvertsEncrypt(key: Key, from: Id, to: Id, sid: Bytes, c: u64, text: Bytes,
                              key': Key, from': Id, to': Id, sid': Bytes, c': u64)
    requires |sid| == |sid'| == SESSION_ID_BYTES
    requires Encrypt(key, from, to, sid, c, text).Some?
    ensures var box := Encrypt(key, from, to, sid, c, text).value;
            Decrypt(key', from', to', sid', c', box) ==
            if key == key' && from == from' && to == to' && sid == sid' && c == c' then Some(text) else None
  {
    var box := Encrypt(key, from, to, sid, c, text).value;
    if Decrypt(key', from', to', sid', c', box).Some? {
      AadInjective(from, to, sid, c, from', to', sid', c');
    }
  }

  lemma DecryptKeepsLength(key: Key, from: Id, to: Id, sid: Bytes, c: u64, box: Sealed)
    requires |sid| == SESSION_ID_BYTES && Decrypt(key, from, to, sid, c, box).Some?
    ensures |Decrypt(key, from, to, sid, c, box).value| == CiphertextLength(box)
  {
  }

  lemma DecryptNeedsIds(key: Key, from: Id, to: Id, sid: Bytes, c: u64, box: Sealed)
    requires |sid| == SESSION_ID_BYTES && Decrypt(key, from, to, sid, c, box).Some?
    ensures c > 0 && EncodableId(from) && EncodableId(to)
  {
  }

  // ---- The wrappers, over the byte encoders ------------------------------

  method EncryptMessage(key: Key, from: Id, to: Id, sid: Bytes, counter: u64, text: Bytes)
    returns (r: Option<Sealed>)
    requires |sid| == SESSION_ID_BYTES
    ensures r == Encrypt(key, from, to, sid, counter, text)
  {
    if counter == 0 {
      return None;
    }
    var nonce, aad := new byte[GCM_NONCE_BYTES], new byte[128];
    BuildGcmNonce(sid, counter, nonce);
    var ok, length := BuildAad(from, to, sid, counter, aad);
    if !ok {
      return None;
    }
    return Some(Box(key, nonce[..], aad[..length], text));
  }

  method DecryptMessage(key: Key, from: Id, to: Id, sid: Bytes, counter: u64, c: Sealed)
    returns (r: Option<Bytes>)
    requires |sid| == SESSION_ID_BYTES
    ensures r == Decrypt(key, from, to, sid, counter, c)
  {
    if counter == 0 {
      return None;
    }
    var nonce, aad := new byte[GCM_NONCE_BYTES], new byte[128];
    BuildGcmNonce(sid, counter, nonce);
    var ok, length := BuildAad(from, to, sid, counter, aad);
    if !ok || c != Box(key, nonce[..], aad[..length], if c.Box? then c.text else []) {
      return None;
    }
    return Some(c.text);
  }

  method DeriveKeys(prim: Primitives, local: Party, peer: Party) returns (r: Option<Derived>)
    requires |local.pub| == |peer.pub| == PUBLIC_BYTES
    requires |local.nonce| == |peer.nonce| == BOOT_NONCE_BYTES
    ensures r == DeriveSession(prim, local, peer)
  {
    if !prim.onCurve(peer.pub) {
      return None;
    }
    var ok, transcript := BuildTranscript(local, peer);
    if !ok {
      return None;
    }
    var dh := {local.pub, peer.pub};
    var localIsLow := StrLess(local.id, peer.id);
    var tx := Key(if localIsLow then LowToHigh else HighToLow, transcript, dh);
    var rx := Key(if localIsLow then HighToLow else LowToHigh, transcript, dh);
    return Some(Derived(tx, rx, prim.sessionId(transcript, dh)));
  }

  method SignHelloMessage(local: Party, to: Id) returns (r: Option<Signature>)
    requires |local.pub| == PUBLIC_BYTES && |local.nonce| == BOOT_NONCE_BYTES
    ensures r == SignHello(local, to)
  {
    var ok, canonical := BuildHello(local.id, to, local.pub, local.nonce);
    return if ok then Some(Signed(local.id, canonical)) else None;
  }

  method VerifyHelloMessage(from: Id, to: Id, pub: Bytes, nonce: Bytes, sig: Signature) returns (ok: bool)
    requires |pub| == PUBLIC_BYTES && |nonce| == BOOT_NONCE_BYTES
    ensures ok == VerifyHello(from, to, pub, nonce, sig)
  {
    var built, canonical := BuildHello(from, to, pub, nonce);
    return built && sig == Signed(from, canonical);
  }
}
