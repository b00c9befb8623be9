/** Octets, C strings and fixed-width integers as the firmware sees them. */
module Bytes {

  newtype byte = x: int | 0 <= x < 256
  type Bytes = seq<byte>

  const U64_MAX: nat := 0xFFFF_FFFF_FFFF_FFFF
  type u64 = x: nat | x <= 0xFFFF_FFFF_FFFF_FFFF

  /** The text of a C string: everything before the terminating NUL. */
  ghost predicate NulFree(s: Bytes) {
    forall i | 0 <= i < |s| :: s[i] != 0
  }

  // ---- strcmp ------------------------------------------------------------

  /** The unsigned character a C string shows at its start; 0 is the terminator. */
  function First(s: Bytes): int {
    if |s| == 0 then 0 else s[0] as int
  }

  function Rest(s: Bytes): Bytes {
    if |s| == 0 then [] else s[1..]
  }

  /** strcmp on unsigned characters: it stops at the first difference or at a terminator. */
  function StrCmp(a: Bytes, b: Bytes): int
    decreases |a| + |b|
  {
    if First(a) != First(b) then First(a) - First(b)
    else if First(a) == 0 then 0
    else StrCmp(Rest(a), Rest(b))
  }

  predicate StrLess(a: Bytes, b: Bytes) {
    StrCmp(a, b) < 0
  }

  lemma {:induction false} StrCmpZeroIsEquality(a: Bytes, b: Bytes)
    requires NulFree(a) && NulFree(b)
    ensures StrCmp(a, b) == 0 <==> a == b
    decreases |a| + |b|
  {
    if First(a) != First(b) {
    } else if First(a) == 0 {
      assert a == [] && b == [];
    } else {
      StrCmpZeroIsEquality(Rest(a), Rest(b));
      assert a == [a[0]] + a[1..] && b == [b[0]] + b[1..];
    }
  }

  lemma {:induction false} StrCmpAntisymmetric(a: Bytes, b: Bytes)
    ensures StrCmp(a, b) == -StrCmp(b, a)
    decreases |a| + |b|
  {
    if First(a) != First(b) || First(a) == 0 {
    } else {
      StrCmpAntisymmetric(Rest(a), Rest(b));
    }
  }

  lemma {:induction false} StrCmpTransitive(a: Bytes, b: Bytes, c: Bytes)
    requires StrLess(a, b) && StrLess(b, c)
    ensures StrLess(a, c)
    decreases |a| + |b|
  {
    if First(a) != First(b) || First(b) != First(c) {
    } else {
      StrCmpTransitive(Rest(a), Rest(b), Rest(c));
    }
  }

  /** On C strings strcmp is a strict total order: exactly one of <, =, > holds, and < chains. */
  lemma StrLessIsStrictTotalOrder(a: Bytes, b: Bytes, c: Bytes)
    requires NulFree(a) && NulFree(b) && NulFree(c)
    ensures !StrLess(a, a)
    ensures a != b ==> (StrLess(a, b) <==> !StrLess(b, a))
    ensures StrLess(a, b) && StrLess(b, c) ==> StrLess(a, c)
  {
    StrCmpZeroIsEquality(a, a);
    StrCmpZeroIsEquality(a, b);
    StrCmpAntisymmetric(a, b);
    if StrLess(a, b) && StrLess(b, c) {
      StrCmpTransitive(a, b, c);
    }
  }

  /** a is smaller at the first octet where the two differ, or is a proper prefix of b. */
  ghost predicate PrecedesAt(a: Bytes, b: Bytes, k: nat) {
    && k <= |a| && k <= |b|
    && a[..k] == b[..k]
    && ((|a| == k && k < |b|) || (k < |a| && k < |b| && a[k] < b[k]))
  }

  /** The dictionary order of octets. */
  ghost predicate Precedes(a: Bytes, b: Bytes) {
    exists k: nat :: PrecedesAt(a, b, k)
  }

  lemma PrecedesMore(a: Bytes, b: Bytes, k: nat)
    requires |a| > 0 && |b| > 0 && a[0] == b[0]
    ensures PrecedesAt(a, b, k + 1) <==> PrecedesAt(a[1..], b[1..], k)
  {
    if k < |a| && k < |b| {
      assert a[..k + 1] == [a[0]] + a[1..][..k];
      assert b[..k + 1] == [b[0]] + b[1..][..k];
      assert a[1..][..k] == a[..k + 1][1..] && b[1..][..k] == b[..k + 1][1..];
    }
  }

  lemma {:induction false} LessHasPlace(a: Bytes, b: Bytes) returns (k: nat)
    requires NulFree(a) && NulFree(b) && StrLess(a, b)
    ensures PrecedesAt(a, b, k)
    decreases |a| + |b|
  {
    if First(a) != First(b) {
      k := 0;
    } else {
      assert |a| > 0 && |b| > 0;
      k := LessHasPlace(a[1..], b[1..]);
      PrecedesMore(a, b, k);
      k := k + 1;
    }
  }

  lemma {:induction false} PlaceMakesLess(a: Bytes, b: Bytes, k: nat)
    requires NulFree(a) && NulFree(b) && PrecedesAt(a, b, k)
    ensures StrLess(a, b)
    decreases k
  {
    if k == 0 {
      assert First(a) < First(b);
    } else {
      assert a[0] == a[..k][0] && b[0] == b[..k][0];
      PrecedesMore(a, b, k - 1);
      PlaceMakesLess(a[1..], b[1..], k - 1);
    }
  }

  /** strcmp(a, b) < 0 on C strings is the dictionary order of octets. */
  lemma StrLessIsDictionaryOrder(a: Bytes, b: Bytes)
    requires NulFree(a) && NulFree(b)
    ensures StrLess(a, b) <==> Precedes(a, b)
  {
    if StrLess(a, b) {
      var k := LessHasPlace(a, b);
    }
    if k: nat :| PrecedesAt(a, b, k) {
      PlaceMakesLess(a, b, k);
    }
  }

  // ---- big-endian counters -----------------------------------------------

  /** v >> (8 * i), one octet at a time. */
  function ShiftOctets(v: nat, i: nat): nat {
    if i == 0 then v else ShiftOctets(v / 256, i - 1)
  }

  function LowOctet(v: nat): byte {
    (v % 256) as byte
  }

  /** The n low-order octets of v, most significant first. */
  function BigEndian(v: nat, n: nat): (r: Bytes)
    ensures |r| == n
  {
    if n == 0 then [] else BigEndian(v / 256, n - 1) + [LowOctet(v)]
  }

  function FromBigEndian(s: Bytes): nat {
    if |s| == 0 then 0 else 256 * FromBigEndian(s[..|s| - 1]) + s[|s| - 1] as nat
  }

  function Pow256(n: nat): nat {
    if n == 0 then 1 else 256 * Pow256(n - 1)
  }

  /** The octet that the byte loops of build_aad and build_gcm_nonce store at distance i from the end. */
  lemma {:induction false} BigEndianAt(v: nat, n: nat, i: nat)
    requires i < n
    ensures BigEndian(v, n)[n - 1 - i] == LowOctet(ShiftOctets(v, i))
  {
    if i == 0 {
    } else {
      BigEndianAt(v / 256, n - 1, i - 1);
    }
  }

  lemma {:induction false} BigEndianRoundTrip(v: nat, n: nat)
    requires v < Pow256(n)
    ensures FromBigEndian(BigEndian(v, n)) == v
  {
    if n == 0 {
    } else {
      BigEndianRoundTrip(v / 256, n - 1);
      assert BigEndian(v, n)[..n - 1] == BigEndian(v / 256, n - 1);
    }
  }

  lemma U64FitsEightOctets(v: u64)
    ensures v < Pow256(8)
  {
    assert Pow256(4) == 256 * Pow256(3) == 0x1_0000_0000;
    assert Pow256(6) == 256 * Pow256(5) == 0x1_0000_0000_0000;
    assert Pow256(8) == 256 * Pow256(7) == 0x1_0000_0000_0000_0000;
  }

  /** Two 64-bit counters with the same eight octets are the same counter. */
  lemma CounterOctetsInjective(v: u64, w: u64)
    requires BigEndian(v, 8) == BigEndian(w, 8)
    ensures v == w
  {
    U64FitsEightOctets(v);
    U64FitsEightOctets(w);
    BigEndianRoundTrip(v, 8);
    BigEndianRoundTrip(w, 8);
  }
}
