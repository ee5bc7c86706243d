/** The 256-bit XOR metric that places peers in buckets. */
module Coordinates {
  import opened Wire

  function Pow2(n: nat): (r: nat)
    ensures r > 0
  {
    if n == 0 then 1 else 2 * Pow2(n - 1)
  }

  /** Bitwise exclusive or of two big integers. */
  function Xor(x: nat, y: nat): nat
    decreases x + y
  {
    if x == 0 && y == 0 then 0 else 2 * Xor(x / 2, y / 2) + (x + y) % 2
  }

  /** Position of the highest set bit, counted from one. */
  function BitLen(x: nat): nat {
    if x == 0 then 0 else 1 + BitLen(x / 2)
  }

  lemma XorHalves(x: nat, y: nat)
    ensures Xor(x, y) / 2 == Xor(x / 2, y / 2)
    ensures Xor(x, y) % 2 == (x + y) % 2
  {
  }

  lemma {:induction false} XorCancels(x: nat, d: nat)
    ensures Xor(x, Xor(x, d)) == d
    decreases x + d
  {
    if x != 0 || d != 0 {
      hide Xor;
      var e := Xor(x, d);
      XorHalves(x, d);
      XorHalves(x, e);
      XorCancels(x / 2, d / 2);
      ParityCancels(x, d, e);
    } else {
      assert Xor(0, Xor(0, 0)) == 0;
    }
  }

  lemma ParityCancels(x: nat, d: nat, e: nat)
    requires e % 2 == (x + d) % 2
    ensures (x + e) % 2 == d % 2
  {
  }

  lemma {:induction false} XorZero(x: nat, y: nat)
    ensures Xor(x, y) == 0 <==> x == y
    decreases x + y
  {
    if x != 0 || y != 0 {
      XorZero(x / 2, y / 2);
    }
  }

  lemma {:induction false} XorBound(x: nat, y: nat, n: nat)
    requires x < Pow2(n) && y < Pow2(n)
    ensures Xor(x, y) < Pow2(n)
    decreases n
  {
    if n > 0 {
      XorBound(x / 2, y / 2, n - 1);
    }
  }

  lemma {:induction false} BitLenBound(x: nat, n: nat)
    ensures BitLen(x) <= n <==> x < Pow2(n)
    decreases n
  {
    if x != 0 && n > 0 {
      BitLenBound(x / 2, n - 1);
    } else if x == 0 {
    }
  }

  lemma BitLenTop(low: nat, b: nat)
    requires low < Pow2(b)
    ensures BitLen(Pow2(b) + low) == b + 1
  {
    BitLenBound(Pow2(b) + low, b);
    BitLenBound(Pow2(b) + low, b + 1);
  }

  // --------------------------------------------------------------- identifiers

  function HexDigit(n: nat): char
    requires n < 16
  {
    "0123456789abcdef"[n]
  }

  function HexValue(c: char): (r: Option<nat>)
    ensures r.Some? ==> r.value < 16
  {
    if '0' <= c <= '9' then Some(c as int - '0' as int)
    else if 'a' <= c <= 'f' then Some(c as int - 'a' as int + 10)
    else if 'A' <= c <= 'F' then Some(c as int - 'A' as int + 10)
    else None
  }

  function ToHex(x: nat, digits: nat): (s: string)
    ensures |s| == digits
  {
    if digits == 0 then "" else ToHex(x / 16, digits - 1) + [HexDigit(x % 16)]
  }

  function FromHex(s: string): (r: Option<nat>)
  {
    if s == "" then Some(0)
    else
      var high := FromHex(s[..|s| - 1]);
      var low := HexValue(s[|s| - 1]);
      if high.Some? && low.Some? then Some(16 * high.value + low.value) else None
  }

  lemma {:induction false} HexRoundTrip(x: nat, digits: nat)
    requires x < Pow2(4 * digits)
    ensures FromHex(ToHex(x, digits)) == Some(x)
    decreases digits
  {
    hide HexDigit, HexValue;
    if digits > 0 {
      hide Pow2;
      Pow16(digits);
      HexRoundTrip(x / 16, digits - 1);
      var s := ToHex(x, digits);
      assert s[..|s| - 1] == ToHex(x / 16, digits - 1);
      DigitRoundTrip(x % 16);
    }
  }

  lemma Pow16(digits: nat)
    requires digits > 0
    ensures Pow2(4 * digits) == 16 * Pow2(4 * (digits - 1))
  {
    assert Pow2(4 * digits) == 2 * Pow2(4 * digits - 1);
    assert Pow2(4 * digits - 1) == 2 * Pow2(4 * digits - 2);
    assert Pow2(4 * digits - 2) == 2 * Pow2(4 * digits - 3);
  }

  lemma DigitRoundTrip(n: nat)
    requires n < 16
    ensures HexValue(HexDigit(n)) == Some(n)
  {
    if n >= 10 {
      assert HexDigit(n) == "abcdef"[n - 10];
    }
  }

  predicate HasPrefix(s: string, prefix: string) {
    prefix <= s
  }

  function TrimPrefix(s: string, prefix: string): string {
    if prefix <= s then s[|prefix|..] else s
  }

  /** SHA-256, as a number below 2^256. */
  type Hash = string -> nat

  ghost predicate Fits256(sha: Hash) {
    forall s :: sha(s) < Pow2(256)
  }

  function EncodedPart(value: string): string {
    if HasPrefix(value, "vx6_") then TrimPrefix(value, "vx6_")
    else if HasPrefix(value, "node/name/") then TrimPrefix(value, "node/name/")
    else if HasPrefix(value, "node/id/") then TrimPrefix(value, "node/id/vx6_")
    else ""
  }

  /** The point an identifier stands for: 64 hex digits are taken as they are, the rest is hashed. */
  function Coordinate(sha: Hash, value: string): nat {
    var encoded := EncodedPart(value);
    var decoded := FromHex(encoded);
    if |encoded| == 64 && decoded.Some? then decoded.value else sha(value)
  }

  lemma {:induction false} FromHexBound(s: string)
    ensures FromHex(s).Some? ==> FromHex(s).value < Pow2(4 * |s|)
  {
    if s != "" {
      FromHexBound(s[..|s| - 1]);
      var n := |s|;
      assert Pow2(4 * n) == 2 * Pow2(4 * n - 1);
      assert Pow2(4 * n - 1) == 2 * Pow2(4 * n - 2);
      assert Pow2(4 * n - 2) == 2 * Pow2(4 * n - 3);
      assert Pow2(4 * n - 3) == 2 * Pow2(4 * (n - 1));
    }
  }

  lemma CoordinateBound(sha: Hash, value: string)
    requires Fits256(sha)
    ensures Coordinate(sha, value) < Pow2(256)
  {
    FromHexBound(EncodedPart(value));
  }

  /** An encoded point stands for itself. */
  lemma PointOf(sha: Hash, x: nat)
    requires x < Pow2(256)
    ensures Coordinate(sha, "vx6_" + ToHex(x, 64)) == x
  {
    hide Pow2, FromHex, ToHex;
    HexRoundTrip(x, 64);
    var id := "vx6_" + ToHex(x, 64);
    assert id[4..] == ToHex(x, 64);
  }

  /** An ID, the key it is stored under and the key of a name hash with the same digits are one point; anything else is hashed. */
  lemma PointForms(sha: Hash, x: nat, value: string)
    requires x < Pow2(256)
    ensures Coordinate(sha, "node/id/vx6_" + ToHex(x, 64)) == Coordinate(sha, "node/name/" + ToHex(x, 64)) == x
    ensures !("vx6_" <= value) && !("node/name/" <= value) && !("node/id/" <= value) ==> Coordinate(sha, value) == sha(value)
  {
    hide Pow2, FromHex, ToHex;
    HexRoundTrip(x, 64);
    var id, name := "node/id/vx6_" + ToHex(x, 64), "node/name/" + ToHex(x, 64);
    assert id[12..] == ToHex(x, 64) && name[10..] == ToHex(x, 64);
    assert id[0] == 'n' && id[5] == 'i' && name[0] == 'n';
  }

  function XorDistance(sha: Hash, left: string, right: string): nat {
    Xor(Coordinate(sha, left), Coordinate(sha, right))
  }

  /** The bucket of a coordinate as seen from self; -1 for self's own point. */
  function BucketIndex(sha: Hash, self: string, id: string): int {
    BitLen(XorDistance(sha, self, id)) - 1
  }

  lemma BucketRange(sha: Hash, self: string, id: string)
    requires Fits256(sha)
    ensures -1 <= BucketIndex(sha, self, id) <= 255
    ensures BucketIndex(sha, self, id) == -1 <==> Coordinate(sha, self) == Coordinate(sha, id)
  {
    CoordinateBound(sha, self);
    CoordinateBound(sha, id);
    XorBound(Coordinate(sha, self), Coordinate(sha, id), 256);
    BitLenBound(XorDistance(sha, self, id), 256);
    BitLenBound(XorDistance(sha, self, id), 0);
    XorZero(Coordinate(sha, self), Coordinate(sha, id));
  }

  /** A refresh target for a bucket, from a random draw of the bits below the bucket's own. */
  function RandomTarget(sha: Hash, self: string, bucket: nat, draw: nat): string {
    ToHex(Xor(Coordinate(sha, self), Pow2(bucket) + draw), 64)
  }

  /** Every draw lands in the bucket that was to be refreshed. */
  lemma TargetLandsInBucket(sha: Hash, self: string, bucket: nat, draw: nat)
    requires Fits256(sha) && bucket <= 255 && draw < Pow2(bucket)
    ensures BucketIndex(sha, self, "vx6_" + RandomTarget(sha, self, bucket, draw)) == bucket
  {
    hide FromHex, ToHex, Xor, Pow2, BitLen, Fits256;
    var here, delta := Coordinate(sha, self), Pow2(bucket) + draw;
    assert Pow2(bucket + 1) == 2 * Pow2(bucket) by {
      PowStep(bucket);
    }
    var target := Xor(here, delta);
    PowGrows(bucket + 1, 256);
    CoordinateBound(sha, self);
    XorBound(here, delta, 256);
    HexRoundTrip(target, 64);
    var id := "vx6_" + RandomTarget(sha, self, bucket, draw);
    assert HasPrefix(id, "vx6_") && TrimPrefix(id, "vx6_") == RandomTarget(sha, self, bucket, draw);
    assert Coordinate(sha, id) == target;
    XorCancels(here, delta);
    BitLenTop(draw, bucket);
  }

  lemma PowStep(n: nat)
    ensures Pow2(n + 1) == 2 * Pow2(n)
  {
  }

  lemma {:induction false} PowGrows(m: nat, n: nat)
    requires m <= n
    ensures Pow2(m) <= Pow2(n)
    decreases n
  {
    if m < n {
      PowGrows(m, n - 1);
    }
  }

  /**
   * The name index hashes again: a bare 64-digit name hash has no prefix, so where a name
   * refresh target lands depends on the hash of its digits and not on the draw.
   */
  lemma NameTargetIsRehashed(sha: Hash, self: string, bucket: nat, draw: nat)
    requires EncodedPart(self) == ""
    ensures EncodedPart(RandomTarget(sha, self, bucket, draw)) == ""
    ensures BucketIndex(sha, self, RandomTarget(sha, self, bucket, draw))
            == BitLen(Xor(sha(self), sha(RandomTarget(sha, self, bucket, draw)))) - 1
  {
    var t := RandomTarget(sha, self, bucket, draw);
    HexOnly(Xor(Coordinate(sha, self), Pow2(bucket) + draw), 64, 0);
    HexOnly(Xor(Coordinate(sha, self), Pow2(bucket) + draw), 64, 1);
    assert t[0] != 'v' && t[0] != 'n';
  }

  /** Under a hash that maps everything to one point no name target lands in the bucket it was drawn for. */
  lemma NameTargetMisses(self: string, bucket: nat, draw: nat)
    requires EncodedPart(self) == ""
    ensures BucketIndex(s => 0, self, RandomTarget(s => 0, self, bucket, draw)) == -1
  {
    NameTargetIsRehashed(s => 0, self, bucket, draw);
  }

  lemma {:induction false} HexOnly(x: nat, digits: nat, k: nat)
    requires k < digits
    ensures exists d :: 0 <= d < 16 && ToHex(x, digits)[k] == HexDigit(d)
    ensures ToHex(x, digits)[k] != 'v' && ToHex(x, digits)[k] != 'n'
  {
    if k == digits - 1 {
      assert ToHex(x, digits)[k] == HexDigit(x % 16);
    } else {
      HexOnly(x / 16, digits - 1, k);
    }
  }
}
