/**
 Octets, network-order numbers and C strings: what every codec here is made of.
 */
module Bytes {
  newtype byte = b: int | 0 <= b < 256
  type bytes = seq<byte>

  /** 256 to the power k: the number of values k octets can hold. */
  function Radix(k: nat): (r: nat)
    ensures r > 0
  {
    if k == 0 then 1 else 256 * Radix(k - 1)
  }

  /** Octet k of n, counting from the least significant: (n >> 8k) & 255. */
  function Octet(n: nat, k: nat): byte {
    ((n / Radix(k)) % 256) as byte
  }

  /** The low `size` octets of n, most significant first (the PUT_NUMBER macros truncate). */
  function PutNumber(n: nat, size: nat): (bs: bytes)
    ensures |bs| == size
  {
    seq(size, i requires 0 <= i < size => Octet(n, size - 1 - i))
  }

  function GetNumber(bs: bytes): (n: nat)
    ensures n < Radix(|bs|)
  {
    if bs == [] then 0 else 256 * GetNumber(bs[..|bs| - 1]) + bs[|bs| - 1] as nat
  }

  lemma DivModIs(n: int, d: nat, q: int, r: nat)
    requires d > 0 && n == q * d + r && r < d
    ensures n % d == r && n / d == q
  {
    var k := n / d;
    assert n == k * d + n % d;
    assert (q - k) * d == n % d - r;
    MultipleAtLeast(q - k, d);
  }

  lemma MultipleAtLeast(m: int, d: nat)
    ensures m >= 1 ==> m * d >= d
    ensures m <= -1 ==> m * d + d <= 0
  {
    if m >= 1 { assert m * d == (m - 1) * d + d; }
    if m <= -1 { assert m * d == (m + 1) * d - d; }
  }

  /** Dropping the last octet first: n / 256 / p is n / (256 p), and the remainders fit together. */
  lemma DivideInTwoSteps(n: nat, p: nat)
    requires p > 0
    ensures (n / 256) / p == n / (256 * p)
    ensures n % (256 * p) == 256 * ((n / 256) % p) + n % 256
  {
    var q, r := (n / 256) / p, (n / 256) % p;
    assert n / 256 == q * p + r;
    assert n == q * (256 * p) + (256 * r + n % 256);
    DivModIs(n, 256 * p, q, 256 * r + n % 256);
  }

  lemma OctetAbove(n: nat, k: nat)
    ensures Octet(n, k + 1) == Octet(n / 256, k)
  {
    DivideInTwoSteps(n, Radix(k));
  }

  lemma PutNumberSplit(n: nat, size: nat)
    requires size > 0
    ensures PutNumber(n, size) == PutNumber(n / 256, size - 1) + [(n % 256) as byte]
  {
    forall i | 0 <= i < size - 1
      ensures PutNumber(n, size)[i] == PutNumber(n / 256, size - 1)[i]
    {
      OctetAbove(n, size - 2 - i);
    }
    assert Radix(0) == 1;
    assert PutNumber(n, size)[size - 1] == Octet(n, 0);
  }

  /** Reading back a number gives it modulo what the octets can hold. */
  lemma {:induction false} NumberRoundTrip(n: nat, size: nat)
    ensures GetNumber(PutNumber(n, size)) == n % Radix(size)
  {
    if size > 0 {
      PutNumberSplit(n, size);
      var bs := PutNumber(n, size);
      assert bs[..size - 1] == PutNumber(n / 256, size - 1);
      NumberRoundTrip(n / 256, size - 1);
      DivideInTwoSteps(n, Radix(size - 1));
    }
  }

  lemma NumberFits(n: nat, size: nat)
    requires n < Radix(size)
    ensures GetNumber(PutNumber(n, size)) == n
  {
    NumberRoundTrip(n, size);
    DivModIs(n, Radix(size), 0, n);
  }

  /** The C string held in `raw`: everything before the first NUL. */
  function CStr(raw: bytes): (s: bytes)
    ensures |s| <= |raw| && s == raw[..|s|] && NulFree(s)
    ensures |s| < |raw| ==> raw[|s|] == 0
  {
    if raw == [] || raw[0] == 0 then [] else [raw[0]] + CStr(raw[1..])
  }

  predicate NulFree(s: bytes) {
    forall i :: 0 <= i < |s| ==> s[i] != 0
  }

  lemma {:induction false} CStrOfNulFree(s: bytes)
    requires NulFree(s)
    ensures CStr(s) == s
  {
  }

  /** What strncpy of 255 characters keeps of a string. */
  function Shortened(s: bytes): bytes {
    if |s| <= 255 then s else s[..255]
  }

  /** Numbers are written most significant octet first. */
  lemma MostSignificantFirst(n: nat)
    ensures n < 0x100 ==> PutNumber(n, 1) == [n as byte]
    ensures PutNumber(n, 2) == [(n / 0x100 % 0x100) as byte, (n % 0x100) as byte]
    ensures PutNumber(n, 4) == [(n / 0x100_0000 % 0x100) as byte, (n / 0x1_0000 % 0x100) as byte,
                                (n / 0x100 % 0x100) as byte, (n % 0x100) as byte]
  {
    assert Radix(0) == 1 && Radix(1) == 0x100 && Radix(2) == 0x1_0000;
    assert Radix(3) == 256 * Radix(2) == 0x100_0000;
    var bs := PutNumber(n, 4);
    assert bs[0] == Octet(n, 3) && bs[1] == Octet(n, 2) && bs[2] == Octet(n, 1) && bs[3] == Octet(n, 0);
  }

  lemma OneOctet(bs: bytes)
    requires |bs| == 1
    ensures GetNumber(bs) == bs[0] as nat
  {
    assert bs[..0] == [];
  }

  lemma TwoOctets(bs: bytes)
    requires |bs| == 2
    ensures GetNumber(bs) == bs[0] as nat * 256 + bs[1] as nat
  {
    OneOctet(bs[..1]);
  }

  lemma ZeroNumber(n: nat)
    ensures PutNumber(0, n) == seq(n, _ => 0 as byte)
  {
    forall i | 0 <= i < n ensures PutNumber(0, n)[i] == 0 {
      ZeroOctet(n - 1 - i);
    }
  }

  lemma ZeroOctet(k: nat)
    ensures Octet(0, k) == 0
  {
    DivModIs(0, Radix(k), 0, 0);
  }
}
