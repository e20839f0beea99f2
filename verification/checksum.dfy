/** libcpe464/checksum.c: the Internet checksum (RFC 1071), its accumulator and its folds. */
module Checksum {
  import opened Packets

  datatype Order = LittleEndian | BigEndian

  newtype int32 = x: int | -0x8000_0000 <= x < 0x8000_0000

  /** The 16-bit word a host of the given byte order loads at word index k; a missing last byte counts as zero. */
  function WordAt(b: seq<byte>, k: nat, order: Order): (w: nat)
    requires 2 * k < |b|
    ensures w <= 0xFFFF
  {
    var first: nat := b[2 * k];
    var second: nat := if 2 * k + 1 < |b| then b[2 * k + 1] else 0;
    if order == LittleEndian then first + 256 * second else 256 * first + second
  }

  function Words(b: seq<byte>): nat { (|b| + 1) / 2 }

  /** The plain sum of the first k words. */
  function WordSum(b: seq<byte>, k: nat, order: Order): (s: nat)
    requires k <= Words(b)
    ensures s <= k * 0xFFFF
  {
    if k == 0 then 0 else WordSum(b, k - 1, order) + WordAt(b, k - 1, order)
  }

  /** One's complement addition of 16-bit words: an end-around carry (section 1 of RFC 1071). */
  function OnesAdd(x: nat, y: nat): (z: nat)
    requires x <= 0xFFFF && y <= 0xFFFF
    ensures z <= 0xFFFF
  {
    if x + y <= 0xFFFF then x + y else x + y - 0xFFFF
  }

  /** The one's complement sum of the first k words. */
  function OnesSum(b: seq<byte>, k: nat, order: Order): (s: nat)
    requires k <= Words(b)
    ensures s <= 0xFFFF
  {
    if k == 0 then 0 else OnesAdd(OnesSum(b, k - 1, order), WordAt(b, k - 1, order))
  }

  /** The checksum of RFC 1071: the complement of the one's complement sum. */
  function Rfc1071(b: seq<byte>, order: Order): nat { 0xFFFF - OnesSum(b, Words(b), order) }

  /** The representative of a sum among 0..0xFFFF, zero only for zero. */
  function Rep(x: nat): (r: nat)
    ensures r <= 0xFFFF && (r == 0 <==> x == 0)
  {
    if x == 0 then 0 else (x - 1) % 0xFFFF + 1
  }

  lemma RepUnique(x: nat, r: nat, q: nat)
    requires x == q * 0xFFFF + r && r <= 0xFFFF && (x == 0 <==> r == 0)
    ensures Rep(x) == r
  {
  }

  lemma RepIsCongruent(x: nat) returns (q: nat)
    ensures x == q * 0xFFFF + Rep(x)
  {
    q := if x == 0 then 0 else (x - 1) / 0xFFFF;
  }

  lemma {:induction false} OnesSumIsRep(b: seq<byte>, k: nat, order: Order)
    requires k <= Words(b)
    ensures OnesSum(b, k, order) == Rep(WordSum(b, k, order))
    decreases k
  {
    if k > 0 {
      OnesSumIsRep(b, k - 1, order);
      var s, w := WordSum(b, k - 1, order), WordAt(b, k - 1, order);
      var q := RepIsCongruent(s);
      RepUnique(s + w, OnesAdd(Rep(s), w), if Rep(s) + w <= 0xFFFF then q else q + 1);
    }
  }

  /** Two folds of a 31-bit sum absorb every carry, and truncating the complement gives the complement in 16 bits. */
  lemma TwoFolds(sum: nat)
    requires sum < 0x8000_0000
    ensures var once := sum / 0x1_0000 + sum % 0x1_0000;
            var twice := once + once / 0x1_0000;
            twice < 0x8000_0000 && (-twice - 1) % 0x1_0000 == 0xFFFF - Rep(sum)
  {
    var hi, once := sum / 0x1_0000, sum / 0x1_0000 + sum % 0x1_0000;
    assert sum == hi * 0xFFFF + once;
    if once <= 0xFFFF { RepUnique(sum, once, hi); } else { RepUnique(sum, once - 0xFFFF, hi + 1); }
  }

  /** The checksum is 0 exactly when the plain word sum is a positive multiple of 0xFFFF. */
  lemma ZeroIff(b: seq<byte>, order: Order)
    ensures Rfc1071(b, order) == 0 <==> WordSum(b, Words(b), order) > 0 && WordSum(b, Words(b), order) % 0xFFFF == 0
  {
    OnesSumIsRep(b, Words(b), order);
    FullRep(WordSum(b, Words(b), order));
  }

  lemma FullRep(x: nat)
    ensures Rep(x) == 0xFFFF <==> x > 0 && x % 0xFFFF == 0
  {
    var q := RepIsCongruent(x);
    assert Rep(x) < 0xFFFF ==> x % 0xFFFF == Rep(x);
    assert Rep(x) == 0xFFFF ==> x == (q + 1) * 0xFFFF;
  }

  // ---- Byte order independence (section 2 of RFC 1071) ----

  function Swap(x: nat): (y: nat)
    requires x <= 0xFFFF
    ensures y <= 0xFFFF
  {
    x % 256 * 256 + x / 256
  }

  /** Swapping the bytes of a word multiplies it by 256, modulo 0xFFFF. */
  lemma SwapMultiplies(x: nat)
    requires x <= 0xFFFF
    ensures 256 * x == (x / 256) * 0xFFFF + Swap(x) && (Swap(x) == 0 <==> x == 0)
  {
    var hi, lo := x / 256, x % 256;
    assert x == 256 * hi + lo;
  }

  lemma WordsSwap(b: seq<byte>, k: nat)
    requires 2 * k < |b|
    ensures WordAt(b, k, BigEndian) == Swap(WordAt(b, k, LittleEndian))
  {
    var first: nat := b[2 * k];
    var second: nat := if 2 * k + 1 < |b| then b[2 * k + 1] else 0;
    assert (first + 256 * second) % 256 == first && (first + 256 * second) / 256 == second;
  }

  lemma {:induction false} SumsSwap(b: seq<byte>, k: nat) returns (q: nat)
    requires k <= Words(b)
    ensures 256 * WordSum(b, k, LittleEndian) == q * 0xFFFF + WordSum(b, k, BigEndian)
    ensures WordSum(b, k, LittleEndian) == 0 <==> WordSum(b, k, BigEndian) == 0
    decreases k
  {
    q := 0;
    if k > 0 {
      q := SumsSwap(b, k - 1);
      var w := WordAt(b, k - 1, LittleEndian);
      WordsSwap(b, k - 1);
      SwapMultiplies(w);
      q := q + w / 256;
    }
  }

  /** The one's complement sum a host computes is the byte swap of what a host of the other order computes. */
  lemma ByteOrderIndependent(b: seq<byte>)
    ensures OnesSum(b, Words(b), BigEndian) == Swap(OnesSum(b, Words(b), LittleEndian))
  {
    var k := Words(b);
    var little, big := WordSum(b, k, LittleEndian), WordSum(b, k, BigEndian);
    OnesSumIsRep(b, k, LittleEndian);
    OnesSumIsRep(b, k, BigEndian);
    var q := SumsSwap(b, k);
    var q1 := RepIsCongruent(little);
    var q2 := RepIsCongruent(big);
    SwapMultiplies(Rep(little));
    RepUnique(256 * little, Swap(Rep(little)), 256 * q1 + Rep(little) / 256);
    RepUnique(256 * little, Rep(big), q + q2);
  }

  /** A buffer that checks on a host of one byte order checks on a host of the other. */
  lemma ChecksOnEitherHost(b: seq<byte>)
    ensures Rfc1071(b, BigEndian) == 0 <==> Rfc1071(b, LittleEndian) == 0
  {
    ByteOrderIndependent(b);
    var x := OnesSum(b, Words(b), LittleEndian);
    assert Swap(x) == 0xFFFF <==> x == 0xFFFF by {
      assert x == 256 * (x / 256) + x % 256;
    }
  }

  /** The worked example of section 3 of RFC 1071, on hosts of both byte orders. */
  lemma RfcExample()
    ensures var b := [0x00, 0x01, 0xf2, 0x03, 0xf4, 0xf5, 0xf6, 0xf7];
            && OnesSum(b, 4, BigEndian) == 0xddf2 && Rfc1071(b, BigEndian) == 0x220d
            && OnesSum(b, 4, LittleEndian) == 0xf2dd && Rfc1071(b, LittleEndian) == 0x0d22
  {
    var b: seq<byte> := [0x00, 0x01, 0xf2, 0x03, 0xf4, 0xf5, 0xf6, 0xf7];
    forall order: Order ensures OnesSum(b, 1, order) == WordAt(b, 0, order) {
      assert OnesSum(b, 0, order) == 0;
    }
    assert OnesSum(b, 2, BigEndian) == 0xf204 && OnesSum(b, 2, LittleEndian) == 0x04f2;
    assert OnesSum(b, 3, BigEndian) == 0xe6fa && OnesSum(b, 3, LittleEndian) == 0xfae6;
  }

  // ---- The code ----

  /** The word a host loads at *w; for the last byte of an odd length, the word with only its first byte set. */
  method Load(addr: array<byte>, len: nat, w: nat, order: Order) returns (word: nat)
    requires len <= addr.Length && 2 * w < len
    ensures word == WordAt(addr[..len], w, order)
  {
    var first: nat, second: nat := addr[2 * w], 0;
    if 2 * w + 1 < len {
      second := addr[2 * w + 1];
    }
    word := if order == LittleEndian then first + 256 * second else 256 * first + second;
  }

  /** The loop of in_cksum and its odd byte; the type of sum is the claim that the accumulator never overflows. */
  method Accumulate(addr: array<byte>, len: nat, order: Order) returns (sum: int32)
    requires len <= addr.Length && len <= 65536
    ensures sum as int == WordSum(addr[..len], Words(addr[..len]), order)
  {
    ghost var b := addr[..len];
    sum := 0;
    var w := 0;
    var nleft := len;
    while nleft > 1
      invariant 2 * w + nleft == len
      invariant sum as int == WordSum(b, w, order)
    {
      var word := Load(addr, len, w, order);
      sum := sum + word as int32;
      w := w + 1;
      nleft := nleft - 2;
    }
    if nleft == 1 {
      var last := Load(addr, len, w, order);
      sum := sum + last as int32;
      w := w + 1;
    }
    assert w == Words(b);
  }

  /** The last lines of in_cksum: add the carries back in, twice, and complement. */
  method Fold(total: int32) returns (answer: nat)
    requires total >= 0
    ensures answer == 0xFFFF - Rep(total as int)
  {
    var sum := total;
    TwoFolds(sum as int);
    sum := sum / 0x1_0000 + sum % 0x1_0000;
    sum := sum + sum / 0x1_0000;
    answer := (-(sum as int) - 1) % 0x1_0000;
  }

  /** in_cksum over the first len bytes of addr. */
  method InCksum(addr: array<byte>, len: nat, order: Order) returns (answer: nat)
    requires len <= addr.Length && len <= 65536
    ensures answer == Rfc1071(addr[..len], order)
  {
    var sum := Accumulate(addr, len, order);
    OnesSumIsRep(addr[..len], Words(addr[..len]), order);
    answer := Fold(sum);
  }
}
