/** Block padding: encoded blocks are padded to powers of two, with their length in front, and file
    blocks are split so that full ones come out at exactly the size wanted. */
module Padding {
  import opened FlatFile

  const MIN_BLOCK_SIZE := 256
  const PAD_PREFIX_SIZE := 4
  const TWO32 := 0x1_0000_0000

  function Pow2(k: nat): (p: nat)
    ensures p > 0
  {
    if k == 0 then 1 else 2 * Pow2(k - 1)
  }

  // --- bitwise operations on unsigned words ------------------------------------------------------

  function And(a: nat, b: nat): nat
    decreases a + b
  {
    if a == 0 || b == 0 then 0 else 2 * And(a / 2, b / 2) + if a % 2 == 1 && b % 2 == 1 then 1 else 0
  }

  function Or(a: nat, b: nat): nat
    decreases a + b
  {
    if a == 0 && b == 0 then 0 else 2 * Or(a / 2, b / 2) + if a % 2 == 1 || b % 2 == 1 then 1 else 0
  }

  // Sets every bit below the highest one set.
  function Fill(n: nat): nat {
    var a := Or(n, n / 2);
    var b := Or(a, a / 4);
    var c := Or(b, b / 16);
    var d := Or(c, c / 256);
    Or(d, d / 65536)
  }

  // On 32-bit words.
  function NextPowerOfTwo(n: nat): nat {
    if n < MIN_BLOCK_SIZE then MIN_BLOCK_SIZE
    else
      var m := if And(n, n - 1) == 0 then n + 1 else n;
      (Fill(m - 1) + 1) % TWO32
  }

  // With a common high part x, only the low p bits are combined.
  lemma {:induction false} OrHigh(p: nat, x: nat, r: nat, b: nat)
    requires r < Pow2(p) && b < Pow2(p)
    ensures Or(x * Pow2(p) + r, b) == x * Pow2(p) + Or(r, b) && b <= Or(r, b) < Pow2(p)
  {
    if p == 0 {
      OrZero(x);
    } else {
      HalfOf(p, x, r);
      OrHigh(p - 1, x, r / 2, b / 2);
    }
  }

  lemma HalfOf(p: nat, x: nat, r: nat)
    requires p > 0
    ensures (x * Pow2(p) + r) / 2 == x * Pow2(p - 1) + r / 2 && (x * Pow2(p) + r) % 2 == r % 2
  {
    assert x * Pow2(p) == 2 * (x * Pow2(p - 1));
  }

  lemma {:induction false} OrZero(x: nat)
    ensures Or(x, 0) == x
  {
    if x > 0 { OrZero(x / 2); }
  }

  lemma {:induction false} PowAdd(a: nat, b: nat)
    ensures Pow2(a + b) == Pow2(a) * Pow2(b)
  {
    if a > 0 { PowAdd(a - 1, b); }
  }

  lemma {:induction false} PowLess(a: nat, b: nat)
    requires a < b
    ensures 2 * Pow2(a) <= Pow2(b)
  {
    if a + 1 < b { PowLess(a, b - 1); }
  }

  lemma DivBounds(m: nat, d: nat, q: nat)
    requires d > 0
    ensures q * d <= m ==> q <= m / d
    ensures m < q * d ==> m / d < q
  {
    var e := m / d;
    if e < q {
      MulMonotone(e + 1, q, d);
      assert (e + 1) * d == e * d + d;
    } else {
      MulMonotone(q, e, d);
    }
  }

  lemma {:induction false} MulMonotone(a: nat, b: nat, d: nat)
    requires a <= b
    ensures a * d <= b * d
  {
    if a < b { MulMonotone(a, b - 1, d); }
  }

  // A number of w bits whose highest j bits are all set.
  ghost predicate Ones(w: nat, j: nat, m: nat) {
    Pow2(w) - Pow2(if j < w then w - j else 0) <= m < Pow2(w)
  }

  // Combining such a number with itself shifted by j sets the next j bits.
  lemma FillStep(w: nat, j: nat, m: nat)
    requires Ones(w, j, m)
    ensures Ones(w, 2 * j, Or(m, m / Pow2(j)))
  {
    hide Pow2, Or;
    if j >= w {
      ShiftedOut(w, j, m);
      OrZero(m);
    } else {
      ShiftedOnes(w, j, m);
      HighPart(j, w - j);
      FillHigh(w - j, Pow2(j) - 1, Pow2(w), m, m / Pow2(j), Pow2(if 2 * j < w then w - 2 * j else 0));
    }
  }

  lemma ShiftedOut(w: nat, j: nat, m: nat)
    requires j >= w && m < Pow2(w)
    ensures m / Pow2(j) == 0
  {
    hide Pow2;
    PowMonotone(w, j);
    DivBounds(m, Pow2(j), 1);
  }

  lemma HighPart(j: nat, p: nat)
    ensures (Pow2(j) - 1) * Pow2(p) == Pow2(j + p) - Pow2(p)
  {
    hide Pow2;
    PowAdd(j, p);
    LessOne(Pow2(j), Pow2(p));
  }

  lemma FillHigh(p: nat, x: nat, all: nat, m: nat, b: nat, low: nat)
    requires x * Pow2(p) == all - Pow2(p) && all - Pow2(p) <= m < all && Pow2(p) - low <= b < Pow2(p)
    ensures all - low <= Or(m, b) < all
  {
    hide Pow2, Or;
    var r := m - (all - Pow2(p));
    assert m == x * Pow2(p) + r;
    OrHigh(p, x, r, b);
  }

  lemma LessOne(a: nat, b: nat)
    requires a > 0
    ensures (a - 1) * b == a * b - b
  {
  }

  lemma Minus(a: nat, b: nat, c: nat)
    requires b <= a
    ensures (a - b) * c == a * c - b * c
  {
  }

  lemma PowMonotone(a: nat, b: nat)
    requires a <= b
    ensures Pow2(a) <= Pow2(b)
  {
    if a < b { PowLess(a, b); }
  }

  lemma ShiftedOnes(w: nat, j: nat, m: nat)
    requires j < w && Ones(w, j, m)
    ensures Pow2(w - j) - Pow2(if 2 * j < w then w - 2 * j else 0) <= m / Pow2(j) < Pow2(w - j)
  {
    hide Pow2;
    var p := w - j;
    PowAdd(p, j);
    if 2 * j < w {
      PowAdd(p - j, j);
      PowMonotone(p - j, p);
      DivBetween(m, Pow2(j), Pow2(p), Pow2(p - j), Pow2(p));
    } else {
      PowMonotone(p, j);
      PowZero();
      DivBetween(m, Pow2(j), Pow2(p), 1, Pow2(p));
    }
  }

  lemma DivBetween(m: nat, d: nat, high: nat, low: nat, slack: nat)
    requires 0 < d && low <= high && slack <= low * d && high * d - slack <= m < high * d
    ensures high - low <= m / d < high
  {
    Minus(high, low, d);
    DivBounds(m, d, high - low);
    DivBounds(m, d, high);
  }

  lemma PowZero()
    ensures Pow2(0) == 1
  {
  }

  lemma Filled(w: nat, n: nat)
    requires 1 <= w <= 32 && Pow2(w - 1) <= n < Pow2(w)
    ensures Fill(n) == Pow2(w) - 1
  {
    assert Pow2(1) == 2 && Pow2(2) == 4 && Pow2(4) == 16 && Pow2(8) == 256 && Pow2(16) == 65536;
    FillStep(w, 1, n);
    var a := Or(n, n / 2);
    FillStep(w, 2, a);
    var b := Or(a, a / 4);
    FillStep(w, 4, b);
    var c := Or(b, b / 16);
    FillStep(w, 8, c);
    var d := Or(c, c / 256);
    FillStep(w, 16, d);
  }

  // The power-of-two test.
  lemma {:induction false} AndHigh(k: nat, r: nat, s: nat)
    requires r < Pow2(k) && s < Pow2(k)
    ensures And(Pow2(k) + r, s) == And(r, s) && And(Pow2(k) + r, Pow2(k) + s) >= Pow2(k)
  {
    if k > 0 {
      AndHigh(k - 1, r / 2, s / 2);
      HalfOf(k, 1, r);
      HalfOf(k, 1, s);
    }
  }

  /** The smallest power of two above n and at least 256, as long as that fits into 32 bits; from 2^31
      on, 0. */
  lemma NextPower(n: nat, k: nat)
    requires 8 <= k < 32 && Pow2(k) <= n < Pow2(k + 1)
    ensures NextPowerOfTwo(n) == if k < 31 then Pow2(k + 1) else 0
  {
    hide Pow2, And, Fill;
    Word();
    PowMonotone(8, k);
    var r := n - Pow2(k);
    PowNext(k);
    var m := if And(n, n - 1) == 0 then n + 1 else n;
    if r == 0 {
      AndHigh(k, 0, Pow2(k) - 1);
      AndZero(Pow2(k) - 1);
    } else {
      AndHigh(k, r, r - 1);
    }
    assert Pow2(k) <= m - 1 < Pow2(k + 1);
    Filled(k + 1, m - 1);
    if k < 31 { PowLess(k + 1, 32); }
  }

  lemma PowNext(k: nat)
    ensures Pow2(k + 1) == 2 * Pow2(k)
  {
  }

  lemma AndZero(s: nat)
    ensures And(0, s) == 0
  {
  }

  lemma Word()
    ensures Pow2(8) == 256 && Pow2(32) == TWO32
  {
    assert Pow2(8) == 256;
    PowAdd(8, 8);
    PowAdd(16, 16);
  }

  // --- padding -----------------------------------------------------------------------------------

  datatype Result = Ok(data: Bytes) | ShortRead | TooShort

  function LittleEndian(n: nat): (b: Bytes)
    ensures |b| == 4
  {
    [(n % 256) as byte, (n / 256 % 256) as byte, (n / 256 / 256 % 256) as byte, (n / 256 / 256 / 256 % 256) as byte]
  }

  function FromLittleEndian(b: Bytes): nat
    requires |b| == 4
  {
    b[0] as nat + 256 * (b[1] as nat) + 65536 * (b[2] as nat) + 16777216 * (b[3] as nat)
  }

  lemma EndianRoundTrip(n: nat)
    requires n < TWO32
    ensures FromLittleEndian(LittleEndian(n)) == n
  {
    var a, b, c := n / 256, n / 256 / 256, n / 256 / 256 / 256;
    assert c < 256;
    assert n == 256 * a + n % 256 && a == 256 * b + a % 256 && b == 256 * c + b % 256;
  }

  // How many random bytes are added, in 32-bit arithmetic.
  function PadLen(blockLen: nat): nat {
    (NextPowerOfTwo(blockLen) - blockLen) % TWO32
  }

  // The block's length as a 32-bit number, the block, and random bytes read for it.
  function PadBlock(block: Bytes, random: Bytes): Result {
    var blockLen := |block| % TWO32;
    if |random| != PadLen(blockLen) then ShortRead else Ok(LittleEndian(blockLen) + block + random)
  }

  // The end is computed in 32 bits, and no more is returned than there is.
  function DepadBlock(padded: Bytes): Result {
    if |padded| < PAD_PREFIX_SIZE then TooShort
    else
      var blockLen := FromLittleEndian(padded[..4]);
      if |padded| < (blockLen + PAD_PREFIX_SIZE) % TWO32 then TooShort
      else Ok(padded[4..if 4 + blockLen <= |padded| then 4 + blockLen else |padded|])
  }

  /** Removing the padding gives the block back exactly if its length fits into 32 bits. */
  lemma PadRoundTrip(block: Bytes, random: Bytes)
    requires PadBlock(block, random).Ok?
    ensures DepadBlock(PadBlock(block, random).data) == Ok(block) <==> |block| < TWO32
  {
    hide NextPowerOfTwo, PadLen, LittleEndian, FromLittleEndian;
    var blockLen, padded := |block| % TWO32, PadBlock(block, random).data;
    assert padded[..4] == LittleEndian(blockLen);
    EndianRoundTrip(blockLen);
    if |block| < TWO32 {
      assert padded[4..4 + |block|] == block;
    }
  }

  // The number that four bytes hold, the lowest byte first.
  ghost function Number(b: Bytes): nat {
    if b == [] then 0 else b[0] as nat + 256 * Number(b[1..])
  }

  lemma NumberOfFour(b: Bytes)
    requires |b| == 4
    ensures Number(b) == FromLittleEndian(b) < TWO32
  {
    assert b[1..][1..] == b[2..] && b[2..][1..] == b[3..] && b[3..][1..] == [];
    assert Number(b[3..]) == b[3] as nat && Number(b[2..]) == b[2] as nat + 256 * Number(b[3..]);
    assert Number(b[1..]) == b[1] as nat + 256 * Number(b[2..]);
  }

  /** What is stored is the length in four bytes, the lowest first, the block, and the padding. */
  lemma PadLayout(block: Bytes, random: Bytes)
    requires PadBlock(block, random).Ok? && |block| < TWO32
    ensures var padded := PadBlock(block, random).data;
      |padded| >= 4 && Number(padded[..4]) == |block| && padded[4..] == block + random
  {
    hide NextPowerOfTwo, PadLen, LittleEndian, FromLittleEndian;
    var padded := PadBlock(block, random).data;
    assert padded[..4] == LittleEndian(|block|);
    NumberOfFour(padded[..4]);
    EndianRoundTrip(|block|);
  }

  /** For any bytes: as many as the length in front says are returned if and only if there are as many;
      fewer are returned without an error if and only if that length is within four of 2^32, where
      the comparison wraps around. */
  lemma DepadExact(padded: Bytes)
    requires |padded| >= 4
    ensures var n := Number(padded[..4]);
      && ((exists data :: DepadBlock(padded) == Ok(data) && |data| == n) <==> 4 + n <= |padded|)
      && ((exists data :: DepadBlock(padded) == Ok(data) && |data| < n) <==>
          n >= TWO32 - 4 && |padded| < 4 + n)
      && (DepadBlock(padded).Ok? ==> DepadBlock(padded).data <= padded[4..])
  {
    NumberOfFour(padded[..4]);
    var n := Number(padded[..4]);
    assert (n + 4) % TWO32 == if n >= TWO32 - 4 then n + 4 - TWO32 else n + 4;
    if DepadBlock(padded).Ok? {
      assert DepadBlock(padded) == Ok(DepadBlock(padded).data);
    }
  }

  /** Such a block: nothing behind a length of 2^32 - 1. */
  lemma DepadShort()
    ensures DepadBlock([255, 255, 255, 255]) == Ok([]) && Number([255, 255, 255, 255]) == TWO32 - 1
  {
    var b: Bytes := [255, 255, 255, 255];
    assert b[..4] == b;
    NumberOfFour(b);
  }

  /** A block of 2^32 bytes comes back empty. */
  lemma LongBlockLost(random: Bytes)
    requires |random| == PadLen(0)
    ensures var block := seq(TWO32, _ => 0);
      PadBlock(block, random).Ok? && DepadBlock(PadBlock(block, random).data) == Ok([])
  {
    hide NextPowerOfTwo, PadLen, LittleEndian, FromLittleEndian;
    var block := seq(TWO32, _ => 0);
    var padded := PadBlock(block, random).data;
    EndianRoundTrip(0);
    assert padded[..4] == LittleEndian(0);
  }

  /** What is stored, without the length in front, is the next power of two, also at 2^31 and above,
      where that no longer fits into 32 bits. */
  lemma PaddedLength(block: Bytes, random: Bytes, k: nat)
    requires PadBlock(block, random).Ok? && 8 <= k <= 32 && |block| < Pow2(k) && (k > 8 ==> Pow2(k - 1) <= |block|)
    ensures |PadBlock(block, random).data| == 4 + Pow2(k)
  {
    hide Pow2, NextPowerOfTwo, LittleEndian;
    Word();
    PowMonotone(k, 32);
    if k < 32 { PowLess(k, 32); }
    if k == 8 {
      Smallest(|block|);
    } else {
      NextPower(|block|, k - 1);
    }
    PadLenIs(|block|, Pow2(k));
  }

  lemma Smallest(n: nat)
    requires n < MIN_BLOCK_SIZE
    ensures NextPowerOfTwo(n) == MIN_BLOCK_SIZE
  {
  }

  lemma PadLenIs(n: nat, p: nat)
    requires n < p <= TWO32 && p - n < TWO32 && NextPowerOfTwo(n) == p % TWO32
    ensures PadLen(n) == p - n
  {
    hide NextPowerOfTwo;
  }

  // --- the block size the splitter aims at ---------------------------------------------------------

  datatype Splitter = Splitter(maxSize: nat) | TooBig | NoSize | Panic

  // The encoded size aimed at: what is padded up to a power of two must stay below it.
  function Target(desired: nat): nat
    requires desired > 0
  {
    if And(desired, desired - 1) == 0 then desired - 1 else desired
  }

  /** Looks for the number of bytes whose encoding is as long as desired, or one byte shorter if that
      is a power of two. When it finds one, a full block is padded to exactly the next power of two
      above that. It cannot run off the buffer as long as no encoding is shorter than the contents or
      longer by more than is desired, and it finds the size if the encoding only adds a fixed overhead. */
  method NewBlockSplitterSimple(desired: nat, encodedLen: nat -> nat, ghost overhead: nat) returns (r: Splitter)
    requires desired > 0
    ensures r.Splitter? ==> r.maxSize <= Target(desired) && encodedLen(r.maxSize) == Target(desired)
    ensures (forall n: nat :: n <= Target(desired) ==> n <= encodedLen(n) <= n + Target(desired)) ==> r != Panic
    ensures overhead < Target(desired) && (forall n: nat :: n <= Target(desired) ==> encodedLen(n) == n + overhead) ==>
      r == Splitter(Target(desired) - overhead)
  {
    var size := if And(desired, desired - 1) == 0 then desired - 1 else desired;
    var maxSize: int := size;
    var encoded := 0;
    var i := 0;
    while i < 10
      invariant 0 <= i <= 10
      invariant (forall n: nat :: n <= size ==> n <= encodedLen(n) <= n + size) ==> 0 <= maxSize <= size
      invariant overhead < size && (forall n: nat :: n <= size ==> encodedLen(n) == n + overhead) ==>
        i <= 1 && maxSize == if i == 0 then size else size - overhead
    {
      if maxSize < 0 || maxSize > size {
        return Panic;
      }
      encoded := encodedLen(maxSize);
      if encoded >= 2 * size {
        return TooBig;
      }
      if encoded == size {
        return Splitter(maxSize);
      }
      maxSize := maxSize + size - encoded;
      i := i + 1;
    }
    return NoSize;
  }

  /** A full block of a splitter made for a block size of 2^k is padded to exactly 2^k. */
  lemma FullBlockSize(k: nat, encoded: Bytes, random: Bytes)
    requires 8 <= k <= 32 && |encoded| == Pow2(k) - 1 && PadBlock(encoded, random).Ok?
    ensures Target(Pow2(k)) == |encoded| && |PadBlock(encoded, random).data| == 4 + Pow2(k)
  {
    hide NextPowerOfTwo, PadBlock, And;
    PowersOfTwo(k);
    if k > 8 { PowLess(k - 1, k); }
    PaddedLength(encoded, random, k);
  }

  lemma PowersOfTwo(k: nat)
    ensures And(Pow2(k), Pow2(k) - 1) == 0
  {
    AndHigh(k, 0, Pow2(k) - 1);
    AndZero(Pow2(k) - 1);
  }
}
