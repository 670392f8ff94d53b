/** Fixed-width unsigned integers of the STM32 C code, and their byte layout. */
module Ints {
  type u8 = x: int | 0 <= x < 0x100
  type u16 = x: int | 0 <= x < 0x1_0000
  type u32 = x: int | 0 <= x < 0x1_0000_0000

  /** Conversion to u8 in C: keep the value modulo 2^8. */
  function Wrap8(x: int): (r: u8)
    ensures 0 <= x < 0x100 ==> r == x
    ensures (x - r) % 0x100 == 0
  {
    x % 0x100
  }

  /** Conversion to u16 in C: keep the value modulo 2^16. */
  function Wrap16(x: int): (r: u16)
    ensures 0 <= x < 0x1_0000 ==> r == x
    ensures (x - r) % 0x1_0000 == 0
  {
    x % 0x1_0000
  }

  /** Conversion to u32 in C: keep the value modulo 2^32. */
  function Wrap32(x: int): (r: u32)
    ensures 0 <= x < 0x1_0000_0000 ==> r == x
    ensures (x - r) % 0x1_0000_0000 == 0
  {
    x % 0x1_0000_0000
  }

  /** The four bytes of a u32 in little-endian order (the STM32 memory layout). */
  function Bytes4(w: u32): (bs: seq<u8>)
    ensures |bs| == 4
  {
    [w % 0x100, (w / 0x100) % 0x100, (w / 0x1_0000) % 0x100, w / 0x100_0000]
  }

  /** The u32 stored little-endian in four bytes. */
  function Word(bs: seq<u8>): (w: u32)
    requires |bs| == 4
  {
    bs[0] as int + 0x100 * (bs[1] as int + 0x100 * (bs[2] as int + 0x100 * bs[3] as int))
  }

  lemma LowByteSplit(a: int, x: int)
    requires 0 <= a < 0x100
    ensures (a + 0x100 * x) % 0x100 == a
    ensures (a + 0x100 * x) / 0x100 == x
  {
  }

  /** Reading back the bytes of a word gives the word. */
  lemma WordOfBytes(w: u32)
    ensures Word(Bytes4(w)) == w
  {
    var q1 := w / 0x100;
    var q2 := q1 / 0x100;
    var q3 := q2 / 0x100;
    assert w == w % 0x100 + 0x100 * q1;
    assert q1 == q1 % 0x100 + 0x100 * q2;
    assert q2 == q2 % 0x100 + 0x100 * q3;
    DivExact(w, 0x1_0000, q2, w % 0x100 + 0x100 * (q1 % 0x100));
    DivExact(w, 0x100_0000, q3, w % 0x100 + 0x100 * (q1 % 0x100) + 0x1_0000 * (q2 % 0x100));
  }

  /** Packing four bytes into a word and splitting it again gives the bytes. */
  lemma BytesOfWord(bs: seq<u8>)
    requires |bs| == 4
    ensures Bytes4(Word(bs)) == bs
  {
    var hi: int := bs[2] as int + 0x100 * bs[3] as int;
    var mid: int := bs[1] as int + 0x100 * hi;
    LowByteSplit(bs[0], mid);
    LowByteSplit(bs[1], hi);
    LowByteSplit(bs[2], bs[3]);
    assert Word(bs) / 0x1_0000 == hi;
    assert Word(bs) / 0x100_0000 == bs[3];
  }

  /** A word is erased flash (all ones) exactly when its low byte and the rest are. */
  lemma ErasedWordLowByte(w: u32)
    ensures w == 0xFFFF_FFFF ==> Bytes4(w) == [0xFF, 0xFF, 0xFF, 0xFF]
  {
  }

  /** Reducing modulo 2^32 before an addition does not change the wrapped sum. */
  lemma WrapAdd32(a: int, b: int)
    ensures Wrap32(Wrap32(a) + b) == Wrap32(a + b)
  {
    var q := (a - Wrap32(a)) / 0x1_0000_0000;
    assert a == Wrap32(a) + q * 0x1_0000_0000;
    assert (Wrap32(a) + b + q * 0x1_0000_0000) % 0x1_0000_0000 == (Wrap32(a) + b) % 0x1_0000_0000;
  }

  /** Reducing modulo 2^16 before an addition does not change the wrapped sum. */
  lemma WrapAdd16(a: int, b: int)
    ensures Wrap16(Wrap16(a) + b) == Wrap16(a + b)
  {
    var q := (a - Wrap16(a)) / 0x1_0000;
    assert a == Wrap16(a) + q * 0x1_0000;
    assert (Wrap16(a) + b + q * 0x1_0000) % 0x1_0000 == (Wrap16(a) + b) % 0x1_0000;
  }

  /** d·x <= d·y for a non-negative d and x <= y. */
  lemma MulMonotone(d: int, x: int, y: int)
    requires 0 <= d && x <= y
    ensures d * x <= d * y
  {
    assert d * y - d * x == d * (y - x);
  }

  /** Integer division by a positive divisor is monotone. */
  lemma DivMonotone(a: int, b: int, d: int)
    requires 0 <= a <= b && 0 < d
    ensures a / d <= b / d
  {
    var qa, qb := a / d, b / d;
    assert d * qa <= a;
    assert b < d * (qb + 1);
    if qa > qb {
      MulMonotone(d, qb + 1, qa);
    }
  }

  /** d·k/d == k for a positive d. */
  lemma MulDivCancel(d: int, k: int)
    requires 0 < d
    ensures d * k / d == k
  {
    var q := d * k / d;
    assert d * q <= d * k < d * (q + 1);
    if q < k {
      MulMonotone(d, q + 1, k);
    } else if q > k {
      MulMonotone(d, k + 1, q);
    }
  }

  /** d·k >= d for a positive d and k >= 1. */
  lemma MulAtLeast(d: int, k: int)
    requires 0 < d && 1 <= k
    ensures d * k >= d
  {
    assert d * k == d + d * (k - 1);
  }

  /** x / d == q when x == d·q + r with 0 <= r < d. */
  lemma DivExact(x: int, d: int, q: int, r: int)
    requires 0 <= r < d && x == d * q + r
    ensures x / d == q
  {
    var q0, r0 := x / d, x % d;
    assert d * q0 + r0 == d * q + r;
    assert d * (q - q0) == r0 - r;
    if q > q0 {
      MulAtLeast(d, q - q0);
    } else if q < q0 {
      MulAtLeast(d, q0 - q);
    }
  }

  /** Counting one further moves the remainder one step round the cycle. */
  lemma SuccessorMod(a: int, p: int)
    requires 0 < p
    ensures (a + 1) % p == (a % p + 1) % p
  {
    var q, r := a / p, a % p;
    assert p * (q + 1) == p * q + p;
    if r == p - 1 {
      DivExact(a + 1, p, q + 1, 0);
      DivExact(p, p, 1, 0);
    } else {
      DivExact(a + 1, p, q, r + 1);
      DivExact(r + 1, p, 0, r + 1);
    }
  }

  lemma ModAddPeriod(x: int, p: int)
    requires 0 <= x && 0 < p
    ensures (x + p) % p == x % p
  {
    var q, r := x / p, x % p;
    assert x + p == p * (q + 1) + r;
    DivExact(x + p, p, q + 1, r);
  }

  /** 1 << i. */
  function Pow2(i: nat): (p: nat)
    ensures p >= 1
  {
    if i == 0 then 1 else 2 * Pow2(i - 1)
  }

  /** 2^(a+b) == 2^a·2^b. */
  lemma {:induction false} Pow2Add(a: nat, b: nat)
    ensures Pow2(a + b) == Pow2(a) * Pow2(b)
  {
    if b > 0 {
      Pow2Add(a, b - 1);
      assert Pow2(a + b) == 2 * Pow2(a + (b - 1));
    }
  }

  /** 2^8 and 2^16. */
  lemma Pow2Widths()
    ensures Pow2(8) == 256 && Pow2(16) == 65536
  {
    assert Pow2(2) == 4;
    assert Pow2(4) == 16;
    assert Pow2(6) == 64;
    assert Pow2(8) == 256;
    Pow2Add(8, 8);
  }

  /** Powers of two increase strictly. */
  lemma Pow2Increasing(a: nat, b: nat)
    requires a < b
    ensures Pow2(a) < Pow2(b)
  {
    Pow2Add(a, b - a);
    assert Pow2(b - a) == 2 * Pow2(b - a - 1);
    MulAtLeast(Pow2(a), Pow2(b - a));
  }

  /** 2^b is an even multiple of 2^a for a < b. */
  lemma Pow2Multiple(a: nat, b: nat)
    requires a < b
    ensures Pow2(b) == Pow2(a) * Pow2(b - a) && Pow2(b - a) % 2 == 0
  {
    Pow2Even(b - a);
    Pow2Add(a, b - a);
  }

  /** A positive power of two is even. */
  lemma Pow2Even(n: nat)
    requires 0 < n
    ensures Pow2(n) % 2 == 0
  {
    var h := Pow2(n - 1);
    assert Pow2(n) == 2 * h;
  }
}
