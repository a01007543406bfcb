/** sensors/ms5837.py: the PROM checksum, on a register that Python never masks. */
module Crc4 {

  // ---------------------------------------------------------------- exclusive or on naturals

  function Xor(a: nat, b: nat): nat
    decreases a + b
  {
    if a == 0 && b == 0 then 0 else 2 * Xor(a / 2, b / 2) + (a + b) % 2
  }

  lemma {:induction false} XorComm(a: nat, b: nat)
    ensures Xor(a, b) == Xor(b, a)
    decreases a + b
  {
    if a + b > 0 {
      XorComm(a / 2, b / 2);
    }
  }

  lemma {:induction false} XorZero(a: nat)
    ensures Xor(a, 0) == a && Xor(0, a) == a
  {
    if a > 0 {
      XorZero(a / 2);
    }
  }

  lemma {:induction false} XorSelf(a: nat)
    ensures Xor(a, a) == 0
  {
    if a > 0 {
      XorSelf(a / 2);
    }
  }

  /** The last bit and the rest of an exclusive or. */
  lemma XorParts(a: nat, b: nat)
    ensures Xor(a, b) / 2 == Xor(a / 2, b / 2) && Xor(a, b) % 2 == (a + b) % 2
    ensures Xor(a, b) == 2 * Xor(a / 2, b / 2) + (a + b) % 2
  {
  }

  lemma {:induction false} XorAssoc(a: nat, b: nat, c: nat)
    ensures Xor(Xor(a, b), c) == Xor(a, Xor(b, c))
    decreases a + b + c
  {
    if a + b + c == 0 {
    } else {
      hide Xor;
      XorAssoc(a / 2, b / 2, c / 2);
      XorParts(a, b);
      XorParts(b, c);
      XorParts(Xor(a, b), c);
      XorParts(a, Xor(b, c));
      Parity(Xor(a, b), Xor(b, c), a, b, c);
    }
  }

  lemma Parity(p: nat, q: nat, a: nat, b: nat, c: nat)
    requires p % 2 == (a + b) % 2 && q % 2 == (b + c) % 2
    ensures (p + c) % 2 == (a + q) % 2
  {
  }

  /** (a ^ c) ^ (b ^ d) == (a ^ b) ^ (c ^ d) */
  lemma XorSwap(a: nat, b: nat, c: nat, d: nat)
    ensures Xor(Xor(a, c), Xor(b, d)) == Xor(Xor(a, b), Xor(c, d))
  {
    hide Xor;
    XorAssoc(Xor(a, c), b, d);
    XorAssoc(a, c, b);
    XorComm(c, b);
    XorAssoc(a, b, c);
    XorAssoc(Xor(a, b), c, d);
  }

  lemma XorInjective(a: nat, b: nat, c: nat)
    ensures Xor(a, c) == Xor(b, c) ==> a == b
  {
    hide Xor;
    XorAssoc(a, c, c);
    XorAssoc(b, c, c);
    XorSelf(c);
    XorZero(a);
    XorZero(b);
  }

  function Pow2(k: nat): (p: nat)
    ensures p > 0
  {
    if k == 0 then 1 else 2 * Pow2(k - 1)
  }

  /** a with k zero bits after it. */
  function Shl(a: nat, k: nat): nat
  {
    if k == 0 then a else 2 * Shl(a, k - 1)
  }

  /** Splitting both numbers at bit k splits the exclusive or. */
  lemma {:induction false} XorSplit(k: nat, a: nat, b: nat, x: nat, y: nat)
    requires x < Pow2(k) && y < Pow2(k)
    ensures Xor(Shl(a, k) + x, Shl(b, k) + y) == Shl(Xor(a, b), k) + Xor(x, y)
    ensures Xor(x, y) < Pow2(k)
    decreases k
  {
    if k > 0 {
      hide Xor;
      ShlStep(a, k);
      ShlStep(b, k);
      ShlStep(Xor(a, b), k);
      assert Pow2(k) == 2 * Pow2(k - 1);
      hide Shl, Pow2;
      XorSplit(k - 1, a, b, x / 2, y / 2);
      SplitDoubled(Shl(a, k - 1), Shl(b, k - 1), Shl(Xor(a, b), k - 1), x, y);
      XorBelow(x, y, Pow2(k - 1));
    }
  }

  lemma ShlStep(a: nat, k: nat)
    requires k > 0
    ensures Shl(a, k) == 2 * Shl(a, k - 1)
  {
  }

  lemma SplitDoubled(p: nat, q: nat, r: nat, x: nat, y: nat)
    requires Xor(p + x / 2, q + y / 2) == r + Xor(x / 2, y / 2)
    ensures Xor(2 * p + x, 2 * q + y) == 2 * r + Xor(x, y)
  {
    hide Xor;
    SplitLastBit(2 * p + x, 2 * q + y, x, y, p + x / 2, q + y / 2, r);
  }

  lemma XorBelow(x: nat, y: nat, h: nat)
    requires Xor(x / 2, y / 2) < h
    ensures Xor(x, y) < 2 * h
  {
    hide Xor;
    XorParts(x, y);
  }

  lemma SumParity(m: nat, n: nat, x: nat, y: nat)
    requires m % 2 == x % 2 && n % 2 == y % 2
    ensures (m + n) % 2 == (x + y) % 2
  {
  }

  lemma SplitLastBit(m: nat, n: nat, x: nat, y: nat, m2: nat, n2: nat, w: nat)
    requires m / 2 == m2 && n / 2 == n2 && m % 2 == x % 2 && n % 2 == y % 2
    requires Xor(m2, n2) == w + Xor(x / 2, y / 2)
    ensures Xor(m, n) == 2 * w + Xor(x, y)
  {
    hide Xor;
    XorParts(m, n);
    XorParts(x, y);
    SumParity(m, n, x, y);
  }

  lemma Doubled(a: nat, h: nat)
    ensures a * (2 * h) == 2 * (a * h)
  {
  }

  lemma Shifted4(a: nat, k: nat)
    ensures Shl(a, k + 4) == 16 * Shl(a, k)
  {
    assert Shl(a, k + 1) == 2 * Shl(a, k);
    assert Shl(a, k + 2) == 2 * Shl(a, k + 1);
    assert Shl(a, k + 3) == 2 * Shl(a, k + 2);
    assert Shl(a, k + 4) == 2 * Shl(a, k + 3);
  }

  lemma Shifteds(a: nat)
    ensures Shl(a, 4) == a * 16 && Shl(a, 8) == a * 256 && Shl(a, 12) == a * 4096 && Shl(a, 16) == a * 65536
  {
    assert Shl(a, 0) == a;
    Shifted4(a, 0);
    Shifted4(a, 4);
    Shifted4(a, 8);
    Shifted4(a, 12);
    hide Shl;
  }

  lemma Powers()
    ensures Pow2(4) == 16 && Pow2(8) == 256 && Pow2(12) == 4096 && Pow2(16) == 65536
  {
    assert Pow2(4) == 16;
    assert Pow2(8) == 16 * Pow2(4);
    assert Pow2(12) == 16 * Pow2(8);
    assert Pow2(16) == 16 * Pow2(12);
  }

  // ---------------------------------------------------------------- the register

  /** One turn of the inner loop on the unbounded register. */
  function Shift(r: nat): nat
  {
    if r / 0x8000 % 2 == 1 then Xor(2 * r, 0x3000) else 2 * r
  }

  function Shifts(r: nat, n: nat): nat
  {
    if n == 0 then r else Shift(Shifts(r, n - 1))
  }

  /** The byte that turn i of the outer loop feeds in. */
  function ByteAt(words: seq<nat>, i: nat): nat
    requires i / 2 < |words|
  {
    if i % 2 == 1 then words[i / 2] % 256 else words[i / 2] / 256
  }

  function Feed(words: seq<nat>, n: nat): nat
    requires n <= 2 * |words|
  {
    if n == 0 then 0 else Shifts(Xor(Feed(words, n - 1), ByteAt(words, n - 1)), 8)
  }

  lemma FeedStart(words: seq<nat>)
    ensures Feed(words, 0) == 0
  {
  }

  lemma FeedTurn(words: seq<nat>, i: nat)
    requires i < 2 * |words|
    ensures Feed(words, i + 1) == Shifts(Xor(Feed(words, i), ByteAt(words, i)), 8)
  {
  }

  /** PROM contents as read: seven 16-bit words, the checksum in the top four bits of the first. */
  predicate IsProm(p: seq<nat>)
  {
    |p| == 7 && forall i :: 0 <= i < 7 ==> p[i] < 65536
  }

  /** What the checksum runs over: the checksum bits cleared, a zero word appended. */
  function Masked(p: seq<nat>): seq<nat>
    requires |p| == 7
  {
    [p[0] % 4096] + p[1..] + [0]
  }

  function Crc(p: seq<nat>): (crc: nat)
    requires |p| == 7
    ensures crc < 16
  {
    Feed(Masked(p), 16) / 4096 % 16
  }

  predicate Accepts(p: seq<nat>)
    requires |p| == 7
  {
    p[0] / 4096 % 16 == Crc(p)
  }

  // ---------------------------------------------------------------- the sensor object

  class Ms5837 {
    var c: seq<nat>
    var nRem: nat

    constructor ()
      ensures c == [] && nRem == 0
    {
      c, nRem := [], 0;
    }

    /** The datasheet loop, on the object's own list: the list is left masked and one word longer. */
    method CheckSum() returns (crc: nat)
      requires |c| == 7
      modifies this
      ensures crc == nRem == Crc(old(c))
      ensures c == Masked(old(c))
    {
      c := c[0 := c[0] % 4096];
      c := c + [0];
      ghost var words := c;
      assert words == Masked(old(c));
      nRem := 0;
      hide Masked, Shifts, Xor, Feed;
      FeedStart(words);
      for i := 0 to 16
        invariant c == words
        invariant nRem == Feed(words, i)
      {
        FeedTurn(words, i);
        if i % 2 == 1 {
          nRem := Xor(nRem, c[i / 2] % 256);
        } else {
          nRem := Xor(nRem, c[i / 2] / 256);
        }
        ShiftByte();
      }
      nRem := nRem / 4096 % 16;
      crc := nRem;
    }

    /** The inner loop: eight shifts of the register. */
    method ShiftByte()
      modifies this`nRem
      ensures nRem == Shifts(old(nRem), 8)
    {
      var bit := 8;
      while bit > 0
        invariant 0 <= bit <= 8
        invariant nRem == Shifts(old(nRem), 8 - bit)
      {
        if nRem / 0x8000 % 2 == 1 {
          nRem := Xor(2 * nRem, 0x3000);
        } else {
          nRem := 2 * nRem;
        }
        bit := bit - 1;
        hide Xor;
      }
    }

    /** Read seven little-endian words off the bus, swap their bytes, and compare the stored checksum. */
    method Init(raw: seq<nat>) returns (ok: bool)
      requires |raw| == 7 && forall i :: 0 <= i < 7 ==> raw[i] < 65536
      modifies this
      ensures ok == Accepts(Swapped(raw))
      ensures c == Masked(Swapped(raw))
    {
      c := [];
      for i := 0 to 7
        invariant c == Swapped(raw)[..i]
      {
        c := c + [SwapBytes(raw[i])];
      }
      assert c == Swapped(raw);
      var stored := c[0] / 4096 % 16;
      var crc := CheckSum();
      ok := stored == crc;
    }
  }

  function SwapBytes(w: nat): (s: nat)
    ensures w < 65536 ==> s < 65536 && s / 256 == w % 256 && s % 256 == w / 256
  {
    w % 256 * 256 + w / 256
  }

  function Swapped(raw: seq<nat>): seq<nat>
  {
    seq(|raw|, i requires 0 <= i < |raw| => SwapBytes(raw[i]))
  }

  // ---------------------------------------------------------------- 16 bits are enough

  function Shift16(r: nat): nat
  {
    Shift(r) % 65536
  }

  lemma XorMod(r: nat, x: nat)
    requires x < 65536
    ensures Xor(r, x) % 65536 == Xor(r % 65536, x) && Xor(r % 65536, x) < 65536
  {
    hide Xor;
    Split65536(r / 65536, 0, r % 65536, x);
  }

  lemma Split65536(a: nat, b: nat, x: nat, y: nat)
    requires x < 65536 && y < 65536
    ensures Xor(a * 65536 + x, b * 65536 + y) == Xor(a, b) * 65536 + Xor(x, y)
    ensures Xor(x, y) < 65536
  {
    hide Xor;
    Powers();
    Shifteds(a);
    Shifteds(b);
    Shifteds(Xor(a, b));
    hide Pow2, Shl;
    XorSplit(16, a, b, x, y);
  }

  lemma Split4096(a: nat, b: nat, x: nat, y: nat)
    requires x < 4096 && y < 4096
    ensures Xor(a * 4096 + x, b * 4096 + y) == Xor(a, b) * 4096 + Xor(x, y)
    ensures Xor(x, y) < 4096
  {
    hide Xor;
    Powers();
    Shifteds(a);
    Shifteds(b);
    Shifteds(Xor(a, b));
    hide Pow2, Shl;
    XorSplit(12, a, b, x, y);
  }

  lemma Split256(a: nat, b: nat, x: nat, y: nat)
    requires x < 256 && y < 256
    ensures Xor(a * 256 + x, b * 256 + y) == Xor(a, b) * 256 + Xor(x, y)
    ensures Xor(x, y) < 256
  {
    hide Xor;
    Powers();
    Shifteds(a);
    Shifteds(b);
    Shifteds(Xor(a, b));
    hide Pow2, Shl;
    XorSplit(8, a, b, x, y);
  }

  lemma Split16(a: nat, b: nat, x: nat, y: nat)
    requires x < 16 && y < 16
    ensures Xor(a * 16 + x, b * 16 + y) == Xor(a, b) * 16 + Xor(x, y)
    ensures Xor(x, y) < 16
  {
    hide Xor;
    Powers();
    Shifteds(a);
    Shifteds(b);
    Shifteds(Xor(a, b));
    hide Pow2, Shl;
    XorSplit(4, a, b, x, y);
  }

  /** After every shift the unbounded register agrees with a 16-bit one. */
  lemma ShiftAgrees(r: nat)
    ensures Shift(r) % 65536 == Shift16(r % 65536)
  {
    hide Xor;
    XorMod(2 * r, 0x3000);
    XorMod(2 * (r % 65536), 0x3000);
    LowWord(r / 65536, r % 65536);
  }

  /** Doubling and the top bit depend on the low word alone. */
  lemma LowWord(high: nat, low: nat)
    requires low < 65536
    ensures var r := 65536 * high + low;
            2 * r % 65536 == 2 * low % 65536 && r / 0x8000 % 2 == low / 0x8000 % 2
  {
    var r, d, h := 65536 * high + low, 2 * low, low / 0x8000;
    WordResidue(2 * high + d / 65536, d % 65536);
    HalfWordQuotient(2 * high + h, low % 0x8000);
    EvenPlus(high, h);
    assert 2 * r == 65536 * (2 * high + d / 65536) + d % 65536;
    assert r == 0x8000 * (2 * high + h) + low % 0x8000;
  }

  lemma WordResidue(q: nat, t: nat)
    requires t < 65536
    ensures (65536 * q + t) % 65536 == t
  {
  }

  lemma HalfWordQuotient(q: nat, t: nat)
    requires t < 0x8000
    ensures (0x8000 * q + t) / 0x8000 == q
  {
  }

  lemma EvenPlus(h: nat, x: nat)
    ensures (2 * h + x) % 2 == x % 2
  {
  }

  function Shifts16(r: nat, n: nat): nat
  {
    if n == 0 then r else Shift16(Shifts16(r, n - 1))
  }

  function Feed16(words: seq<nat>, n: nat): nat
    requires n <= 2 * |words|
  {
    if n == 0 then 0 else Shifts16(Xor(Feed16(words, n - 1), ByteAt(words, n - 1)), 8)
  }

  lemma {:induction false} ShiftsAgree(r: nat, n: nat)
    ensures Shifts(r, n) % 65536 == Shifts16(r % 65536, n)
  {
    hide Shift, Shift16;
    if n > 0 {
      ShiftsAgree(r, n - 1);
      ShiftAgrees(Shifts(r, n - 1));
    }
  }

  /** The whole checksum can be run in a 16-bit register, at every byte. */
  lemma {:induction false} SixteenBitsSuffice(words: seq<nat>, n: nat)
    requires n <= 2 * |words| && forall i :: 0 <= i < |words| ==> words[i] < 65536
    ensures Feed(words, n) % 65536 == Feed16(words, n)
  {
    hide Xor, Shifts, Shifts16, ByteAt;
    if n > 0 {
      SixteenBitsSuffice(words, n - 1);
      ByteSmall(words, n - 1);
      XorMod(Feed(words, n - 1), ByteAt(words, n - 1));
      ShiftsAgree(Xor(Feed(words, n - 1), ByteAt(words, n - 1)), 8);
    }
  }

  lemma ByteSmall(words: seq<nat>, i: nat)
    requires i / 2 < |words| && forall j :: 0 <= j < |words| ==> words[j] < 65536
    ensures ByteAt(words, i) < 256
  {
  }

  lemma NibbleOf(r: nat)
    ensures r / 4096 % 16 == r % 65536 / 4096
  {
    var q, t := r / 65536, r % 65536;
    assert r == 65536 * q + t;
    assert r / 4096 == 16 * q + t / 4096;
  }
}
