/** What the MS5837 PROM checksum computes, and which errors it catches. */
module Crc4Detection {
  import opened Crc4

  // ---------------------------------------------------------------- the remainder

  /** Multiplication by x modulo x^4 + x + 1, on four-bit remainders. */
  function TimesX(s: nat): nat
  {
    if s >= 8 then Xor(2 * s, 19) else 2 * s
  }

  /** Remainder modulo x^4 + x + 1 of the polynomial whose coefficients are the bits of m. */
  function Rem(m: nat): nat
  {
    if m == 0 then 0 else Xor(TimesX(Rem(m / 2)), m % 2)
  }

  lemma RemStep(m: nat, bit: nat)
    requires bit < 2
    ensures Rem(2 * m + bit) == Xor(TimesX(Rem(m)), bit)
  {
    XorZero(0);
  }

  lemma By8(a: nat)
    ensures Shl(a, 3) == a * 8
  {
    assert Shl(a, 1) == 2 * a && Shl(a, 2) == 2 * Shl(a, 1) && Shl(a, 3) == 2 * Shl(a, 2);
  }

  lemma Split8(a: nat, b: nat, x: nat, y: nat)
    requires x < 8 && y < 8
    ensures Xor(a * 8 + x, b * 8 + y) == Xor(a, b) * 8 + Xor(x, y)
    ensures Xor(x, y) < 8
  {
    hide Xor;
    assert Pow2(3) == 8;
    By8(a);
    By8(b);
    By8(Xor(a, b));
    hide Pow2, Shl;
    XorSplit(3, a, b, x, y);
  }

  lemma XorBits()
    ensures Xor(0, 0) == 0 && Xor(0, 1) == 1 && Xor(1, 0) == 1 && Xor(1, 1) == 0
  {
    XorZero(0);
    XorZero(1);
    XorSelf(1);
  }

  /** Four-bit exclusive or: it stays in four bits, and its top bit is the sum of the top bits. */
  lemma XorNibbles(s: nat, t: nat)
    requires s < 16 && t < 16
    ensures Xor(s, t) < 16
    ensures Xor(s, t) >= 8 <==> (s >= 8 && t < 8) || (s < 8 && t >= 8)
  {
    hide Xor;
    Split8(s / 8, t / 8, s % 8, t % 8);
    XorBits();
  }

  lemma XorDouble(s: nat, t: nat)
    ensures Xor(2 * s, 2 * t) == 2 * Xor(s, t)
  {
    hide Xor;
    XorParts(2 * s, 2 * t);
  }

  lemma TimesXRange(s: nat)
    requires s < 16
    ensures TimesX(s) < 16
  {
    if s >= 8 {
      hide Xor;
      Split16(1, 1, 2 * s - 16, 3);
      XorBits();
    }
  }

  lemma TimesXLinear(s: nat, t: nat)
    requires s < 16 && t < 16
    ensures TimesX(Xor(s, t)) == Xor(TimesX(s), TimesX(t))
  {
    hide Xor;
    XorNibbles(s, t);
    XorDouble(s, t);
    var a, b := 2 * s, 2 * t;
    if s >= 8 && t >= 8 {
      XorSwap(a, b, 19, 19);
      XorSelf(19);
      XorZero(Xor(a, b));
    } else if s >= 8 {
      XorAssoc(a, 19, b);
      XorComm(19, b);
      XorAssoc(a, b, 19);
    } else if t >= 8 {
      XorAssoc(a, b, 19);
    }
  }

  /** x is invertible: only 0 goes to 0. */
  lemma TimesXNonZero(s: nat)
    requires 0 < s < 16
    ensures TimesX(s) != 0
  {
    if s >= 8 {
      hide Xor;
      XorSelf(19);
      XorInjective(2 * s, 19, 19);
    }
  }

  lemma {:induction false} RemRange(m: nat)
    ensures Rem(m) < 16
  {
    hide Xor;
    if m > 0 {
      RemRange(m / 2);
      TimesXRange(Rem(m / 2));
      XorNibbles(TimesX(Rem(m / 2)), m % 2);
    }
  }

  lemma {:induction false} RemLinear(m: nat, n: nat)
    ensures Rem(Xor(m, n)) == Xor(Rem(m), Rem(n))
    decreases m + n
  {
    hide Xor, TimesX;
    if m == 0 {
      XorZero(n);
      XorZero(Rem(n));
    } else if n == 0 {
      XorZero(m);
      XorZero(Rem(m));
    } else {
      RemLinear(m / 2, n / 2);
      RemRange(m / 2);
      RemRange(n / 2);
      XorParts(m, n);
      RemStep(Xor(m / 2, n / 2), (m + n) % 2);
      TimesXLinear(Rem(m / 2), Rem(n / 2));
      XorSwap(TimesX(Rem(m / 2)), TimesX(Rem(n / 2)), m % 2, n % 2);
      XorBits();
      assert Xor(m % 2, n % 2) == (m + n) % 2;
    }
  }

  lemma RemSmall(m: nat)
    requires m < 16
    ensures Rem(m) == m
    decreases m
  {
    hide Xor;
    if m == 0 {
    } else {
      RemSmall(m / 2);
      EvenPlusBit(m / 2, m % 2);
    }
  }

  lemma EvenPlusBit(h: nat, bit: nat)
    requires bit < 2
    ensures Xor(2 * h, bit) == 2 * h + bit
  {
    hide Xor;
    XorParts(2 * h, bit);
    XorZero(h);
  }

  /** A run of at most four bits leaves a non-zero remainder, wherever it lies. */
  lemma {:induction false} BurstRemains(m: nat, k: nat)
    requires 0 < m < 16
    ensures Rem(m * Pow2(k)) != 0
  {
    hide Xor, TimesX;
    if k == 0 {
      RemSmall(m);
    } else {
      BurstRemains(m, k - 1);
      var n := m * Pow2(k - 1);
      assert m * Pow2(k) == 2 * n by {
        Doubled(m, Pow2(k - 1));
      }
      RemStep(n, 0);
      RemRange(n);
      XorZero(TimesX(Rem(n)));
      TimesXNonZero(Rem(n));
    }
  }

  // ---------------------------------------------------------------- the register holds the remainder

  /** The 16-bit register after some bits: remainder of those consumed on top, the queue of those to come below. */
  predicate Holds(r: nat, m: nat, queue: nat)
  {
    r == Rem(m) * 4096 + queue && queue < 4096
  }

  lemma ShiftHolds(r: nat, m: nat, queue: nat)
    requires Holds(r, m, queue)
    ensures var bit := queue / 2048;
            bit < 2 && Holds(Shift16(r), 2 * m + bit, 2 * queue - 4096 * bit)
  {
    hide Xor, TimesX, Rem;
    var s, bit := Rem(m), queue / 2048;
    RemRange(m);
    RemStep(m, bit);
    if s >= 8 {
      ShiftTop(s, queue);
    } else {
      ShiftLow(s, queue);
    }
  }

  lemma ShiftLow(s: nat, queue: nat)
    requires s < 8 && queue < 4096
    ensures var bit := queue / 2048;
            Shift16(s * 4096 + queue) == Xor(TimesX(s), bit) * 4096 + (2 * queue - 4096 * bit)
  {
    hide Xor, TimesX;
    assert (s * 4096 + queue) / 0x8000 == 0;
    TimesXLow(s, queue / 2048);
  }

  lemma ShiftTop(s: nat, queue: nat)
    requires 8 <= s < 16 && queue < 4096
    ensures var bit := queue / 2048;
            Shift16(s * 4096 + queue) == Xor(TimesX(s), bit) * 4096 + (2 * queue - 4096 * bit)
  {
    hide Xor, TimesX;
    var bit := queue / 2048;
    var rest := 2 * queue - 4096 * bit;
    assert (s * 4096 + queue) / 0x8000 == 1;
    assert 2 * (s * 4096 + queue) == (2 * s + bit) * 4096 + rest;
    Split4096(2 * s + bit, 3, rest, 0);
    XorZero(rest);
    ReduceTop(s, bit);
    assert Xor(2 * s + bit, 3) == 16 * (Xor(2 * s + bit, 3) / 16) + Xor(TimesX(s), bit);
  }

  lemma TimesXLow(s: nat, bit: nat)
    requires s < 8 && bit < 2
    ensures Xor(TimesX(s), bit) == 2 * s + bit
  {
    EvenPlusBit(s, bit);
  }

  /** Reducing at bit 16 with 3 is reducing at bit 4 with 19, modulo 16. */
  lemma ReduceTop(s: nat, bit: nat)
    requires 8 <= s < 16 && bit < 2
    ensures Xor(TimesX(s), bit) < 16
    ensures Xor(2 * s + bit, 3) % 16 == Xor(TimesX(s), bit)
  {
    hide Xor;
    var t := 2 * s - 16;
    Split16(1, 0, t + bit, 3);
    Split16(1, 1, t, 3);
    XorBits();
    EvenPlusBit(s - 8, bit);
    XorComm(t, bit);
    XorAssoc(t, bit, 3);
    XorComm(bit, 3);
    XorAssoc(t, 3, bit);
    XorZero(1);
    XorNibbles(Xor(t, 3), bit);
  }

  lemma Shift4Holds(r: nat, m: nat, queue: nat)
    requires Holds(r, m, queue)
    ensures Holds(Shifts16(r, 4), 16 * m + queue / 256, queue % 256 * 16)
  {
    hide Rem, Shift16;
    assert Shifts16(r, 0) == r;
    var b0 := queue / 2048;
    ShiftHolds(r, m, queue);
    var m1, q1 := 2 * m + b0, 2 * queue - 4096 * b0;
    var b1 := q1 / 2048;
    ShiftHolds(Shifts16(r, 1), m1, q1);
    var m2, q2 := 2 * m1 + b1, 2 * q1 - 4096 * b1;
    var b2 := q2 / 2048;
    ShiftHolds(Shifts16(r, 2), m2, q2);
    var m3, q3 := 2 * m2 + b2, 2 * q2 - 4096 * b2;
    var b3 := q3 / 2048;
    ShiftHolds(Shifts16(r, 3), m3, q3);
    assert Shifts16(r, 4) == Shift16(Shifts16(r, 3));
    var top := 8 * b0 + 4 * b1 + 2 * b2 + b3;
    assert 2 * q3 - 4096 * b3 == 16 * queue - 4096 * top;
    assert top == queue / 256;
  }

  lemma {:induction false} ShiftsAdd(r: nat, m: nat, n: nat)
    ensures Shifts16(r, m + n) == Shifts16(Shifts16(r, m), n)
    decreases n
  {
    hide Shift16;
    if n > 0 {
      ShiftsAdd(r, m, n - 1);
    }
  }

  lemma Shift8Holds(r: nat, m: nat, queue: nat)
    requires Holds(r, m, queue)
    ensures Holds(Shifts16(r, 8), 256 * m + queue / 16, queue % 16 * 256)
  {
    hide Holds, Shifts16;
    assert queue < 4096 by { HoldsQueue(r, m, queue); }
    Shift4Holds(r, m, queue);
    Shift4Holds(Shifts16(r, 4), 16 * m + queue / 256, queue % 256 * 16);
    ShiftsAdd(r, 4, 4);
    assert queue % 256 * 16 / 256 == queue % 256 / 16;
    assert queue % 256 * 16 % 256 * 16 == queue % 16 * 256;
    assert 16 * (queue / 256) + queue % 256 / 16 == queue / 16;
  }

  lemma HoldsQueue(r: nat, m: nat, queue: nat)
    requires Holds(r, m, queue)
    ensures queue < 4096
  {
  }

  /** The bytes fed so far, read as one number. */
  function Message(words: seq<nat>, n: nat): nat
    requires n <= 2 * |words|
  {
    if n == 0 then 0 else 256 * Message(words, n - 1) + ByteAt(words, n - 1)
  }

  /** Byte by byte the register holds the remainder of all but the last four bits fed, those four waiting below it. */
  lemma {:induction false} FeedHolds(words: seq<nat>, n: nat)
    requires n <= 2 * |words| && forall i :: 0 <= i < |words| ==> words[i] < 65536
    ensures Holds(Feed16(words, n), Message(words, n) / 16, Message(words, n) % 16 * 256)
  {
    if n == 0 {
    } else {
      hide Xor, Rem, Shifts16, ByteAt, Holds, Feed16, Message;
      FeedUnfolds(words, n);
      FeedHolds(words, n - 1);
      ByteSmall(words, n - 1);
      FeedByte(Feed16(words, n - 1), Message(words, n - 1), ByteAt(words, n - 1));
    }
  }

  lemma FeedUnfolds(words: seq<nat>, n: nat)
    requires 0 < n <= 2 * |words|
    ensures Feed16(words, n) == Shifts16(Xor(Feed16(words, n - 1), ByteAt(words, n - 1)), 8)
    ensures Message(words, n) == 256 * Message(words, n - 1) + ByteAt(words, n - 1)
  {
    hide Xor, Shifts16, ByteAt;
  }

  lemma FeedByte(r: nat, m: nat, b: nat)
    requires b < 256 && Holds(r, m / 16, m % 16 * 256)
    ensures Holds(Shifts16(Xor(r, b), 8), (256 * m + b) / 16, (256 * m + b) % 16 * 256)
  {
    hide Xor, Rem, Shifts16;
    var high := Rem(m / 16) * 16 + m % 16;
    XorIntoZeros(high, b);
    assert r == high * 256;
    Shift8Holds(r + b, m / 16, m % 16 * 256 + b);
    assert (256 * m + b) / 16 == 16 * m + b / 16;
    assert (256 * m + b) % 16 == b % 16;
    assert 16 * m == 256 * (m / 16) + 16 * (m % 16);
    assert (m % 16 * 256 + b) / 16 == 16 * (m % 16) + b / 16;
    assert (m % 16 * 256 + b) % 16 == b % 16;
  }

  lemma XorIntoZeros(high: nat, b: nat)
    requires b < 256
    ensures Xor(high * 256, b) == high * 256 + b
  {
    hide Xor;
    Split256(high, 0, 0, b);
    XorZero(high);
    XorZero(b);
  }

  // ---------------------------------------------------------------- the checksum

  /** Words read as one number, first word on top. */
  function Number(words: seq<nat>): nat
  {
    if words == [] then 0 else Number(words[..|words| - 1]) * 65536 + words[|words| - 1]
  }

  /** The PROM with its checksum bits cleared. */
  function Cleared(p: seq<nat>): seq<nat>
    requires |p| == 7
  {
    [p[0] % 4096] + p[1..]
  }

  function Data(p: seq<nat>): nat
    requires |p| == 7
  {
    Number(Cleared(p))
  }

  lemma {:induction false} MessageIsNumber(words: seq<nat>, n: nat)
    requires n <= |words|
    ensures Message(words, 2 * n) == Number(words[..n])
  {
    if n > 0 {
      MessageIsNumber(words, n - 1);
      MessageWord(words, n - 1);
      assert words[..n][..n - 1] == words[..n - 1];
    }
  }

  lemma MessageWord(words: seq<nat>, i: nat)
    requires i < |words|
    ensures Message(words, 2 * i + 2) == 65536 * Message(words, 2 * i) + words[i]
  {
    hide ByteAt, Message;
    FeedUnfolds(words, 2 * i + 2);
    FeedUnfolds(words, 2 * i + 1);
    TwoBytes(words, i);
  }

  lemma TwoBytes(words: seq<nat>, i: nat)
    requires i < |words|
    ensures 256 * ByteAt(words, 2 * i) + ByteAt(words, 2 * i + 1) == words[i]
  {
    assert (2 * i + 1) % 2 == 1 && (2 * i + 1) / 2 == i && 2 * i % 2 == 0;
  }

  lemma MessageIsData(p: seq<nat>)
    requires |p| == 7
    ensures Message(Masked(p), 16) == 65536 * Data(p)
  {
    hide Message;
    var w := Masked(p);
    MessageIsNumber(w, 8);
    assert w[..8] == w && w[..7] == Cleared(p);
  }

  lemma MaskedWords(p: seq<nat>)
    requires IsProm(p)
    ensures forall i :: 0 <= i < |Masked(p)| ==> Masked(p)[i] < 65536
  {
  }

  /** The checksum is the remainder of the 108 data bits, times x^12. */
  lemma CrcIsRemainder(p: seq<nat>)
    requires IsProm(p)
    ensures Crc(p) == Rem(4096 * Data(p))
  {
    hide Rem, Feed, Feed16, Data, Message;
    var w := Masked(p);
    MaskedWords(p);
    SixteenBitsSuffice(w, 16);
    FeedHolds(w, 16);
    MessageIsData(p);
    NibbleOf(Feed(w, 16));
    RemRange(4096 * Data(p));
    assert Message(w, 16) / 16 == 4096 * Data(p) && Message(w, 16) % 16 == 0;
  }

  // ---------------------------------------------------------------- errors

  /** PROM contents with the bits of e flipped. */
  function Flipped(p: seq<nat>, e: seq<nat>): seq<nat>
    requires |p| == |e|
  {
    seq(|p|, i requires 0 <= i < |p| => Xor(p[i], e[i]))
  }

  lemma FlippedIsProm(p: seq<nat>, e: seq<nat>)
    requires IsProm(p) && IsProm(e)
    ensures IsProm(Flipped(p, e))
  {
    hide Xor;
    forall i | 0 <= i < 7 ensures Flipped(p, e)[i] < 65536 {
      Split65536(0, 0, p[i], e[i]);
    }
  }

  lemma {:induction false} NumberLinear(a: seq<nat>, b: seq<nat>)
    requires |a| == |b|
    requires forall i :: 0 <= i < |a| ==> a[i] < 65536 && b[i] < 65536
    ensures Number(Flipped(a, b)) == Xor(Number(a), Number(b))
  {
    if a == [] {
      XorZero(0);
    } else {
      hide Xor;
      var n := |a| - 1;
      NumberLinear(a[..n], b[..n]);
      assert Flipped(a, b)[..n] == Flipped(a[..n], b[..n]);
      Split65536(Number(a[..n]), Number(b[..n]), a[n], b[n]);
    }
  }

  lemma TopWord(x: nat, y: nat)
    requires x < 65536 && y < 65536
    ensures Xor(x, y) % 4096 == Xor(x % 4096, y % 4096)
    ensures Xor(x, y) / 4096 == Xor(x / 4096, y / 4096)
  {
    hide Xor;
    Split4096(x / 4096, y / 4096, x % 4096, y % 4096);
  }

  lemma DataLinear(p: seq<nat>, e: seq<nat>)
    requires IsProm(p) && IsProm(e)
    ensures Data(Flipped(p, e)) == Xor(Data(p), Data(e))
  {
    hide Xor;
    TopWord(p[0], e[0]);
    NumberLinear(Cleared(p), Cleared(e));
    assert Cleared(Flipped(p, e)) == Flipped(Cleared(p), Cleared(e));
  }

  /** The checksum of an exclusive or is the exclusive or of the checksums. */
  lemma CrcLinear(p: seq<nat>, e: seq<nat>)
    requires IsProm(p) && IsProm(e)
    ensures Crc(Flipped(p, e)) == Xor(Crc(p), Crc(e))
  {
    hide Xor, Rem, Data, Crc;
    FlippedIsProm(p, e);
    CrcIsRemainder(Flipped(p, e));
    CrcIsRemainder(p);
    CrcIsRemainder(e);
    DataLinear(p, e);
    XorZero(0);
    Split4096(Data(p), Data(e), 0, 0);
    RemLinear(4096 * Data(p), 4096 * Data(e));
  }

  /** Exactly which errors go unnoticed in a PROM that was good: those whose own checksum bits are the
      checksum of their data bits. */
  lemma UndetectedExactly(p: seq<nat>, e: seq<nat>)
    requires IsProm(p) && IsProm(e) && Accepts(p)
    ensures Accepts(Flipped(p, e)) <==> Accepts(e)
  {
    hide Xor, Crc;
    CrcLinear(p, e);
    TopWord(p[0], e[0]);
    XorNibbles(p[0] / 4096, e[0] / 4096);
    XorComm(p[0] / 4096, e[0] / 4096);
    XorComm(Crc(p), Crc(e));
    XorInjective(e[0] / 4096, Crc(e), Crc(p));
  }

  /** At most four neighbouring bits, somewhere in the 108 data bits, none in the stored checksum. */
  ghost predicate IsBurst(e: seq<nat>)
  {
    IsProm(e) && e[0] < 4096 && exists m: nat, k: nat :: BurstAt(e, m, k)
  }

  predicate BurstAt(e: seq<nat>, m: nat, k: nat)
    requires |e| == 7
  {
    0 < m < 16 && Data(e) == m * Pow2(k)
  }

  /** n words, all zero but for bit j of word i. */
  function OneBit(n: nat, i: nat, j: nat): (e: seq<nat>)
    requires i < n
    ensures |e| == n
  {
    seq(n, k => if k == i then Pow2(j) else 0)
  }

  lemma {:induction false} NumberOfZeros(e: seq<nat>)
    requires forall k :: 0 <= k < |e| ==> e[k] == 0
    ensures Number(e) == 0
  {
    if e != [] {
      NumberOfZeros(e[..|e| - 1]);
    }
  }

  lemma {:induction false} NumberOfOneBit(n: nat, i: nat, j: nat)
    requires i < n
    ensures Number(OneBit(n, i, j)) == Pow2(j + 16 * (n - 1 - i))
    decreases n
  {
    hide Pow2;
    var e := OneBit(n, i, j);
    if i == n - 1 {
      NumberOfZeros(e[..n - 1]);
    } else {
      NumberOfOneBit(n - 1, i, j);
      assert e[..n - 1] == OneBit(n - 1, i, j);
      Times65536(j + 16 * (n - 2 - i));
    }
  }

  lemma {:induction false} Pow2Mono(j: nat, k: nat)
    requires j <= k
    ensures Pow2(j) <= Pow2(k)
    decreases k - j
  {
    if j < k {
      Pow2Mono(j + 1, k);
    }
  }

  /** Every single data bit is such a burst. */
  lemma OneBitIsBurst(i: nat, j: nat)
    requires i < 7 && j < (if i == 0 then 12 else 16)
    ensures IsBurst(OneBit(7, i, j))
  {
    var e := OneBit(7, i, j);
    Powers();
    Pow2Mono(j, if i == 0 then 11 else 15);
    assert Pow2(12) == 2 * Pow2(11) && Pow2(16) == 2 * Pow2(15);
    hide Pow2;
    NumberOfOneBit(7, i, j);
    assert Cleared(e) == e;
    assert BurstAt(e, 1, j + 16 * (6 - i));
  }

  /** Init rejects a good PROM after any such error. A single flipped bit is the case m = 1. */
  lemma BurstRejected(p: seq<nat>, e: seq<nat>)
    requires IsProm(p) && Accepts(p) && IsBurst(e)
    ensures IsProm(Flipped(p, e)) && !Accepts(Flipped(p, e))
    ensures Crc(Flipped(p, e)) != Crc(p)
  {
    hide Xor, Rem, Data, Crc;
    var m: nat, k: nat :| BurstAt(e, m, k);
    FlippedIsProm(p, e);
    UndetectedExactly(p, e);
    CrcIsRemainder(e);
    BurstRemains(m, k + 12);
    Shifted(m, k);
    CrcLinear(p, e);
    XorComm(Crc(p), Crc(e));
    XorZero(Crc(p));
    XorInjective(Crc(e), 0, Crc(p));
  }

  lemma Shifted(m: nat, k: nat)
    ensures 4096 * (m * Pow2(k)) == m * Pow2(k + 12)
  {
    Times4096(k);
    assert m * (4096 * Pow2(k)) == 4096 * (m * Pow2(k));
  }

  lemma Times16(k: nat)
    ensures Pow2(k + 4) == 16 * Pow2(k)
  {
    assert Pow2(k + 1) == 2 * Pow2(k);
    assert Pow2(k + 2) == 2 * Pow2(k + 1);
    assert Pow2(k + 3) == 2 * Pow2(k + 2);
    assert Pow2(k + 4) == 2 * Pow2(k + 3);
  }

  lemma Times65536(k: nat)
    ensures Pow2(k + 16) == 65536 * Pow2(k)
  {
    Times4096(k);
    Times16(k + 12);
  }

  lemma Times4096(k: nat)
    ensures Pow2(k + 12) == 4096 * Pow2(k)
  {
    Times16(k);
    Times16(k + 4);
    Times16(k + 8);
  }

  /** Flipping stored checksum bits alone is rejected too. */
  lemma ChecksumBitsRejected(p: seq<nat>, e: seq<nat>)
    requires IsProm(p) && Accepts(p) && IsProm(e)
    requires Data(e) == 0 && e[0] >= 4096
    ensures !Accepts(Flipped(p, e))
  {
    hide Xor, Data, Crc;
    UndetectedExactly(p, e);
    CrcIsRemainder(e);
  }
}
