/**
The reflected CRC-32 of RFC 1952, section 8, as src/common/state_snapshot.hpp
computes it: one loop over the bytes, one loop over eight bits.  The detection
results are stated for payloads of any length.
 */
module Crc32 {
  import opened Bytes

  const POLYNOMIAL: bv32 := 0xedb88320

  // One turn of the inner loop.
  function BitStep(c: bv32): bv32 {
    (c >> 1) ^ (POLYNOMIAL & (0 - (c & 1)))
  }

  function BitSteps(c: bv32, n: nat): bv32 {
    if n == 0 then c else BitStep(BitSteps(c, n - 1))
  }

  function BinaryDigit(n: nat, i: nat): nat {
    if i == 0 then n % 2 else BinaryDigit(n / 2, i - 1)
  }

  function Bit(n: nat, i: nat, weight: bv8): (r: bv8)
    ensures r == 0 || r == weight
  {
    if BinaryDigit(n, i) == 1 then weight else 0
  }

  // The byte as a bit vector, digit by digit.
  function Octet(b: Byte): bv8 {
    Bit(b, 0, 1) | Bit(b, 1, 2) | Bit(b, 2, 4) | Bit(b, 3, 8) |
    Bit(b, 4, 16) | Bit(b, 5, 32) | Bit(b, 6, 64) | Bit(b, 7, 128)
  }

  // One turn of the outer loop.
  function ByteStep(c: bv32, b: Byte): bv32 {
    BitSteps(c ^ (Octet(b) as bv32), 8)
  }

  // The register after the bytes of `s`, started from `c`.
  ghost function Register(c: bv32, s: seq<Byte>): bv32 {
    if s == [] then c else ByteStep(Register(c, s[..|s| - 1]), s[|s| - 1])
  }

  function Finish(c: bv32): (r: nat)
    ensures r < TWO_32
  {
    (!c) as nat
  }

  ghost function Crc(s: seq<Byte>): (r: nat)
    ensures r < TWO_32
  {
    Finish(Register(0xffffffff, s))
  }

  method FeedByte(crc: bv32, byte: Byte) returns (r: bv32)
    ensures r == ByteStep(crc, byte)
  {
    r := crc ^ (Octet(byte) as bv32);
    for bit := 0 to 8
      invariant r == BitSteps(crc ^ (Octet(byte) as bv32), bit)
    {
      r := (r >> 1) ^ (POLYNOMIAL & (0 - (r & 1)));
    }
  }

  method ComputeCrc(bytes: seq<Byte>) returns (r: nat)
    ensures r == Crc(bytes)
  {
    hide ByteStep;
    var crc: bv32 := 0xffffffff;
    for i := 0 to |bytes|
      invariant crc == Register(0xffffffff, bytes[..i])
    {
      crc := FeedByte(crc, bytes[i]);
      assert bytes[..i + 1][..i] == bytes[..i];
    }
    assert bytes[..|bytes|] == bytes;
    r := Finish(crc);
  }

  // ---------------------------------------------------------------- injectivity

  lemma BitStepInjective(a: bv32, b: bv32)
    requires BitStep(a) == BitStep(b)
    ensures a == b
  {
  }

  lemma {:induction false} BitStepsInjective(a: bv32, b: bv32, n: nat)
    requires BitSteps(a, n) == BitSteps(b, n)
    ensures a == b
  {
    if n > 0 {
      BitStepInjective(BitSteps(a, n - 1), BitSteps(b, n - 1));
      BitStepsInjective(a, b, n - 1);
    }
  }

  ghost function Xor(a: bv32, b: bv32): bv32 {
    a ^ b
  }

  // The byte as the register sees it.
  ghost function Wide(x: Byte): bv32 {
    Octet(x) as bv32
  }

  lemma XorCancels(a: bv32, b: bv32, x: bv32)
    requires Xor(a, x) == Xor(b, x)
    ensures a == b
  {
  }

  lemma ByteStepOf(c: bv32, x: Byte)
    ensures ByteStep(c, x) == BitSteps(Xor(c, Wide(x)), 8)
  {
    hide BitSteps, Octet;
  }

  lemma ByteStepKeepsApart(c: bv32, d: bv32, x: Byte)
    requires ByteStep(c, x) == ByteStep(d, x)
    ensures c == d
  {
    hide BitSteps, Octet, ByteStep, Xor, Wide;
    ByteStepOf(c, x);
    ByteStepOf(d, x);
    BitStepsInjective(Xor(c, Wide(x)), Xor(d, Wide(x)), 8);
    XorCancels(c, d, Wide(x));
  }

  // Two different registers are still different after the same suffix.
  lemma {:induction false} RegisterInjective(c: bv32, d: bv32, s: seq<Byte>)
    requires Register(c, s) == Register(d, s)
    ensures c == d
  {
    hide ByteStep;
    if s != [] {
      ByteStepKeepsApart(Register(c, s[..|s| - 1]), Register(d, s[..|s| - 1]), s[|s| - 1]);
      RegisterInjective(c, d, s[..|s| - 1]);
    }
  }

  lemma {:induction false} RegisterConcat(c: bv32, s: seq<Byte>, t: seq<Byte>)
    ensures Register(c, s + t) == Register(Register(c, s), t)
  {
    hide ByteStep;
    if t == [] {
      assert s + t == s;
    } else {
      assert (s + t)[..|s + t| - 1] == s + t[..|t| - 1];
      RegisterConcat(c, s, t[..|t| - 1]);
    }
  }

  // ---------------------------------------------------------------- bursts

  // Doubling `d` n times gives `e` and pushes no bit out of the word.
  ghost predicate DoublesTo(d: bv32, n: nat, e: bv32)
    decreases n
  {
    if n == 0 then d == e else d < 0x8000_0000 && DoublesTo(d << 1, n - 1, e)
  }

  // A difference below the top bit was shifted down by exactly one place.
  lemma BitStepDifference(a: bv32, b: bv32, d: bv32)
    requires Xor(BitStep(a), BitStep(b)) == d && d < 0x8000_0000
    ensures Xor(a, b) == d << 1
  {
  }

  lemma {:induction false} BitStepsDifference(a: bv32, b: bv32, n: nat, d: bv32, e: bv32)
    requires Xor(BitSteps(a, n), BitSteps(b, n)) == d && DoublesTo(d, n, e)
    ensures Xor(a, b) == e
    decreases n
  {
    hide BitStep, Xor;
    if n > 0 {
      BitStepDifference(BitSteps(a, n - 1), BitSteps(b, n - 1), d);
      BitStepsDifference(a, b, n - 1, d << 1, e);
    }
  }

  lemma EightDoublings(d: bv32)
    requires d < 0x100_0000
    ensures DoublesTo(d, 8, d << 8)
  {
  }

  lemma ByteStepDifference(c: bv32, d: bv32, x: Byte, y: Byte, e: bv32)
    requires Xor(ByteStep(c, x), ByteStep(d, y)) == e && e < 0x100_0000
    ensures Xor(c ^ (Octet(x) as bv32), d ^ (Octet(y) as bv32)) == e << 8
  {
    hide BitSteps, Xor;
    EightDoublings(e);
    BitStepsDifference(c ^ (Octet(x) as bv32), d ^ (Octet(y) as bv32), 8, e, e << 8);
  }

  lemma {:induction false} BinaryDigitRange(n: nat, i: nat)
    ensures BinaryDigit(n, i) < 2
  {
    if i > 0 {
      BinaryDigitRange(n / 2, i - 1);
    }
  }

  lemma BitDetermines(m: nat, n: nat, i: nat, weight: bv8)
    requires weight != 0 && Bit(m, i, weight) == Bit(n, i, weight)
    ensures BinaryDigit(m, i) == BinaryDigit(n, i)
  {
    BinaryDigitRange(m, i);
    BinaryDigitRange(n, i);
  }

  ghost predicate Vanishes(n: nat, k: nat) {
    if k == 0 then n == 0 else Vanishes(n / 2, k - 1)
  }

  lemma {:induction false} DigitsDetermine(m: nat, n: nat, k: nat)
    requires Vanishes(m, k) && Vanishes(n, k)
    requires forall i :: 0 <= i < k ==> BinaryDigit(m, i) == BinaryDigit(n, i)
    ensures m == n
  {
    if k > 0 {
      forall i | 0 <= i < k - 1
        ensures BinaryDigit(m / 2, i) == BinaryDigit(n / 2, i)
      {
        assert BinaryDigit(m, i + 1) == BinaryDigit(n, i + 1);
      }
      assert BinaryDigit(m, 0) == BinaryDigit(n, 0);
      DigitsDetermine(m / 2, n / 2, k - 1);
    }
  }

  lemma ByteVanishes(x: Byte)
    ensures Vanishes(x, 8)
  {
    assert Vanishes(x / 2 / 2 / 2 / 2 / 2 / 2 / 2, 1);
    assert Vanishes(x / 2 / 2 / 2 / 2 / 2 / 2, 2);
    assert Vanishes(x / 2 / 2 / 2 / 2 / 2, 3);
    assert Vanishes(x / 2 / 2 / 2 / 2, 4);
    assert Vanishes(x / 2 / 2 / 2, 5);
    assert Vanishes(x / 2 / 2, 6);
    assert Vanishes(x / 2, 7);
  }

  ghost function Mask(a: bv8, m: bv8): bv8 {
    a & m
  }

  ghost predicate IsBit(a: bv8, weight: bv8) {
    a == 0 || a == weight
  }

  lemma OctetDetermined(w: bv8, a: bv8, b: bv8, c: bv8, d: bv8, e: bv8, f: bv8, g: bv8, h: bv8)
    requires IsBit(a, 1) && IsBit(b, 2) && IsBit(c, 4) && IsBit(d, 8)
    requires IsBit(e, 16) && IsBit(f, 32) && IsBit(g, 64) && IsBit(h, 128)
    requires w == a | b | c | d | e | f | g | h
    ensures a == w & 1 && b == w & 2 && c == w & 4 && d == w & 8
    ensures e == w & 16 && f == w & 32 && g == w & 64 && h == w & 128
  {
  }

  lemma BitsTaken(x: Byte)
    ensures Bit(x, 0, 1) == Mask(Octet(x), 1) && Bit(x, 1, 2) == Mask(Octet(x), 2)
    ensures Bit(x, 2, 4) == Mask(Octet(x), 4) && Bit(x, 3, 8) == Mask(Octet(x), 8)
    ensures Bit(x, 4, 16) == Mask(Octet(x), 16) && Bit(x, 5, 32) == Mask(Octet(x), 32)
    ensures Bit(x, 6, 64) == Mask(Octet(x), 64) && Bit(x, 7, 128) == Mask(Octet(x), 128)
  {
    hide Bit;
    OctetDetermined(Octet(x), Bit(x, 0, 1), Bit(x, 1, 2), Bit(x, 2, 4), Bit(x, 3, 8),
                    Bit(x, 4, 16), Bit(x, 5, 32), Bit(x, 6, 64), Bit(x, 7, 128));
  }

  lemma OctetInjective(x: Byte, y: Byte)
    requires Octet(x) == Octet(y)
    ensures x == y
  {
    hide Bit, Octet, Mask, BinaryDigit;
    BitsTaken(x);
    BitsTaken(y);
    BitDetermines(x, y, 0, 1);
    BitDetermines(x, y, 1, 2);
    BitDetermines(x, y, 2, 4);
    BitDetermines(x, y, 3, 8);
    BitDetermines(x, y, 4, 16);
    BitDetermines(x, y, 5, 32);
    BitDetermines(x, y, 6, 64);
    BitDetermines(x, y, 7, 128);
    ByteVanishes(x);
    ByteVanishes(y);
    DigitsDetermine(x, y, 8);
  }

  lemma UndoLastByte(u: bv32, v: bv32, x: bv8, y: bv8, d: bv32)
    requires Xor(u ^ (x as bv32), v ^ (y as bv32)) == d << 8 && d < 0x100_0000
    ensures u == v ==> x == y
    ensures d == 0 ==> Xor(u, v) < 0x100
    ensures d < 0x100 ==> Xor(u, v) < 0x1_0000
    ensures d < 0x1_0000 ==> Xor(u, v) < 0x100_0000
  {
  }

  ghost predicate Small(d: bv32, n: nat) {
    match n
    case 1 => d < 0x100_0000
    case 2 => d < 0x1_0000
    case 3 => d < 0x100
    case _ => d == 0
  }

  // Up to four bytes fed from one register are determined by where they end.
  lemma {:induction false} BurstDetermined(c: bv32, s: seq<Byte>, t: seq<Byte>)
    requires |s| == |t| <= 4
    requires Small(Xor(Register(c, s), Register(c, t)), |s|)
    ensures s == t
  {
    hide ByteStep, Xor, Octet;
    var n := |s|;
    if n > 0 {
      var u, v := Register(c, s[..n - 1]), Register(c, t[..n - 1]);
      var d := Xor(Register(c, s), Register(c, t));
      ByteStepDifference(u, v, s[n - 1], t[n - 1], d);
      UndoLastByte(u, v, Octet(s[n - 1]), Octet(t[n - 1]), d);
      if n > 1 {
        BurstDetermined(c, s[..n - 1], t[..n - 1]);
      }
      OctetInjective(s[n - 1], t[n - 1]);
      assert s == s[..n - 1] + [s[n - 1]] && t == t[..n - 1] + [t[n - 1]];
    }
  }

  // Payloads of one length that agree outside four consecutive positions.
  ghost predicate DifferInBurst(s: seq<Byte>, t: seq<Byte>, at: nat) {
    |s| == |t| && forall i :: 0 <= i < |s| && !(at <= i < at + 4) ==> s[i] == t[i]
  }

  lemma XorOfEqual(c: bv32)
    ensures Xor(c, c) == 0
  {
  }

  lemma WordRoundTrip(w: bv32)
    ensures (w as nat) as bv32 == w
  {
  }

  lemma AsNatInjective(a: bv32, b: bv32)
    requires a as nat == b as nat
    ensures a == b
  {
    WordRoundTrip(a);
    WordRoundTrip(b);
  }

  lemma FinishInjective(c: bv32, d: bv32)
    requires Finish(c) == Finish(d)
    ensures c == d
  {
    AsNatInjective(!c, !d);
  }

  lemma SameCrcSameRegister(s: seq<Byte>, t: seq<Byte>)
    requires Crc(s) == Crc(t)
    ensures Register(0xffffffff, s) == Register(0xffffffff, t)
  {
    hide Register, Finish;
    FinishInjective(Register(0xffffffff, s), Register(0xffffffff, t));
  }

  // Any change confined to four consecutive bytes changes the checksum.
  lemma BurstDetected(s: seq<Byte>, t: seq<Byte>, at: nat)
    requires DifferInBurst(s, t, at) && Crc(s) == Crc(t)
    ensures s == t
  {
    hide Register, Xor;
    SameCrcSameRegister(s, t);
    if at < |s| {
      var end := if at + 4 <= |s| then at + 4 else |s|;
      var c, head, tail := Register(0xffffffff, s[..at]), s[..at], s[end..];
      assert t[..at] == head && t[end..] == tail;
      var x, y := s[at..end], t[at..end];
      assert s == s[..at] + (s[at..end] + s[end..]);
      assert t == t[..at] + (t[at..end] + t[end..]);
      assert s == head + (x + tail) && t == head + (y + tail);
      RegisterConcat(0xffffffff, head, x + tail);
      RegisterConcat(0xffffffff, head, y + tail);
      RegisterConcat(c, x, tail);
      RegisterConcat(c, y, tail);
      RegisterInjective(Register(c, x), Register(c, y), tail);
      XorOfEqual(Register(c, x));
      BurstDetermined(c, x, y);
    }
  }

  // ---------------------------------------------------------------- the check value

  lemma EightSteps(c: bv32)
    ensures BitSteps(c, 8) == BitStep(BitStep(BitStep(BitStep(BitStep(BitStep(BitStep(BitStep(c))))))))
  {
    hide BitStep;
    assert BitSteps(c, 0) == c;
    assert BitSteps(c, 1) == BitStep(BitSteps(c, 0));
    assert BitSteps(c, 2) == BitStep(BitSteps(c, 1));
    assert BitSteps(c, 3) == BitStep(BitSteps(c, 2));
    assert BitSteps(c, 4) == BitStep(BitSteps(c, 3));
    assert BitSteps(c, 5) == BitStep(BitSteps(c, 4));
    assert BitSteps(c, 6) == BitStep(BitSteps(c, 5));
    assert BitSteps(c, 7) == BitStep(BitSteps(c, 6));
  }

  lemma Digit1()
    ensures ByteStep(0xffffffff, 0x31) == 0x7c231048
  {
    assert Octet(0x31) == 0x31;
    hide Octet, BitSteps;
    EightSteps(0xffffffff ^ 0x31);
  }

  lemma Digit2()
    ensures ByteStep(0x7c231048, 0x32) == 0xb0acbb32
  {
    assert Octet(0x32) == 0x32;
    hide Octet, BitSteps;
    EightSteps(0x7c231048 ^ 0x32);
  }

  lemma Digit3()
    ensures ByteStep(0xb0acbb32, 0x33) == 0x77b79c2d
  {
    assert Octet(0x33) == 0x33;
    hide Octet, BitSteps;
    EightSteps(0xb0acbb32 ^ 0x33);
  }

  lemma Digit4()
    ensures ByteStep(0x77b79c2d, 0x34) == 0x641c1f5c
  {
    assert Octet(0x34) == 0x34;
    hide Octet, BitSteps;
    EightSteps(0x77b79c2d ^ 0x34);
  }

  lemma Digit5()
    ensures ByteStep(0x641c1f5c, 0x35) == 0x340ac5e3
  {
    assert Octet(0x35) == 0x35;
    hide Octet, BitSteps;
    EightSteps(0x641c1f5c ^ 0x35);
  }

  lemma Digit6()
    ensures ByteStep(0x340ac5e3, 0x36) == 0xf68d2c9e
  {
    assert Octet(0x36) == 0x36;
    hide Octet, BitSteps;
    EightSteps(0x340ac5e3 ^ 0x36);
  }

  lemma Digit7()
    ensures ByteStep(0xf68d2c9e, 0x37) == 0xaffc9660
  {
    assert Octet(0x37) == 0x37;
    hide Octet, BitSteps;
    EightSteps(0xf68d2c9e ^ 0x37);
  }

  lemma Digit8()
    ensures ByteStep(0xaffc9660, 0x38) == 0x651f2550
  {
    assert Octet(0x38) == 0x38;
    hide Octet, BitSteps;
    EightSteps(0xaffc9660 ^ 0x38);
  }

  lemma Digit9()
    ensures ByteStep(0x651f2550, 0x39) == 0x340bc6d9
  {
    assert Octet(0x39) == 0x39;
    hide Octet, BitSteps;
    EightSteps(0x651f2550 ^ 0x39);
  }

  // The check value published for this checksum: that of the digits from one to nine.
  lemma CheckValue()
    ensures Crc([0x31, 0x32, 0x33, 0x34, 0x35, 0x36, 0x37, 0x38, 0x39]) == 0xcbf43926
  {
    hide ByteStep;
    var s: seq<Byte> := [0x31, 0x32, 0x33, 0x34, 0x35, 0x36, 0x37, 0x38, 0x39];
    Digit1();
    assert s[..1][..0] == s[..0] && Register(0xffffffff, s[..1]) == 0x7c231048;
    Digit2();
    assert s[..2][..1] == s[..1] && Register(0xffffffff, s[..2]) == 0xb0acbb32;
    Digit3();
    assert s[..3][..2] == s[..2] && Register(0xffffffff, s[..3]) == 0x77b79c2d;
    Digit4();
    assert s[..4][..3] == s[..3] && Register(0xffffffff, s[..4]) == 0x641c1f5c;
    Digit5();
    assert s[..5][..4] == s[..4] && Register(0xffffffff, s[..5]) == 0x340ac5e3;
    Digit6();
    assert s[..6][..5] == s[..5] && Register(0xffffffff, s[..6]) == 0xf68d2c9e;
    Digit7();
    assert s[..7][..6] == s[..6] && Register(0xffffffff, s[..7]) == 0xaffc9660;
    Digit8();
    assert s[..8][..7] == s[..7] && Register(0xffffffff, s[..8]) == 0x651f2550;
    Digit9();
    assert s[..9][..8] == s[..8] && Register(0xffffffff, s[..9]) == 0x340bc6d9;
    assert s[..9] == s;
  }
}
