/**
Little-endian words, as append_u32, append_u64, read_u32 and read_u64 of
src/common/state_snapshot.hpp and src/rack/rack_session_snapshot.cpp lay them
out.  A word is a nat; appending truncates it to its width, as static_cast does.
 */
module Bytes {
  import opened Wrappers

  type Byte = n: int | 0 <= n < 256

  const TWO_32: nat := 0x1_0000_0000
  const TWO_64: nat := 0x1_0000_0000_0000_0000

  type U64 = n: nat | n < 0x1_0000_0000_0000_0000

  function Le32(n: nat): (r: seq<Byte>)
    ensures |r| == 4
  {
    [n % 256, n / 256 % 256, n / 256 / 256 % 256, n / 256 / 256 / 256 % 256]
  }

  function Le64(n: nat): (r: seq<Byte>)
    ensures |r| == 8
  {
    Le32(n % TWO_32) + Le32(n / TWO_32 % TWO_32)
  }

  function Word32(a: Byte, b: Byte, c: Byte, d: Byte): (n: nat)
    ensures n < TWO_32
  {
    a + 256 * (b + 256 * (c + 256 * d))
  }

  function ReadU32(bytes: seq<Byte>, offset: nat): (r: Option<nat>)
    ensures r.Some? ==> r.value < TWO_32
  {
    if offset > |bytes| || |bytes| - offset < 4 then None
    else Some(Word32(bytes[offset], bytes[offset + 1], bytes[offset + 2], bytes[offset + 3]))
  }

  function ReadU64(bytes: seq<Byte>, offset: nat): Option<U64> {
    match (ReadU32(bytes, offset), ReadU32(bytes, offset + 4))
    case (Some(lo), Some(hi)) => Some(lo + TWO_32 * hi)
    case _ => None
  }

  lemma Digit(a: Byte, m: nat)
    ensures (a + 256 * m) % 256 == a && (a + 256 * m) / 256 == m
  {
  }

  lemma WordOfLe32(n: nat)
    requires n < TWO_32
    ensures var r := Le32(n); Word32(r[0], r[1], r[2], r[3]) == n
  {
  }

  lemma Le32OfWord(a: Byte, b: Byte, c: Byte, d: Byte)
    ensures Le32(Word32(a, b, c, d)) == [a, b, c, d]
  {
    Digit(a, b + 256 * (c + 256 * d));
    Digit(b, c + 256 * d);
    Digit(c, d);
  }

  // The low byte comes first.
  lemma LowByteFirst(n: nat)
    requires n < TWO_32
    ensures var r := Le32(n); n == r[0] as int + 0x100 * r[1] as int + 0x10000 * r[2] as int + 0x100_0000 * r[3] as int
  {
    WordOfLe32(n);
  }

  // `part` stands in `bytes` at `offset`.
  ghost predicate At(bytes: seq<Byte>, offset: nat, part: seq<Byte>) {
    offset + |part| <= |bytes| && bytes[offset..offset + |part|] == part
  }

  lemma AtConcat(bytes: seq<Byte>, offset: nat, x: seq<Byte>, y: seq<Byte>)
    ensures At(bytes, offset, x + y) <==> At(bytes, offset, x) && At(bytes, offset + |x|, y)
  {
    if offset + |x + y| <= |bytes| {
      var w := bytes[offset..offset + |x + y|];
      assert w[..|x|] == bytes[offset..offset + |x|];
      assert w[|x|..] == bytes[offset + |x|..offset + |x| + |y|];
      assert w == w[..|x|] + w[|x|..];
      assert (x + y)[..|x|] == x && (x + y)[|x|..] == y;
    }
  }

  lemma AtWhole(bytes: seq<Byte>, part: seq<Byte>)
    ensures bytes == part <==> |bytes| == |part| && At(bytes, 0, part)
  {
    if |bytes| == |part| {
      assert bytes[0..|part|] == bytes;
    }
  }

  lemma AtEnd(bytes: seq<Byte>, offset: nat, part: seq<Byte>)
    requires |bytes| == offset + |part|
    ensures At(bytes, offset, part) <==> bytes[offset..] == part
  {
    assert bytes[offset..] == bytes[offset..offset + |part|];
  }

  // Reading at `offset` finds the word n exactly when its bytes stand there.
  lemma ReadU32Spec(bytes: seq<Byte>, offset: nat, n: nat)
    requires n < TWO_32
    ensures ReadU32(bytes, offset) == Some(n) <==> At(bytes, offset, Le32(n))
  {
    if offset + 4 <= |bytes| {
      var a, b, c, d := bytes[offset], bytes[offset + 1], bytes[offset + 2], bytes[offset + 3];
      assert bytes[offset..offset + 4] == [a, b, c, d];
      Le32OfWord(a, b, c, d);
      WordOfLe32(n);
    }
  }

  lemma ReadU64Spec(bytes: seq<Byte>, offset: nat, n: U64)
    ensures ReadU64(bytes, offset) == Some(n) <==> At(bytes, offset, Le64(n))
  {
    hide Le32, ReadU32, At;
    ReadU32Spec(bytes, offset, n % TWO_32);
    ReadU32Spec(bytes, offset + 4, n / TWO_32);
    AtConcat(bytes, offset, Le32(n % TWO_32), Le32(n / TWO_32));
  }

  lemma Le32Injective(m: nat, n: nat)
    requires m < TWO_32 && n < TWO_32 && Le32(m) == Le32(n)
    ensures m == n
  {
    hide Le32, Word32;
    WordOfLe32(m);
    WordOfLe32(n);
  }
}
