/** Big-endian fixed-width integers, as `to_be_bytes` and `from_be_bytes` write and read them. */
module BigEndian {
  import opened MachineInts

  function Pow256(n: nat): (p: nat)
    ensures p >= 1
  {
    if n == 0 then 1 else 256 * Pow256(n - 1)
  }

  /** The `n` big-endian bytes of `x`. */
  function ToBytes(x: nat, n: nat): (b: seq<byte>)
    ensures |b| == n
  {
    if n == 0 then [] else ToBytes(x / 256, n - 1) + [x % 256]
  }

  function FromBytes(b: seq<byte>): nat {
    if b == [] then 0 else 256 * FromBytes(b[..|b| - 1]) + b[|b| - 1]
  }

  lemma {:induction false} FromBytesBound(b: seq<byte>)
    ensures FromBytes(b) < Pow256(|b|)
  {
    if b != [] {
      FromBytesBound(b[..|b| - 1]);
    }
  }

  lemma {:induction false} ReadOfWrite(x: nat, n: nat)
    requires x < Pow256(n)
    ensures FromBytes(ToBytes(x, n)) == x
  {
    if n > 0 {
      var b := ToBytes(x, n);
      assert b[..n - 1] == ToBytes(x / 256, n - 1);
      ReadOfWrite(x / 256, n - 1);
    }
  }

  lemma {:induction false} WriteOfRead(b: seq<byte>)
    ensures ToBytes(FromBytes(b), |b|) == b
  {
    if b != [] {
      WriteOfRead(b[..|b| - 1]);
    }
  }

  lemma Powers()
    ensures Pow256(1) == 256 && Pow256(2) == U16_MAX + 1
    ensures Pow256(4) == U32_MAX + 1 && Pow256(8) == U64_MAX + 1
  {
    assert Pow256(3) == 256 * Pow256(2);
    assert Pow256(5) == 256 * Pow256(4);
    assert Pow256(6) == 256 * Pow256(5);
    assert Pow256(7) == 256 * Pow256(6);
  }

  // ---------------------------------------------------------------- two's complement

  /** The unsigned bit pattern of a signed value in `n` bytes. */
  function Unsigned(x: int, n: nat): nat
    requires 0 <= x + Pow256(n)
  {
    if x < 0 then x + Pow256(n) else x
  }

  function Signed(x: nat, n: nat): int {
    if 2 * x >= Pow256(n) then x - Pow256(n) else x
  }

  lemma SignedRoundTrip(x: int, n: nat)
    requires n > 0 && 0 <= 2 * x + Pow256(n) && 2 * x < Pow256(n)
    ensures Unsigned(x, n) < Pow256(n) && Signed(Unsigned(x, n), n) == x
  {
  }

  lemma UnsignedRoundTrip(x: nat, n: nat)
    requires n > 0 && x < Pow256(n)
    ensures 0 <= 2 * Signed(x, n) + Pow256(n) && 2 * Signed(x, n) < Pow256(n)
    ensures Unsigned(Signed(x, n), n) == x
  {
    assert Pow256(n) == 2 * (128 * Pow256(n - 1));
  }

  // ---------------------------------------------------------------- fields at an offset

  function ReadU16(b: seq<byte>, o: nat): u16
    requires o + 2 <= |b|
  {
    Powers(); FromBytesBound(b[o..o + 2]);
    FromBytes(b[o..o + 2])
  }

  function ReadU32(b: seq<byte>, o: nat): u32
    requires o + 4 <= |b|
  {
    Powers(); FromBytesBound(b[o..o + 4]);
    FromBytes(b[o..o + 4])
  }

  function ReadU64(b: seq<byte>, o: nat): u64
    requires o + 8 <= |b|
  {
    Powers(); FromBytesBound(b[o..o + 8]);
    FromBytes(b[o..o + 8])
  }

  function ReadI32(b: seq<byte>, o: nat): i32
    requires o + 4 <= |b|
  {
    Powers(); FromBytesBound(b[o..o + 4]); UnsignedRoundTrip(FromBytes(b[o..o + 4]), 4);
    Signed(FromBytes(b[o..o + 4]), 4)
  }

  function ReadI64(b: seq<byte>, o: nat): i64
    requires o + 8 <= |b|
  {
    Powers(); FromBytesBound(b[o..o + 8]); UnsignedRoundTrip(FromBytes(b[o..o + 8]), 8);
    Signed(FromBytes(b[o..o + 8]), 8)
  }

  function WriteU16(x: u16): (b: seq<byte>)
    ensures |b| == 2
  {
    ToBytes(x, 2)
  }

  function WriteU32(x: u32): (b: seq<byte>)
    ensures |b| == 4
  {
    ToBytes(x, 4)
  }

  function WriteU64(x: u64): (b: seq<byte>)
    ensures |b| == 8
  {
    ToBytes(x, 8)
  }

  function WriteI32(x: i32): (b: seq<byte>)
    ensures |b| == 4
  {
    Powers();
    ToBytes(Unsigned(x, 4), 4)
  }

  function WriteI64(x: i64): (b: seq<byte>)
    ensures |b| == 8
  {
    Powers();
    ToBytes(Unsigned(x, 8), 8)
  }

  lemma U16Field(b: seq<byte>, o: nat, x: u16)
    requires o + 2 <= |b|
    ensures b[o..o + 2] == WriteU16(x) <==> ReadU16(b, o) == x
  {
    Powers(); ReadOfWrite(x, 2); WriteOfRead(b[o..o + 2]);
  }

  lemma U32Field(b: seq<byte>, o: nat, x: u32)
    requires o + 4 <= |b|
    ensures b[o..o + 4] == WriteU32(x) <==> ReadU32(b, o) == x
  {
    Powers(); ReadOfWrite(x, 4); WriteOfRead(b[o..o + 4]);
  }

  lemma U64Field(b: seq<byte>, o: nat, x: u64)
    requires o + 8 <= |b|
    ensures b[o..o + 8] == WriteU64(x) <==> ReadU64(b, o) == x
  {
    Powers(); ReadOfWrite(x, 8); WriteOfRead(b[o..o + 8]);
  }

  lemma I32Field(b: seq<byte>, o: nat, x: i32)
    requires o + 4 <= |b|
    ensures b[o..o + 4] == WriteI32(x) <==> ReadI32(b, o) == x
  {
    Powers(); SignedRoundTrip(x, 4); ReadOfWrite(Unsigned(x, 4), 4);
    WriteOfRead(b[o..o + 4]); FromBytesBound(b[o..o + 4]); UnsignedRoundTrip(FromBytes(b[o..o + 4]), 4);
  }

  lemma I64Field(b: seq<byte>, o: nat, x: i64)
    requires o + 8 <= |b|
    ensures b[o..o + 8] == WriteI64(x) <==> ReadI64(b, o) == x
  {
    Powers(); SignedRoundTrip(x, 8); ReadOfWrite(Unsigned(x, 8), 8);
    WriteOfRead(b[o..o + 8]); FromBytesBound(b[o..o + 8]); UnsignedRoundTrip(FromBytes(b[o..o + 8]), 8);
  }

  lemma WriteU64Injective(x: u64, y: u64)
    requires WriteU64(x) == WriteU64(y)
    ensures x == y
  {
    Powers(); ReadOfWrite(x, 8); ReadOfWrite(y, 8);
  }

  // ---------------------------------------------------------------- the numbers the bytes stand for

  lemma FourBytes(b: seq<byte>)
    ensures |b| == 2 ==> FromBytes(b) == 0x100 * (b[0] as int) + b[1]
    ensures |b| == 4 ==>
              FromBytes(b) == 0x100_0000 * (b[0] as int) + 0x1_0000 * (b[1] as int) + 0x100 * (b[2] as int) + b[3]
  {
    assert FromBytes(b[..0]) == 0;
    if |b| == 2 {
      assert b[..1][..0] == [] && FromBytes(b[..1]) == b[0];
    } else if |b| == 4 {
      assert b[..3][..2] == b[..2] && b[..2][..1] == b[..1] && b[..1][..0] == [];
      assert FromBytes(b[..1]) == b[0];
      assert FromBytes(b[..2]) == 0x100 * (b[0] as int) + b[1];
      assert FromBytes(b[..3]) == 0x1_0000 * (b[0] as int) + 0x100 * (b[1] as int) + b[2];
    }
  }

  lemma EightBytes(b: seq<byte>)
    requires |b| == 8
    ensures FromBytes(b) == 0x1_0000_0000 * FromBytes(b[..4]) + FromBytes(b[4..])
  {
    FourBytes(b[..4]);
    FourBytes(b[4..]);
    assert b[..7][..6] == b[..6] && b[..6][..5] == b[..5] && b[..5][..4] == b[..4];
    assert FromBytes(b[..5]) == 256 * FromBytes(b[..4]) + b[4];
    assert FromBytes(b[..6]) == 256 * FromBytes(b[..5]) + b[5];
    assert FromBytes(b[..7]) == 256 * FromBytes(b[..6]) + b[6];
  }

  /** The most significant byte comes first, and signed numbers are in two's complement. */
  lemma FieldsMean(b: seq<byte>, o: nat)
    requires o + 8 <= |b|
    ensures ReadU16(b, o) == 0x100 * (b[o] as int) + b[o + 1]
    ensures ReadU32(b, o)
            == 0x100_0000 * (b[o] as int) + 0x1_0000 * (b[o + 1] as int) + 0x100 * (b[o + 2] as int) + b[o + 3]
    ensures ReadU64(b, o) == 0x1_0000_0000 * ReadU32(b, o) + ReadU32(b, o + 4)
    ensures ReadI32(b, o) == if b[o] >= 128 then ReadU32(b, o) - 0x1_0000_0000 else ReadU32(b, o)
    ensures ReadI64(b, o) == if b[o] >= 128 then ReadU64(b, o) - 0x1_0000_0000_0000_0000 else ReadU64(b, o)
  {
    FourBytes(b[o..o + 2]);
    FourBytes(b[o..o + 4]);
    FourBytes(b[o + 4..o + 8]);
    EightBytes(b[o..o + 8]);
    assert b[o..o + 8][..4] == b[o..o + 4] && b[o..o + 8][4..] == b[o + 4..o + 4 + 4];
    Powers();
  }
}
