/**
 * What the reference golden model promises, operation by operation, stated
 * against independent readings: unsigned and two's-complement arithmetic
 * on the operands, and the bits of the operands.
 */
module GoldenProperties {
  import opened Wrappers
  import opened Bits
  import opened AluTypes
  import opened ExhaustiveVectors

  /** The output of a supported opcode. */
  function Out(op: nat, a: Byte, b: Byte): AluOutput
    requires op <= 18
  {
    ComputeOp(op, a, b).value
  }

  /** True when v fits a signed byte. */
  predicate InSignedRange(v: int)
  {
    -128 <= v <= 127
  }

  /** Exactly the opcodes 0..18 are computed; every other value is an error. */
  lemma SupportedOpcodes(op: int, a: Byte, b: Byte)
    ensures ComputeOp(op, a, b).Some? <==> 0 <= op <= 18
  {
  }

  /** A plain binary literal whose value is above 18 raises "Unsupported opcode" instead of returning a result. */
  lemma UnsupportedOpcodeRaises(opcode: string, a: Byte, b: Byte)
    requires IsBinary(opcode) && BinaryValue(opcode) > 18
    ensures ComputeAluOperation(opcode, a, b) == Failure(UnsupportedOpcode(opcode))
  {
  }

  lemma AddSpec(a: Byte, b: Byte)
    ensures Out(0, a, b).result == (a + b) % 256
    ensures Out(0, a, b).flags.carry <==> a + b > 255
    ensures Out(0, a, b).flags.overflow <==> !InSignedRange(Signed(a) + Signed(b))
    ensures !Out(0, a, b).flags.overflow ==> Signed(Out(0, a, b).result) == Signed(a) + Signed(b)
  {
    AddOverflow(a, b);
    assert ComputeOp(0, a, b) == Some(WithFlags(Mask(a + b), a + b > 255, Bit7(a) == Bit7(b) && Bit7(a) != Bit7(Mask(a + b))));
  }

  /** The overflow rule of ADD (operands of one sign, result of the other) is signed overflow. */
  lemma AddOverflow(a: Byte, b: Byte)
    ensures (Bit7(a) == Bit7(b) && Bit7(a) != Bit7(Mask(a + b))) <==> !InSignedRange(Signed(a) + Signed(b))
    ensures InSignedRange(Signed(a) + Signed(b)) ==> Signed(Mask(a + b)) == Signed(a) + Signed(b)
  {
    if a + b < 256 {
      assert Mask(a + b) == a + b;
    } else {
      assert Mask(a + b) == a + b - 256;
    }
  }

  lemma SubSpec(a: Byte, b: Byte)
    ensures Out(1, a, b).result == (a - b) % 256
    ensures Out(1, a, b).flags.carry <==> a >= b
    ensures Out(1, a, b).flags.overflow <==> !InSignedRange(Signed(a) - Signed(b))
    ensures !Out(1, a, b).flags.overflow ==> Signed(Out(1, a, b).result) == Signed(a) - Signed(b)
  {
    SubOverflow(a, b);
    assert ComputeOp(1, a, b) == Some(WithFlags(Mask(a - b), a - b >= 0, Bit7(a) != Bit7(b) && Bit7(a) != Bit7(Mask(a - b))));
  }

  /** The overflow rule of SUB (operands of opposite signs, result unlike A) is signed overflow. */
  lemma SubOverflow(a: Byte, b: Byte)
    ensures (Bit7(a) != Bit7(b) && Bit7(a) != Bit7(Mask(a - b))) <==> !InSignedRange(Signed(a) - Signed(b))
    ensures InSignedRange(Signed(a) - Signed(b)) ==> Signed(Mask(a - b)) == Signed(a) - Signed(b)
  {
    var d := if a >= b then a - b else a - b + 256;
    assert Mask(a - b) == d;
    if a < 128 && b < 128 {
      assert Signed(a) - Signed(b) == a - b;
    } else if a >= 128 && b >= 128 {
      assert Signed(a) - Signed(b) == a - b;
    } else if a < 128 {
      assert Signed(a) - Signed(b) == d;
    } else {
      assert Signed(a) - Signed(b) == a - b - 256;
    }
  }

  lemma IncSpec(a: Byte, b: Byte)
    ensures Out(2, a, b).result == (a + 1) % 256
    ensures Out(2, a, b).flags.carry <==> a == 0xFF
    ensures Out(2, a, b).flags.overflow <==> a == 0x7F
    ensures Out(2, a, b).flags.overflow <==> !InSignedRange(Signed(a) + 1)
  {
  }

  lemma DecSpec(a: Byte, b: Byte)
    ensures Out(3, a, b).result == (a - 1) % 256
    ensures Out(3, a, b).flags.carry <==> a != 0
    ensures Out(3, a, b).flags.overflow <==> a == 0x80
    ensures Out(3, a, b).flags.overflow <==> !InSignedRange(Signed(a) - 1)
  {
  }

  lemma LslSpec(a: Byte, b: Byte)
    ensures Out(4, a, b).result == (2 * a) % 256
    ensures Out(4, a, b).flags.carry <==> a >= 128
    ensures !Out(4, a, b).flags.overflow
  {
  }

  lemma LsrSpec(a: Byte, b: Byte)
    ensures Out(5, a, b).result == a / 2 && Out(5, a, b).result < 128
    ensures Out(5, a, b).flags.carry <==> a % 2 == 1
    ensures !Out(5, a, b).flags.overflow
  {
  }

  /** ASR halves the signed value, rounding toward minus infinity, and keeps the sign. */
  lemma AsrSpec(a: Byte, b: Byte)
    ensures Signed(Out(6, a, b).result) == Signed(a) / 2
    ensures Out(6, a, b).flags.negative <==> a >= 128
    ensures Out(6, a, b).flags.carry <==> a % 2 == 1
    ensures !Out(6, a, b).flags.overflow
  {
    var h := And8(a, 0x80);
    SignBit(a);
    OrHighBit(a / 2, h);
    var r := Or8(a / 2, h);
    MaskByte(r);
    assert ComputeOp(6, a, b) == Some(WithFlags(r, a % 2 == 1, false));
  }

  /** REV_A moves bit i to bit 7 - i; applied twice it gives A back. */
  lemma RevSpec(a: Byte, b: Byte)
    ensures forall i :: 0 <= i < 8 ==> ToBits(Out(7, a, b).result, 8)[7 - i] == ToBits(a, 8)[i]
    ensures Out(7, Out(7, a, b).result, b).result == a
    ensures !Out(7, a, b).flags.carry && !Out(7, a, b).flags.overflow
  {
    forall i | 0 <= i < 8
      ensures ToBits(RevByte(a), 8)[7 - i] == ToBits(a, 8)[i]
    {
      RevByteBits(a, i);
    }
    RevByteInvolution(a);
  }

  /** AND, OR and XOR act bit by bit. */
  lemma LogicBits(a: Byte, b: Byte, i: nat)
    requires i < 8
    ensures ToBits(Out(13, a, b).result, 8)[i] == ApplyBit(AndOp, ToBits(a, 8)[i], ToBits(b, 8)[i])
    ensures ToBits(Out(14, a, b).result, 8)[i] == ApplyBit(OrOp, ToBits(a, 8)[i], ToBits(b, 8)[i])
    ensures ToBits(Out(10, a, b).result, 8)[i] == ApplyBit(XorOp, ToBits(a, 8)[i], ToBits(b, 8)[i])
  {
    OutIsBitwise(a, b);
    BitwiseAt(AndOp, a, b, i);
    BitwiseAt(OrOp, a, b, i);
    BitwiseAt(XorOp, a, b, i);
  }

  lemma OutIsBitwise(a: Byte, b: Byte)
    ensures Out(13, a, b).result == And8(a, b)
    ensures Out(14, a, b).result == Or8(a, b)
    ensures Out(10, a, b).result == Xor8(a, b)
  {
    MaskByte(And8(a, b));
    MaskByte(Or8(a, b));
    MaskByte(Xor8(a, b));
    assert ComputeOp(13, a, b) == Some(WithFlags(And8(a, b), false, false));
    assert ComputeOp(14, a, b) == Some(WithFlags(Or8(a, b), false, false));
    assert ComputeOp(10, a, b) == Some(WithFlags(Xor8(a, b), false, false));
  }

  /** NAND, NOR and XNOR complement AND, OR and XOR. */
  lemma NegatedLogic(a: Byte, b: Byte)
    ensures Out(8, a, b).result == 255 - Out(13, a, b).result
    ensures Out(9, a, b).result == 255 - Out(14, a, b).result
    ensures Out(15, a, b).result == 255 - Out(10, a, b).result
  {
    OutIsBitwise(a, b);
    assert ComputeOp(8, a, b) == Some(WithFlags(Not8(And8(a, b)), false, false));
    assert ComputeOp(9, a, b) == Some(WithFlags(Not8(Or8(a, b)), false, false));
    assert ComputeOp(15, a, b) == Some(WithFlags(Not8(Xor8(a, b)), false, false));
    NotIsComplement(And8(a, b));
    NotIsComplement(Or8(a, b));
    NotIsComplement(Xor8(a, b));
  }

  lemma PassNotSpec(a: Byte, b: Byte)
    ensures Out(11, a, b).result == a && Out(12, a, b).result == b
    ensures Out(17, a, b).result == 255 - a && Out(18, a, b).result == 255 - b
  {
    MaskByte(a);
    MaskByte(b);
    NotIsComplement(a);
    NotIsComplement(b);
    assert ComputeOp(11, a, b) == Some(WithFlags(a, false, false));
    assert ComputeOp(12, a, b) == Some(WithFlags(b, false, false));
    assert ComputeOp(17, a, b) == Some(WithFlags(Not8(a), false, false));
    assert ComputeOp(18, a, b) == Some(WithFlags(Not8(b), false, false));
  }

  /**
   * CMP returns 0 but carries the flags of the subtraction A - B: zero when
   * A == B, negative when bit 7 of (A - B) mod 256 is set, carry when A >= B.
   */
  lemma CmpSpec(a: Byte, b: Byte)
    ensures Out(16, a, b).result == 0
    ensures Out(16, a, b).flags.zero <==> a == b
    ensures Out(16, a, b).flags.negative <==> (a - b) % 256 >= 128
    ensures Out(16, a, b).flags.carry <==> a >= b
    ensures Out(16, a, b).flags == Out(1, a, b).flags
  {
  }

  /**
   * Every operation but CMP returns a byte and reads zero and negative off
   * it; shifts, rotations and logic never overflow, and only the
   * arithmetic and shift operations can carry.
   */
  lemma CommonFlags(op: nat, a: Byte, b: Byte)
    requires op <= 18
    ensures 0 <= Out(op, a, b).result < 256
    ensures op != 16 ==> (Out(op, a, b).flags.zero <==> Out(op, a, b).result == 0)
    ensures op != 16 ==> (Out(op, a, b).flags.negative <==> Out(op, a, b).result >= 128)
    ensures 4 <= op && op != 16 ==> !Out(op, a, b).flags.overflow
    ensures 7 <= op && op != 16 ==> !Out(op, a, b).flags.carry
  {
    if op == 16 {
      assert Out(16, a, b).result == 0;
    } else if op < 4 {
      FlagsShapeArith(op, a, b);
    } else if op < 11 {
      FlagsShapeMid(op, a, b);
    } else {
      FlagsShapeHigh(op, a, b);
    }
  }

  /** An output built by `set_flags` reads zero and negative off its byte result. */
  lemma ReadsFlags(o: AluOutput, r: Byte, carry: bool, overflow: bool)
    requires o == WithFlags(r, carry, overflow)
    ensures 0 <= o.result < 256
    ensures o.flags.zero <==> o.result == 0
    ensures o.flags.negative <==> o.result >= 128
    ensures o.flags.carry == carry && o.flags.overflow == overflow
  {
  }

  /** ADD, SUB, INC_A and DEC_A read zero and negative off their byte result. */
  lemma FlagsShapeArith(op: nat, a: Byte, b: Byte)
    requires op < 4
    ensures 0 <= Out(op, a, b).result < 256
    ensures Out(op, a, b).flags.zero <==> Out(op, a, b).result == 0
    ensures Out(op, a, b).flags.negative <==> Out(op, a, b).result >= 128
  {
  }

  /** Opcodes 4 to 10 read zero and negative off their byte result, never overflow, and only the shifts carry. */
  lemma FlagsShapeMid(op: nat, a: Byte, b: Byte)
    requires 4 <= op < 11
    ensures 0 <= Out(op, a, b).result < 256
    ensures Out(op, a, b).flags.zero <==> Out(op, a, b).result == 0
    ensures Out(op, a, b).flags.negative <==> Out(op, a, b).result >= 128
    ensures !Out(op, a, b).flags.overflow
    ensures 7 <= op ==> !Out(op, a, b).flags.carry
  {
    if op == 4 {
      ReadsFlags(Out(4, a, b), Mask(2 * a), Bit7(a), false);
    } else if op == 5 {
      ReadsFlags(Out(5, a, b), Mask(a / 2), a % 2 == 1, false);
    } else if op == 6 {
      ReadsFlags(Out(6, a, b), Mask(Or8(a / 2, And8(a, 0x80))), a % 2 == 1, false);
    } else if op == 7 {
      ReadsFlags(Out(7, a, b), RevByte(a), false, false);
    } else if op == 8 {
      ReadsFlags(Out(8, a, b), Not8(And8(a, b)), false, false);
    } else if op == 9 {
      ReadsFlags(Out(9, a, b), Not8(Or8(a, b)), false, false);
    } else {
      ReadsFlags(Out(10, a, b), Mask(Xor8(a, b)), false, false);
    }
  }

  /** Opcodes 11 to 18 other than CMP read zero and negative off their byte result and set neither carry nor overflow. */
  lemma FlagsShapeHigh(op: nat, a: Byte, b: Byte)
    requires 11 <= op <= 18 && op != 16
    ensures 0 <= Out(op, a, b).result < 256
    ensures Out(op, a, b).flags.zero <==> Out(op, a, b).result == 0
    ensures Out(op, a, b).flags.negative <==> Out(op, a, b).result >= 128
    ensures !Out(op, a, b).flags.overflow && !Out(op, a, b).flags.carry
  {
    if op == 11 {
      ReadsFlags(Out(11, a, b), Mask(a), false, false);
    } else if op == 12 {
      ReadsFlags(Out(12, a, b), Mask(b), false, false);
    } else if op == 13 {
      ReadsFlags(Out(13, a, b), Mask(And8(a, b)), false, false);
    } else if op == 14 {
      ReadsFlags(Out(14, a, b), Mask(Or8(a, b)), false, false);
    } else if op == 15 {
      ReadsFlags(Out(15, a, b), Not8(Xor8(a, b)), false, false);
    } else if op == 17 {
      ReadsFlags(Out(17, a, b), Not8(a), false, false);
    } else {
      ReadsFlags(Out(18, a, b), Not8(b), false, false);
    }
  }

  /** The sweep visits entries in operation, then A, then B order. */
  lemma SweepOrder(k1: nat, k2: nat)
    requires k1 < k2
    ensures var (i1, a1, b1) := SweepIndex(k1);
            var (i2, a2, b2) := SweepIndex(k2);
            i1 < i2 || (i1 == i2 && (a1 < a2 || (a1 == a2 && b1 < b2)))
  {
    SweepIndexInverse(k1);
    SweepIndexInverse(k2);
  }

  /** No (opcode, A, B) triple appears twice in the sweep. */
  lemma SweepNoRepeats(k1: nat, k2: nat)
    requires k1 < k2 < CountVectors()
    ensures var v1, v2 := ExpectedVector(k1), ExpectedVector(k2);
            (v1.opcode, v1.a, v1.b) != (v2.opcode, v2.a, v2.b)
  {
    SweepOrder(k1, k2);
    OperationsAreOpcodes0To18();
  }

  /** Every record carries the golden model's result and flags for its own opcode and operands. */
  lemma SweepRecordsAreGolden(k: nat)
    requires k < CountVectors()
    ensures var v := ExpectedVector(k);
            var (i, a, b) := SweepIndex(k);
            && v.opcode == Some(Operations[i].1) && v.a == Some(a) && v.b == Some(b)
            && ComputeAluOperation(Operations[i].1, a, b).Success?
            && v.expectedResult == Some(ComputeAluOperation(Operations[i].1, a, b).value.result)
            && v.expectedFlags == Some(FlagItems(ComputeAluOperation(Operations[i].1, a, b).value.flags))
  {
    var (i, a, b) := SweepIndex(k);
    OperationsSupported(i, a, b);
  }

  /** Each operation owns a block of 65,536 consecutive records. */
  lemma SweepBlocks(k: nat)
    requires k < CountVectors()
    ensures SweepIndex(k).0 < 19
    ensures ExpectedVector(k).opcode == Some(OpcodeString(k / 65536))
  {
    OperationsOpcodes();
  }
}
