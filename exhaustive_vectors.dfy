/**
 * The reference golden model and the exhaustive vector generator of
 * test/exhaustive_vectors.py: the operation table, the computation of
 * (result, flags) for each of the 19 operations, and the sweep over every
 * (operation, A, B) triple in operation, then A, then B order.
 */
module ExhaustiveVectors {
  import opened Wrappers
  import opened Bits
  import opened AluTypes

  /** The operation table: (name, opcode) in hardware opcode order. */
  const Operations: seq<(string, string)> := [
    ("ADD", "00000"),
    ("SUB", "00001"),
    ("INC_A", "00010"),
    ("DEC_A", "00011"),
    ("LSL", "00100"),
    ("LSR", "00101"),
    ("ASR", "00110"),
    ("REV_A", "00111"),
    ("NAND", "01000"),
    ("NOR", "01001"),
    ("XOR", "01010"),
    ("PASS_A", "01011"),
    ("PASS_B", "01100"),
    ("AND", "01101"),
    ("OR", "01110"),
    ("XNOR", "01111"),
    ("CMP", "10000"),
    ("NOT_A", "10001"),
    ("NOT_B", "10010")
  ]

  /** Values per operand: every A and every B in 0..255. */
  const OperandCount: nat := 256

  datatype GoldenError =
    | InvalidLiteral(opcode: string)     // `int(opcode, 2)` raised
    | UnsupportedOpcode(opcode: string)  // the value is not one of 0..18

  /** The common tail: zero and negative are read off the 8-bit result. */
  function WithFlags(result: Byte, carry: bool, overflow: bool): AluOutput
  {
    AluOutput(result, FlagSet(carry, overflow, result == 0, Bit7(result)))
  }

  /** The `if op == ... elif ...` chain on the integer value of the opcode. */
  function ComputeOp(op: int, a: Byte, b: Byte): Option<AluOutput>
  {
    if op == 0 then  // ADD
      var total := a + b;
      var result := Mask(total);
      Some(WithFlags(result, total > 0xFF, Bit7(a) == Bit7(b) && Bit7(a) != Bit7(result)))
    else if op == 1 then  // SUB
      var diff := a - b;
      var result := Mask(diff);
      Some(WithFlags(result, diff >= 0, Bit7(a) != Bit7(b) && Bit7(a) != Bit7(result)))
    else if op == 2 then  // INC_A
      var total := a + 1;
      Some(WithFlags(Mask(total), total > 0xFF, a == 0x7F))
    else if op == 3 then  // DEC_A
      var diff := a - 1;
      Some(WithFlags(Mask(diff), diff >= 0, a == 0x80))
    else if op == 4 then  // LSL: (a << 1) & mask, carry out of bit 7
      Some(WithFlags(Mask(2 * a), Bit7(a), false))
    else if op == 5 then  // LSR: (a >> 1) & mask, carry out of bit 0
      Some(WithFlags(Mask(a / 2), a % 2 == 1, false))
    else if op == 6 then  // ASR: ((a >> 1) | (a & 0x80)) & mask
      Some(WithFlags(Mask(Or8(a / 2, And8(a, 0x80))), a % 2 == 1, false))
    else if op == 7 then  // REV_A
      Some(WithFlags(RevByte(a), false, false))
    else if op == 8 then  // NAND
      Some(WithFlags(Not8(And8(a, b)), false, false))
    else if op == 9 then  // NOR
      Some(WithFlags(Not8(Or8(a, b)), false, false))
    else if op == 10 then  // XOR
      Some(WithFlags(Mask(Xor8(a, b)), false, false))
    else if op == 11 then  // PASS_A
      Some(WithFlags(Mask(a), false, false))
    else if op == 12 then  // PASS_B
      Some(WithFlags(Mask(b), false, false))
    else if op == 13 then  // AND
      Some(WithFlags(Mask(And8(a, b)), false, false))
    else if op == 14 then  // OR
      Some(WithFlags(Mask(Or8(a, b)), false, false))
    else if op == 15 then  // XNOR
      Some(WithFlags(Not8(Xor8(a, b)), false, false))
    else if op == 16 then  // CMP: result 0, flags from the difference
      var diff := a - b;
      var diffMasked := Mask(diff);
      Some(AluOutput(0, FlagSet(
        diff >= 0,
        Bit7(a) != Bit7(b) && Bit7(a) != Bit7(diff),
        diffMasked == 0,
        Bit7(diffMasked))))
    else if op == 17 then  // NOT_A
      Some(WithFlags(Not8(a), false, false))
    else if op == 18 then  // NOT_B
      Some(WithFlags(Not8(b), false, false))
    else
      None
  }

  /** `compute_alu_operation(opcode, a, b)`: parse the binary opcode (in the plain spelling of ParseBinary), then dispatch. */
  function ComputeAluOperation(opcode: string, a: Byte, b: Byte): (r: Result<AluOutput, GoldenError>)
    ensures r.Failure? <==> !IsBinary(opcode) || BinaryValue(opcode) > 18
    ensures r.Failure? && !IsBinary(opcode) ==> r.error == InvalidLiteral(opcode)
    ensures r.Success? ==> 0 <= r.value.result < 256
  {
    match ParseBinary(opcode)
    case None => Failure(InvalidLiteral(opcode))
    case Some(op) =>
      match ComputeOp(op, a, b)
      case None => Failure(UnsupportedOpcode(opcode))
      case Some(out) => Success(out)
  }

  // ---------------------------------------------------------------------
  // The table
  // ---------------------------------------------------------------------

  /** The five-digit spellings of opcodes 0 to 3. */
  lemma OpcodeSpellings0To3()
    ensures OpcodeString(0) == "00000"
    ensures OpcodeString(1) == "00001"
    ensures OpcodeString(2) == "00010"
    ensures OpcodeString(3) == "00011"
  {
    assert ToBinary(0, 1) == "0";
    assert ToBinary(0, 2) == "00";
    assert ToBinary(0, 3) == "000";
    assert ToBinary(0, 4) == "0000";
    assert ToBinary(1, 4) == "0001";
  }

  /** The five-digit spellings of opcodes 4 to 7. */
  lemma OpcodeSpellings4To7()
    ensures OpcodeString(4) == "00100"
    ensures OpcodeString(5) == "00101"
    ensures OpcodeString(6) == "00110"
    ensures OpcodeString(7) == "00111"
  {
    assert ToBinary(0, 1) == "0";
    assert ToBinary(0, 2) == "00";
    assert ToBinary(1, 3) == "001";
    assert ToBinary(2, 4) == "0010";
    assert ToBinary(3, 4) == "0011";
  }

  /** The five-digit spellings of opcodes 8 to 11. */
  lemma OpcodeSpellings8To11()
    ensures OpcodeString(8) == "01000"
    ensures OpcodeString(9) == "01001"
    ensures OpcodeString(10) == "01010"
    ensures OpcodeString(11) == "01011"
  {
    assert ToBinary(0, 1) == "0";
    assert ToBinary(1, 2) == "01";
    assert ToBinary(2, 3) == "010";
    assert ToBinary(4, 4) == "0100";
    assert ToBinary(5, 4) == "0101";
  }

  /** The five-digit spellings of opcodes 12 to 15. */
  lemma OpcodeSpellings12To15()
    ensures OpcodeString(12) == "01100"
    ensures OpcodeString(13) == "01101"
    ensures OpcodeString(14) == "01110"
    ensures OpcodeString(15) == "01111"
  {
    assert ToBinary(0, 1) == "0";
    assert ToBinary(1, 2) == "01";
    assert ToBinary(3, 3) == "011";
    assert ToBinary(6, 4) == "0110";
    assert ToBinary(7, 4) == "0111";
  }

  /** The five-digit spellings of opcodes 16 to 18. */
  lemma OpcodeSpellings16To18()
    ensures OpcodeString(16) == "10000"
    ensures OpcodeString(17) == "10001"
    ensures OpcodeString(18) == "10010"
  {
    assert ToBinary(1, 1) == "1";
    assert ToBinary(2, 2) == "10";
    assert ToBinary(4, 3) == "100";
    assert ToBinary(8, 4) == "1000";
    assert ToBinary(9, 4) == "1001";
  }

  /** Entry i of the table carries the spelling of opcode i. */
  lemma OperationsOpcodes()
    ensures |Operations| == 19
    ensures forall i :: 0 <= i < |Operations| ==> Operations[i].1 == OpcodeString(i)
  {
    OpcodeSpellings0To3();
    OpcodeSpellings4To7();
    OpcodeSpellings8To11();
    OpcodeSpellings12To15();
    OpcodeSpellings16To18();
    forall i | 0 <= i < |Operations|
      ensures Operations[i].1 == OpcodeString(i)
    {
      if i < 9 {
        assert i == 0 || i == 1 || i == 2 || i == 3 || i == 4 || i == 5 || i == 6 || i == 7 || i == 8;
      } else {
        assert i == 9 || i == 10 || i == 11 || i == 12 || i == 13 || i == 14 || i == 15 || i == 16 || i == 17 || i == 18;
      }
    }
  }

  /** The table has 19 entries whose opcodes are 0..18 in table order, so they are distinct. */
  lemma OperationsAreOpcodes0To18()
    ensures |Operations| == 19
    ensures forall i :: 0 <= i < |Operations| ==> ParseBinary(Operations[i].1) == Some(i)
    ensures forall i, j :: 0 <= i < j < |Operations| ==> Operations[i].1 != Operations[j].1
  {
    OperationsOpcodes();
    forall i | 0 <= i < |Operations|
      ensures ParseBinary(Operations[i].1) == Some(i)
    {
      ParseOpcodeString(i);
    }
  }

  /** Every opcode of the table is one the golden model computes. */
  lemma OperationsSupported(i: nat, a: Byte, b: Byte)
    requires i < |Operations|
    ensures ComputeAluOperation(Operations[i].1, a, b).Success?
  {
    OperationsAreOpcodes0To18();
  }

  // ---------------------------------------------------------------------
  // The exhaustive sweep
  // ---------------------------------------------------------------------

  function HexDigit(d: nat): char
    requires d < 16
  {
    "0123456789ABCDEF"[d]
  }

  /** `f"{x:02X}"` for a byte. */
  function Hex2(x: Byte): string
  {
    [HexDigit(x / 16), HexDigit(x % 16)]
  }

  /** `f"{op_name}_{a:02X}_{b:02X}"`. */
  function TestName(opName: string, a: Byte, b: Byte): string
  {
    opName + "_" + Hex2(a) + "_" + Hex2(b)
  }

  lemma Hex2Injective(x: Byte, y: Byte)
    requires Hex2(x) == Hex2(y)
    ensures x == y
  {
    var digits := "0123456789ABCDEF";
    assert forall i, j :: 0 <= i < j < 16 ==> digits[i] != digits[j];
    assert x / 16 == y / 16 && x % 16 == y % 16;
  }

  /** The label determines the operation name and both operands. */
  lemma TestNameInjective(n1: string, a1: Byte, b1: Byte, n2: string, a2: Byte, b2: Byte)
    requires TestName(n1, a1, b1) == TestName(n2, a2, b2)
    ensures n1 == n2 && a1 == a2 && b1 == b2
  {
    var s1, s2 := TestName(n1, a1, b1), TestName(n2, a2, b2);
    assert |n1| == |n2|;
    assert n1 == s1[..|n1|] && n2 == s2[..|n2|];
    var k := |n1|;
    assert Hex2(a1) == s1[k + 1..k + 3] && Hex2(a2) == s2[k + 1..k + 3];
    assert Hex2(b1) == s1[k + 4..k + 6] && Hex2(b2) == s2[k + 4..k + 6];
    Hex2Injective(a1, a2);
    Hex2Injective(b1, b2);
  }

  /** The record the generator yields for one operation and operand pair. */
  function VectorRecord(opName: string, opcode: string, a: Byte, b: Byte, out: AluOutput): TestRecord
  {
    TestRecord(
      Some(TestName(opName, a, b)), Some(opcode), None, Some(a), Some(b),
      Some(out.result), Some(FlagItems(out.flags)))
  }

  /** `count_vectors()`: the number of records the sweep yields. */
  function CountVectors(): (n: nat)
    ensures n == 1245184
  {
    |Operations| * OperandCount * OperandCount
  }

  /** Position k of the sweep visits table entry k / 65536, A = (k / 256) % 256 and B = k % 256. */
  function SweepIndex(k: nat): (nat, Byte, Byte)
  {
    (k / (OperandCount * OperandCount), (k / OperandCount) % OperandCount, k % OperandCount)
  }

  /** The position the sweep gives to table entry i with operands A and B. */
  function SweepPosition(i: nat, a: Byte, b: Byte): nat
  {
    i * 65536 + a * 256 + b
  }

  lemma SweepIndexOf(i: nat, a: Byte, b: Byte)
    ensures SweepIndex(SweepPosition(i, a, b)) == (i, a, b)
  {
    var k := i * 65536 + a * 256 + b;
    assert k / 65536 == i;
    assert k / 256 == i * 256 + a;
    assert (i * 256 + a) % 256 == a;
  }

  lemma SweepIndexInverse(k: nat)
    ensures k == SweepPosition(SweepIndex(k).0, SweepIndex(k).1, SweepIndex(k).2)
  {
  }

  /** The record at position k of the sweep, from the golden model. */
  function ExpectedVector(k: nat): TestRecord
    requires k < CountVectors()
  {
    var (i, a, b) := SweepIndex(k);
    var (opName, opcode) := Operations[i];
    OperationsSupported(i, a, b);
    VectorRecord(opName, opcode, a, b, ComputeAluOperation(opcode, a, b).value)
  }

  /** The record for operation i and operands A, B sits at position i * 65536 + A * 256 + B. */
  lemma ExpectedVectorAt(i: nat, a: Byte, b: Byte)
    requires i < |Operations|
    ensures SweepPosition(i, a, b) < CountVectors()
    ensures ComputeAluOperation(Operations[i].1, a, b).Success?
    ensures ExpectedVector(SweepPosition(i, a, b)) ==
              VectorRecord(Operations[i].0, Operations[i].1, a, b, ComputeAluOperation(Operations[i].1, a, b).value)
  {
    SweepIndexOf(i, a, b);
    OperationsSupported(i, a, b);
  }

  /** Record k carries the opcode of operation k / 65536. */
  lemma SweepOpcode(k: nat)
    requires k < CountVectors()
    ensures k / 65536 < |Operations|
    ensures ExpectedVector(k).opcode == Some(Operations[k / 65536].1)
  {
    assert SweepIndex(k).0 == k / 65536;
  }

  /** `generate_exhaustive_vectors()`: the records it yields, in order. */
  method GenerateExhaustiveVectors() returns (vs: seq<TestRecord>)
    ensures |vs| == CountVectors()
    ensures forall k :: 0 <= k < |vs| ==> vs[k] == ExpectedVector(k)
  {
    vs := [];
    for i := 0 to |Operations|
      invariant |vs| == i * 65536
      invariant forall k :: 0 <= k < |vs| ==> vs[k] == ExpectedVector(k)
    {
      var (opName, opcode) := Operations[i];
      for a := 0 to 256
        invariant |vs| == i * 65536 + a * 256
        invariant forall k :: 0 <= k < |vs| ==> vs[k] == ExpectedVector(k)
      {
        for b := 0 to 256
          invariant |vs| == i * 65536 + a * 256 + b
          invariant forall k :: 0 <= k < |vs| ==> vs[k] == ExpectedVector(k)
        {
          OperationsSupported(i, a, b);
          var out := ComputeAluOperation(opcode, a, b).value;
          SweepIndexOf(i, a, b);
          vs := vs + [VectorRecord(opName, opcode, a, b, out)];
        }
      }
    }
  }
}
