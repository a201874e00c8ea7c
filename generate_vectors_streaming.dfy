/**
 * The second, partial golden model and generator of
 * test/generate_vectors_streaming.py. It knows 12 of the 19 operations and
 * writes the ADD and SUB overflow tests in XOR form.
 */
module StreamingVectors {
  import opened Wrappers
  import opened Bits
  import opened AluTypes
  import opened ExhaustiveVectors

  /** The generator's own operation table: 12 entries. */
  const StreamOperations: seq<(string, string)> := [
    ("ADD", "00000"),
    ("SUB", "00001"),
    ("NAND", "01000"),
    ("NOR", "01001"),
    ("XOR", "01010"),
    ("PASS_A", "01011"),
    ("PASS_B", "01100"),
    ("AND", "01101"),
    ("OR", "01110"),
    ("XNOR", "01111"),
    ("NOT_A", "10001"),
    ("NOT_B", "10010")
  ]

  /** The opcode value of each entry of the table. */
  const StreamCodes: seq<nat> := [0, 1, 8, 9, 10, 11, 12, 13, 14, 15, 17, 18]

  /** `((a ^ result) & (b ^ result) & 0x80) != 0` */
  predicate AddOverflowXor(a: Byte, b: Byte, result: Byte)
  {
    And8(And8(Xor8(a, result), Xor8(b, result)), 0x80) != 0
  }

  /** `((a ^ b) & (a ^ result) & 0x80) != 0` */
  predicate SubOverflowXor(a: Byte, b: Byte, result: Byte)
  {
    And8(And8(Xor8(a, b), Xor8(a, result)), 0x80) != 0
  }

  /** The `if op == ... elif ...` chain of this variant. */
  function StreamComputeOp(op: int, a: Byte, b: Byte): Option<AluOutput>
  {
    if op == 0 then  // ADD
      var total := a + b;
      var result := Mask(total);
      Some(WithFlags(result, total > 0xFF, AddOverflowXor(a, b, result)))
    else if op == 1 then  // SUB
      var diff := a - b;
      var result := Mask(diff);
      Some(WithFlags(result, a >= b, SubOverflowXor(a, b, result)))
    else if op == 8 then Some(WithFlags(Not8(And8(a, b)), false, false))
    else if op == 9 then Some(WithFlags(Not8(Or8(a, b)), false, false))
    else if op == 10 then Some(WithFlags(Mask(Xor8(a, b)), false, false))
    else if op == 11 then Some(WithFlags(Mask(a), false, false))
    else if op == 12 then Some(WithFlags(Mask(b), false, false))
    else if op == 13 then Some(WithFlags(Mask(And8(a, b)), false, false))
    else if op == 14 then Some(WithFlags(Mask(Or8(a, b)), false, false))
    else if op == 15 then Some(WithFlags(Not8(Xor8(a, b)), false, false))
    else if op == 17 then Some(WithFlags(Not8(a), false, false))
    else if op == 18 then Some(WithFlags(Not8(b), false, false))
    else None
  }

  /** This variant's `compute_alu_operation(opcode, a, b)`, on opcodes in the plain spelling of ParseBinary. */
  function StreamComputeAluOperation(opcode: string, a: Byte, b: Byte): (r: Result<AluOutput, GoldenError>)
    ensures r.Success? ==> IsBinary(opcode) && BinaryValue(opcode) in StreamCodes
  {
    match ParseBinary(opcode)
    case None => Failure(InvalidLiteral(opcode))
    case Some(op) =>
      match StreamComputeOp(op, a, b)
      case None => Failure(UnsupportedOpcode(opcode))
      case Some(out) => Success(out)
  }

  // ---------------------------------------------------------------------
  // The two overflow formulas
  // ---------------------------------------------------------------------

  /** ADD: the XOR form equals "operands share a sign that the result does not". */
  lemma AddOverflowFormsAgree(a: Byte, b: Byte)
    ensures var r := Mask(a + b);
            AddOverflowXor(a, b, r) <==> (Bit7(a) == Bit7(b) && Bit7(a) != Bit7(r))
  {
    var r := Mask(a + b);
    SignMask(And8(Xor8(a, r), Xor8(b, r)));
    AndBit7(Xor8(a, r), Xor8(b, r));
    XorBit7(a, r);
    XorBit7(b, r);
  }

  /** SUB: the XOR form equals "operands differ in sign and the result's sign differs from A's". */
  lemma SubOverflowFormsAgree(a: Byte, b: Byte)
    ensures var r := Mask(a - b);
            SubOverflowXor(a, b, r) <==> (Bit7(a) != Bit7(b) && Bit7(a) != Bit7(r))
  {
    var r := Mask(a - b);
    SignMask(And8(Xor8(a, b), Xor8(a, r)));
    AndBit7(Xor8(a, b), Xor8(a, r));
    XorBit7(a, b);
    XorBit7(a, r);
  }

  lemma StreamAddAgrees(a: Byte, b: Byte)
    ensures StreamComputeOp(0, a, b) == ComputeOp(0, a, b)
  {
    AddOverflowFormsAgree(a, b);
  }

  lemma StreamSubAgrees(a: Byte, b: Byte)
    ensures StreamComputeOp(1, a, b) == ComputeOp(1, a, b)
  {
    SubOverflowFormsAgree(a, b);
  }

  /** Every opcode this variant supports gives the reference model's result and flags. */
  lemma StreamAgreesWithReference(op: int, a: Byte, b: Byte)
    ensures StreamComputeOp(op, a, b).Some? <==> op in StreamCodes
    ensures StreamComputeOp(op, a, b).Some? ==> StreamComputeOp(op, a, b) == ComputeOp(op, a, b)
  {
    if op == 0 {
      StreamAddAgrees(a, b);
    } else if op == 1 {
      StreamSubAgrees(a, b);
    } else if 8 <= op <= 15 || op == 17 || op == 18 {
      assert op in StreamCodes;
    } else {
      assert op !in StreamCodes;
    }
  }

  /** Opcodes 2..7, 16 and anything above 18 raise in this variant. */
  lemma StreamRejects(opcode: string, a: Byte, b: Byte)
    requires IsBinary(opcode)
    requires var v := BinaryValue(opcode); (2 <= v <= 7) || v == 16 || v > 18
    ensures StreamComputeAluOperation(opcode, a, b) == Failure(UnsupportedOpcode(opcode))
  {
    StreamAgreesWithReference(BinaryValue(opcode), a, b);
  }

  lemma StreamAgreesOnStrings(opcode: string, a: Byte, b: Byte)
    ensures StreamComputeAluOperation(opcode, a, b).Success? ==>
              StreamComputeAluOperation(opcode, a, b) == ComputeAluOperation(opcode, a, b)
  {
    if IsBinary(opcode) {
      StreamAgreesWithReference(BinaryValue(opcode), a, b);
    }
  }

  // ---------------------------------------------------------------------
  // The table and the generator
  // ---------------------------------------------------------------------

  /** Entry i of this table is entry StreamCodes[i] of the reference table. */
  lemma StreamTableIsSubTable()
    ensures |StreamOperations| == |StreamCodes| == 12
    ensures forall i :: 0 <= i < 12 ==> StreamCodes[i] < |Operations| && StreamOperations[i] == Operations[StreamCodes[i]]
  {
  }

  lemma StreamOperationsSupported(i: nat, a: Byte, b: Byte)
    requires i < |StreamOperations|
    ensures StreamComputeAluOperation(StreamOperations[i].1, a, b).Success?
    ensures StreamComputeAluOperation(StreamOperations[i].1, a, b) == ComputeAluOperation(StreamOperations[i].1, a, b)
  {
    StreamTableIsSubTable();
    OperationsAreOpcodes0To18();
    assert ParseBinary(StreamOperations[i].1) == Some(StreamCodes[i]);
    StreamAgreesWithReference(StreamCodes[i], a, b);
  }

  function StreamCountVectors(): (n: nat)
    ensures n == 786432
  {
    |StreamOperations| * OperandCount * OperandCount
  }

  /** The record at position k of this generator's sweep. */
  function StreamExpectedVector(k: nat): TestRecord
    requires k < StreamCountVectors()
  {
    var (i, a, b) := SweepIndex(k);
    var (opName, opcode) := StreamOperations[i];
    StreamOperationsSupported(i, a, b);
    VectorRecord(opName, opcode, a, b, StreamComputeAluOperation(opcode, a, b).value)
  }

  /** This variant's `generate_exhaustive_vectors()`: the records it yields, in order. */
  method StreamGenerateVectors() returns (vs: seq<TestRecord>)
    ensures |vs| == StreamCountVectors()
    ensures forall k :: 0 <= k < |vs| ==> vs[k] == StreamExpectedVector(k)
  {
    vs := [];
    for i := 0 to |StreamOperations|
      invariant |vs| == i * 65536
      invariant forall k :: 0 <= k < |vs| ==> vs[k] == StreamExpectedVector(k)
    {
      var (opName, opcode) := StreamOperations[i];
      for a := 0 to 256
        invariant |vs| == i * 65536 + a * 256
        invariant forall k :: 0 <= k < |vs| ==> vs[k] == StreamExpectedVector(k)
      {
        for b := 0 to 256
          invariant |vs| == i * 65536 + a * 256 + b
          invariant forall k :: 0 <= k < |vs| ==> vs[k] == StreamExpectedVector(k)
        {
          StreamOperationsSupported(i, a, b);
          var out := StreamComputeAluOperation(opcode, a, b).value;
          SweepIndexOf(i, a, b);
          vs := vs + [VectorRecord(opName, opcode, a, b, out)];
        }
      }
    }
  }

  /** Entry i of this table yields, for A and B, the record the reference yields for its opcode. */
  lemma StreamEntryIsReference(i: nat, a: Byte, b: Byte)
    requires i < |StreamOperations|
    ensures StreamCodes[i] < |Operations|
    ensures StreamComputeAluOperation(StreamOperations[i].1, a, b).Success?
    ensures ComputeAluOperation(Operations[StreamCodes[i]].1, a, b).Success?
    ensures VectorRecord(StreamOperations[i].0, StreamOperations[i].1, a, b,
                         StreamComputeAluOperation(StreamOperations[i].1, a, b).value)
            == VectorRecord(Operations[StreamCodes[i]].0, Operations[StreamCodes[i]].1, a, b,
                            ComputeAluOperation(Operations[StreamCodes[i]].1, a, b).value)
  {
    StreamTableIsSubTable();
    StreamOperationsSupported(i, a, b);
  }

  /** The record at position i * 65536 + A * 256 + B of this sweep. */
  lemma StreamVectorAt(i: nat, a: Byte, b: Byte)
    requires i < |StreamOperations|
    ensures SweepPosition(i, a, b) < StreamCountVectors()
    ensures StreamComputeAluOperation(StreamOperations[i].1, a, b).Success?
    ensures StreamExpectedVector(SweepPosition(i, a, b)) ==
              VectorRecord(StreamOperations[i].0, StreamOperations[i].1, a, b,
                           StreamComputeAluOperation(StreamOperations[i].1, a, b).value)
  {
    SweepIndexOf(i, a, b);
    StreamOperationsSupported(i, a, b);
  }

  /**
   * Each record of this sweep is the reference sweep's record for the same
   * operation and operands; the sweep is 12 * 65,536 records long, short of
   * the reference's 1,245,184.
   */
  lemma StreamVectorsAreReferenceVectors(k: nat)
    requires k < StreamCountVectors()
    ensures StreamCountVectors() == 786432 < CountVectors()
    ensures var s := SweepIndex(k);
            SweepPosition(StreamCodes[s.0], s.1, s.2) < CountVectors()
            && StreamExpectedVector(k) == ExpectedVector(SweepPosition(StreamCodes[s.0], s.1, s.2))
  {
    var s := SweepIndex(k);
    SweepIndexInverse(k);
    StreamVectorAt(s.0, s.1, s.2);
    StreamEntryIsReference(s.0, s.1, s.2);
    ExpectedVectorAt(StreamCodes[s.0], s.1, s.2);
  }
}
