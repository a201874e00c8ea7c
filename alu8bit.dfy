/**
 * The software ALU of tools/run_tests.py (class ALU8Bit): the implementation
 * the test vectors are run against. Each Python method takes the operands
 * and returns the 8-bit result and the four flags.
 */
module Alu8Bit {
  import opened Bits
  import opened AluTypes

  /** The nineteen methods of the class, one constructor each. */
  datatype AluMethod =
    | Add | Sub | IncA | DecA
    | Lsl | Lsr | Asr | RevA
    | Nand | Nor | Xor | PassA | PassB | And | Or | Xnor
    | Cmp | NotA | NotB

  /**
   * `_flags(result, carry, overflow)`: carry and overflow pass through;
   * zero and negative are read off `result & 0xFF`, so the unmasked result
   * may be handed in.
   */
  function Flags(result: int, carry: bool, overflow: bool): (f: FlagSet)
    ensures f.carry == carry && f.overflow == overflow
    ensures f.zero <==> result % 256 == 0
    ensures f.negative <==> result % 256 >= 128
  {
    FlagSet(carry, overflow, Mask(result) == 0, Bit7(result))
  }

  /** Two results that agree modulo 256 give the same flags. */
  lemma FlagsModulo(x: int, y: int, carry: bool, overflow: bool)
    requires x % 256 == y % 256
    ensures Flags(x, carry, overflow) == Flags(y, carry, overflow)
  {
  }

  /** Calling method m of the class on A and B. */
  function Apply(m: AluMethod, a: Byte, b: Byte): (r: AluOutput)
    ensures 0 <= r.result < 256
    ensures m == Cmp ==> r.result == 0
  {
    match m
    case Add =>
      var result := a + b;
      AluOutput(Mask(result), Flags(result, result > 255, Bit7(a) == Bit7(b) && Bit7(a) != Bit7(result)))
    case Sub =>
      var result := a - b;
      AluOutput(Mask(result), Flags(result, result >= 0, Bit7(a) != Bit7(b) && Bit7(a) != Bit7(result)))
    case IncA =>
      var result := a + 1;
      AluOutput(Mask(result), Flags(result, result > 255, a == 0x7F))
    case DecA =>
      var result := a - 1;
      AluOutput(Mask(result), Flags(result, result >= 0, a == 0x80))
    case Lsl =>
      var result := Mask(2 * a);
      AluOutput(result, Flags(result, Bit7(a), false))
    case Lsr =>
      var result := Mask(a / 2);
      AluOutput(result, Flags(result, a % 2 == 1, false))
    case Asr =>
      var result := Mask(Or8(a / 2, And8(a, 0x80)));
      AluOutput(result, Flags(result, a % 2 == 1, false))
    case RevA =>
      var result := RevByte(a);
      AluOutput(result, Flags(result, false, false))
    case Nand =>
      var result := Not8(And8(a, b));
      AluOutput(result, Flags(result, false, false))
    case Nor =>
      var result := Not8(Or8(a, b));
      AluOutput(result, Flags(result, false, false))
    case Xor =>
      var result := Mask(Xor8(a, b));
      AluOutput(result, Flags(result, false, false))
    case PassA =>
      AluOutput(a, Flags(a, false, false))
    case PassB =>
      AluOutput(b, Flags(b, false, false))
    case And =>
      var result := Mask(And8(a, b));
      AluOutput(result, Flags(result, false, false))
    case Or =>
      var result := Mask(Or8(a, b));
      AluOutput(result, Flags(result, false, false))
    case Xnor =>
      var result := Not8(Xor8(a, b));
      AluOutput(result, Flags(result, false, false))
    case Cmp =>
      // the flags are those of the raw difference; the result is always 0
      var result := a - b;
      AluOutput(0, Flags(result, result >= 0, Bit7(a) != Bit7(b) && Bit7(a) != Bit7(result)))
    case NotA =>
      var result := Not8(a);
      AluOutput(result, Flags(result, false, false))
    case NotB =>
      var result := Not8(b);
      AluOutput(result, Flags(result, false, false))
  }

  /** `rev_a`: the bit loop, then `_flags` with carry and overflow clear. */
  method ReverseA(a: Byte, b: Byte) returns (r: AluOutput)
    ensures r == Apply(RevA, a, b)
    ensures forall i :: 0 <= i < 8 ==> ToBits(r.result, 8)[7 - i] == ToBits(a, 8)[i]
  {
    var result := ReverseBitsLoop(a);
    r := AluOutput(result, Flags(result, false, false));
  }

  /** `func(a, b)` for the bound method m: rev_a runs its loop, the others are expressions. */
  method Execute(m: AluMethod, a: Byte, b: Byte) returns (r: AluOutput)
    ensures r == Apply(m, a, b)
  {
    if m == RevA {
      r := ReverseA(a, b);
    } else {
      r := Apply(m, a, b);
    }
  }
}
