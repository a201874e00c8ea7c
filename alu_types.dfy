/**
 * Values shared by the golden models, the simulated hardware and the
 * runners: the four status flags, an ALU output, the five-character
 * binary opcode spelling, and a test-vector record as the runners see it.
 */
module AluTypes {
  import opened Wrappers
  import opened Bits

  datatype FlagSet = FlagSet(carry: bool, overflow: bool, zero: bool, negative: bool)

  datatype AluOutput = AluOutput(result: int, flags: FlagSet)

  /** The four flags as the golden model lists them in `expected_flags`, in that order. */
  function FlagItems(f: FlagSet): seq<(string, bool)>
  {
    [("carry", f.carry), ("overflow", f.overflow), ("zero", f.zero), ("negative", f.negative)]
  }

  /** `actual_flags.get(name, False)`: a name that is not one of the four flags reads as false. */
  function FlagValue(f: FlagSet, name: string): bool
  {
    if name == "carry" then f.carry
    else if name == "overflow" then f.overflow
    else if name == "zero" then f.zero
    else if name == "negative" then f.negative
    else false
  }

  /**
   * A test vector as a dictionary: a field is None when its key is absent.
   * `a` and `b` are operands already converted by `int(test["A"])`; stored
   * values such as 3.0, "7" or True, which `int()` also converts, are not
   * distinguished from the byte they convert to.
   */
  datatype TestRecord = TestRecord(
    testName: Option<string>,
    opcode: Option<string>,
    operation: Option<string>,
    a: Option<Byte>,
    b: Option<Byte>,
    expectedResult: Option<int>,
    expectedFlags: Option<seq<(string, bool)>>)

  // ---------------------------------------------------------------------
  // Binary opcode strings
  // ---------------------------------------------------------------------

  function Digit(bit: bool): char
  {
    if bit then '1' else '0'
  }

  /** The n-digit binary spelling of k, most significant digit first. */
  function ToBinary(k: nat, n: nat): (s: string)
    ensures |s| == n
  {
    if n == 0 then [] else ToBinary(k / 2, n - 1) + [Digit(k % 2 == 1)]
  }

  /** The spelling used for opcodes: five binary digits, as in "00111". */
  function OpcodeString(k: nat): string
  {
    ToBinary(k, 5)
  }

  predicate IsBinary(s: string)
  {
    |s| > 0 && forall i :: 0 <= i < |s| ==> s[i] == '0' || s[i] == '1'
  }

  function BinaryValue(s: string): nat
  {
    if s == [] then 0
    else 2 * BinaryValue(s[..|s| - 1]) + (if s[|s| - 1] == '1' then 1 else 0)
  }

  /**
   * `int(s, 2)` restricted to the plain spelling: a non-empty string of the
   * digits 0 and 1. The other spellings `int` accepts (surrounding white
   * space, a sign, a `0b` prefix, underscores between digits) are outside
   * this model and are rejected here.
   */
  function ParseBinary(s: string): (r: Option<nat>)
    ensures r.Some? <==> IsBinary(s)
  {
    if IsBinary(s) then Some(BinaryValue(s)) else None
  }

  lemma {:induction false} BinaryValueOfToBinary(k: nat, n: nat)
    requires k < Pow2(n)
    ensures BinaryValue(ToBinary(k, n)) == k
    ensures forall i :: 0 <= i < n ==> ToBinary(k, n)[i] == '0' || ToBinary(k, n)[i] == '1'
  {
    if n > 0 {
      BinaryValueOfToBinary(k / 2, n - 1);
      var s := ToBinary(k, n);
      assert s[..n - 1] == ToBinary(k / 2, n - 1);
    }
  }

  /** Parsing the spelling of an opcode gives the opcode back. */
  lemma ParseOpcodeString(k: nat)
    requires k < 32
    ensures ParseBinary(OpcodeString(k)) == Some(k)
  {
    BinaryValueOfToBinary(k, 5);
  }

  /** Two opcodes below 32 with the same spelling are the same opcode. */
  lemma OpcodeStringInjective(j: nat, k: nat)
    requires j < 32 && k < 32 && OpcodeString(j) == OpcodeString(k)
    ensures j == k
  {
    ParseOpcodeString(j);
    ParseOpcodeString(k);
  }
}
