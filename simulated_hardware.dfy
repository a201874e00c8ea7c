/**
 * SimulatedALUHardware of tools/run_tests.py: the `ops` table binding each
 * five-character opcode to an operation name and an ALU8Bit method, the
 * name lookup, and `evaluate`, which runs one test vector and reports the
 * first mismatch.
 */
module SimulatedHardware {
  import opened Wrappers
  import opened Bits
  import opened AluTypes
  import opened ExhaustiveVectors
  import opened Alu8Bit

  datatype OpsEntry = OpsEntry(key: string, name: string, func: AluMethod)

  /** The `ops` dictionary, in insertion order. */
  const Ops: seq<OpsEntry> := [
    OpsEntry("00000", "ADD", Add),
    OpsEntry("00001", "SUB", Sub),
    OpsEntry("00010", "INC_A", IncA),
    OpsEntry("00011", "DEC_A", DecA),
    OpsEntry("00100", "LSL", Lsl),
    OpsEntry("00101", "LSR", Lsr),
    OpsEntry("00110", "ASR", Asr),
    OpsEntry("00111", "REV_A", RevA),
    OpsEntry("01000", "NAND", Nand),
    OpsEntry("01001", "NOR", Nor),
    OpsEntry("01010", "XOR", Xor),
    OpsEntry("01011", "PASS_A", PassA),
    OpsEntry("01100", "PASS_B", PassB),
    OpsEntry("01101", "AND", And),
    OpsEntry("01110", "OR", Or),
    OpsEntry("01111", "XNOR", Xnor),
    OpsEntry("10000", "CMP", Cmp),
    OpsEntry("10001", "NOT_A", NotA),
    OpsEntry("10010", "NOT_B", NotB)
  ]

  // ---------------------------------------------------------------------
  // Dictionary lookups
  // ---------------------------------------------------------------------

  /** `ops[key]` when `key in ops`, else None; the first entry with that key. */
  function Lookup(s: seq<OpsEntry>, key: string): (r: Option<OpsEntry>)
    ensures r.Some? ==> r.value.key == key
    ensures r.None? <==> forall j :: 0 <= j < |s| ==> s[j].key != key
  {
    if s == [] then None
    else if s[0].key == key then Some(s[0])
    else Lookup(s[1..], key)
  }

  /** An entry whose key no earlier entry has is what looking its key up returns. */
  lemma {:induction false} LookupFinds(s: seq<OpsEntry>, i: nat)
    requires i < |s| && forall j :: 0 <= j < i ==> s[j].key != s[i].key
    ensures Lookup(s, s[i].key) == Some(s[i])
  {
    if i > 0 {
      assert s[1..][i - 1] == s[i];
      LookupFinds(s[1..], i - 1);
    }
  }

  /** The first entry, in insertion order, whose operation name is `name`. */
  function IndexOfName(s: seq<OpsEntry>, name: string): (r: Option<nat>)
    ensures r.Some? ==> r.value < |s| && s[r.value].name == name
                        && forall j :: 0 <= j < r.value ==> s[j].name != name
    ensures r.None? <==> forall j :: 0 <= j < |s| ==> s[j].name != name
  {
    if s == [] then None
    else if s[0].name == name then Some(0)
    else match IndexOfName(s[1..], name)
      case None => None
      case Some(j) => Some(j + 1)
  }

  /** `get_op_name(opcode)`: the entry's name, or "UNKNOWN" for a key not in the table. */
  function GetOpName(ops: seq<OpsEntry>, opcode: string): (name: string)
    ensures (forall j :: 0 <= j < |ops| ==> ops[j].key != opcode) ==> name == "UNKNOWN"
  {
    match Lookup(ops, opcode)
    case None => "UNKNOWN"
    case Some(e) => e.name
  }

  /** No two entries share a key, as in a dictionary. */
  predicate KeysDistinct(ops: seq<OpsEntry>)
  {
    forall i, j :: 0 <= i < j < |ops| ==> ops[i].key != ops[j].key
  }

  /** No two entries share an operation name. */
  predicate NamesDistinct(ops: seq<OpsEntry>)
  {
    forall i, j :: 0 <= i < j < |ops| ==> ops[i].name != ops[j].name
  }

  /** Looking up the key of entry i finds entry i. */
  lemma LookupOwnKey(ops: seq<OpsEntry>, i: nat)
    requires KeysDistinct(ops) && i < |ops|
    ensures Lookup(ops, ops[i].key) == Some(ops[i])
  {
    LookupFinds(ops, i);
  }

  /** The name `get_op_name` reports for a key of the table is that entry's name. */
  lemma GetOpNameOfEntry(ops: seq<OpsEntry>, i: nat)
    requires KeysDistinct(ops) && i < |ops|
    ensures GetOpName(ops, ops[i].key) == ops[i].name
  {
    LookupOwnKey(ops, i);
  }

  // ---------------------------------------------------------------------
  // The table
  // ---------------------------------------------------------------------

  lemma OpsKeysLow()
    ensures |Ops| == 19
    ensures forall i :: 0 <= i < 10 ==> Ops[i].key == Operations[i].1 && Ops[i].name == Operations[i].0
  {
  }

  lemma OpsKeysHigh()
    ensures |Ops| == 19
    ensures forall i :: 10 <= i < 19 ==> Ops[i].key == Operations[i].1 && Ops[i].name == Operations[i].0
  {
  }

  /** Entry i of `ops` has the key and the name of entry i of the reference OPERATIONS table. */
  lemma OpsFollowOperations()
    ensures |Ops| == |Operations| == 19
    ensures forall i :: 0 <= i < |Ops| ==> Ops[i].key == Operations[i].1 && Ops[i].name == Operations[i].0
  {
    OpsKeysLow();
    OpsKeysHigh();
  }

  /** 19 keys, each five binary digits whose value is the entry's position, so no two are equal. */
  lemma OpsKeysDistinct()
    ensures |Ops| == 19
    ensures forall i :: 0 <= i < |Ops| ==> |Ops[i].key| == 5 && ParseBinary(Ops[i].key) == Some(i)
    ensures KeysDistinct(Ops)
  {
    OpsFollowOperations();
    OperationsAreOpcodes0To18();
    OperationsOpcodes();
  }

  /** No two entries of `ops` share an operation name. */
  lemma OpsNamesDistinct()
    ensures NamesDistinct(Ops)
  {
    NamesDistinctLow();
    NamesDistinctHigh();
    NamesDistinctAcross();
  }

  lemma NamesDistinctLow()
    ensures forall i, j :: 0 <= i < j < 10 ==> Ops[i].name != Ops[j].name
  {
  }

  lemma NamesDistinctHigh()
    ensures forall i, j :: 10 <= i < j < 19 ==> Ops[i].name != Ops[j].name
  {
  }

  lemma NamesDistinctAcross()
    ensures forall i, j :: 0 <= i < 10 <= j < 19 ==> Ops[i].name != Ops[j].name
  {
  }

  // ---------------------------------------------------------------------
  // Agreement with the golden model
  // ---------------------------------------------------------------------

  /** The reference's flag tail on a byte is `_flags` on that byte. */
  lemma WithFlagsBridge(r: Byte, carry: bool, overflow: bool)
    ensures WithFlags(r, carry, overflow) == AluOutput(r, Flags(r, carry, overflow))
  {
  }

  lemma AddAgrees(a: Byte, b: Byte)
    ensures ComputeOp(0, a, b) == Some(Apply(Add, a, b))
  {
  }

  lemma SubAgrees(a: Byte, b: Byte)
    ensures ComputeOp(1, a, b) == Some(Apply(Sub, a, b))
  {
  }

  lemma IncAAgrees(a: Byte, b: Byte)
    ensures ComputeOp(2, a, b) == Some(Apply(IncA, a, b))
  {
  }

  lemma DecAAgrees(a: Byte, b: Byte)
    ensures ComputeOp(3, a, b) == Some(Apply(DecA, a, b))
  {
  }

  lemma LslAgrees(a: Byte, b: Byte)
    ensures ComputeOp(4, a, b) == Some(Apply(Lsl, a, b))
  {
  }

  lemma LsrAgrees(a: Byte, b: Byte)
    ensures ComputeOp(5, a, b) == Some(Apply(Lsr, a, b))
  {
  }

  lemma AsrAgrees(a: Byte, b: Byte)
    ensures ComputeOp(6, a, b) == Some(Apply(Asr, a, b))
  {
    var r := Mask(Or8(a / 2, And8(a, 0x80)));
    assert ComputeOp(6, a, b) == Some(WithFlags(r, a % 2 == 1, false));
    assert Apply(Asr, a, b) == AluOutput(r, Flags(r, a % 2 == 1, false));
    WithFlagsBridge(r, a % 2 == 1, false);
  }

  lemma RevAAgrees(a: Byte, b: Byte)
    ensures ComputeOp(7, a, b) == Some(Apply(RevA, a, b))
  {
    var r := RevByte(a);
    assert ComputeOp(7, a, b) == Some(WithFlags(r, false, false));
    assert Apply(RevA, a, b) == AluOutput(r, Flags(r, false, false));
    WithFlagsBridge(r, false, false);
  }

  lemma NandAgrees(a: Byte, b: Byte)
    ensures ComputeOp(8, a, b) == Some(Apply(Nand, a, b))
  {
    var r := Not8(And8(a, b));
    assert ComputeOp(8, a, b) == Some(WithFlags(r, false, false));
    assert Apply(Nand, a, b) == AluOutput(r, Flags(r, false, false));
    WithFlagsBridge(r, false, false);
  }

  lemma NorAgrees(a: Byte, b: Byte)
    ensures ComputeOp(9, a, b) == Some(Apply(Nor, a, b))
  {
    var r := Not8(Or8(a, b));
    assert ComputeOp(9, a, b) == Some(WithFlags(r, false, false));
    assert Apply(Nor, a, b) == AluOutput(r, Flags(r, false, false));
    WithFlagsBridge(r, false, false);
  }

  lemma XorAgrees(a: Byte, b: Byte)
    ensures ComputeOp(10, a, b) == Some(Apply(Xor, a, b))
  {
    var r := Mask(Xor8(a, b));
    assert ComputeOp(10, a, b) == Some(WithFlags(r, false, false));
    assert Apply(Xor, a, b) == AluOutput(r, Flags(r, false, false));
    WithFlagsBridge(r, false, false);
  }

  lemma PassAAgrees(a: Byte, b: Byte)
    ensures ComputeOp(11, a, b) == Some(Apply(PassA, a, b))
  {
  }

  lemma PassBAgrees(a: Byte, b: Byte)
    ensures ComputeOp(12, a, b) == Some(Apply(PassB, a, b))
  {
  }

  lemma AndAgrees(a: Byte, b: Byte)
    ensures ComputeOp(13, a, b) == Some(Apply(And, a, b))
  {
    var r := Mask(And8(a, b));
    assert ComputeOp(13, a, b) == Some(WithFlags(r, false, false));
    assert Apply(And, a, b) == AluOutput(r, Flags(r, false, false));
    WithFlagsBridge(r, false, false);
  }

  lemma OrAgrees(a: Byte, b: Byte)
    ensures ComputeOp(14, a, b) == Some(Apply(Or, a, b))
  {
    var r := Mask(Or8(a, b));
    assert ComputeOp(14, a, b) == Some(WithFlags(r, false, false));
    assert Apply(Or, a, b) == AluOutput(r, Flags(r, false, false));
    WithFlagsBridge(r, false, false);
  }

  lemma XnorAgrees(a: Byte, b: Byte)
    ensures ComputeOp(15, a, b) == Some(Apply(Xnor, a, b))
  {
    var r := Not8(Xor8(a, b));
    assert ComputeOp(15, a, b) == Some(WithFlags(r, false, false));
    assert Apply(Xnor, a, b) == AluOutput(r, Flags(r, false, false));
    WithFlagsBridge(r, false, false);
  }

  /** CMP: `_flags` masks the raw difference itself, and that gives the reference flags. */
  lemma CmpAgrees(a: Byte, b: Byte)
    ensures ComputeOp(16, a, b) == Some(Apply(Cmp, a, b))
  {
    var diff := a - b;
    var f := FlagSet(diff >= 0, Bit7(a) != Bit7(b) && Bit7(a) != Bit7(diff), Mask(diff) == 0, Bit7(Mask(diff)));
    assert ComputeOp(16, a, b) == Some(AluOutput(0, f));
    assert Apply(Cmp, a, b) == AluOutput(0, Flags(diff, diff >= 0, Bit7(a) != Bit7(b) && Bit7(a) != Bit7(diff)));
  }

  lemma NotAAgrees(a: Byte, b: Byte)
    ensures ComputeOp(17, a, b) == Some(Apply(NotA, a, b))
  {
    var r := Not8(a);
    assert ComputeOp(17, a, b) == Some(WithFlags(r, false, false));
    assert Apply(NotA, a, b) == AluOutput(r, Flags(r, false, false));
    WithFlagsBridge(r, false, false);
  }

  lemma NotBAgrees(a: Byte, b: Byte)
    ensures ComputeOp(18, a, b) == Some(Apply(NotB, a, b))
  {
    var r := Not8(b);
    assert ComputeOp(18, a, b) == Some(WithFlags(r, false, false));
    assert Apply(NotB, a, b) == AluOutput(r, Flags(r, false, false));
    WithFlagsBridge(r, false, false);
  }

  /** Entry i of `ops` computes what the reference computes for opcode i. */
  lemma EntryAgrees(i: nat, a: Byte, b: Byte)
    requires i < |Ops|
    ensures ComputeOp(i, a, b) == Some(Apply(Ops[i].func, a, b))
  {
    if i < 10 {
      EntryAgreesLow(i, a, b);
    } else {
      EntryAgreesHigh(i, a, b);
    }
  }

  /** Entries 0 to 9. */
  lemma EntryAgreesLow(i: nat, a: Byte, b: Byte)
    requires i < 10
    ensures ComputeOp(i, a, b) == Some(Apply(Ops[i].func, a, b))
  {
    if i == 0 {
      assert Ops[i].func == Add;
      AddAgrees(a, b);
    } else if i == 1 {
      assert Ops[i].func == Sub;
      SubAgrees(a, b);
    } else if i == 2 {
      assert Ops[i].func == IncA;
      IncAAgrees(a, b);
    } else if i == 3 {
      assert Ops[i].func == DecA;
      DecAAgrees(a, b);
    } else if i == 4 {
      assert Ops[i].func == Lsl;
      LslAgrees(a, b);
    } else if i == 5 {
      assert Ops[i].func == Lsr;
      LsrAgrees(a, b);
    } else if i == 6 {
      assert Ops[i].func == Asr;
      AsrAgrees(a, b);
    } else if i == 7 {
      assert Ops[i].func == RevA;
      RevAAgrees(a, b);
    } else if i == 8 {
      assert Ops[i].func == Nand;
      NandAgrees(a, b);
    } else {
      assert Ops[i].func == Nor;
      NorAgrees(a, b);
    }
  }

  /** Entries 10 to 18. */
  lemma EntryAgreesHigh(i: nat, a: Byte, b: Byte)
    requires 10 <= i < |Ops|
    ensures ComputeOp(i, a, b) == Some(Apply(Ops[i].func, a, b))
  {
    if i == 10 {
      assert Ops[i].func == Xor;
      XorAgrees(a, b);
    } else if i == 11 {
      assert Ops[i].func == PassA;
      PassAAgrees(a, b);
    } else if i == 12 {
      assert Ops[i].func == PassB;
      PassBAgrees(a, b);
    } else if i == 13 {
      assert Ops[i].func == And;
      AndAgrees(a, b);
    } else if i == 14 {
      assert Ops[i].func == Or;
      OrAgrees(a, b);
    } else if i == 15 {
      assert Ops[i].func == Xnor;
      XnorAgrees(a, b);
    } else if i == 16 {
      assert Ops[i].func == Cmp;
      CmpAgrees(a, b);
    } else if i == 17 {
      assert Ops[i].func == NotA;
      NotAAgrees(a, b);
    } else {
      assert Ops[i].func == NotB;
      NotBAgrees(a, b);
    }
  }

  /**
   * For every entry of `ops`, the reference golden model called with the
   * entry's key returns exactly what the entry's ALU8Bit method returns.
   */
  lemma OpsMatchGolden(i: nat, a: Byte, b: Byte)
    requires i < |Ops|
    ensures ComputeAluOperation(Ops[i].key, a, b) == Success(Apply(Ops[i].func, a, b))
  {
    OpsKeysDistinct();
    EntryAgrees(i, a, b);
  }

  // ---------------------------------------------------------------------
  // String clean-up
  // ---------------------------------------------------------------------

  /** The ASCII characters `str.isspace()` accepts: tab to carriage return, 0x1C to 0x1F and space. */
  predicate IsSpace(c: char)
  {
    (9 <= c as int <= 13) || (28 <= c as int <= 32)
  }

  function StripLeft(s: string): string
  {
    if s != [] && IsSpace(s[0]) then StripLeft(s[1..]) else s
  }

  function StripRight(s: string): string
  {
    if s != [] && IsSpace(s[|s| - 1]) then StripRight(s[..|s| - 1]) else s
  }

  /** `lstrip` cuts a prefix of white space and stops at the first other character. */
  lemma {:induction false} StripLeftSpec(s: string)
    ensures var r := StripLeft(s);
            && |r| <= |s| && r == s[|s| - |r|..]
            && (r != [] ==> !IsSpace(r[0]))
            && (forall j :: 0 <= j < |s| - |r| ==> IsSpace(s[j]))
  {
    if s != [] && IsSpace(s[0]) {
      var t := s[1..];
      StripLeftSpec(t);
      var r := StripLeft(t);
      assert StripLeft(s) == r;
      assert t[|t| - |r|..] == s[|s| - |r|..];
      forall j | 0 <= j < |s| - |r|
        ensures IsSpace(s[j])
      {
        if j > 0 {
          assert s[j] == t[j - 1];
        }
      }
    }
  }

  /** `rstrip` cuts a suffix of white space and stops at the last other character. */
  lemma {:induction false} StripRightSpec(s: string)
    ensures var r := StripRight(s);
            && |r| <= |s| && r == s[..|r|]
            && (r != [] ==> !IsSpace(r[|r| - 1]))
            && (forall j :: |r| <= j < |s| ==> IsSpace(s[j]))
  {
    if s != [] && IsSpace(s[|s| - 1]) {
      var t := s[..|s| - 1];
      StripRightSpec(t);
      var r := StripRight(t);
      assert StripRight(s) == r;
      assert t[..|r|] == s[..|r|];
      forall j | |r| <= j < |s|
        ensures IsSpace(s[j])
      {
        if j < |t| {
          assert s[j] == t[j];
        }
      }
    }
  }

  /** `s.strip()`: leading and trailing white space removed. */
  function Strip(s: string): (r: string)
  {
    StripRight(StripLeft(s))
  }

  /**
   * The stripped string is a slice of the input with only white space cut
   * off either side; it starts where the left strip stops.
   */
  lemma StripSpec(s: string)
    ensures var r, lo := Strip(s), |s| - |StripLeft(s)|;
            && 0 <= lo && lo + |r| <= |s| && r == s[lo..lo + |r|]
            && (forall j :: 0 <= j < lo ==> IsSpace(s[j]))
            && (forall j :: lo + |r| <= j < |s| ==> IsSpace(s[j]))
  {
    var l := StripLeft(s);
    var r := StripRight(l);
    var lo := |s| - |l|;
    StripLeftSpec(s);
    StripRightSpec(l);
    assert l == s[lo..] && r == l[..|r|];
    assert r == s[lo..lo + |r|];
    forall j | lo + |r| <= j < |s|
      ensures IsSpace(s[j])
    {
      assert s[j] == l[j - lo];
    }
  }

  /** Neither end of a non-empty strip is white space. */
  lemma StripEnds(s: string)
    ensures Strip(s) != [] ==> !IsSpace(Strip(s)[0]) && !IsSpace(Strip(s)[|Strip(s)| - 1])
  {
    var l := StripLeft(s);
    var r := StripRight(l);
    StripLeftSpec(s);
    StripRightSpec(l);
    if r != [] {
      assert r[0] == l[0];
    }
  }

  /** Only a string of white space strips to nothing. */
  lemma StripEmpty(s: string)
    ensures Strip(s) == [] <==> forall j :: 0 <= j < |s| ==> IsSpace(s[j])
  {
    StripSpec(s);
    StripEnds(s);
    var lo := |s| - |StripLeft(s)|;
    if Strip(s) != [] {
      assert Strip(s)[0] == s[lo];
    }
  }

  /** A string with no white space at either end is its own strip. */
  lemma StripUnchanged(s: string)
    requires s == [] || (!IsSpace(s[0]) && !IsSpace(s[|s| - 1]))
    ensures Strip(s) == s
  {
  }

  lemma StripIdempotent(s: string)
    ensures Strip(Strip(s)) == Strip(s)
  {
    StripEnds(s);
    StripUnchanged(Strip(s));
  }

  function UpperChar(c: char): char
  {
    if 'a' <= c <= 'z' then (c as int - 32) as char else c
  }

  /** `s.upper()` on ASCII letters. */
  function Upper(s: string): (r: string)
    ensures |r| == |s|
    ensures forall j :: 0 <= j < |s| ==> r[j] == UpperChar(s[j])
  {
    seq(|s|, j requires 0 <= j < |s| => UpperChar(s[j]))
  }

  lemma UpperIdempotent(s: string)
    ensures Upper(Upper(s)) == Upper(s)
  {
  }

  /** With no two entries sharing a name, an upper-cased name finds the one entry that has it. */
  lemma UpperFindsName(ops: seq<OpsEntry>, i: nat, s: string)
    requires NamesDistinct(ops) && i < |ops| && Upper(s) == ops[i].name
    ensures IndexOfName(ops, Upper(s)) == Some(i)
  {
  }

  // ---------------------------------------------------------------------
  // evaluate
  // ---------------------------------------------------------------------

  /** How `evaluate` ends: `(True, "Pass")` or `(False, message)` with the message's cause. */
  datatype Outcome =
    | Pass
    | UnknownOpcode(opcode: string)            // "Unknown Opcode: ..."
    | MissingOperand(key: string)              // `int(test["A"])` raised KeyError
    | ResultMismatch(expected: int, actual: int)
    | FlagMismatch(flag: string)

  /** Every listed flag has its expected value; a name that is not a flag reads as False. */
  predicate FlagsAgree(expected: seq<(string, bool)>, actual: FlagSet)
  {
    forall j :: 0 <= j < |expected| ==> expected[j].1 == FlagValue(actual, expected[j].0)
  }

  /** The position of the first listed flag whose expected value differs from the actual one. */
  function FirstFlagMismatch(expected: seq<(string, bool)>, actual: FlagSet): (r: Option<nat>)
    ensures r.Some? ==> r.value < |expected| && expected[r.value].1 != FlagValue(actual, expected[r.value].0)
    ensures r.Some? ==> FlagsAgree(expected[..r.value], actual)
    ensures r.None? <==> FlagsAgree(expected, actual)
  {
    if expected == [] then None
    else if expected[0].1 != FlagValue(actual, expected[0].0) then Some(0)
    else match FirstFlagMismatch(expected[1..], actual)
      case None => None
      case Some(j) =>
        assert expected[..j + 1] == [expected[0]] + expected[1..][..j];
        Some(j + 1)
  }

  /** The key after the fallback: `opcode` if it is in the table, else the key of the first entry named `name`. */
  function ResolveKey(ops: seq<OpsEntry>, opcode: string, name: string): (key: string)
  {
    if Lookup(ops, opcode).Some? then opcode
    else match IndexOfName(ops, name)
      case Some(i) => ops[i].key
      case None => opcode
  }

  /** The opcode after the fallback, from the stripped `opcode` and the upper-cased `operation`. */
  function ResolveOpcode(ops: seq<OpsEntry>, test: TestRecord): (opcode: string)
  {
    ResolveKey(ops, Strip(test.opcode.GetOr("")), Upper(test.operation.GetOr("")))
  }

  /** The resolved key is in the table unless neither the opcode nor the name is; if not, it is the opcode. */
  lemma ResolveKeyFound(ops: seq<OpsEntry>, opcode: string, name: string)
    ensures Lookup(ops, ResolveKey(ops, opcode, name)).None? <==>
              && (forall j :: 0 <= j < |ops| ==> ops[j].key != opcode)
              && (forall j :: 0 <= j < |ops| ==> ops[j].name != name)
    ensures Lookup(ops, ResolveKey(ops, opcode, name)).None? ==> ResolveKey(ops, opcode, name) == opcode
  {
    if Lookup(ops, opcode).None? {
      match IndexOfName(ops, name)
      case Some(i) =>
        assert Lookup(ops, ops[i].key).Some?;
      case None =>
    }
  }

  /**
   * What `evaluate` concludes from the bound method's output: the result is
   * compared first (against 0 when the vector has no `expected_result`),
   * then the listed flags in order.
   */
  function Judge(out: AluOutput, test: TestRecord): (r: Outcome)
    ensures r == Pass || r.ResultMismatch? || r.FlagMismatch?
    ensures r.ResultMismatch? <==> out.result != test.expectedResult.GetOr(0)
    ensures r.ResultMismatch? ==> r == ResultMismatch(test.expectedResult.GetOr(0), out.result)
    ensures r == Pass <==> out.result == test.expectedResult.GetOr(0)
                           && FlagsAgree(test.expectedFlags.GetOr([]), out.flags)
    ensures r.FlagMismatch? ==>
              var flags := test.expectedFlags.GetOr([]);
              && FirstFlagMismatch(flags, out.flags).Some?
              && r.flag == flags[FirstFlagMismatch(flags, out.flags).value].0
  {
    var expected := test.expectedResult.GetOr(0);
    if out.result != expected then ResultMismatch(expected, out.result)
    else
      var flags := test.expectedFlags.GetOr([]);
      match FirstFlagMismatch(flags, out.flags)
      case Some(j) => FlagMismatch(flags[j].0)
      case None => Pass
  }

  /**
   * The rest of `evaluate` once the opcode is resolved: "Unknown Opcode" if
   * it is not a key, else the bound method on A and B (a missing operand
   * fails the vector), then the comparisons.
   */
  function Run(ops: seq<OpsEntry>, opcode: string, test: TestRecord): Outcome
  {
    match Lookup(ops, opcode)
    case None => UnknownOpcode(opcode)
    case Some(e) =>
      if test.a.None? then MissingOperand("A")
      else if test.b.None? then MissingOperand("B")
      else Judge(Apply(e.func, test.a.value, test.b.value), test)
  }

  /**
   * `evaluate(test)` on hardware whose `ops` table is `ops`, with a vector
   * lacking `expected_result` compared against 0.
   */
  function EvaluateSpec(ops: seq<OpsEntry>, test: TestRecord): Outcome
  {
    Run(ops, ResolveOpcode(ops, test), test)
  }

  /** The early exits: an opcode not in the table, then a missing operand; anything else reaches the comparisons. */
  lemma EarlyExits(ops: seq<OpsEntry>, opcode: string, test: TestRecord)
    ensures Run(ops, opcode, test).UnknownOpcode? <==> Lookup(ops, opcode).None?
    ensures Run(ops, opcode, test).UnknownOpcode? ==> Run(ops, opcode, test).opcode == opcode
    ensures Run(ops, opcode, test).MissingOperand? <==> Lookup(ops, opcode).Some? && (test.a.None? || test.b.None?)
    ensures Lookup(ops, opcode).Some? && test.a.Some? && test.b.Some? ==>
              Run(ops, opcode, test) == Judge(Apply(Lookup(ops, opcode).value.func, test.a.value, test.b.value), test)
  {
  }

  /**
   * `evaluate` passes exactly when the opcode is a key, both operands are
   * there, the result equals the expected one (0 when absent) and every
   * listed flag equals the actual flag.
   */
  lemma PassIff(ops: seq<OpsEntry>, opcode: string, test: TestRecord)
    ensures Run(ops, opcode, test) == Pass <==>
              && Lookup(ops, opcode).Some? && test.a.Some? && test.b.Some?
              && var out := Apply(Lookup(ops, opcode).value.func, test.a.value, test.b.value);
                 && out.result == test.expectedResult.GetOr(0)
                 && FlagsAgree(test.expectedFlags.GetOr([]), out.flags)
  {
  }

  /** "Unknown Opcode" only when neither the stripped opcode nor the operation name is in the table. */
  lemma UnknownOnlyWhenNotFound(ops: seq<OpsEntry>, test: TestRecord)
    ensures EvaluateSpec(ops, test).UnknownOpcode? <==>
              && (forall j :: 0 <= j < |ops| ==> ops[j].key != Strip(test.opcode.GetOr("")))
              && (forall j :: 0 <= j < |ops| ==> ops[j].name != Upper(test.operation.GetOr("")))
  {
    EarlyExits(ops, ResolveOpcode(ops, test), test);
    ResolveKeyFound(ops, Strip(test.opcode.GetOr("")), Upper(test.operation.GetOr("")));
  }

  /** An unknown opcode is reported as the stripped opcode the vector gave. */
  lemma UnknownReportsOpcode(ops: seq<OpsEntry>, test: TestRecord)
    requires EvaluateSpec(ops, test).UnknownOpcode?
    ensures EvaluateSpec(ops, test).opcode == Strip(test.opcode.GetOr(""))
  {
    var opcode := ResolveOpcode(ops, test);
    EarlyExits(ops, opcode, test);
    ResolveKeyFound(ops, Strip(test.opcode.GetOr("")), Upper(test.operation.GetOr("")));
  }

  /** An operation name, in any case, stands in for a missing or unknown opcode. */
  lemma FallbackByName(ops: seq<OpsEntry>, test: TestRecord, i: nat)
    requires KeysDistinct(ops) && NamesDistinct(ops)
    requires i < |ops| && Upper(test.operation.GetOr("")) == ops[i].name
    requires forall j :: 0 <= j < |ops| ==> ops[j].key != Strip(test.opcode.GetOr(""))
    ensures ResolveOpcode(ops, test) == ops[i].key && Lookup(ops, ResolveOpcode(ops, test)) == Some(ops[i])
  {
    var opcode := Strip(test.opcode.GetOr(""));
    assert Lookup(ops, opcode) == None;
    UpperFindsName(ops, i, test.operation.GetOr(""));
    assert ResolveOpcode(ops, test) == ops[i].key;
    LookupOwnKey(ops, i);
  }

  /** A wrong result is reported as such, whatever the flags say. */
  lemma ResultBeforeFlags(ops: seq<OpsEntry>, opcode: string, test: TestRecord)
    requires Lookup(ops, opcode).Some? && test.a.Some? && test.b.Some?
    requires Apply(Lookup(ops, opcode).value.func, test.a.value, test.b.value).result != test.expectedResult.GetOr(0)
    ensures Run(ops, opcode, test) ==
              ResultMismatch(test.expectedResult.GetOr(0), Apply(Lookup(ops, opcode).value.func, test.a.value, test.b.value).result)
  {
  }

  /** A missing operand fails the vector instead of aborting the run; A is looked at first. */
  lemma MissingOperandFails(ops: seq<OpsEntry>, opcode: string, test: TestRecord)
    requires Lookup(ops, opcode).Some? && (test.a.None? || test.b.None?)
    ensures Run(ops, opcode, test) == MissingOperand(if test.a.None? then "A" else "B")
  {
  }

  /**
   * A flag mismatch names the first listed flag whose expected value
   * differs from the actual flag; the flags listed before it all agree.
   */
  lemma FlagMismatchIsFirst(ops: seq<OpsEntry>, opcode: string, test: TestRecord)
    requires Run(ops, opcode, test).FlagMismatch?
    ensures Lookup(ops, opcode).Some? && test.a.Some? && test.b.Some?
    ensures var out := Apply(Lookup(ops, opcode).value.func, test.a.value, test.b.value);
            var flags := test.expectedFlags.GetOr([]);
            var j := FirstFlagMismatch(flags, out.flags);
            && out.result == test.expectedResult.GetOr(0)
            && j.Some? && flags[j.value].0 == Run(ops, opcode, test).flag
            && flags[j.value].1 != FlagValue(out.flags, flags[j.value].0)
            && FlagsAgree(flags[..j.value], out.flags)
  {
  }

  /** With no `expected_flags`, only the result is compared. */
  lemma NoFlagsListed(ops: seq<OpsEntry>, opcode: string, test: TestRecord)
    requires Lookup(ops, opcode).Some? && test.a.Some? && test.b.Some? && test.expectedFlags.None?
    ensures Run(ops, opcode, test) == Pass <==>
              Apply(Lookup(ops, opcode).value.func, test.a.value, test.b.value).result == test.expectedResult.GetOr(0)
  {
  }

  /** Listing every actual flag under its own name finds no mismatch. */
  lemma OwnFlagsMatch(f: FlagSet)
    ensures FlagsAgree(FlagItems(f), f)
  {
  }

  /** A record carrying entry i's key and entry i's own output for A and B passes. */
  lemma EntryVectorPasses(ops: seq<OpsEntry>, i: nat, name: string, a: Byte, b: Byte)
    requires KeysDistinct(ops) && i < |ops|
    requires ops[i].key == [] || (!IsSpace(ops[i].key[0]) && !IsSpace(ops[i].key[|ops[i].key| - 1]))
    ensures EvaluateSpec(ops, VectorRecord(name, ops[i].key, a, b, Apply(ops[i].func, a, b))) == Pass
  {
    var out := Apply(ops[i].func, a, b);
    var test := VectorRecord(name, ops[i].key, a, b, out);
    assert test.opcode == Some(ops[i].key) && test.a == Some(a) && test.b == Some(b);
    StripUnchanged(ops[i].key);
    LookupOwnKey(ops, i);
    assert Lookup(ops, Strip(test.opcode.GetOr(""))) == Some(ops[i]);
    assert ResolveOpcode(ops, test) == ops[i].key;
    OwnFlagsMatch(out.flags);
    PassIff(ops, ops[i].key, test);
  }

  /**
   * Every vector of the reference sweep passes on SimulatedALUHardware: the
   * ALU8Bit methods agree with the golden model on all 19 operations and
   * all 65,536 operand pairs.
   */
  lemma SweepVectorPasses(k: nat)
    requires k < CountVectors()
    ensures EvaluateSpec(Ops, ExpectedVector(k)) == Pass
  {
    var (i, a, b) := SweepIndex(k);
    OperationsSupported(i, a, b);
    OpsFollowOperations();
    OpsKeysDistinct();
    OpsMatchGolden(i, a, b);
    var golden := ComputeAluOperation(Operations[i].1, a, b).value;
    assert ExpectedVector(k) == VectorRecord(Operations[i].0, Operations[i].1, a, b, golden);
    assert golden == Apply(Ops[i].func, a, b);
    var key := Ops[i].key;
    assert |key| == 5 && IsBinary(key);
    assert !IsSpace(key[0]) && !IsSpace(key[4]);
    EntryVectorPasses(Ops, i, Operations[i].0, a, b);
  }

  // ---------------------------------------------------------------------
  // The mismatch message as written
  // ---------------------------------------------------------------------

  /**
   * `evaluate` as written: the result is compared with
   * `test.get("expected_result", 0)`, but the mismatch message then reads
   * `test['expected_result']`, so a vector without that key whose actual
   * result is not 0 raises KeyError out of `evaluate` (outside its `try`)
   * instead of returning a failure.
   */
  function EvaluateAsWritten(ops: seq<OpsEntry>, test: TestRecord): Result<Outcome, string>
  {
    RunAsWritten(ops, ResolveOpcode(ops, test), test)
  }

  /** The as-written rest of `evaluate` once the opcode is resolved. */
  function RunAsWritten(ops: seq<OpsEntry>, opcode: string, test: TestRecord): Result<Outcome, string>
  {
    var outcome := Run(ops, opcode, test);
    if outcome.ResultMismatch? && test.expectedResult.None? then Failure("KeyError: 'expected_result'")
    else Success(outcome)
  }

  /**
   * The as-written `evaluate` raises exactly when the opcode is a key, both
   * operands are there, `expected_result` is absent and the actual result
   * is not 0; otherwise it returns what the corrected `evaluate` returns.
   */
  lemma AsWrittenRaisesIff(ops: seq<OpsEntry>, opcode: string, test: TestRecord)
    ensures RunAsWritten(ops, opcode, test).Failure? <==>
              && Lookup(ops, opcode).Some? && test.a.Some? && test.b.Some?
              && test.expectedResult.None?
              && Apply(Lookup(ops, opcode).value.func, test.a.value, test.b.value).result != 0
    ensures RunAsWritten(ops, opcode, test).Success? ==> RunAsWritten(ops, opcode, test).value == Run(ops, opcode, test)
  {
    EarlyExits(ops, opcode, test);
  }

  /** ADD on A = 1, B = 1 with no `expected_result` aborts the as-written `evaluate`. */
  lemma MissingExpectedResultRaises()
    ensures var test := TestRecord(None, Some("00000"), None, Some(1), Some(1), None, None);
            EvaluateAsWritten(Ops, test) == Failure("KeyError: 'expected_result'")
  {
    assert Ops[0] == OpsEntry("00000", "ADD", Add);
    AddWithoutExpectedResult(Ops, TestRecord(None, Some("00000"), None, Some(1), Some(1), None, None));
  }

  /** ADD on 1 and 1 without `expected_result`, on any table whose first entry binds "00000" to ADD. */
  lemma AddWithoutExpectedResult(ops: seq<OpsEntry>, test: TestRecord)
    requires |ops| > 0 && ops[0] == OpsEntry("00000", "ADD", Add)
    requires test.opcode == Some("00000") && test.a == Some(1) && test.b == Some(1) && test.expectedResult.None?
    ensures EvaluateAsWritten(ops, test) == Failure("KeyError: 'expected_result'")
  {
    FirstKeyResolves(ops, test);
    AddOneOneRaises(ops, "00000", test);
  }

  /** The opcode "00000" of the first entry needs no fallback. */
  lemma FirstKeyResolves(ops: seq<OpsEntry>, test: TestRecord)
    requires |ops| > 0 && ops[0].key == "00000" && test.opcode == Some("00000")
    ensures ResolveOpcode(ops, test) == "00000"
    ensures Lookup(ops, "00000") == Some(ops[0])
  {
    StripUnchanged("00000");
    assert Lookup(ops, "00000") == Some(ops[0]);
    assert ResolveKey(ops, "00000", Upper(test.operation.GetOr(""))) == "00000";
  }

  /** ADD on 1 and 1 gives 2, which differs from the 0 a missing `expected_result` stands for. */
  lemma AddOneOneRaises(ops: seq<OpsEntry>, opcode: string, test: TestRecord)
    requires Lookup(ops, opcode).Some? && Lookup(ops, opcode).value.func == Add
    requires test.a == Some(1) && test.b == Some(1) && test.expectedResult.None?
    ensures RunAsWritten(ops, opcode, test) == Failure("KeyError: 'expected_result'")
  {
    assert Apply(Add, 1, 1).result == 2;
    AsWrittenRaisesIff(ops, opcode, test);
  }

  /** A vector that names entry i's key, with no white space around it, runs entry i. */
  lemma KeyResolves(ops: seq<OpsEntry>, i: nat, test: TestRecord)
    requires KeysDistinct(ops) && i < |ops| && test.opcode == Some(ops[i].key)
    requires ops[i].key == [] || (!IsSpace(ops[i].key[0]) && !IsSpace(ops[i].key[|ops[i].key| - 1]))
    ensures ResolveOpcode(ops, test) == ops[i].key
    ensures Lookup(ops, ops[i].key) == Some(ops[i])
  {
    StripUnchanged(ops[i].key);
    LookupOwnKey(ops, i);
    var opcode := Strip(test.opcode.GetOr(""));
    assert opcode == ops[i].key;
    assert ResolveKey(ops, opcode, Upper(test.operation.GetOr(""))) == opcode;
  }

  /**
   * The corrected `evaluate` never raises on a missing `expected_result`:
   * the vector is judged against 0 and a different result is reported as a
   * result mismatch against 0.
   */
  lemma MissingExpectedResultFails(ops: seq<OpsEntry>, test: TestRecord)
    requires test.expectedResult.None?
    requires Lookup(ops, ResolveOpcode(ops, test)).Some? && test.a.Some? && test.b.Some?
    ensures var out := Apply(Lookup(ops, ResolveOpcode(ops, test)).value.func, test.a.value, test.b.value);
            out.result != 0 ==> EvaluateSpec(ops, test) == ResultMismatch(0, out.result)
    ensures var out := Apply(Lookup(ops, ResolveOpcode(ops, test)).value.func, test.a.value, test.b.value);
            EvaluateSpec(ops, test) == Pass <==> out.result == 0 && FlagsAgree(test.expectedFlags.GetOr([]), out.flags)
  {
    PassIff(ops, ResolveOpcode(ops, test), test);
  }

  // ---------------------------------------------------------------------
  // The method
  // ---------------------------------------------------------------------

  /** The fallback loop: the key of the first entry, in table order, named `opName`. */
  method FindByName(ops: seq<OpsEntry>, opName: string) returns (key: Option<string>)
    ensures key.Some? <==> IndexOfName(ops, opName).Some?
    ensures key.Some? ==> key.value == ops[IndexOfName(ops, opName).value].key
  {
    key := None;
    var i := 0;
    while i < |ops|
      invariant 0 <= i <= |ops|
      invariant forall j :: 0 <= j < i ==> ops[j].name != opName
    {
      if ops[i].name == opName {
        assert IndexOfName(ops, opName) == Some(i);
        return Some(ops[i].key);
      }
      i := i + 1;
    }
  }

  /** The flag loop: the first listed flag that differs, in list order. */
  method CheckFlags(flags: seq<(string, bool)>, actual: FlagSet) returns (bad: Option<nat>)
    ensures bad == FirstFlagMismatch(flags, actual)
  {
    for j := 0 to |flags|
      invariant FlagsAgree(flags[..j], actual)
    {
      if flags[j].1 != FlagValue(actual, flags[j].0) {
        FirstMismatchAt(flags, actual, j);
        return Some(j);
      }
      assert flags[..j + 1] == flags[..j] + [flags[j]];
    }
    assert flags[..|flags|] == flags;
    return None;
  }

  /** A differing flag after an agreeing prefix is the first mismatch. */
  lemma {:induction false} FirstMismatchAt(flags: seq<(string, bool)>, actual: FlagSet, j: nat)
    requires j < |flags| && FlagsAgree(flags[..j], actual)
    requires flags[j].1 != FlagValue(actual, flags[j].0)
    ensures FirstFlagMismatch(flags, actual) == Some(j)
    decreases j
  {
    if j > 0 {
      assert flags[0] == flags[..j][0];
      assert flags[1..][..j - 1] == flags[..j][1..];
      FirstMismatchAt(flags[1..], actual, j - 1);
    }
  }

  /** `evaluate(test)`: the fallback search over `ops`, the call, then the flag loop. */
  method Evaluate(ops: seq<OpsEntry>, test: TestRecord) returns (passed: bool, outcome: Outcome)
    ensures outcome == EvaluateSpec(ops, test)
    ensures passed <==> outcome == Pass
  {
    var opcode := Strip(test.opcode.GetOr(""));
    var found := Lookup(ops, opcode);
    if found.None? {
      var byName := FindByName(ops, Upper(test.operation.GetOr("")));
      if byName.Some? {
        opcode := byName.value;
        found := Lookup(ops, opcode);
      }
    }
    assert opcode == ResolveOpcode(ops, test);
    if found.None? {
      return false, UnknownOpcode(opcode);
    }
    var m := found.value.func;
    if test.a.None? {
      return false, MissingOperand("A");
    }
    if test.b.None? {
      return false, MissingOperand("B");
    }
    var out := Execute(m, test.a.value, test.b.value);
    var expected := test.expectedResult.GetOr(0);
    if out.result != expected {
      return false, ResultMismatch(expected, out.result);
    }
    var flags := test.expectedFlags.GetOr([]);
    var bad := CheckFlags(flags, out.flags);
    if bad.Some? {
      return false, FlagMismatch(flags[bad.value].0);
    }
    return true, Pass;
  }
}
