/**
 * tools/hardware_test/pico_alu_test.py: the bench script that drives the
 * discrete 8-bit ALU from a Raspberry Pi Pico. A, B and the opcode are
 * written least-significant bit first onto 8 + 8 + 5 output pins; after the
 * propagation delay the 8 OUT pins are read back into a byte and compared
 * with the expected value. The smoke test runs five fixed cases, the stress
 * test runs ADD on random operands.
 *
 * The device itself is a parameter: a function from the levels driven on
 * the A, B and FUNC pins to the levels it settles on the OUT pins. The
 * random draws of the stress loop are a parameter too.
 */
module PicoAluTest {
  import opened Wrappers
  import opened Bits
  import opened AluTypes
  import opened ExhaustiveVectors
  import opened GoldenProperties

  /** The levels of the eight OUT pins. */
  type OutLevels = s: seq<Bit> | |s| == 8 witness [0, 0, 0, 0, 0, 0, 0, 0]

  /** The ALU board: OUT levels as a function of the A, B and FUNC levels, once the delay has elapsed. */
  type Device = (seq<Bit>, seq<Bit>, seq<Bit>) -> OutLevels

  /** The value `read_output` returns after `set_inputs(a, b, func)` and the delay. */
  function Response(device: Device, func: int, a: int, b: int): (r: nat)
    ensures r < 256
  {
    FromBits(device(ToBits(a, 8), ToBits(b, 8), ToBits(func, 5)))
  }

  /** The GPIO pins: `a_gpio`, `b_gpio`, `func_gpio` (driven) and `out_gpio` (sampled). */
  class PinBank {
    const aPins: array<Bit>
    const bPins: array<Bit>
    const funcPins: array<Bit>
    const outPins: array<Bit>

    /** Eight A pins, eight B pins, five FUNC pins and eight OUT pins, all distinct. */
    predicate Valid()
    {
      aPins.Length == 8 && bPins.Length == 8 && funcPins.Length == 5 && outPins.Length == 8 &&
      aPins != bPins && aPins != funcPins && aPins != outPins &&
      bPins != funcPins && bPins != outPins && funcPins != outPins
    }

    constructor ()
      ensures Valid()
      ensures fresh(aPins) && fresh(bPins) && fresh(funcPins) && fresh(outPins)
    {
      aPins := new Bit[8](_ => 0);
      bPins := new Bit[8](_ => 0);
      funcPins := new Bit[5](_ => 0);
      outPins := new Bit[8](_ => 0);
    }

    /**
     * `set_inputs(a, b, func)`: pin i of each bus is driven to `(x >> i) & 1`.
     * Only bits 0..7 of A and B and bits 0..4 of the opcode reach the pins.
     */
    method SetInputs(a: int, b: int, func: int)
      requires Valid()
      modifies aPins, bPins, funcPins
      ensures aPins[..] == ToBits(a, 8)
      ensures bPins[..] == ToBits(b, 8)
      ensures funcPins[..] == ToBits(func, 5)
    {
      DriveBus(aPins, a);
      DriveBus(bPins, b);
      DriveBus(funcPins, func);
    }

    /** `time.sleep_us(DELAY_US)`: once the signals have propagated, OUT carries the device's response. */
    method Settle(device: Device)
      requires Valid()
      modifies outPins
      ensures outPins[..] == device(aPins[..], bPins[..], funcPins[..])
    {
      var levels := device(aPins[..], bPins[..], funcPins[..]);
      ghost var driven := (aPins[..], bPins[..], funcPins[..]);
      forall i | 0 <= i < 8 {
        outPins[i] := levels[i];
      }
      assert driven.0 == aPins[..] && driven.1 == bPins[..] && driven.2 == funcPins[..];
      assert outPins[..] == levels;
    }

    /**
     * `read_output()`: `result |= out[i] << i` for i in 0..7. Bit i of
     * result is still clear when pin i is read, so the `|=` adds
     * `out[i] << i`. The result is the LSB-first value of the pins.
     */
    method ReadOutput() returns (result: nat)
      requires Valid()
      ensures result == FromBits(outPins[..])
      ensures result < 256
    {
      result := 0;
      for i := 0 to 8
        invariant result == FromBits(outPins[..i])
      {
        assert outPins[..i + 1] == outPins[..i] + [outPins[i]];
        FromBitsAppend(outPins[..i], outPins[i]);
        result := result + Weight(outPins[i], i);
      }
      assert outPins[..] == outPins[..8];
    }

    /**
     * `run_test(name, opcode, a, b, expected)`: drive the inputs, wait,
     * sample, and report whether the sample equals the expected value,
     * together with the sample.
     */
    method RunTest(name: string, opcode: int, a: int, b: int, expected: int, device: Device)
      returns (success: bool, actual: nat)
      requires Valid()
      modifies aPins, bPins, funcPins, outPins
      ensures aPins[..] == ToBits(a, 8) && bPins[..] == ToBits(b, 8) && funcPins[..] == ToBits(opcode, 5)
      ensures outPins[..] == device(ToBits(a, 8), ToBits(b, 8), ToBits(opcode, 5))
      ensures actual == Response(device, opcode, a, b)
      ensures success <==> actual == expected
    {
      SetInputs(a, b, opcode);
      Settle(device);
      actual := ReadOutput();
      if actual == expected {
        success := true;
      } else {
        success := false;
      }
    }

    /** The loop of `run_smoke_test` over a list of cases: how many of them pass. */
    method RunCases(tests: seq<SmokeCase>, device: Device) returns (passed: nat)
      requires Valid()
      modifies aPins, bPins, funcPins, outPins
      ensures passed == SmokePassed(device, tests)
    {
      passed := 0;
      for k := 0 to |tests|
        invariant passed == SmokePassed(device, tests[..k])
      {
        var success := RunCase(tests[k], device);
        CountWhereStep(CaseVerdict(device), tests, k);
        if success {
          passed := passed + 1;
        }
      }
      assert tests[..|tests|] == tests;
    }

    /** One pass of the smoke loop: `run_test` on case t, and its verdict. */
    method RunCase(t: SmokeCase, device: Device) returns (success: bool)
      requires Valid()
      modifies aPins, bPins, funcPins, outPins
      ensures aPins[..] == ToBits(t.a, 8) && bPins[..] == ToBits(t.b, 8) && funcPins[..] == ToBits(t.opcode, 5)
      ensures outPins[..] == device(ToBits(t.a, 8), ToBits(t.b, 8), ToBits(t.opcode, 5))
      ensures success == CaseVerdict(device)(t)
    {
      var actual;
      success, actual := RunTest(t.name, t.opcode, t.a, t.b, t.expected, device);
    }

    /** `run_smoke_test`: the number of smoke cases whose sample equals the expected value. */
    method RunSmokeTest(device: Device) returns (passed: nat)
      requires Valid()
      modifies aPins, bPins, funcPins, outPins
      ensures passed == SmokePassed(device, SmokeTests)
    {
      passed := RunCases(SmokeTests, device);
    }

    /**
     * The stress loop: ADD (opcode 0) on each drawn (a, b), expecting
     * `(a + b) & 0xFF`; `count` counts the rounds and `errors` the rounds
     * whose sample differs. The loop ends when the draws run out.
     */
    method StressTest(draws: seq<(Byte, Byte)>, device: Device) returns (count: nat, errors: nat)
      requires Valid()
      modifies aPins, bPins, funcPins, outPins
      ensures count == |draws|
      ensures errors == StressErrors(device, draws)
    {
      count, errors := 0, 0;
      while count < |draws|
        invariant count <= |draws|
        invariant errors == StressErrors(device, draws[..count])
        decreases |draws| - count
      {
        var failed := StressRound(draws[count], device);
        CountWhereStep(RoundFails(device), draws, count);
        if failed {
          errors := errors + 1;
        }
        count := count + 1;
      }
      assert draws[..count] == draws;
    }

    /** One round of the stress loop: ADD on the drawn pair d, and whether it counts an error. */
    method StressRound(d: (Byte, Byte), device: Device) returns (failed: bool)
      requires Valid()
      modifies aPins, bPins, funcPins, outPins
      ensures aPins[..] == ToBits(d.0, 8) && bPins[..] == ToBits(d.1, 8) && funcPins[..] == ToBits(0, 5)
      ensures outPins[..] == device(ToBits(d.0, 8), ToBits(d.1, 8), ToBits(0, 5))
      ensures failed == RoundFails(device)(d)
    {
      var (a, b) := d;
      var success, actual := RunTest("RND", 0, a, b, StressExpected(a, b), device);
      failed := !success;
    }
  }

  /** One bus of `set_inputs`: pin i is driven to `(x >> i) & 1`, for every pin of the bus. */
  method DriveBus(pins: array<Bit>, x: int)
    modifies pins
    ensures pins[..] == ToBits(x, pins.Length)
  {
    for i := 0 to pins.Length
      invariant pins[..i] == ToBits(x, pins.Length)[..i]
    {
      ToBitsAt(x, pins.Length, i);
      pins[i] := Shr(x, i) % 2;
    }
    assert pins[..] == pins[..pins.Length];
  }

  // ---------------------------------------------------------------------
  // The pin codec
  // ---------------------------------------------------------------------

  /** Reading eight pins gives x exactly when the pins carry the LSB-first bits of x. */
  lemma OutCodecRoundTrip(levels: OutLevels, x: Byte)
    ensures FromBits(levels) == x <==> levels == ToBits(x, 8)
  {
    ByteRoundTrip(x);
    ToFromBits(levels);
  }

  /** Values that agree in their low n bits drive the same n pins; higher bits are never driven. */
  lemma HighBitsNotDriven(x: int, y: int, n: nat)
    ensures ToBits(x, n) == ToBits(y, n) <==> x % Pow2(n) == y % Pow2(n)
  {
    FromToBits(x, n);
    FromToBits(y, n);
    ToFromBits(ToBits(x, n));
    ToFromBits(ToBits(y, n));
  }

  // ---------------------------------------------------------------------
  // Smoke and stress expectations
  // ---------------------------------------------------------------------

  /** A smoke-test case: name, opcode, A, B and the expected output. */
  datatype SmokeCase = SmokeCase(name: string, opcode: int, a: Byte, b: Byte, expected: int)

  /** The five smoke cases, in the order they run. */
  const SmokeTests: seq<SmokeCase> := [
    SmokeCase("ADD_ZERO", 0, 0, 0, 0),
    SmokeCase("ADD_ONE", 0, 1, 1, 2),
    SmokeCase("ADD_MAX", 0, 255, 0, 255),
    SmokeCase("AND_MASK", 13, 0xFF, 0x0F, 0x0F),
    SmokeCase("XOR_INV", 10, 0xAA, 0x55, 0xFF)
  ]

  /** Case t passes on the board: the sample equals the expected value. */
  predicate CasePasses(device: Device, t: SmokeCase)
  {
    Response(device, t.opcode, t.a, t.b) == t.expected
  }

  /** How many elements of xs satisfy p. */
  function CountWhere<T>(p: T -> bool, xs: seq<T>): (n: nat)
    ensures n <= |xs|
  {
    if xs == [] then 0 else CountWhere(p, xs[..|xs| - 1]) + (if p(xs[|xs| - 1]) then 1 else 0)
  }

  lemma CountWhereStep<T>(p: T -> bool, xs: seq<T>, k: nat)
    requires k < |xs|
    ensures CountWhere(p, xs[..k + 1]) == CountWhere(p, xs[..k]) + (if p(xs[k]) then 1 else 0)
  {
    assert xs[..k + 1][..k] == xs[..k];
  }

  /** Every element satisfies p exactly when the count reaches the length. */
  lemma {:induction false} CountWhereAll<T>(p: T -> bool, xs: seq<T>)
    ensures CountWhere(p, xs) == |xs| <==> forall k :: 0 <= k < |xs| ==> p(xs[k])
  {
    if xs != [] {
      var init := xs[..|xs| - 1];
      CountWhereAll(p, init);
      assert forall k :: 0 <= k < |init| ==> init[k] == xs[k];
    }
  }

  /** No element satisfies p exactly when the count is zero. */
  lemma {:induction false} CountWhereNone<T>(p: T -> bool, xs: seq<T>)
    ensures CountWhere(p, xs) == 0 <==> forall k :: 0 <= k < |xs| ==> !p(xs[k])
  {
    if xs != [] {
      var init := xs[..|xs| - 1];
      CountWhereNone(p, init);
      assert forall k :: 0 <= k < |init| ==> init[k] == xs[k];
    }
  }

  /** The verdict of the smoke loop on one case. */
  function CaseVerdict(device: Device): SmokeCase -> bool
  {
    t => CasePasses(device, t)
  }

  /** The number of cases in `tests` whose sample equals the expected value. */
  function SmokePassed(device: Device, tests: seq<SmokeCase>): (n: nat)
    ensures n <= |tests|
  {
    CountWhere(CaseVerdict(device), tests)
  }

  /** The expectation of the stress loop, `(a + b) & 0xFF`. */
  function StressExpected(a: Byte, b: Byte): Byte
  {
    Mask(a + b)
  }

  /** The stress round on (a, b) passes on the board: the sample is `(a + b) & 0xFF`. */
  predicate RoundPasses(device: Device, d: (Byte, Byte))
  {
    Response(device, 0, d.0, d.1) == StressExpected(d.0, d.1)
  }

  /** Whether the stress loop counts an error for one round. */
  function RoundFails(device: Device): ((Byte, Byte)) -> bool
  {
    d => !RoundPasses(device, d)
  }

  /** The number of stress rounds whose sample differs from the expectation. */
  function StressErrors(device: Device, draws: seq<(Byte, Byte)>): (n: nat)
    ensures n <= |draws|
  {
    CountWhere(RoundFails(device), draws)
  }

  /** The golden model gives `result` for opcode op on a and b. */
  predicate GoldenResult(op: int, a: Byte, b: Byte, result: int)
  {
    ComputeOp(op, a, b).Some? && ComputeOp(op, a, b).value.result == result
  }

  /** A board whose OUT value is the golden result for every supported opcode and operands. */
  predicate MatchesGolden(device: Device)
  {
    forall op: int, a: Byte, b: Byte {:trigger Response(device, op, a, b)} ::
      0 <= op <= 18 ==> GoldenResult(op, a, b, Response(device, op, a, b))
  }

  /**
   * Every smoke case's opcode is the table opcode of the operation its name
   * starts with, and its expected value is the golden result.
   */
  lemma SmokeExpectationsAreGolden()
    ensures forall k :: 0 <= k < |SmokeTests| ==>
      0 <= SmokeTests[k].opcode < |Operations| &&
      ParseBinary(Operations[SmokeTests[k].opcode].1) == Some(SmokeTests[k].opcode) &&
      Operations[SmokeTests[k].opcode].0 <= SmokeTests[k].name &&
      GoldenResult(SmokeTests[k].opcode, SmokeTests[k].a, SmokeTests[k].b, SmokeTests[k].expected)
  {
    forall k | 0 <= k < |SmokeTests|
      ensures 0 <= SmokeTests[k].opcode < |Operations|
      ensures ParseBinary(Operations[SmokeTests[k].opcode].1) == Some(SmokeTests[k].opcode)
      ensures Operations[SmokeTests[k].opcode].0 <= SmokeTests[k].name
      ensures GoldenResult(SmokeTests[k].opcode, SmokeTests[k].a, SmokeTests[k].b, SmokeTests[k].expected)
    {
      SmokeCaseIsGolden(k);
    }
  }

  /** Smoke case k, one case at a time. */
  lemma SmokeCaseIsGolden(k: nat)
    requires k < |SmokeTests|
    ensures 0 <= SmokeTests[k].opcode < |Operations|
    ensures ParseBinary(Operations[SmokeTests[k].opcode].1) == Some(SmokeTests[k].opcode)
    ensures Operations[SmokeTests[k].opcode].0 <= SmokeTests[k].name
    ensures GoldenResult(SmokeTests[k].opcode, SmokeTests[k].a, SmokeTests[k].b, SmokeTests[k].expected)
  {
    OperationsAreOpcodes0To18();
    var t := SmokeTests[k];
    if k == 0 {
      assert t == SmokeCase("ADD_ZERO", 0, 0, 0, 0);
      AddCase(t);
    } else if k == 1 {
      assert t == SmokeCase("ADD_ONE", 0, 1, 1, 2);
      AddCase(t);
    } else if k == 2 {
      assert t == SmokeCase("ADD_MAX", 0, 255, 0, 255);
      AddCase(t);
    } else if k == 3 {
      assert t == SmokeCase("AND_MASK", 13, 0xFF, 0x0F, 0x0F);
      AndMaskCase(t);
    } else {
      assert t == SmokeCase("XOR_INV", 10, 0xAA, 0x55, 0xFF);
      XorInvCase(t);
    }
  }

  /** An ADD case expecting `(a + b) & 0xFF` under a name starting with ADD. */
  lemma AddCase(t: SmokeCase)
    requires t.opcode == 0 && t.expected == (t.a + t.b) % 256 && |t.name| >= 3 && t.name[..3] == "ADD"
    ensures Operations[0].0 <= t.name
    ensures GoldenResult(0, t.a, t.b, t.expected)
  {
    assert Operations[0].0 == "ADD";
    SupportedOpcodes(0, t.a, t.b);
    AddSpec(t.a, t.b);
  }

  /** 0xFF AND 0x0F, worked out from bit 7 down. */
  lemma AndMaskValue()
    ensures And8(0xFF, 0x0F) == 0x0F
  {
    assert BitwiseN(AndOp, 1, 0, 1) == 0;
    assert BitwiseN(AndOp, 3, 0, 2) == 0;
    assert BitwiseN(AndOp, 7, 0, 3) == 0;
    assert BitwiseN(AndOp, 15, 0, 4) == 0;
    assert BitwiseN(AndOp, 31, 1, 5) == 1;
    assert BitwiseN(AndOp, 63, 3, 6) == 3;
    assert BitwiseN(AndOp, 127, 7, 7) == 7;
  }

  /** 0xAA XOR 0x55, worked out from bit 7 down. */
  lemma XorInvValue()
    ensures Xor8(0xAA, 0x55) == 0xFF
  {
    assert BitwiseN(XorOp, 1, 0, 1) == 1;
    assert BitwiseN(XorOp, 2, 1, 2) == 3;
    assert BitwiseN(XorOp, 5, 2, 3) == 7;
    assert BitwiseN(XorOp, 10, 5, 4) == 15;
    assert BitwiseN(XorOp, 21, 10, 5) == 31;
    assert BitwiseN(XorOp, 42, 21, 6) == 63;
    assert BitwiseN(XorOp, 85, 42, 7) == 127;
  }

  lemma AndMaskCase(t: SmokeCase)
    requires t == SmokeCase("AND_MASK", 13, 0xFF, 0x0F, 0x0F)
    ensures Operations[13].0 <= t.name
    ensures GoldenResult(13, t.a, t.b, t.expected)
  {
    assert Operations[13].0 == "AND";
    OutIsBitwise(t.a, t.b);
    SupportedOpcodes(13, t.a, t.b);
    AndMaskValue();
  }

  lemma XorInvCase(t: SmokeCase)
    requires t == SmokeCase("XOR_INV", 10, 0xAA, 0x55, 0xFF)
    ensures Operations[10].0 <= t.name
    ensures GoldenResult(10, t.a, t.b, t.expected)
  {
    assert Operations[10].0 == "XOR";
    OutIsBitwise(t.a, t.b);
    SupportedOpcodes(10, t.a, t.b);
    XorInvValue();
  }

  /** The stress expectation is the golden ADD result, and ADD is opcode 0 of the table. */
  lemma StressExpectationIsGoldenAdd(a: Byte, b: Byte)
    ensures Operations[0] == ("ADD", "00000")
    ensures GoldenResult(0, a, b, StressExpected(a, b))
  {
    SupportedOpcodes(0, a, b);
    AddSpec(a, b);
  }

  /** All of `tests` pass exactly when each case's sample equals its expected value. */
  lemma SmokeAllPassIff(device: Device, tests: seq<SmokeCase>)
    ensures SmokePassed(device, tests) == |tests| <==>
      forall k :: 0 <= k < |tests| ==> CasePasses(device, tests[k])
  {
    CountWhereAll(CaseVerdict(device), tests);
  }

  /** A stress run has no error exactly when every sample equals `(a + b) & 0xFF`. */
  lemma StressNoErrorsIff(device: Device, draws: seq<(Byte, Byte)>)
    ensures StressErrors(device, draws) == 0 <==>
      forall k :: 0 <= k < |draws| ==> RoundPasses(device, draws[k])
  {
    CountWhereNone(RoundFails(device), draws);
  }

  /** A board that computes the golden results passes all five smoke cases. */
  lemma GoldenBoardPassesSmoke(device: Device)
    requires MatchesGolden(device)
    ensures SmokePassed(device, SmokeTests) == |SmokeTests|
  {
    SmokeAllPassIff(device, SmokeTests);
    forall k | 0 <= k < |SmokeTests|
      ensures CasePasses(device, SmokeTests[k])
    {
      SmokeCaseIsGolden(k);
      GoldenCasePasses(device, SmokeTests[k]);
    }
  }

  /** On a golden board, a case whose expected value is the golden result passes. */
  lemma GoldenCasePasses(device: Device, t: SmokeCase)
    requires MatchesGolden(device)
    requires 0 <= t.opcode < 19 && GoldenResult(t.opcode, t.a, t.b, t.expected)
    ensures CasePasses(device, t)
  {
    assert GoldenResult(t.opcode, t.a, t.b, Response(device, t.opcode, t.a, t.b));
  }

  /** A board that computes the golden results reports no stress error, whatever the draws. */
  lemma GoldenBoardPassesStress(device: Device, draws: seq<(Byte, Byte)>)
    requires MatchesGolden(device)
    ensures StressErrors(device, draws) == 0
  {
    StressNoErrorsIff(device, draws);
    forall k | 0 <= k < |draws|
      ensures RoundPasses(device, draws[k])
    {
      var (a, b) := draws[k];
      StressExpectationIsGoldenAdd(a, b);
      assert GoldenResult(0, a, b, Response(device, 0, a, b));
    }
  }
}
