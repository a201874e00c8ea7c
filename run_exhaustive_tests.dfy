/**
 * tools/run_exhaustive_tests.py: the 1,245,184 records of the reference
 * sweep are generated on demand and run through the same per-opcode loop as
 * tools/run_tests.py on SimulatedALUHardware. Because the ALU8Bit methods
 * agree with the golden model, the run ends with one record per operation,
 * each with 65,536 passes and no failure, and exits with 0.
 */
module RunExhaustive {
  import opened Wrappers
  import opened AluTypes
  import opened ExhaustiveVectors
  import opened SimulatedHardware
  import opened RunTests

  // ---------------------------------------------------------------------
  // Runs of equal observations
  // ---------------------------------------------------------------------

  /** m vectors in a row that all look the same to the loop. */
  function Repeat(o: Observation, m: nat): (r: seq<Observation>)
    ensures |r| == m
    ensures forall k :: 0 <= k < m ==> r[k] == o
  {
    seq(m, k => o)
  }

  /** One more passing vector under the opcode of the last record adds one pass to that record. */
  lemma BumpLast(t: seq<OpcodeStats>, o: Observation, m: nat)
    requires o.passed
    ensures Record(t + [OpcodeStats(o.code, o.name, m, 0)], o) == t + [OpcodeStats(o.code, o.name, m + 1, 0)]
  {
    var u := t + [OpcodeStats(o.code, o.name, m, 0)];
    assert FindStats(u, o.code) == Some(|t|);
  }

  lemma RepeatStep(s: seq<Observation>, o: Observation, m: nat)
    ensures s + Repeat(o, m + 1) == (s + Repeat(o, m)) + [o]
  {
  }

  /** A passing run of m vectors under an opcode not seen before adds one record with m passes. */
  lemma {:induction false} FreshRun(s: seq<Observation>, o: Observation, m: nat)
    requires m > 0 && o.passed && FindStats(Tally(s), o.code).None?
    ensures Tally(s + Repeat(o, m)) == Tally(s) + [OpcodeStats(o.code, o.name, m, 0)]
    decreases m
  {
    if m == 1 {
      RepeatStep(s, o, 0);
      AppendStep(s, o);
    } else {
      FreshRun(s, o, m - 1);
      RepeatStep(s, o, m - 1);
      AppendStep(s + Repeat(o, m - 1), o);
      BumpLast(Tally(s), o, m - 1);
    }
  }

  /** The observations of consecutive blocks of m vectors, one run per row. */
  function Blocks(rows: seq<Observation>, m: nat): (r: seq<Observation>)
    ensures |r| == |rows| * m
  {
    if rows == [] then [] else Blocks(rows[..|rows| - 1], m) + Repeat(rows[|rows| - 1], m)
  }

  /** The report after the runs: one record per row, in row order, with m passes each. */
  function RunsReport(rows: seq<Observation>, m: nat): (r: seq<OpcodeStats>)
    ensures |r| == |rows|
  {
    seq(|rows|, j requires 0 <= j < |rows| => OpcodeStats(rows[j].code, rows[j].name, m, 0))
  }

  /** An opcode that no earlier row has gets no record from the earlier rows. */
  lemma ReportMissing(rows: seq<Observation>, m: nat, n: nat)
    requires n < |rows|
    requires forall i, j :: 0 <= i < j < |rows| ==> rows[i].code != rows[j].code
    ensures FindStats(RunsReport(rows[..n], m), rows[n].code).None?
  {
    var before := RunsReport(rows[..n], m);
    assert forall j :: 0 <= j < n ==> before[j].opcode == rows[j].code;
  }

  lemma RunsReportStep(rows: seq<Observation>, m: nat, n: nat)
    requires n < |rows|
    ensures RunsReport(rows[..n + 1], m) == RunsReport(rows[..n], m) + [OpcodeStats(rows[n].code, rows[n].name, m, 0)]
  {
  }

  /** Rows with distinct opcodes that all pass each leave one record of m passes. */
  lemma {:induction false} RunsTally(rows: seq<Observation>, m: nat)
    requires m > 0
    requires forall j :: 0 <= j < |rows| ==> rows[j].passed
    requires forall i, j :: 0 <= i < j < |rows| ==> rows[i].code != rows[j].code
    ensures Tally(Blocks(rows, m)) == RunsReport(rows, m)
    decreases |rows|
  {
    if rows != [] {
      var n := |rows| - 1;
      var init := rows[..n];
      RunsTally(init, m);
      ReportMissing(rows, m, n);
      FreshRun(Blocks(init, m), rows[n], m);
      RunsReportStep(rows, m, n);
      assert rows[..n + 1] == rows;
    }
  }

  /** Vector k of runs of 65,536 belongs to row k / 65536. */
  lemma {:induction false} RunsAt(rows: seq<Observation>, k: nat)
    requires k < |rows| * 65536
    ensures Blocks(rows, 65536)[k] == rows[k / 65536]
    decreases |rows|
  {
    var n := |rows| - 1;
    var init := rows[..n];
    if k < n * 65536 {
      RunsAt(init, k);
      assert Blocks(rows, 65536)[k] == Blocks(init, 65536)[k];
    } else {
      assert k / 65536 == n;
    }
  }

  /** When every row passes, every vector of the runs passes. */
  lemma RunsAllPass(rows: seq<Observation>)
    requires forall j :: 0 <= j < |rows| ==> rows[j].passed
    ensures CountPassed(Blocks(rows, 65536)) == |rows| * 65536
  {
    var obs := Blocks(rows, 65536);
    AllPassIff(obs);
    forall k | 0 <= k < |obs|
      ensures obs[k].passed
    {
      RunsAt(rows, k);
    }
  }

  // ---------------------------------------------------------------------
  // The sweep
  // ---------------------------------------------------------------------

  /** A passing observation per (name, opcode) entry, in table order. */
  function PassingRows(table: seq<(string, string)>): (rows: seq<Observation>)
    ensures |rows| == |table|
    ensures forall i :: 0 <= i < |table| ==> rows[i] == Observation(table[i].1, table[i].0, true)
  {
    if table == [] then [] else PassingRows(table[..|table| - 1]) + [Observation(table[|table| - 1].1, table[|table| - 1].0, true)]
  }

  /** What the loop sees for every vector of operation i: its opcode, its name, and a pass. */
  function SweepRows(): (rows: seq<Observation>)
    ensures |rows| == |Operations|
  {
    PassingRows(Operations)
  }

  /**
   * The report of the exhaustive run: a record per operation, in table
   * order, with 65,536 vectors passed and none failed.
   */
  function SweepReport(): (r: seq<OpcodeStats>)
    ensures |r| == 19
  {
    OperationsAreOpcodes0To18();
    seq(|Operations|, i requires 0 <= i < |Operations| => OpcodeStats(Operations[i].1, Operations[i].0, 65536, 0))
  }

  /** A passing vector carrying the key of entry i, written without padding, is counted under that key and name. */
  lemma EntryObservation(ops: seq<OpsEntry>, i: nat, test: TestRecord)
    requires KeysDistinct(ops) && i < |ops|
    requires ops[i].key == [] || (!IsSpace(ops[i].key[0]) && !IsSpace(ops[i].key[|ops[i].key| - 1]))
    requires test.opcode == Some(ops[i].key) && EvaluateSpec(ops, test) == Pass
    ensures Observe(ops, test) == Observation(ops[i].key, ops[i].name, true)
  {
    StripUnchanged(ops[i].key);
    GetOpNameOfEntry(ops, i);
  }

  /** Entry i of `ops` has the key and name of operation i, written as five binary digits. */
  lemma OpsEntryFacts(i: nat)
    requires i < 19
    ensures KeysDistinct(Ops) && i < |Ops| && |Operations| == 19
    ensures Ops[i].key == Operations[i].1 && Ops[i].name == Operations[i].0
    ensures !IsSpace(Ops[i].key[0]) && !IsSpace(Ops[i].key[|Ops[i].key| - 1])
  {
    OpsFollowOperations();
    OpsKeysDistinct();
    var key := Ops[i].key;
    assert |key| == 5 && IsBinary(key);
  }

  /** Vector k of the sweep is counted under its operation's opcode and name, and passes. */
  lemma SweepObservation(k: nat)
    requires k < CountVectors()
    ensures Observe(Ops, ExpectedVector(k)) == SweepRows()[k / 65536]
  {
    var i := k / 65536;
    SweepOpcode(k);
    SweepVectorPasses(k);
    OpsEntryFacts(i);
    EntryObservation(Ops, i, ExpectedVector(k));
  }

  /** The sweep, as the loop sees it, is 19 runs of 65,536 passing vectors. */
  lemma SweepIsRuns(vs: seq<TestRecord>)
    requires |vs| == CountVectors()
    requires forall k :: 0 <= k < |vs| ==> vs[k] == ExpectedVector(k)
    ensures Observations(Ops, vs) == Blocks(SweepRows(), 65536)
  {
    var rows := SweepRows();
    forall k | 0 <= k < |vs|
      ensures Observations(Ops, vs)[k] == Blocks(rows, 65536)[k]
    {
      ObservationAt(Ops, vs, k);
      SweepObservation(k);
      RunsAt(rows, k);
    }
  }

  /** The rows of the sweep all pass and have distinct opcodes; their report is SweepReport. */
  lemma SweepRowsFacts()
    ensures forall j :: 0 <= j < |SweepRows()| ==> SweepRows()[j].passed
    ensures forall i, j :: 0 <= i < j < |SweepRows()| ==> SweepRows()[i].code != SweepRows()[j].code
    ensures RunsReport(SweepRows(), 65536) == SweepReport()
  {
    OperationsAreOpcodes0To18();
  }

  /** Run on the sweep, the loop ends with the 19 records of SweepReport. */
  lemma SweepTally(vs: seq<TestRecord>)
    requires |vs| == CountVectors()
    requires forall k :: 0 <= k < |vs| ==> vs[k] == ExpectedVector(k)
    ensures Tally(Observations(Ops, vs)) == SweepReport()
  {
    SweepIsRuns(vs);
    SweepRowsFacts();
    RunsTally(SweepRows(), 65536);
  }

  /** Run on the sweep, every vector passes. */
  lemma SweepAllPass(vs: seq<TestRecord>)
    requires |vs| == CountVectors()
    requires forall k :: 0 <= k < |vs| ==> vs[k] == ExpectedVector(k)
    ensures CountPassed(Observations(Ops, vs)) == CountVectors()
  {
    SweepIsRuns(vs);
    SweepRowsFacts();
    RunsAllPass(SweepRows());
  }

  /** `update_interval` for the sweep: progress is written every 1,245 vectors and after the last. */
  lemma SweepInterval()
    ensures UpdateInterval(CountVectors()) == 1245
    ensures ShowsProgress(CountVectors() - 1, CountVectors())
  {
    LastVectorShowsProgress(CountVectors());
  }

  /**
   * `main`: the generated sweep through the per-opcode loop. Every vector
   * passes, so the report is SweepReport, the totals are 1,245,184 passed
   * and 0 failed, and the exit code is 0.
   */
  method RunExhaustiveTests() returns (exitCode: int, stats: seq<OpcodeStats>, totalPassed: nat, totalFailed: nat)
    ensures stats == SweepReport()
    ensures totalPassed == CountVectors() && totalFailed == 0
    ensures exitCode == 0
  {
    var vectors := GenerateExhaustiveVectors();
    stats, totalPassed, totalFailed := RunVectors(Ops, vectors);
    SweepTally(vectors);
    SweepAllPass(vectors);
    exitCode := if totalFailed == 0 then 0 else 1;
  }
}
