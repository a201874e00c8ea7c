# 8-bit ALU verification harness, modelled in Dafny

The repository is a verification harness for a discrete 8-bit ALU with 19
operations:

- arithmetic: ADD, SUB, INC_A, DEC_A
- shifts: LSL, LSR, ASR
- bit reversal: REV_A
- logic: NAND, NOR, XOR, PASS_A, PASS_B, AND, OR, XNOR
- comparison: CMP
- complement: NOT_A, NOT_B

Every operation produces an 8-bit result and four flags: carry, overflow, zero and negative.

This project models the harness's core and proves its properties:

- **The golden model.** `compute_alu_operation` with its `OPERATIONS` table is in `test/exhaustive_vectors.py`; module `ExhaustiveVectors` models it and module `GoldenProperties` proves its per-operation laws. The model is a pure case split on the integer value of a binary opcode string. CMP is the one special case: it returns 0 but takes its flags from the difference.
- **The exhaustive sweep.** `generate_exhaustive_vectors` and `count_vectors` are modelled as a method with three nested loops, proved against a position-indexed specification of the record stream.
- **The software ALU under test.** `ALU8Bit` in `tools/run_tests.py` is module `Alu8Bit`. Its `rev_a` loop is a method with loop invariants (`Bits.ReverseBitsLoop`). Every method is proved equal to the golden model.
- **The simulated hardware.** `SimulatedALUHardware` is module `SimulatedHardware`:
  - its `ops` table, `get_op_name` and `evaluate`;
  - `evaluate` is a method proved against a specification function (`EvaluateSpec`). That function's lemmas give the fallback by operation name, the early exits, result-before-flags ordering, first-flag-mismatch reporting and the pass condition.
- **The runners.**
  - The per-opcode `OpcodeStats` accumulation loop and exit status of `tools/run_tests.py` are in module `RunTests`.
  - The same loop over the generated sweep in `tools/run_exhaustive_tests.py` is in module `RunExhaustive`. There it is proved to end with 19 records of 65,536 passes, no failure, and exit code 0.
- **The streaming variant.** `test/generate_vectors_streaming.py` is module `StreamingVectors`. It has 12 opcodes and XOR-form overflow tests, and is proved to agree with the reference wherever it returns a result.
- **The bench script.** `tools/hardware_test/pico_alu_test.py` is module `PicoAluTest`:
  - GPIO pins are arrays of bits in a `PinBank` class;
  - `set_inputs` and `read_output` are an LSB-first codec with a round-trip lemma;
  - `run_test`, the smoke-test loop and the stress loop are methods.
  
  The board is a parameter: a function from driven pin levels to output pin levels. The random draws of the stress loop are a parameter too.

Operands are bytes (0..255). Python's `&`, `|`, `^` and `~` on integers are modelled on LSB-first bit sequences (module `Bits`). Python's `& 0xFF` on a negative number is Dafny's Euclidean `% 256`. A vector read from JSON is a `TestRecord` whose fields are `Option`s, absent when the key is missing. `evaluate` reads those fields with `.get(key, default)` or `test[key]`.

## Model

| member | source | states |
|---|---|---|
| Bits.ToBitsAt | tools/hardware_test/pico_alu_test.py:42 | bit i of the encoding is `(x >> i) & 1`, also for negative x |
| Bits.FromToBits | tools/hardware_test/pico_alu_test.py:55-60 | decoding the low n bits of any integer gives it modulo 2^n |
| Bits.ToFromBits | tools/hardware_test/pico_alu_test.py:38-60 | encoding a decoded bit sequence at its own width gives the sequence back |
| Bits.ByteRoundTrip | tools/hardware_test/pico_alu_test.py:38-60 | a byte survives encoding onto 8 bits and decoding |
| Bits.BitwiseNBits | test/exhaustive_vectors.py:102-131 | the bits of `x op y` are the operator applied to the operands' bits, position by position |
| Bits.BitwiseAt | test/exhaustive_vectors.py:109-127 | bit i of a byte-wise AND/OR/XOR is the operator on bit i of each operand |
| Bits.SignMask | test/exhaustive_vectors.py:57 | `(x & 0x80) != 0` on a byte is its bit 7 |
| Bits.SignBit | test/exhaustive_vectors.py:89 | `a & 0x80` is 128 when a >= 128 and 0 otherwise |
| Bits.OrHighBit | test/exhaustive_vectors.py:90 | or-ing 0 or 128 into a byte below 128 adds it |
| Bits.NotIsComplement | test/exhaustive_vectors.py:150 | `(~x) & 0xFF` is 255 - x |
| Bits.NotFlipsBits | test/exhaustive_vectors.py:150 | `(~x) & 0xFF` flips each of the eight bits |
| Bits.RevByteBits | test/exhaustive_vectors.py:93-98 | the reversal moves bit i of A to bit 7 - i |
| Bits.RevByteInvolution | test/exhaustive_vectors.py:93-98 | reversing twice gives A back |
| Bits.ReverseBitsLoop | tools/run_tests.py:118-123 | the `result |= 1 << (7 - i)` loop ends with the bit reversal of A: bit i of A is bit 7 - i of the result |
| AluTypes.BinaryValueOfToBinary | test/exhaustive_vectors.py:49 | `int(s, 2)` of the n-digit binary spelling of k < 2^n is k |
| AluTypes.ParseOpcodeString | test/exhaustive_vectors.py:49 | the five-digit spelling of an opcode parses back to that opcode |
| AluTypes.OpcodeStringInjective | test/exhaustive_vectors.py:19-39 | distinct opcodes below 32 have distinct spellings |
| ExhaustiveVectors.ComputeAluOperation | test/exhaustive_vectors.py:42-169 | on opcodes in the plain spelling (digits 0 and 1 only): raises exactly when the string is not such a literal or its value exceeds 18, with `int()`'s ValueError for a non-literal; every result lies in 0..255 (other spellings `int(opcode, 2)` accepts: see Left out) |
| ExhaustiveVectors.OperationsOpcodes | test/exhaustive_vectors.py:19-39 | the table has 19 entries and entry i carries the five-digit spelling of i |
| ExhaustiveVectors.OperationsAreOpcodes0To18 | test/exhaustive_vectors.py:19-39 | the opcodes of the table parse to 0..18 in table order and are pairwise distinct |
| ExhaustiveVectors.OperationsSupported | test/exhaustive_vectors.py:179-184 | the golden model returns a result for every table opcode and operand pair |
| ExhaustiveVectors.Hex2Injective | test/exhaustive_vectors.py:187 | the `:02X` spelling of a byte determines the byte |
| ExhaustiveVectors.TestNameInjective | test/exhaustive_vectors.py:187 | a `test_name` determines the operation name and both operands |
| ExhaustiveVectors.CountVectors | test/exhaustive_vectors.py:196-198 | `count_vectors()` is 1,245,184 |
| ExhaustiveVectors.SweepIndexOf | test/exhaustive_vectors.py:179-182 | the position i * 65536 + A * 256 + B decodes back to (i, A, B) |
| ExhaustiveVectors.SweepIndexInverse | test/exhaustive_vectors.py:179-182 | every position is the position of its own decoded (i, A, B) |
| ExhaustiveVectors.ExpectedVectorAt | test/exhaustive_vectors.py:179-193 | the record for operation i and operands A, B sits at i * 65536 + A * 256 + B, with the golden result and flags |
| ExhaustiveVectors.SweepOpcode | test/exhaustive_vectors.py:179-188 | record k carries the opcode of table entry k / 65536 |
| ExhaustiveVectors.GenerateExhaustiveVectors | test/exhaustive_vectors.py:172-193 | the three nested loops yield count_vectors() records and record k is the position-k record of the sweep |
| GoldenProperties.SupportedOpcodes | test/exhaustive_vectors.py:53-158 | an integer opcode gets a result exactly when it is in 0..18 |
| GoldenProperties.UnsupportedOpcodeRaises | test/exhaustive_vectors.py:157-158 | a plain binary literal whose value exceeds 18 raises "Unsupported opcode" |
| GoldenProperties.AddSpec | test/exhaustive_vectors.py:53-57 | ADD gives (A + B) mod 256, carry iff A + B > 255, overflow iff the signed sum leaves -128..127, and otherwise the signed result is the signed sum |
| GoldenProperties.AddOverflow | test/exhaustive_vectors.py:57 | "operands share a sign the result lacks" is exactly signed-sum overflow |
| GoldenProperties.SubSpec | test/exhaustive_vectors.py:59-63 | SUB gives (A - B) mod 256, carry iff A >= B, overflow iff the signed difference leaves -128..127, and otherwise the signed result is the signed difference |
| GoldenProperties.SubOverflow | test/exhaustive_vectors.py:63 | "operands differ in sign and the result's sign differs from A's" is exactly signed-difference overflow |
| GoldenProperties.IncSpec | test/exhaustive_vectors.py:65-69 | INC_A gives (A + 1) mod 256, carry iff A == 0xFF, overflow iff A == 0x7F, which is signed overflow |
| GoldenProperties.DecSpec | test/exhaustive_vectors.py:71-75 | DEC_A gives (A - 1) mod 256, carry iff A != 0, overflow iff A == 0x80, which is signed overflow |
| GoldenProperties.LslSpec | test/exhaustive_vectors.py:77-80 | LSL gives 2A mod 256, carry is the old bit 7, no overflow |
| GoldenProperties.LsrSpec | test/exhaustive_vectors.py:82-85 | LSR gives A / 2 (below 128), carry is the old bit 0, no overflow |
| GoldenProperties.AsrSpec | test/exhaustive_vectors.py:87-91 | ASR halves the signed value rounding down, keeps the sign, carries out bit 0, no overflow |
| GoldenProperties.RevSpec | test/exhaustive_vectors.py:93-98 | REV_A moves bit i to bit 7 - i, applied twice gives A, and clears carry and overflow |
| GoldenProperties.LogicBits | test/exhaustive_vectors.py:109-127 | AND, OR and XOR act bit by bit |
| GoldenProperties.OutIsBitwise | test/exhaustive_vectors.py:109-127 | the AND, OR and XOR results are the byte-wise operators, the mask changing nothing |
| GoldenProperties.NegatedLogic | test/exhaustive_vectors.py:101-131 | NAND, NOR and XNOR are 255 minus AND, OR and XOR |
| GoldenProperties.PassNotSpec | test/exhaustive_vectors.py:113-155 | PASS_A/PASS_B return the operand, NOT_A/NOT_B return 255 minus it |
| GoldenProperties.CmpSpec | test/exhaustive_vectors.py:133-147 | CMP returns 0, zero iff A == B, negative iff bit 7 of (A - B) mod 256, carry iff A >= B, and all four flags equal SUB's |
| GoldenProperties.CommonFlags | test/exhaustive_vectors.py:100-169 | for every supported opcode other than CMP the result is a byte, zero and negative are read off it, only opcodes 0..6 carry and only 0..3 overflow |
| GoldenProperties.FlagsShapeArith | test/exhaustive_vectors.py:53-75 | ADD, SUB, INC_A and DEC_A read zero and negative off their byte result |
| GoldenProperties.FlagsShapeMid | test/exhaustive_vectors.py:77-111 | opcodes 4..10 read zero and negative off the result, never overflow, and only the shifts carry |
| GoldenProperties.FlagsShapeHigh | test/exhaustive_vectors.py:113-155 | opcodes 11..18 except CMP read zero and negative off the result and clear carry and overflow |
| GoldenProperties.SweepOrder | test/exhaustive_vectors.py:179-182 | a later position is a later (operation, A, B) in lexicographic order |
| GoldenProperties.SweepNoRepeats | test/exhaustive_vectors.py:172-193 | no (opcode, A, B) triple appears twice |
| GoldenProperties.SweepRecordsAreGolden | test/exhaustive_vectors.py:184-193 | every record's opcode, operands, expected result and expected flags are the golden model's for its own triple |
| GoldenProperties.SweepBlocks | test/exhaustive_vectors.py:179-188 | operation i owns the 65,536 consecutive records from i * 65536 |
| Alu8Bit.Flags | tools/run_tests.py:69-76 | `_flags` passes carry and overflow through and reads zero and negative off `result & 0xFF` |
| Alu8Bit.FlagsModulo | tools/run_tests.py:69-76 | results that agree modulo 256 give the same flags, so the unmasked result may be passed |
| Alu8Bit.Apply | tools/run_tests.py:78-167 | every method returns a byte, and CMP returns 0 |
| Alu8Bit.ReverseA | tools/run_tests.py:118-123 | `rev_a` moves bit i to bit 7 - i and is the REV_A method |
| Alu8Bit.Execute | tools/run_tests.py:208-211 | calling the bound method, with `rev_a` running its loop, gives that method's output |
| SimulatedHardware.Lookup | tools/run_tests.py:198 | a found entry has the key looked up; nothing is found exactly when no entry has that key |
| SimulatedHardware.LookupFinds | tools/run_tests.py:208 | `ops[key]` is the first entry with that key |
| SimulatedHardware.IndexOfName | tools/run_tests.py:200-203 | the fallback loop finds the first entry with the name, and none exactly when no entry has it |
| SimulatedHardware.GetOpName | tools/run_tests.py:227-230 | a key not in the table is named "UNKNOWN" |
| SimulatedHardware.LookupOwnKey | tools/run_tests.py:172-192 | with distinct keys, each entry is found by its own key |
| SimulatedHardware.GetOpNameOfEntry | tools/run_tests.py:227-230 | with distinct keys, an entry's key is named by its own name |
| SimulatedHardware.OpsFollowOperations | tools/run_tests.py:172-192 | the `ops` table has the keys and names of `OPERATIONS`, in the same order |
| SimulatedHardware.OpsKeysDistinct | tools/run_tests.py:172-192 | the 19 keys are five-character binary literals of 0..18, pairwise distinct |
| SimulatedHardware.OpsNamesDistinct | tools/run_tests.py:172-192 | the 19 operation names are pairwise distinct |
| SimulatedHardware.AddAgrees | tools/run_tests.py:78-82 | `add` equals the golden ADD |
| SimulatedHardware.SubAgrees | tools/run_tests.py:84-88 | `sub` equals the golden SUB |
| SimulatedHardware.IncAAgrees | tools/run_tests.py:90-94 | `inc_a` equals the golden INC_A |
| SimulatedHardware.DecAAgrees | tools/run_tests.py:96-100 | `dec_a` equals the golden DEC_A |
| SimulatedHardware.LslAgrees | tools/run_tests.py:102-105 | `lsl` equals the golden LSL |
| SimulatedHardware.LsrAgrees | tools/run_tests.py:107-110 | `lsr` equals the golden LSR |
| SimulatedHardware.AsrAgrees | tools/run_tests.py:112-116 | `asr` equals the golden ASR |
| SimulatedHardware.RevAAgrees | tools/run_tests.py:118-123 | `rev_a` equals the golden REV_A |
| SimulatedHardware.NandAgrees | tools/run_tests.py:125-127 | `nand` equals the golden NAND |
| SimulatedHardware.NorAgrees | tools/run_tests.py:129-131 | `nor` equals the golden NOR |
| SimulatedHardware.XorAgrees | tools/run_tests.py:133-135 | `xor` equals the golden XOR |
| SimulatedHardware.PassAAgrees | tools/run_tests.py:137-138 | `pass_a` equals the golden PASS_A |
| SimulatedHardware.PassBAgrees | tools/run_tests.py:140-141 | `pass_b` equals the golden PASS_B |
| SimulatedHardware.AndAgrees | tools/run_tests.py:143-145 | `and_op` equals the golden AND |
| SimulatedHardware.OrAgrees | tools/run_tests.py:147-149 | `or_op` equals the golden OR |
| SimulatedHardware.XnorAgrees | tools/run_tests.py:151-153 | `xnor` equals the golden XNOR |
| SimulatedHardware.CmpAgrees | tools/run_tests.py:155-159 | `cmp`, whose `_flags` masks the raw difference, equals the golden CMP |
| SimulatedHardware.NotAAgrees | tools/run_tests.py:161-163 | `not_a` equals the golden NOT_A |
| SimulatedHardware.NotBAgrees | tools/run_tests.py:165-167 | `not_b` equals the golden NOT_B |
| SimulatedHardware.EntryAgrees | tools/run_tests.py:172-192 | the method bound to entry i computes golden opcode i |
| SimulatedHardware.OpsMatchGolden | tools/run_tests.py:172-192 | for every entry and operand pair, the golden model on the entry's key succeeds with the bound method's output |
| SimulatedHardware.StripSpec | tools/run_tests.py:195 | `strip()` removes exactly the leading and trailing white space and keeps the middle |
| SimulatedHardware.StripEnds | tools/run_tests.py:195 | a non-empty stripped string neither starts nor ends with white space |
| SimulatedHardware.StripEmpty | tools/run_tests.py:195 | stripping gives "" exactly when the string is all white space |
| SimulatedHardware.StripUnchanged | tools/run_tests.py:195 | a string without white space at either end is unchanged |
| SimulatedHardware.StripIdempotent | tools/run_tests.py:195 | stripping twice is stripping once |
| SimulatedHardware.Upper | tools/run_tests.py:199 | `upper()` keeps the length and maps each character to its upper case |
| SimulatedHardware.UpperIdempotent | tools/run_tests.py:199 | upper-casing twice is upper-casing once |
| SimulatedHardware.UpperFindsName | tools/run_tests.py:199-203 | with distinct names, an operation whose upper case is entry i's name finds entry i |
| SimulatedHardware.FirstFlagMismatch | tools/run_tests.py:220-223 | the reported flag differs, all before it agree, and none is reported exactly when every listed flag agrees (absent names read as False) |
| SimulatedHardware.ResolveKeyFound | tools/run_tests.py:195-206 | after the fallback the key is unknown exactly when neither the opcode nor the name is in the table, and then it is the opcode |
| SimulatedHardware.Judge | tools/run_tests.py:215-225 | a result differing from `expected_result` (0 if absent) is a result mismatch, otherwise the first differing listed flag is reported, and the vector passes exactly when the result and every listed flag agree; line 217 as corrected (see Findings) |
| SimulatedHardware.EarlyExits | tools/run_tests.py:205-213 | "Unknown Opcode" exactly when the key is not in the table, carrying the key; a missing operand fails exactly when the key is known; otherwise the comparisons decide |
| SimulatedHardware.PassIff | tools/run_tests.py:205-225 | a vector passes exactly when the key is known, both operands are present, the result equals `expected_result` (or 0) and every listed flag agrees |
| SimulatedHardware.UnknownOnlyWhenNotFound | tools/run_tests.py:195-206 | `evaluate` reports an unknown opcode exactly when neither the stripped opcode nor the upper-cased operation name is in the table |
| SimulatedHardware.UnknownReportsOpcode | tools/run_tests.py:195-206 | the unknown-opcode message carries the stripped opcode |
| SimulatedHardware.FallbackByName | tools/run_tests.py:197-203 | an opcode not in the table but an operation naming entry i resolves to entry i's key |
| SimulatedHardware.ResultBeforeFlags | tools/run_tests.py:216-217 | a result mismatch fails the vector before any flag is examined |
| SimulatedHardware.MissingOperandFails | tools/run_tests.py:210-213 | a missing A or B becomes a failure (the exception is caught), A checked first |
| SimulatedHardware.FlagMismatchIsFirst | tools/run_tests.py:220-223 | a flag mismatch means the result matched and the reported flag is the first listed one that differs |
| SimulatedHardware.NoFlagsListed | tools/run_tests.py:220 | with no `expected_flags`, only the result is compared |
| SimulatedHardware.OwnFlagsMatch | tools/run_tests.py:220-223 | the four flags listed as the golden model lists them all agree with themselves |
| SimulatedHardware.EntryVectorPasses | tools/run_tests.py:194-225 | a vector carrying an entry's key and that entry's own output passes |
| SimulatedHardware.SweepVectorPasses | tools/run_tests.py:194-225 | every record of the reference sweep passes on SimulatedALUHardware |
| SimulatedHardware.AsWrittenRaisesIff | tools/run_tests.py:216-217 | as written, `evaluate` raises exactly when the key is known, both operands are present, `expected_result` is absent and the result is not 0; otherwise it returns the corrected outcome |
| SimulatedHardware.MissingExpectedResultRaises | tools/run_tests.py:216-217 | as written, ADD on 1 and 1 with no `expected_result` raises KeyError |
| SimulatedHardware.AddWithoutExpectedResult | tools/run_tests.py:216-217 | the same on any table whose first entry binds "00000" to ADD |
| SimulatedHardware.MissingExpectedResultFails | tools/run_tests.py:216-217 | corrected, a vector without `expected_result` is judged against 0 and a nonzero result is a result mismatch, never an exception |
| SimulatedHardware.FindByName | tools/run_tests.py:200-203 | the fallback loop returns the key of the first entry with the name, and nothing exactly when there is none |
| SimulatedHardware.CheckFlags | tools/run_tests.py:221-223 | the flag loop stops at the first listed flag that differs |
| SimulatedHardware.Evaluate | tools/run_tests.py:194-225 | `evaluate` returns the specified outcome and passes exactly when the outcome is Pass; line 217 as corrected, so a missing `expected_result` fails the vector instead of raising (see Findings) |
| RunTests.ObservationAt | tools/run_tests.py:292-299 | the loop's view of vector k is its stripped opcode, that key's name and its verdict |
| RunTests.FindStatsUnique | tools/run_tests.py:296 | with one record per opcode, the record of an opcode is found where it is |
| RunTests.SumUpdate | tools/run_tests.py:300-305 | replacing one record changes the sums by that record's change |
| RunTests.RecordShape | tools/run_tests.py:296-305 | one vector adds a record only for a new opcode, at the end; other records keep their place, key, name and counts, counts never go down, and keys stay distinct |
| RunTests.RecordEntry | tools/run_tests.py:296-305 | the vector's record, found or created with the observed name, gets exactly one count, on passed or on failed as the verdict says |
| RunTests.RecordSums | tools/run_tests.py:300-305 | one vector adds one to the records' passed + failed and one to passed exactly when it passes |
| RunTests.RecordKeys | tools/run_tests.py:296-297 | after one vector, an opcode has a record exactly when it had one or is the vector's |
| RunTests.RecordCounts | tools/run_tests.py:300-305 | only the vector's own opcode gets a count, on the side of its verdict |
| RunTests.RecordNames | tools/run_tests.py:294-297 | records stay named by `get_op_name` of their key |
| RunTests.TallyDistinct | tools/run_tests.py:286-305 | after any run, `op_stats` has one record per opcode |
| RunTests.TallyKeys | tools/run_tests.py:296-297 | after a run, an opcode has a record exactly when some vector carried it |
| RunTests.TallySums | tools/run_tests.py:286-305 | the passed + failed sum over the records is the number of vectors and the passed sum is the number that passed |
| RunTests.TallyCounts | tools/run_tests.py:286-305 | each opcode's passed and failed counts are the number of its vectors that passed and failed |
| RunTests.TallyNames | tools/run_tests.py:294-297 | each record is named by `get_op_name` of its key |
| RunTests.GrownTransitive | tools/run_tests.py:286-305 | growth of `op_stats` composes |
| RunTests.RecordGrows | tools/run_tests.py:296-305 | one vector neither removes, reorders, renames nor resets a record |
| RunTests.TallyGrows | tools/run_tests.py:286-305 | no record is ever removed, moved, renamed or reset during a run |
| RunTests.AllPassIff | tools/run_tests.py:300-305 | the passed total equals the number of vectors exactly when every vector passed |
| RunTests.UpdateInterval | tools/run_tests.py:289 | `max(1, total // 1000)` is at least 1, and is total // 1000 from 1000 vectors on |
| RunTests.LastVectorShowsProgress | tools/run_tests.py:307 | progress is written after the last vector, and after every vector of a file under 1000 |
| RunTests.AppendStep | tools/run_tests.py:292-305 | one more vector updates the records and the passed total by that vector's observation |
| RunTests.ObserveIs | tools/run_tests.py:293-299 | the loop's key, name and `evaluate` verdict are the vector's observation |
| RunTests.CountVector | tools/run_tests.py:296-305 | the loop body's record update is one step of the tally |
| RunTests.RunVectors | tools/run_tests.py:286-305 | the vector loop ends with the tally of the vectors' observations, the passed total, and passed + failed equal to the number of vectors; with the corrected `evaluate` |
| RunTests.LoadVectors | tools/run_tests.py:241-249 | loading succeeds exactly for an array or an object with "tests", and returns that list |
| RunTests.AllFilesPassIff | tools/run_tests.py:267-305 | the global passed total equals the global vector count exactly when every file's vectors all passed |
| RunTests.TotalsStep | tools/run_tests.py:267-305 | one more file adds its vector count and its passes to the totals |
| RunTests.FilePasses | tools/run_tests.py:292-305 | a file's passed count equals its size exactly when `evaluate` passes every one of its vectors |
| RunTests.FilesAllPass | tools/run_tests.py:270-305 | over the loaded files, all passing per file is all passing per vector |
| RunTests.NothingLoaded | tools/run_tests.py:276-281 | when no file loads, nothing is run |
| RunTests.LoadedStep | tools/run_tests.py:276-281 | a file that fails to load is skipped, one that loads is appended |
| RunTests.FilesStep | tools/run_tests.py:270-305 | one more file appends its observations exactly when it loads |
| RunTests.ReportedStep | tools/run_tests.py:286-319 | each loaded file's report is the tally of that file alone |
| RunTests.RunFiles | tools/run_tests.py:270-320 | the file loop reports each loaded file's own tally, and the totals count the passes and vectors of all loaded files; with the corrected `evaluate` |
| RunTests.RunVectorFiles | tools/run_tests.py:251-331 | no files exits with 1; otherwise per-file reports and totals as above, and exit code 0 exactly when every vector of every loaded file passed; with the corrected `evaluate` (as written, the run aborts at the first vector that raises, see Findings) |
| StreamingVectors.StreamComputeAluOperation | test/generate_vectors_streaming.py:59-123 | a result is returned only for a plain binary literal of one of the 12 supported opcodes (other spellings: see Left out) |
| StreamingVectors.AddOverflowFormsAgree | test/generate_vectors_streaming.py:73 | `((a^r)&(b^r)&0x80) != 0` equals "operands share a sign the result lacks" |
| StreamingVectors.SubOverflowFormsAgree | test/generate_vectors_streaming.py:78 | `((a^b)&(a^r)&0x80) != 0` equals "operands differ in sign and the result's sign differs from A's" |
| StreamingVectors.StreamAddAgrees | test/generate_vectors_streaming.py:69-73 | this ADD equals the reference ADD |
| StreamingVectors.StreamSubAgrees | test/generate_vectors_streaming.py:74-78 | this SUB, with carry `a >= b`, equals the reference SUB |
| StreamingVectors.StreamAgreesWithReference | test/generate_vectors_streaming.py:59-123 | an integer opcode gets a result exactly when it is one of the 12, and then the reference's result and flags |
| StreamingVectors.StreamRejects | test/generate_vectors_streaming.py:111-112 | opcodes 2..7, 16 and anything above 18 raise "Unsupported opcode" |
| StreamingVectors.StreamAgreesOnStrings | test/generate_vectors_streaming.py:59-123 | whenever this variant returns a result, the reference returns the same |
| StreamingVectors.StreamTableIsSubTable | test/generate_vectors_streaming.py:26-40 | the 12 entries are reference entries 0, 1, 8..15, 17, 18, in order |
| StreamingVectors.StreamOperationsSupported | test/generate_vectors_streaming.py:42-47 | every entry of this table gets a result, equal to the reference's |
| StreamingVectors.StreamCountVectors | test/generate_vectors_streaming.py:42-56 | this generator yields 786,432 records |
| StreamingVectors.StreamGenerateVectors | test/generate_vectors_streaming.py:18-56 | the nested loops yield the 786,432 records in operation, A, B order |
| StreamingVectors.StreamEntryIsReference | test/generate_vectors_streaming.py:42-56 | entry i's record for A and B is the reference's record for its opcode |
| StreamingVectors.StreamVectorAt | test/generate_vectors_streaming.py:42-56 | the record for entry i and A, B sits at i * 65536 + A * 256 + B |
| StreamingVectors.StreamVectorsAreReferenceVectors | test/generate_vectors_streaming.py:18-56 | every record is a record of the reference sweep, and there are 786,432 of them, fewer than the reference's 1,245,184 |
| RunExhaustive.Repeat | tools/run_exhaustive_tests.py:31-44 | a run of m vectors that look alike to the loop |
| RunExhaustive.BumpLast | tools/run_exhaustive_tests.py:38-41 | a passing vector of the newest record's opcode adds one pass to it |
| RunExhaustive.FreshRun | tools/run_exhaustive_tests.py:35-41 | m passing vectors of a new opcode add one record with m passes and no failure |
| RunExhaustive.Blocks | tools/run_exhaustive_tests.py:31 | consecutive blocks of m vectors have |rows| * m observations |
| RunExhaustive.RunsReport | tools/run_exhaustive_tests.py:53-58 | the report of such blocks has one record per block |
| RunExhaustive.ReportMissing | tools/run_exhaustive_tests.py:35-36 | a block's opcode has no record before its block |
| RunExhaustive.RunsReportStep | tools/run_exhaustive_tests.py:35-41 | the report grows by one record per block |
| RunExhaustive.RunsTally | tools/run_exhaustive_tests.py:31-44 | passing blocks with distinct opcodes leave one record of m passes per block, in block order |
| RunExhaustive.RunsAt | tools/run_exhaustive_tests.py:31 | vector k of blocks of 65,536 belongs to block k / 65536 |
| RunExhaustive.RunsAllPass | tools/run_exhaustive_tests.py:38-44 | when every block passes, every vector passes |
| RunExhaustive.PassingRows | tools/run_exhaustive_tests.py:32-38 | one passing observation per table entry, with its opcode and name |
| RunExhaustive.SweepRows | tools/run_exhaustive_tests.py:32-38 | one row per operation |
| RunExhaustive.SweepReport | tools/run_exhaustive_tests.py:53-58 | the exhaustive report has 19 records |
| RunExhaustive.EntryObservation | tools/run_exhaustive_tests.py:32-38 | a passing vector with an entry's key is counted under that key and name |
| RunExhaustive.OpsEntryFacts | tools/run_exhaustive_tests.py:21 | entry i of the hardware table has operation i's key and name, with no white space around the key |
| RunExhaustive.SweepObservation | tools/run_exhaustive_tests.py:31-38 | sweep vector k is counted under operation k / 65536 and passes |
| RunExhaustive.SweepIsRuns | tools/run_exhaustive_tests.py:31-44 | the sweep, as the loop sees it, is 19 blocks of 65,536 passing vectors |
| RunExhaustive.SweepRowsFacts | tools/run_exhaustive_tests.py:31-44 | the 19 rows pass, have distinct opcodes, and report as SweepReport |
| RunExhaustive.SweepTally | tools/run_exhaustive_tests.py:31-44 | on the sweep, `op_stats` ends with 19 records of 65,536 passes and no failure, in table order |
| RunExhaustive.SweepAllPass | tools/run_exhaustive_tests.py:38-44 | on the sweep, all 1,245,184 vectors pass |
| RunExhaustive.SweepInterval | tools/run_exhaustive_tests.py:22-27 | the update interval is 1,245 and the last vector shows progress |
| RunExhaustive.RunExhaustiveTests | tools/run_exhaustive_tests.py:17-70 | `main` ends with the 19-record report, 1,245,184 passed, 0 failed and exit code 0 |
| PicoAluTest.Response | tools/hardware_test/pico_alu_test.py:62-66 | the value read back after driving A, B and the opcode is a byte |
| PicoAluTest.PinBank.constructor | tools/hardware_test/pico_alu_test.py:28-32 | 8 A pins, 8 B pins, 5 FUNC pins and 8 OUT pins, all distinct |
| PicoAluTest.PinBank.SetInputs | tools/hardware_test/pico_alu_test.py:38-53 | the A, B and FUNC pins carry the LSB-first bits of A, B and the opcode; OUT is untouched |
| PicoAluTest.PinBank.Settle | tools/hardware_test/pico_alu_test.py:65 | after the delay, OUT carries the board's response to the driven pins |
| PicoAluTest.PinBank.ReadOutput | tools/hardware_test/pico_alu_test.py:55-60 | `read_output` is the LSB-first value of the OUT pins, below 256, and changes no pin |
| PicoAluTest.PinBank.RunTest | tools/hardware_test/pico_alu_test.py:62-71 | the inputs are driven before the sample, the sample is the board's response, and success is sample == expected |
| PicoAluTest.PinBank.RunCases | tools/hardware_test/pico_alu_test.py:90-97 | the smoke loop counts the cases whose sample equals the expected value |
| PicoAluTest.PinBank.RunCase | tools/hardware_test/pico_alu_test.py:92-97 | one smoke case drives its inputs and returns its verdict |
| PicoAluTest.PinBank.RunSmokeTest | tools/hardware_test/pico_alu_test.py:77-99 | `run_smoke_test` counts the passing cases among the five |
| PicoAluTest.PinBank.StressTest | tools/hardware_test/pico_alu_test.py:132-150 | the stress loop runs one round per draw and counts the rounds whose ADD sample differs from `(a + b) & 0xFF` |
| PicoAluTest.PinBank.StressRound | tools/hardware_test/pico_alu_test.py:139-145 | one round drives ADD on the drawn pair and fails exactly when the sample differs |
| PicoAluTest.DriveBus | tools/hardware_test/pico_alu_test.py:41-53 | pin i of a bus is driven to `(x >> i) & 1` for every pin of the bus |
| PicoAluTest.OutCodecRoundTrip | tools/hardware_test/pico_alu_test.py:38-60 | the OUT pins read as x exactly when they carry the LSB-first bits of x |
| PicoAluTest.HighBitsNotDriven | tools/hardware_test/pico_alu_test.py:41-53 | two values drive the same n pins exactly when they agree modulo 2^n; higher bits never reach a pin |
| PicoAluTest.CountWhereAll | tools/hardware_test/pico_alu_test.py:90-99 | the pass count reaches the number of cases exactly when every case passes |
| PicoAluTest.CountWhereNone | tools/hardware_test/pico_alu_test.py:136-146 | the error count is 0 exactly when no round fails |
| PicoAluTest.SmokePassed | tools/hardware_test/pico_alu_test.py:90-97 | the number of passing cases is at most the number of cases |
| PicoAluTest.StressErrors | tools/hardware_test/pico_alu_test.py:136-146 | the number of errors is at most the number of rounds |
| PicoAluTest.SmokeExpectationsAreGolden | tools/hardware_test/pico_alu_test.py:81-88 | each smoke case's opcode is its operation's table opcode and its expected value is the golden result |
| PicoAluTest.SmokeCaseIsGolden | tools/hardware_test/pico_alu_test.py:81-88 | the same, one case at a time |
| PicoAluTest.AddCase | tools/hardware_test/pico_alu_test.py:83-85 | the ADD cases expect the golden ADD result |
| PicoAluTest.AndMaskValue | tools/hardware_test/pico_alu_test.py:86 | 0xFF AND 0x0F is 0x0F |
| PicoAluTest.XorInvValue | tools/hardware_test/pico_alu_test.py:87 | 0xAA XOR 0x55 is 0xFF |
| PicoAluTest.AndMaskCase | tools/hardware_test/pico_alu_test.py:86 | AND_MASK expects the golden AND result |
| PicoAluTest.XorInvCase | tools/hardware_test/pico_alu_test.py:87 | XOR_INV expects the golden XOR result |
| PicoAluTest.StressExpectationIsGoldenAdd | tools/hardware_test/pico_alu_test.py:142 | the stress expectation `(a + b) & 0xFF` under opcode 0 is the golden ADD result |
| PicoAluTest.SmokeAllPassIff | tools/hardware_test/pico_alu_test.py:90-99 | all cases pass exactly when every sample equals its expected value |
| PicoAluTest.StressNoErrorsIff | tools/hardware_test/pico_alu_test.py:136-146 | a stress run has no error exactly when every sample equals `(a + b) & 0xFF` |
| PicoAluTest.GoldenBoardPassesSmoke | tools/hardware_test/pico_alu_test.py:77-99 | a board computing the golden results passes all five smoke cases |
| PicoAluTest.GoldenCasePasses | tools/hardware_test/pico_alu_test.py:62-71 | on such a board, a case expecting the golden result passes |
| PicoAluTest.GoldenBoardPassesStress | tools/hardware_test/pico_alu_test.py:132-150 | on such a board, the stress loop counts no error, whatever the draws |

## Left out

- Printing and report formatting are not modelled because they only write text. This covers the `Spinner` thread, `print_header`, `print_table_header`, `print_row`, the "Testing File" and summary lines, and the progress line with its float percentage. The report's sort by opcode is also omitted: `op_stats` is kept in insertion order, and the report rows are those records.
- `argparse`, `Path.glob` and the sorting of vector files are left out: the files are a parameter, already in order. An empty directory is an empty list.
- JSON decoding is not modelled. A file is a `VectorFile` value with four cases: an object with or without "tests", an array, any other JSON value, or an unreadable file. Items that are not dictionaries are not represented.
- Vector fields are not checked for type or range. Operands are bytes after `int(test["A"])`, and a missing operand is `None`. Stored values that `int()` converts (3.0, "7", True) are represented by the byte they convert to; values it rejects and operands outside 0..255 are not covered, nor are non-integer `expected_result` values. `expected_flags` is a list of (name, value) pairs in dictionary order, with values already booleans.
- `str()` on a non-string opcode is not modelled: the opcode is a string or absent.
- `strip()` and `upper()` handle only ASCII white space and ASCII letters.
- `OpcodeStats` objects are values in a sequence, not shared mutable objects. The loop updates them only through the dictionary, so no aliasing is observable.
- The streaming variant's `main` (its count and its prints) and both generators' `__main__` timing demos are left out: they measure and print wall-clock time.
- In the bench script, anything that touches the device is left out:
  - `machine.Pin` is an array element holding 0 or 1;
  - the device is a function parameter, and `time.sleep_us(DELAY_US)` is the `Settle` step that applies it;
  - `time.sleep(1)`, the `input()` menu and the "Manual Input" option are omitted;
  - `random.getrandbits` is a sequence of draws given as a parameter, and a `KeyboardInterrupt` is the end of that sequence;
  - the `count % 1000` progress print is omitted.
- ExhaustiveVectors.ComputeAluOperation: `int(opcode, 2)` is modelled only on the plain spelling, a non-empty string of the digits 0 and 1 (AluTypes.ParseBinary). Python also accepts surrounding white space, a sign, a `0b` prefix, underscores between digits and non-ASCII digits, so "0b1", " 1" and "+1" give SUB's output in the source but InvalidLiteral in the model, and "-1" raises "Unsupported opcode" in the source but InvalidLiteral in the model. Every opcode the harness itself produces (the tables, the sweep, the `ops` keys) is in the plain spelling.
- StreamingVectors.StreamComputeAluOperation: the same restriction of `int(opcode, 2)` to the plain spelling.
- SimulatedHardware.Judge, SimulatedHardware.EvaluateSpec, SimulatedHardware.Evaluate, RunTests.RunVectors, RunTests.RunFiles, RunTests.RunVectorFiles: these model tools/run_tests.py:217 as corrected. A vector with a known opcode, both operands, no `expected_result` and a nonzero result fails with a result mismatch against 0. In the source that vector raises KeyError, which nothing in `main` catches, so the run aborts there with no further reports and no totals. The as-written behaviour is SimulatedHardware.EvaluateAsWritten, characterised by SimulatedHardware.AsWrittenRaisesIff (see Findings).
- ExhaustiveVectors.GenerateExhaustiveVectors, StreamingVectors.StreamGenerateVectors: the generators `yield` one record at a time, and tools/run_exhaustive_tests.py:31 evaluates each record as it is generated. The model builds the whole record sequence first and then runs the loop over it. Both sides are pure, so the records, their order and every count are the same; only the interleaving and the memory profile are not modelled.
- Bits.ReverseBitsLoop: `result |= 1 << (7 - i)` is modelled as adding `2^(7 - i)`. Bit 7 - i of the result is still clear at that step, so the two agree, and the method's ensures prove the reversal.
- `PicoAluTest.PinBank.ReadOutput`: `result |= pin << i` is modelled as addition. The bit being set is still clear at that point, so the two agree.
- `StreamingVectors.StreamCountVectors`: the generator's docstring promises 1,245,184 records, but its table has 12 entries, so it yields 786,432. The model follows the code.

## Findings

| source | as written | input that shows it | evidently intended | confidence | as-written member | corrected member |
|---|---|---|---|---|---|---|
| tools/run_tests.py:216-217 | the comparison falls back to 0 when `expected_result` is missing, but the mismatch message reads `test['expected_result']`; that raises KeyError outside the `try`, which aborts the whole run | a vector with opcode "00000", A = 1, B = 1 and no `expected_result` | a result mismatch against 0 that fails the vector | not executed | SimulatedHardware.MissingExpectedResultRaises | SimulatedHardware.MissingExpectedResultFails |
