# MadLinSolv partitioned file ingestion, in Dafny

MadLinSolv loads a distributed sparse linear system from three ASCII files:
- a matrix in a two-lines-per-row CSR layout;
- a right-hand side;
- an optional initial solution guess.

Every MPI process reads the same files. Each process keeps only its own contiguous block of rows. This project models that ingestion for one process and proves what it guarantees.

- **Partition** (`partition.dfy`). The three copies of the row partitioner become one loop pair:
  - `computeLinesPerProc` / `computeRowsPerProc` use C++ truncating `/` and `%` (`cpp_int.dfy`);
  - `computeStartLinePerProc` / `computeStartRowPerProc` use a factor of 2 for the matrix and 1 for the vectors.

  The proofs show three things. The counts sum to the row count. The counts are balanced, with the extra rows going to the lowest ranks. The per-rank line ranges tile the body.
- **Header scan** (`line_format.dfy`). The first line is passed over unread. Lines whose trimmed text starts with `#` are skipped. The first other line, trimmed, is the header. `stringstream >> int` is modelled as libstdc++ does it (`text.dfy`), which gives three ways a count can fail to be read:
  - the stream has already failed, or only whitespace is left on the line: the count keeps its previous value;
  - no digits follow the optional sign: the count becomes 0;
  - the number is outside the 32-bit `int` range: the count becomes the nearest bound.

  Each of the three sets the stream's fail flag, so the counts after it on the same line keep their values.
- **Streams** (`streams.dfy`). A file is its sequence of lines. A missing key in the file system means the file cannot be opened. An open file is read through a line cursor.
- **Matrix reader** (`matrix_reader.dfy`). It reads the three header counts. It builds a local matrix sized to the rank's block, with nonzero hint `nNz / nProcessors`. It skips the lower ranks' lines. It appends one row per (index line, value line) pair, then assembles the matrix.
- **Vector readers** (`vector_file.dfy`, `rhs_reader.dfy`, `initial_solution_reader.dfy`). Each reads the header count and checks it against the expected count. It skips the lower ranks' lines. It then writes its values in place into slots `0 .. count` of the local buffer. Other slots are untouched.
- **Run manager** (`run_manager.dfy`). `execute` runs `preprocess`, `compute` and `postprocess`. `preprocess` does the following in order:
  1. reads the matrix;
  2. stops the run when there are more processes than rows;
  3. initialises the system;
  4. reads the right-hand side, and the initial solution when asked, each against the matrix's row count.

  `postprocess` dumps exactly when dumping is on. Every `exit(1)` of the source is a `Terminated` outcome.

Three points where a reader of the format's description could expect something else. The model follows the code in each case.
- **Where the header is.** The header comments (`src/matrixReader.hpp:44-54`) describe the header as the file's first line. The code passes over the first line and reads the header from the first non-comment line after it.
- **What a comment is.** In the code a line is a comment when its trimmed text starts with `#` (`src/matrixReader.cpp:108-109`), so an indented `#` line is a comment too. The model's test looks for `#` as the first non-whitespace character. `LineFormat.IsCommentOfTrim` proves that test equals the code's.
- **A matrix file that cannot be opened.** The code does not return quietly in this case: `matrix->assembly()` is then called on a null pointer (`src/matrixReader.cpp:94`). The model ends the run with `Terminated(MatrixNotLoaded)`.

## Model

| member | source | states |
|---|---|---|
| CppInt.Quot | src/matrixReader.cpp:162 | C++ `/` by a positive divisor: the Euclidean quotient on non-negative operands, truncated toward zero otherwise |
| CppInt.Rem | src/matrixReader.cpp:163 | C++ `%` by a positive divisor: `a == b * Quot + Rem`, the remainder in `[0, b)` for `a >= 0` and in `(-b, 0]` for `a < 0` |
| Partition.ComputeRowsPerProc | src/matrixReader.cpp:158-174 | the count loop yields `nProcessors` entries, entry `r` being the quotient plus one exactly when `r` is below the remainder |
| Partition.ComputeStartPerProc | src/matrixReader.cpp:190-201 | the nested offset loop yields `nProcessors` entries, entry `p` being `factor` times the sum of the counts of ranks below `p` (so entry 0 is 0) |
| Partition.StartStep | src/matrixReader.cpp:194-198 | consecutive offsets differ by the lower rank's count |
| Partition.StartClosedForm | src/matrixReader.cpp:158-201 | rank `r`'s offset is `r` quotients plus one extra row per lower rank that received one |
| Partition.CountsSumToRows | src/matrixReader.cpp:158-174 | the counts sum to `nRows`, and the offset past the last rank is `nRows` |
| Partition.CountsBalanced | src/matrixReader.cpp:163-172 | every count is the quotient or one more, with one more exactly for ranks below `nRows % nProcessors`, so the counts are non-increasing and differ by at most one |
| Partition.CountsNonNegative | src/matrixReader.cpp:158-174 | no count is negative for a non-negative row count |
| Partition.RowCountNonNegative | src/matrixReader.cpp:158-174 | one rank's count is non-negative for a non-negative row count |
| Partition.StartMonotone | src/matrixReader.cpp:190-201 | offsets never decrease with the rank |
| Partition.BlockWithinRows | src/matrixReader.cpp:158-201 | each rank's block lies within `[0, nRows)` |
| Partition.OwnerExists | src/matrixReader.cpp:158-201 | every line below `factor * Sum(counts)` lies in some rank's block |
| Partition.OwnerUnique | src/matrixReader.cpp:158-201 | no line lies in two ranks' blocks |
| Partition.BlocksContiguous | src/rhsReader.cpp:151-185 | the first block starts at 0, each block starts where the one below ends, and the last block ends at `nRows` |
| Partition.PartitionTiles | src/matrixReader.cpp:158-201 | every line of `[0, factor * nRows)` belongs to exactly one rank's block (factor 2 for the matrix body, 1 for the vector bodies) |
| Partition.TenRowsOverThree | src/matrixReader.cpp:163-172 | 10 rows over 3 processes give counts `[4, 3, 3]` and offsets 0, 4, 7 |
| Partition.TenRowsOverFive | src/rhsReader.cpp:151-185 | 10 rows over 5 processes give counts of 2 and offsets `2 * r` |
| Text.TrimLeft | src/matrixReader.cpp:108 | the result is no longer than the input and does not start with whitespace |
| Text.TrimLeftCutsSpace | src/matrixReader.cpp:108 | the result of `TrimLeft` is a suffix of the input, and everything cut off in front of it is whitespace |
| Text.TrimRight | src/matrixReader.cpp:108 | the result is a prefix of the input that does not end with whitespace; everything cut off behind it is whitespace; it is non-empty when the input starts with a non-space |
| Text.Trim | src/matrixReader.cpp:108 | `trim`: the result is no longer than the input and neither starts nor ends with whitespace |
| Text.TrimIsSlice | src/matrixReader.cpp:108 | the trimmed text is a contiguous slice of the line, and only whitespace is cut off on either side |
| Text.Words | src/matrixReader.cpp:143-144 | the whitespace-separated tokens of a line, in order; `WordsAreWords` and `WordsOfUnwords` state what they are |
| Text.WordLengthRun | src/matrixReader.cpp:143-144 | the token at the front of a line is a run of non-space characters that ends at whitespace or the end of the line |
| Text.WordsAreWords | src/matrixReader.cpp:143-144 | every token a line splits into is non-empty and free of whitespace |
| Text.ExtractInt | src/matrixReader.cpp:110-113 | `>>` into an `int`: nothing changes once the stream has failed, a success implies an in-range value, and an in-range previous value stays in range |
| Text.ReadSigned | src/matrixReader.cpp:111 | the converted value always lies within the 32-bit `int` range |
| Text.Decimal | src/matrixReader.cpp:111 | the decimal writing of a number is a non-empty run of digits |
| Text.DigitsValueOfDecimal | src/matrixReader.cpp:111 | reading back the decimal writing of `n` gives `n` |
| Text.ExtractIntOfDecimal | src/matrixReader.cpp:110-111 | round trip: `>>` on a decimal number followed by a non-digit yields that number and leaves the rest unread |
| Text.ExtractIntAfterSpace | src/matrixReader.cpp:112-113 | the same round trip after a separating space, as for the second and third counts |
| Text.WordsOfWord | src/matrixReader.cpp:143-144 | a whitespace-free token splits into itself |
| Text.WordsOfUnwords | src/matrixReader.cpp:143-144 | splitting a line written from tokens gives the tokens back |
| Streams.LineAt | src/matrixReader.cpp:135 | a line inside the file is that line; past the end it is empty |
| Streams.StreamTokens | src/rhsReader.cpp:140-142 | the tokens `>>` meets from a line on, line after line; `TokensOfLeadingLines` says which they are on one-value lines |
| Streams.LineWords | src/rhsReader.cpp:140-142 | one token list per remaining line |
| Streams.TokensOfLeadingLines | src/rhsReader.cpp:140-142 | when each of `k` lines holds one token, the first `k` tokens `>>` meets are those lines, in order |
| Streams.Skipped | src/matrixReader.cpp:134-136 | `n` getline calls move the cursor `n` lines on, never past the end |
| Streams.LineStream.constructor | src/rhsReader.cpp:72 | a stream opened on a file stands before its first line |
| Streams.LineStream.GetLine | src/matrixReader.cpp:106-107 | `getline` succeeds exactly when a line is left, returns it and moves past it |
| Streams.LineStream.Skip | src/matrixReader.cpp:134-136 | the skip loop passes `n` lines, or stops at the end of the file |
| Streams.LineStream.ReadTokenLine | src/matrixReader.cpp:143-144 | `lineStream` yields the tokens of the next line (none past the end) and moves one line on |
| LineFormat.FirstNonSpace | src/matrixReader.cpp:108-109 | the index found is the first non-whitespace character at or after the start point: everything before it is whitespace, and it is the end of the line when there is none |
| LineFormat.IsComment | src/matrixReader.cpp:108-109 | a line whose first non-whitespace character is `#`; `IsCommentOfTrim` proves this equals the code's test |
| LineFormat.IsCommentOfTrim | src/matrixReader.cpp:108-109 | a line is a comment exactly when its trimmed text starts with `#` |
| LineFormat.FirstDataLine | src/matrixReader.cpp:107-109 | the line found lies in the unscanned part of the file |
| LineFormat.HeaderIndex | src/matrixReader.cpp:106-109 | the header line comes after the passed-over first line |
| LineFormat.AfterHeader | src/matrixReader.cpp:107-114 | the scan leaves the stream within the file and not before where it started |
| LineFormat.BodyStart | src/rhsReader.cpp:102-111 | the body starts within the file |
| LineFormat.CountOf | src/rhsReader.cpp:107-108 | the count a header line announces: no header line, or a blank one, keeps the previous count, and an in-range previous count stays in range |
| LineFormat.HeaderCount | src/rhsReader.cpp:102-111 | the count a whole vector file announces: a file without a header line keeps the previous count, and the result stays in the `int` range |
| LineFormat.FirstDataLineSkipsOnlyComments | src/matrixReader.cpp:107-114 | the header line is not a comment and every line skipped before it is; without a header line every line after the title is a comment |
| LineFormat.ScanHeader | src/matrixReader.cpp:105-115 | the scan passes over one line, returns the first non-comment line after it trimmed, and stops right after it; with no such line there is no header and the stream is at the end |
| LineFormat.SkipCommentLines | src/matrixReader.cpp:107-116 | the `while (getline)` loop returns the first non-comment line and stops after it, or reports that only comments remained |
| LineFormat.SkipComments | src/matrixReader.cpp:107-109 | comment lines are passed over without changing which header line is found |
| LineFormat.FirstDataLineShift | src/matrixReader.cpp:107-109 | the scan depends only on the lines it visits |
| LineFormat.CommentsAreTransparent | src/matrixReader.cpp:105-115 | a file with comment lines after its title has the same header and the same body as the file without them |
| LineFormat.BlankLineIsHeader | src/rhsReader.cpp:104-109 | a blank line after the title is taken as the header, and the count keeps its previous value |
| VectorFile.ExtractValues | src/rhsReader.cpp:139-142 | the extraction loop writes token `i` into slot `i` for each `i` below the count while tokens last, and leaves every other slot as it was |
| VectorFile.Filled | src/rhsReader.cpp:140-142 | the buffer after the extraction loop keeps its length; slots below the count take the tokens in order while they last; every other slot is untouched |
| VectorFile.VectorShard | src/rhsReader.cpp:68-145 | a rank's buffer after a read keeps its length, and slots at or beyond the rank's count are untouched |
| VectorFile.SlotFromLine | src/rhsReader.cpp:135-142 | with one value per line, slot `i` receives line `from + i` |
| VectorFile.ShardSlot | src/rhsReader.cpp:130-145 | on a well-formed file, slot `i` of rank `rank` holds global value `Start(rank) + i` |
| VectorFile.EveryValueOnce | src/rhsReader.cpp:68-185 | on a well-formed file, every value lands in exactly one process's buffer, at its offset within that rank's block |
| RhsReading.RhsReader.Default | src/rhsReader.cpp:38-42 | a reader with a default location and no rows |
| RhsReading.RhsReader.constructor | src/rhsReader.cpp:55-60 | a reader for the given directory, name and extension, with no rows |
| RhsReading.RhsReader.SetDirectory | src/rhsReader.cpp:191-194 | only the directory of the location changes |
| RhsReading.RhsReader.SetName | src/rhsReader.cpp:200-203 | only the name of the location changes |
| RhsReading.RhsReader.SetAppendix | src/rhsReader.cpp:209-212 | only the extension of the location changes |
| RhsReading.RhsReader.Read | src/rhsReader.cpp:68-92 | if the file cannot be opened, the count and the buffer stay as they were; otherwise the count is the header's, and a count other than the expected one ends the read before any slot is written; on a match the buffer holds this rank's shard |
| RhsReading.RhsReader.ReadInfo | src/rhsReader.cpp:100-121 | the count is the one the header line announces (kept when there is none) and the check passes exactly when it equals the expected count |
| RhsReading.RhsReader.ComputeRowsPerProc | src/rhsReader.cpp:151-167 | the balanced per-rank counts for the header's row count |
| RhsReading.RhsReader.ComputeStartRowPerProc | src/rhsReader.cpp:174-185 | the plain prefix sums of the counts, entry 0 being 0 |
| RhsReading.RhsReader.ReadRhs | src/rhsReader.cpp:130-145 | skips this rank's starting offset in lines, then fills slots `0 .. procRows[rank]` with the next values in order |
| InitialSolutionReading.InitialSolutionReader.Default | src/initialSolutionReader.cpp:38-42 | a reader with a default location and no rows |
| InitialSolutionReading.InitialSolutionReader.constructor | src/initialSolutionReader.cpp:55-61 | a reader for the given directory, name and extension, with no rows |
| InitialSolutionReading.InitialSolutionReader.SetDirectory | src/initialSolutionReader.cpp:192-195 | only the directory of the location changes |
| InitialSolutionReading.InitialSolutionReader.SetName | src/initialSolutionReader.cpp:201-204 | only the name of the location changes |
| InitialSolutionReading.InitialSolutionReader.SetAppendix | src/initialSolutionReader.cpp:210-213 | only the extension of the location changes |
| InitialSolutionReading.InitialSolutionReader.Read | src/initialSolutionReader.cpp:69-90 | if the file cannot be opened, nothing changes; otherwise a count mismatch ends the read before any slot is written, and a match fills this rank's shard |
| InitialSolutionReading.InitialSolutionReader.ReadInfo | src/initialSolutionReader.cpp:101-122 | the count is the one the header line announces and the check passes exactly when it equals the expected count |
| InitialSolutionReading.InitialSolutionReader.ComputeLinesPerProc | src/initialSolutionReader.cpp:152-168 | the balanced per-rank counts for the header's row count |
| InitialSolutionReading.InitialSolutionReader.ComputeStartLinePerProc | src/initialSolutionReader.cpp:175-186 | the plain prefix sums of the counts, entry 0 being 0 |
| InitialSolutionReading.InitialSolutionReader.ReadInitialSolution | src/initialSolutionReader.cpp:131-146 | skips this rank's starting offset in lines, then fills slots `0 .. procLines[rank]` in file order, other slots unchanged |
| MatrixReading.ParseDims | src/matrixReader.cpp:110-113 | the three counts read from a header line: no header line, or a blank one, keeps all three; the row count is read exactly as a vector count is; in-range counts stay in range |
| MatrixReading.MatrixHeader | src/matrixReader.cpp:102-120 | the counts a whole matrix file announces: a file without a header line keeps them, and the row count is the file's count as a vector reader would read it |
| MatrixReading.MatrixShard | src/matrixReader.cpp:129-151 | the rows a rank appends: exactly its row count of them (none for a non-positive count); `ShardRow` says which they are |
| MatrixReading.MatrixRows | src/matrixReader.cpp:142-150 | exactly `count` rows (none for a non-positive count) |
| MatrixReading.NextRow | src/matrixReader.cpp:142-150 | one more pass of the row loop appends the row at the cursor and moves two lines on |
| MatrixReading.RowAtSkipped | src/matrixReader.cpp:134-144 | reading past the end gives empty rows whether the cursor stopped at the end or not |
| MatrixReading.ShardRow | src/matrixReader.cpp:129-151 | local row `k` of rank `rank` is global row `Start(rank) + k`, which lies below `nRows` |
| MatrixReading.BlockRow | src/matrixReader.cpp:134-150 | row `k` of a block starting `s` rows into the body comes from line `b + 2 * (s + k)` |
| MatrixReading.EveryRowOnce | src/matrixReader.cpp:65-201 | every global row lands in exactly one process's matrix, at its offset within that rank's block |
| MatrixReading.ParseDimsOfThree | src/matrixReader.cpp:110-113 | a header line `rows cols nnz` in decimal sets the three counts in that order |
| MatrixReading.ParseDimsOfOne | src/matrixReader.cpp:110-113 | a header line holding only the row count leaves the column and nonzero counts as they were |
| MatrixReading.NoHeaderKeepsDims | src/matrixReader.cpp:107-116 | a file with only comments after the title keeps every count at its previous value (0 after construction) |
| MatrixReading.HeaderAfterComments | src/matrixReader.cpp:105-115 | title, comments, then `rows cols nnz`: the counts come from that line, whatever the comments say |
| MatrixReading.HeaderLineIsData | src/matrixReader.cpp:108-109 | a header line written in decimal is not a comment and trimming leaves it as it is |
| MatrixReading.SparseMatrix.constructor | src/matrixReader.cpp:79-81 | an empty, unassembled matrix with the given local size and nonzero hint |
| MatrixReading.SparseMatrix.AddRow | src/matrixReader.cpp:147 | the rows gain the given row at the end |
| MatrixReading.SparseMatrix.Assembly | src/matrixReader.cpp:94 | the matrix becomes assembled with its rows unchanged |
| MatrixReading.MatrixReader.Default | src/matrixReader.cpp:38-42 | a reader with a default location and all counts zero |
| MatrixReading.MatrixReader.constructor | src/matrixReader.cpp:55-59 | a reader for the given directory, name and extension, with all counts zero |
| MatrixReading.MatrixReader.ReadMatrixCSRFormat | src/matrixReader.cpp:65-96 | on an open file: the header counts, a fresh assembled matrix sized to the rank's count with nonzero hint `nNz / nProcessors`, holding this rank's rows; on a file that cannot be opened: the counts and the given matrix unchanged |
| MatrixReading.MatrixReader.ReadMatrixCSRFormatInfo | src/matrixReader.cpp:102-120 | the three counts are those the header line gives, read in order from the previous values |
| MatrixReading.MatrixReader.ReadMatrixCSRFormatMatrix | src/matrixReader.cpp:129-151 | skips `startLines[rank]` lines, then appends `procLines[rank]` rows in file order |
| MatrixReading.MatrixReader.ReadRows | src/matrixReader.cpp:142-150 | the row loop appends `count` rows, each from an index line and a value line, and moves `2 * count` lines on |
| MatrixReading.MatrixReader.AppendRow | src/matrixReader.cpp:143-149 | one pass of the row loop extends the rows read so far by the next row |
| MatrixReading.MatrixReader.ReadRow | src/matrixReader.cpp:143-144 | the row is the tokens of the index line and of the value line |
| MatrixReading.MatrixReader.ComputeLinesPerProc | src/matrixReader.cpp:158-174 | the balanced per-rank counts for the header's row count |
| MatrixReading.MatrixReader.ComputeStartLinePerProc | src/matrixReader.cpp:190-201 | twice the prefix sums of the counts, two lines per row, entry 0 being 0 |
| MatrixReading.MatrixReader.GetNRows | src/matrixReader.cpp:180-183 | the global row count |
| MatrixReading.MatrixReader.SetNRows | src/matrixReader.cpp:207-210 | only the row count changes |
| MatrixReading.MatrixReader.SetNCols | src/matrixReader.cpp:216-219 | only the column count changes |
| MatrixReading.MatrixReader.SetNNz | src/matrixReader.cpp:225-228 | only the nonzero count changes |
| MatrixReading.MatrixReader.SetDirectory | src/matrixReader.cpp:234-237 | only the directory of the location changes |
| MatrixReading.MatrixReader.SetName | src/matrixReader.cpp:243-246 | only the name of the location changes |
| MatrixReading.MatrixReader.SetAppendix | src/matrixReader.cpp:252-255 | only the extension of the location changes |
| MatrixReading.MatrixReader.GetPath | src/matrixReader.cpp:261-264 | the location the file handler holds |
| RunManagement.MatrixRowCount | src/run_manager.cpp:102 | the global row count the matrix reader holds after reading an openable file; `CountsAgreeWithMatrix` and `GateIff` state what is checked against it |
| RunManagement.Mismatch | src/rhsReader.cpp:114 | a vector file that opens and announces a count other than the expected one |
| RunManagement.VectorFlow | src/run_manager.cpp:119-141 | the vector steps are appended after the earlier ones, starting with the right-hand side read, and the run can end there only for a count mismatch |
| RunManagement.PreprocessFlow | src/run_manager.cpp:96-141 | the `preprocess` steps are appended after the earlier ones, starting with the matrix read |
| RunManagement.VectorReport | src/run_manager.cpp:119-141 | the vector steps on the given files, with the matrix's row count as the expected count; `ReadVectors` is proved to follow it |
| RunManagement.PreprocessReport | src/run_manager.cpp:73-143 | the `preprocess` steps on the given files; `Preprocess` is proved to follow it |
| RunManagement.Finish | src/run_manager.cpp:44-46 | `compute` and `postprocess` follow a `preprocess` that did not end the run |
| RunManagement.Workflow | src/run_manager.cpp:40-48 | the steps and outcome of a whole run; every run starts by reading the matrix |
| RunManagement.LocalValues | src/run_manager.cpp:116-137 | the values a vector read leaves in a fresh system vector: this rank's shard when the file opens, zeros otherwise |
| RunManagement.Zeros | src/run_manager.cpp:116 | `k` entries (none for non-positive `k`) |
| RunManagement.SystemSolver.constructor | src/run_manager.cpp:89 | an uninitialised system with empty vectors |
| RunManagement.SystemSolver.Initialize | src/run_manager.cpp:116 | two fresh, distinct vectors with one zero entry per local matrix row |
| RunManagement.RunManager.constructor | src/run_manager.cpp:56-62 | no step taken, no reader, system or matrix yet, and the run not ended |
| RunManagement.RunManager.Execute | src/run_manager.cpp:40-48 | the report of a run is the workflow's steps and outcome on the given files |
| RunManagement.RunManager.Preprocess | src/run_manager.cpp:73-143 | the steps and outcome of `preprocess`; a completed run holds this rank's matrix rows, the right-hand side values read against the matrix's row count, and the initial solution values when asked for (zeros otherwise) |
| RunManagement.RunManager.LoadMatrix | src/run_manager.cpp:96-99 | the matrix is read first; it loads exactly when its file opens, and then holds this rank's rows with the header's row count; the system and the vector readers are left alone |
| RunManagement.RunManager.ReadVectors | src/run_manager.cpp:119-141 | the right-hand side is read, then the initial solution only when asked and only after a matching right-hand side; each mismatch ends the run with its reason |
| RunManagement.RunManager.ReadRhsVector | src/run_manager.cpp:123-126 | the right-hand side is read with the matrix's row count as expected count; it is consistent exactly when no mismatch is announced, and then holds this rank's shard |
| RunManagement.RunManager.ReadInitialSolutionVector | src/run_manager.cpp:134-137 | the same for the initial solution, into the system's solution vector |
| RunManagement.RunManager.Compute | src/run_manager.cpp:149-161 | the solve happens, after every step before it, and the system, matrix and readers are left alone |
| RunManagement.RunManager.Postprocess | src/run_manager.cpp:169-185 | a dump is added exactly when dumping is on, and the system, matrix and readers are left alone |
| RunManagement.FlowInOrder | src/run_manager.cpp:40-143 | on any combination of file outcomes the steps occur in the source's order, each at most once |
| RunManagement.StepsInOrder | src/run_manager.cpp:44-46 | on any files, the steps occur in the source's order, each at most once |
| RunManagement.FlowGate | src/run_manager.cpp:102-111 | the control flow ends at the process-count gate exactly when the matrix opened with too few rows, and then only the matrix was read |
| RunManagement.GateIff | src/run_manager.cpp:102-111 | the run ends at the gate exactly when the matrix opens and there are more processes than rows; nothing after the matrix read happens then |
| RunManagement.FlowCompleted | src/run_manager.cpp:99-141 | a completed control flow passed the matrix, gate and right-hand side checks, and the initial solution check when asked |
| RunManagement.CountsAgreeWithMatrix | src/run_manager.cpp:126-137 | a completed run's right-hand side, and initial solution when asked, announce the matrix's row count, which is at least the process count |
| RunManagement.FlowInitialSolutionRead | src/run_manager.cpp:129-141 | the control flow reads the initial solution exactly when asked and past a matching right-hand side |
| RunManagement.InitialSolutionReadIff | src/run_manager.cpp:129-141 | the initial solution is read exactly when the dictionary asks for it and the right-hand side matched |
| RunManagement.FlowDump | src/run_manager.cpp:169-185 | in the control flow, a dump happens exactly on a completed run with dumping on, and the solve exactly on a completed run |
| RunManagement.DumpIff | src/run_manager.cpp:176-181 | the system is dumped exactly when the run completes with dumping on, and solved exactly when it completes |

## Left out

- The XML dictionary (`readXMLbitpit`) is not part of this model. The run manager takes the entries it consults as a `Dictionary` record.
- MPI: there is no communication, no barriers and no `MPI_Finalize`. One process is modelled, with its rank and the process count as parameters.
- Logging through `log::cout()` is left out. It has no effect on the data.
- `exit(1)` becomes a `Terminated` outcome that stops the remaining steps of that process.
- bitpit's `SparseMatrix` and `SystemSolver` are stand-ins:
  - a matrix is a list of (index tokens, value tokens) rows plus an assembled flag;
  - the solve and the dump are recorded as steps only;
  - the system vectors start as `"0"` entries.
- Floating-point values and `long` indices are opaque tokens that are copied, not parsed.
- `FileHandler::getPath` is not modelled. A file is identified by its (directory, name, extension) triple, and the default handler by three empty parts.
- `genericIO::lineStream` and `utils::string::trim` are foreign code. They are modelled as whitespace splitting and stripping of one line.
- `MatrixReader::getDirectory`, `getName` and `getAppendix` are not modelled. They only read back single fields of the location, and `GetPath` already returns the whole location.
- 32-bit overflow of offsets and counts is not modelled. `int` arithmetic on the counts is unbounded, but the header values themselves are clamped to the `int` range as `>>` does.
- The stream position after `>>` value reads is not tracked. The values a vector reader extracts are the whitespace-separated tokens from its starting line on.
- VectorFile.EveryValueOnce: stated for well-formed files only, where each body line holds exactly one whitespace-free value.
- RunManagement.RunManager.Preprocess: requires that no matrix exists yet and that the run has not ended, which is how `execute` calls it.
- RunManagement.RunManager.ReadVectors: requires an initialised system whose two vectors are distinct, as `SystemSolver::initialize` leaves them.
