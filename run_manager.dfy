/** The application workflow (src/run_manager.cpp): read the matrix, check that every
    process owns at least one row, initialise the linear system, read the right-hand
    side and, when the dictionary asks for it, the initial solution (both checked
    against the matrix's row count), then solve and, when asked, dump. Every `exit(1)`
    of the source is a `Terminated` outcome that ends the workflow. */
module RunManagement {
  import opened CppInt
  import opened Streams
  import opened LineFormat
  import opened Partition
  import opened VectorFile
  import opened MatrixReading
  import opened RhsReading
  import opened InitialSolutionReading

  /** The dictionary entries the workflow consults: where the three files are, and the
      two switches. */
  datatype Dictionary = Dictionary(
    matrix: FileLocation,
    rhs: FileLocation,
    initialSolution: FileLocation,
    haveInitialSolution: bool,
    dumpOn: bool)

  /** The steps of the workflow, in the order the source performs them. */
  datatype Step = ReadMatrix | InitializeSystem | ReadRhs | ReadInitialSolution | Solve | Dump

  /** Why a run ends early: a matrix file that cannot be opened leaves the matrix null
      and the source dereferences it; the other three are its `exit(1)` calls. */
  datatype Reason = MatrixNotLoaded | TooManyProcesses | RhsCountMismatch | InitialSolutionCountMismatch

  datatype Outcome = Completed | Terminated(reason: Reason)

  /** The steps one process performs, and how its run ends. */
  datatype Report = Report(trace: seq<Step>, outcome: Outcome)

  /** Position of a step in the workflow's fixed order. */
  function Order(s: Step): nat
  {
    match s
    case ReadMatrix => 0
    case InitializeSystem => 1
    case ReadRhs => 2
    case ReadInitialSolution => 3
    case Solve => 4
    case Dump => 5
  }

  /** The global row count a fresh matrix reader finds in the matrix file: the first
      number of its header line (`MatrixHeader`), 0 when there is none. */
  function MatrixRowCount(d: Dictionary, files: FileSystem): int
    requires d.matrix in files
  {
    HeaderCount(files[d.matrix], 0)
  }

  /** A vector file that opens and announces a count other than `n`. */
  predicate Mismatch(files: FileSystem, location: FileLocation, n: int)
  {
    location in files && HeaderCount(files[location], 0) != n
  }

  /** The vector part of `preprocess` once the system exists, after the steps `done`:
      the right-hand side is read and checked, then, when the dictionary asks for it,
      the initial solution; `rhsMismatch` and `initialMismatch` say whether each file
      announces a count other than the matrix's. */
  function VectorFlow(d: Dictionary, rhsMismatch: bool, initialMismatch: bool, done: seq<Step>): (r: Report)
    ensures |done| < |r.trace| && r.trace[..|done|] == done && r.trace[|done|] == ReadRhs
    ensures r.outcome.Terminated? ==> r.outcome.reason == RhsCountMismatch || r.outcome.reason == InitialSolutionCountMismatch
  {
    var afterRhs := done + [ReadRhs];
    if rhsMismatch then Report(afterRhs, Terminated(RhsCountMismatch))
    else if !d.haveInitialSolution then Report(afterRhs, Completed)
    else
      var afterInitial := afterRhs + [ReadInitialSolution];
      if initialMismatch then Report(afterInitial, Terminated(InitialSolutionCountMismatch))
      else Report(afterInitial, Completed)
  }

  /** The control flow of `preprocess` after the steps `done`: the matrix is read, the
      run ends if it did not open or has fewer rows than there are processes, and
      otherwise the system is initialised and the vectors are read. */
  function PreprocessFlow(d: Dictionary, matrixOpened: bool, tooFewRows: bool, rhsMismatch: bool,
                          initialMismatch: bool, done: seq<Step>): (r: Report)
    ensures |done| < |r.trace| && r.trace[..|done|] == done && r.trace[|done|] == ReadMatrix
  {
    var afterMatrix := done + [ReadMatrix];
    if !matrixOpened then Report(afterMatrix, Terminated(MatrixNotLoaded))
    else if tooFewRows then Report(afterMatrix, Terminated(TooManyProcesses))
    else VectorFlow(d, rhsMismatch, initialMismatch, afterMatrix + [InitializeSystem])
  }

  /** The vector part of `preprocess` on the given files, with `n` the matrix's row
      count. */
  function VectorReport(d: Dictionary, files: FileSystem, n: int, done: seq<Step>): Report
  {
    VectorFlow(d, Mismatch(files, d.rhs, n), Mismatch(files, d.initialSolution, n), done)
  }

  /** What `preprocess` does on the given files after the steps `done`, step by step,
      and whether it ends the run. */
  function PreprocessReport(d: Dictionary, files: FileSystem, nProcessors: int, done: seq<Step>): Report
  {
    var n := if d.matrix in files then MatrixRowCount(d, files) else 0;
    PreprocessFlow(d, d.matrix in files, nProcessors > n,
                   Mismatch(files, d.rhs, n), Mismatch(files, d.initialSolution, n), done)
  }

  /** The steps of `postprocess`. */
  function PostprocessSteps(d: Dictionary): seq<Step>
  {
    if d.dumpOn then [Dump] else []
  }

  /** `execute` after `preprocess` reported `pre`: `compute` and `postprocess` unless
      `preprocess` ended the run. */
  function Finish(d: Dictionary, pre: Report): Report
  {
    if pre.outcome.Terminated? then pre
    else Report(pre.trace + [Solve] + PostprocessSteps(d), Completed)
  }

  /** What `execute` does on the given files. */
  function Workflow(d: Dictionary, files: FileSystem, nProcessors: int): (r: Report)
    ensures 0 < |r.trace| && r.trace[0] == ReadMatrix
  {
    Finish(d, PreprocessReport(d, files, nProcessors, []))
  }

  /** `k` zero values: a fresh system's vectors. */
  function Zeros(k: int): (z: seq<string>)
    ensures |z| == if k <= 0 then 0 else k
  {
    seq(if k <= 0 then 0 else k, _ => "0")
  }

  /** The local values a vector read leaves in a fresh buffer of the local size: the
      shard of the file when it opens (the count having been checked), zeros when it
      does not. */
  function LocalValues(files: FileSystem, location: FileLocation, n: int, nProcessors: int, rank: nat): seq<string>
    requires nProcessors > 0 && rank < nProcessors
  {
    var zeros := Zeros(RowCount(n, nProcessors, rank));
    if location in files then VectorShard(files[location], n, nProcessors, rank, zeros) else zeros
  }

  /** A stand-in for bitpit's `SystemSolver`: once initialised from the local matrix,
      its right-hand side and solution vectors have one zero entry per local row. */
  class SystemSolver {
    var rhs: array<string>
    var solution: array<string>
    var initialized: bool

    constructor ()
      ensures !initialized && rhs.Length == 0 && solution.Length == 0
    {
      rhs := new string[0];
      solution := new string[0];
      initialized := false;
    }

    method Initialize(matrix: SparseMatrix)
      requires matrix.nRows >= 0
      modifies this
      ensures initialized && fresh(rhs) && fresh(solution) && rhs != solution
      ensures rhs[..] == Zeros(matrix.nRows) && solution[..] == Zeros(matrix.nRows)
    {
      rhs := new string[matrix.nRows](_ => "0");
      solution := new string[matrix.nRows](_ => "0");
      initialized := true;
    }
  }

  class RunManager {
    const nProcessors: int
    const rank: int
    const dictionary: Dictionary
    const files: FileSystem
    var system: SystemSolver?
    var matrixReader: MatrixReader?
    var matrix: SparseMatrix?
    var rhsReader: RhsReader?
    var initialSolutionReader: InitialSolutionReader?
    /** The steps performed so far. */
    var trace: seq<Step>
    /** `Completed` while no step has ended the run. */
    var outcome: Outcome

    /** The dictionary is passed in already read; the XML file it comes from is not
        part of this model. */
    constructor (nProcessors: int, rank: int, dictionary: Dictionary, files: FileSystem)
      requires 0 <= rank < nProcessors
      ensures this.nProcessors == nProcessors && this.rank == rank
      ensures this.dictionary == dictionary && this.files == files
      ensures trace == [] && outcome == Completed
      ensures system == null && matrixReader == null && matrix == null
      ensures rhsReader == null && initialSolutionReader == null
    {
      this.nProcessors := nProcessors;
      this.rank := rank;
      this.dictionary := dictionary;
      this.files := files;
      trace := [];
      outcome := Completed;
      system, matrixReader, matrix := null, null, null;
      rhsReader, initialSolutionReader := null, null;
    }

    /** `execute`: one manager, `preprocess`, `compute`, `postprocess`; an early end in
        `preprocess` ends the process there. */
    static method Execute(nProcessors: int, rank: int, dictionary: Dictionary, files: FileSystem) returns (report: Report)
      requires 0 <= rank < nProcessors
      ensures report == Workflow(dictionary, files, nProcessors)
    {
      var manager := new RunManager(nProcessors, rank, dictionary, files);
      manager.Preprocess();
      if manager.outcome == Completed {
        manager.Compute();
        manager.Postprocess();
      }
      report := Report(manager.trace, manager.outcome);
    }

    /** `preprocess`, on a manager whose solver holds no matrix yet (as `execute`
        calls it): the steps of `PreprocessReport`, and on a completed run the local
        matrix shard, and the right-hand side and initial solution values read against
        the matrix's row count. */
    method Preprocess()
      requires 0 <= rank < nProcessors && matrix == null && outcome == Completed
      modifies this
      ensures trace == PreprocessReport(dictionary, files, nProcessors, old(trace)).trace
      ensures outcome == PreprocessReport(dictionary, files, nProcessors, old(trace)).outcome
      ensures outcome == Completed ==>
        dictionary.matrix in files && matrix != null && system != null &&
        var n := MatrixRowCount(dictionary, files);
        matrix.rows == MatrixShard(files[dictionary.matrix], n, nProcessors, rank) &&
        system.rhs[..] == LocalValues(files, dictionary.rhs, n, nProcessors, rank) &&
        system.solution[..]
          == if dictionary.haveInitialSolution
             then LocalValues(files, dictionary.initialSolution, n, nProcessors, rank)
             else Zeros(RowCount(n, nProcessors, rank))
    {
      var sys := new SystemSolver();
      system := sys;
      var loaded, n := LoadMatrix();
      if !loaded {
        outcome := Terminated(MatrixNotLoaded);
        return;
      }
      if nProcessors > n {
        outcome := Terminated(TooManyProcesses);
        return;
      }
      RowCountNonNegative(n, nProcessors, rank);
      sys.Initialize(matrix);
      trace := trace + [InitializeSystem];
      ReadVectors(n);
    }

    /** The matrix part of `preprocess`: a reader for the dictionary's matrix file
        reads it into the solver's matrix; `n` is the reader's row count afterwards. */
    method LoadMatrix() returns (loaded: bool, n: int)
      requires 0 <= rank < nProcessors && matrix == null
      modifies this
      ensures trace == old(trace) + [ReadMatrix] && outcome == old(outcome) && system == old(system)
      ensures rhsReader == old(rhsReader) && initialSolutionReader == old(initialSolutionReader)
      ensures loaded <==> dictionary.matrix in files
      ensures loaded ==> n == MatrixRowCount(dictionary, files)
      ensures loaded ==> matrix != null && fresh(matrix) && matrix.nRows == RowCount(n, nProcessors, rank)
      ensures loaded ==> matrix.rows == MatrixShard(files[dictionary.matrix], n, nProcessors, rank)
    {
      var d := dictionary.matrix;
      var mr := new MatrixReader(nProcessors, rank, d.directory, d.name, d.appendix);
      assert mr.location == d;
      matrixReader := mr;
      var m := mr.ReadMatrixCSRFormat(files, matrix);
      matrix := m;
      trace := trace + [ReadMatrix];
      loaded := m != null;
      n := mr.GetNRows();
    }

    /** The vector part of `preprocess`: the right-hand side, then the initial solution
        when the dictionary asks for it, each read into the initialised system with
        the matrix's row count `n` as the expected count. */
    method ReadVectors(n: int)
      requires 0 <= rank < nProcessors && nProcessors <= n && outcome == Completed
      requires system != null && system.rhs != system.solution
      requires system.rhs.Length == system.solution.Length == RowCount(n, nProcessors, rank)
      modifies this, system.rhs, system.solution
      ensures system == old(system) && matrix == old(matrix)
      ensures trace == VectorReport(dictionary, files, n, old(trace)).trace
      ensures outcome == VectorReport(dictionary, files, n, old(trace)).outcome
      ensures !Mismatch(files, dictionary.rhs, n) ==>
        system.rhs[..] == (if dictionary.rhs in files
                           then VectorShard(files[dictionary.rhs], n, nProcessors, rank, old(system.rhs[..]))
                           else old(system.rhs[..]))
      ensures !Mismatch(files, dictionary.rhs, n) && dictionary.haveInitialSolution &&
              !Mismatch(files, dictionary.initialSolution, n) ==>
        system.solution[..]
          == (if dictionary.initialSolution in files
              then VectorShard(files[dictionary.initialSolution], n, nProcessors, rank, old(system.solution[..]))
              else old(system.solution[..]))
      ensures !(dictionary.haveInitialSolution && !Mismatch(files, dictionary.rhs, n)) ==>
        system.solution[..] == old(system.solution[..])
    {
      var rhsConsistent := ReadRhsVector(n);
      trace := trace + [ReadRhs];
      if !rhsConsistent {
        outcome := Terminated(RhsCountMismatch);
        return;
      }
      if dictionary.haveInitialSolution {
        var consistent := ReadInitialSolutionVector(n);
        trace := trace + [ReadInitialSolution];
        if !consistent {
          outcome := Terminated(InitialSolutionCountMismatch);
        }
      }
    }

    /** A reader for the dictionary's right-hand side file reads it into the system's
        right-hand side, expecting `n` elements. */
    method ReadRhsVector(n: int) returns (consistent: bool)
      requires 0 <= rank < nProcessors && system != null
      requires RowCount(n, nProcessors, rank) <= system.rhs.Length
      modifies this, system.rhs
      ensures system == old(system) && matrix == old(matrix)
      ensures trace == old(trace) && outcome == old(outcome)
      ensures consistent <==> !Mismatch(files, dictionary.rhs, n)
      ensures consistent ==>
        system.rhs[..] == (if dictionary.rhs in files
                           then VectorShard(files[dictionary.rhs], n, nProcessors, rank, old(system.rhs[..]))
                           else old(system.rhs[..]))
    {
      var loc := dictionary.rhs;
      var rr := new RhsReader(nProcessors, rank, loc.directory, loc.name, loc.appendix);
      assert rr.location == loc;
      rhsReader := rr;
      var status := rr.Read(files, system.rhs, n);
      consistent := status != CountMismatch;
    }

    /** A reader for the dictionary's initial solution file reads it into the system's
        solution, expecting `n` elements. */
    method ReadInitialSolutionVector(n: int) returns (consistent: bool)
      requires 0 <= rank < nProcessors && system != null
      requires RowCount(n, nProcessors, rank) <= system.solution.Length
      modifies this, system.solution
      ensures system == old(system) && matrix == old(matrix)
      ensures trace == old(trace) && outcome == old(outcome)
      ensures consistent <==> !Mismatch(files, dictionary.initialSolution, n)
      ensures consistent ==>
        system.solution[..]
          == (if dictionary.initialSolution in files
              then VectorShard(files[dictionary.initialSolution], n, nProcessors, rank, old(system.solution[..]))
              else old(system.solution[..]))
    {
      var loc := dictionary.initialSolution;
      var ir := new InitialSolutionReader(nProcessors, rank, loc.directory, loc.name, loc.appendix);
      assert ir.location == loc;
      initialSolutionReader := ir;
      var status := ir.Read(files, system.solution, n);
      consistent := status != CountMismatch;
    }

    /** `compute`: the solve, whose numerics are not part of this model. */
    method Compute()
      modifies this
      ensures trace == old(trace) + [Solve] && outcome == old(outcome)
      ensures system == old(system) && matrix == old(matrix) && matrixReader == old(matrixReader)
      ensures rhsReader == old(rhsReader) && initialSolutionReader == old(initialSolutionReader)
    {
      trace := trace + [Solve];
    }

    /** `postprocess`: the system is dumped exactly when the dictionary turns dumping on. */
    method Postprocess()
      modifies this
      ensures trace == old(trace) + PostprocessSteps(dictionary) && outcome == old(outcome)
      ensures system == old(system) && matrix == old(matrix) && matrixReader == old(matrixReader)
      ensures rhsReader == old(rhsReader) && initialSolutionReader == old(initialSolutionReader)
    {
      if dictionary.dumpOn {
        trace := trace + [Dump];
      }
    }
  }

  /** The steps happen in the source's order, each at most once, whatever the files
      hold. */
  lemma FlowInOrder(d: Dictionary, matrixOpened: bool, tooFewRows: bool, rhsMismatch: bool, initialMismatch: bool)
    ensures var t := Finish(d, PreprocessFlow(d, matrixOpened, tooFewRows, rhsMismatch, initialMismatch, [])).trace;
            forall i, j :: 0 <= i < j < |t| ==> Order(t[i]) < Order(t[j])
  {
  }

  lemma StepsInOrder(d: Dictionary, files: FileSystem, nProcessors: int)
    ensures var t := Workflow(d, files, nProcessors).trace;
            forall i, j :: 0 <= i < j < |t| ==> Order(t[i]) < Order(t[j])
  {
    var n := if d.matrix in files then MatrixRowCount(d, files) else 0;
    FlowInOrder(d, d.matrix in files, nProcessors > n, Mismatch(files, d.rhs, n), Mismatch(files, d.initialSolution, n));
  }

  /** The process-count gate, on the control flow: the run ends right after the matrix
      read exactly when the matrix opened and has too few rows. */
  lemma FlowGate(d: Dictionary, matrixOpened: bool, tooFewRows: bool, rhsMismatch: bool, initialMismatch: bool)
    ensures var r := Finish(d, PreprocessFlow(d, matrixOpened, tooFewRows, rhsMismatch, initialMismatch, []));
            (r.outcome == Terminated(TooManyProcesses) <==> matrixOpened && tooFewRows) &&
            (r.outcome == Terminated(TooManyProcesses) ==> r.trace == [ReadMatrix])
  {
  }

  /** The process-count gate: the run ends right after the matrix read exactly when the
      matrix opens and there are more processes than global rows; then neither the
      system, the right-hand side nor the initial solution is touched. */
  lemma GateIff(d: Dictionary, files: FileSystem, nProcessors: int)
    ensures Workflow(d, files, nProcessors).outcome == Terminated(TooManyProcesses)
        <==> d.matrix in files && nProcessors > MatrixRowCount(d, files)
    ensures Workflow(d, files, nProcessors).outcome == Terminated(TooManyProcesses) ==>
            Workflow(d, files, nProcessors).trace == [ReadMatrix]
  {
    var n := if d.matrix in files then MatrixRowCount(d, files) else 0;
    FlowGate(d, d.matrix in files, nProcessors > n, Mismatch(files, d.rhs, n), Mismatch(files, d.initialSolution, n));
  }

  /** A completed run passed every check of the control flow. */
  lemma FlowCompleted(d: Dictionary, matrixOpened: bool, tooFewRows: bool, rhsMismatch: bool, initialMismatch: bool)
    requires Finish(d, PreprocessFlow(d, matrixOpened, tooFewRows, rhsMismatch, initialMismatch, [])).outcome == Completed
    ensures matrixOpened && !tooFewRows && !rhsMismatch
    ensures d.haveInitialSolution ==> !initialMismatch
  {
  }

  /** The right-hand side and the initial solution are checked against the matrix's
      row count: a completed run saw no other count in either file. */
  lemma CountsAgreeWithMatrix(d: Dictionary, files: FileSystem, nProcessors: int)
    requires Workflow(d, files, nProcessors).outcome == Completed
    ensures d.matrix in files && nProcessors <= MatrixRowCount(d, files)
    ensures d.rhs in files ==> HeaderCount(files[d.rhs], 0) == MatrixRowCount(d, files)
    ensures d.haveInitialSolution && d.initialSolution in files ==>
            HeaderCount(files[d.initialSolution], 0) == MatrixRowCount(d, files)
  {
    var n := if d.matrix in files then MatrixRowCount(d, files) else 0;
    FlowCompleted(d, d.matrix in files, nProcessors > n, Mismatch(files, d.rhs, n), Mismatch(files, d.initialSolution, n));
  }

  /** The initial solution is read exactly when the dictionary asks for it and the
      right-hand side was read without a mismatch. */
  lemma FlowInitialSolutionRead(d: Dictionary, matrixOpened: bool, tooFewRows: bool, rhsMismatch: bool, initialMismatch: bool)
    ensures var r := Finish(d, PreprocessFlow(d, matrixOpened, tooFewRows, rhsMismatch, initialMismatch, []));
            (ReadInitialSolution in r.trace <==>
             d.haveInitialSolution && ReadRhs in r.trace && r.outcome != Terminated(RhsCountMismatch))
  {
  }

  /** The initial solution is read exactly when the dictionary asks for it and the run
      got past the right-hand side. */
  lemma InitialSolutionReadIff(d: Dictionary, files: FileSystem, nProcessors: int)
    ensures ReadInitialSolution in Workflow(d, files, nProcessors).trace
        <==> d.haveInitialSolution && ReadRhs in Workflow(d, files, nProcessors).trace &&
             Workflow(d, files, nProcessors).outcome != Terminated(RhsCountMismatch)
  {
    var n := if d.matrix in files then MatrixRowCount(d, files) else 0;
    FlowInitialSolutionRead(d, d.matrix in files, nProcessors > n, Mismatch(files, d.rhs, n), Mismatch(files, d.initialSolution, n));
  }

  /** Dumping and solving, on the control flow. */
  lemma FlowDump(d: Dictionary, matrixOpened: bool, tooFewRows: bool, rhsMismatch: bool, initialMismatch: bool)
    ensures var r := Finish(d, PreprocessFlow(d, matrixOpened, tooFewRows, rhsMismatch, initialMismatch, []));
            (Dump in r.trace <==> r.outcome == Completed && d.dumpOn) &&
            (Solve in r.trace <==> r.outcome == Completed)
  {
  }

  /** The system is dumped exactly when the run completes with dumping on, and a
      completed run solves exactly once, after every read. */
  lemma DumpIff(d: Dictionary, files: FileSystem, nProcessors: int)
    ensures Dump in Workflow(d, files, nProcessors).trace
        <==> Workflow(d, files, nProcessors).outcome == Completed && d.dumpOn
    ensures Solve in Workflow(d, files, nProcessors).trace
        <==> Workflow(d, files, nProcessors).outcome == Completed
  {
    var n := if d.matrix in files then MatrixRowCount(d, files) else 0;
    FlowDump(d, d.matrix in files, nProcessors > n, Mismatch(files, d.rhs, n), Mismatch(files, d.initialSolution, n));
  }
}
