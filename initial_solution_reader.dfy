/** The initial solution reader (src/initialSolutionReader.cpp): the same steps as the
    right-hand side reader, filling the local block of the solution guess. */
module InitialSolutionReading {
  import opened Streams
  import opened LineFormat
  import opened Partition
  import opened VectorFile

  class InitialSolutionReader {
    const nProcessors: int
    const rank: int
    var location: FileLocation
    var nRows: int

    /** The process grid is well formed: the readers divide by `nProcessors` and index
        their per-rank vectors with `rank`. */
    predicate Valid()
    {
      0 < nProcessors && 0 <= rank < nProcessors
    }

    /** The two-argument constructor: a default file handler and no rows. */
    constructor Default(nProcessors: int, rank: int)
      requires 0 <= rank < nProcessors
      ensures Valid() && this.nProcessors == nProcessors && this.rank == rank
      ensures location == DefaultLocation && nRows == 0
    {
      this.nProcessors := nProcessors;
      this.rank := rank;
      location := DefaultLocation;
      nRows := 0;
    }

    /** The five-argument constructor: the file handler takes the directory, name and
        extension given, and there are no rows yet. */
    constructor (nProcessors: int, rank: int, dir: string, name: string, app: string)
      requires 0 <= rank < nProcessors
      ensures Valid() && this.nProcessors == nProcessors && this.rank == rank
      ensures location == FileLocation(dir, name, app) && nRows == 0
    {
      this.nProcessors := nProcessors;
      this.rank := rank;
      location := FileLocation(dir, name, app);
      nRows := 0;
    }

    method SetDirectory(dir: string)
      modifies this
      ensures location == old(location).(directory := dir) && nRows == old(nRows)
    {
      location := location.(directory := dir);
    }

    method SetName(name: string)
      modifies this
      ensures location == old(location).(name := name) && nRows == old(nRows)
    {
      location := location.(name := name);
    }

    method SetAppendix(app: string)
      modifies this
      ensures location == old(location).(appendix := app) && nRows == old(nRows)
    {
      location := location.(appendix := app);
    }

    /** `read`: nothing happens when the file cannot be opened; otherwise the header
        count is read, and only when it equals `expectedElements` is the body read
        into `initialSolution`. A mismatch ends the run before any slot is written. */
    method Read(files: FileSystem, initialSolution: array<string>, expectedElements: int) returns (status: ReadStatus)
      requires Valid()
      requires RowCount(expectedElements, nProcessors, rank) <= initialSolution.Length
      modifies this, initialSolution
      ensures location == old(location)
      ensures location !in files ==> status == NotOpened && nRows == old(nRows) && initialSolution[..] == old(initialSolution[..])
      ensures location in files ==> nRows == HeaderCount(files[location], old(nRows))
      ensures location in files && nRows != expectedElements ==>
        status == CountMismatch && initialSolution[..] == old(initialSolution[..])
      ensures location in files && nRows == expectedElements ==>
        status == Loaded && initialSolution[..] == VectorShard(files[location], nRows, nProcessors, rank, old(initialSolution[..]))
    {
      if location !in files {
        return NotOpened;
      }
      var s := new LineStream(files[location]);
      var consistent := ReadInfo(s, expectedElements);
      if !consistent {
        return CountMismatch;
      }
      var procRows := ComputeLinesPerProc();
      var startRows := ComputeStartLinePerProc(procRows);
      ReadInitialSolution(s, procRows, startRows, initialSolution);
      status := Loaded;
    }

    /** `readInfo`: the header scan, `ss >> m_nRows` on the header line, and the check
        against the expected count (whose failure ends the run). */
    method ReadInfo(s: LineStream, expectedElements: int) returns (consistent: bool)
      requires s.Valid()
      modifies this, s
      ensures s.Valid() && s.pos == AfterHeader(s.lines, old(s.pos))
      ensures location == old(location)
      ensures nRows == CountOf(HeaderAt(s.lines, old(s.pos)), old(nRows))
      ensures consistent <==> nRows == expectedElements
    {
      var header := ScanHeader(s);
      nRows := CountOf(header, nRows);
      consistent := expectedElements == nRows;
    }

    /** `computeLinesPerProc`. */
    method ComputeLinesPerProc() returns (rows: seq<int>)
      requires Valid()
      ensures rows == RowCounts(nRows, nProcessors)
    {
      rows := Partition.ComputeRowsPerProc(nRows, nProcessors);
    }

    /** `computeStartLinePerProc`: plain prefix sums, one line per row. */
    method ComputeStartLinePerProc(procRows: seq<int>) returns (startLines: seq<int>)
      requires Valid() && |procRows| == nProcessors
      ensures |startLines| == nProcessors
      ensures forall p :: 0 <= p < nProcessors ==> startLines[p] == Start(procRows, p)
    {
      startLines := ComputeStartPerProc(nProcessors, procRows, 1);
    }

    /** `readInitialSolution`: skip the lower ranks' lines, then extract this rank's values into
        slots `0 .. procLines[rank]` of the local buffer. */
    method ReadInitialSolution(s: LineStream, procLines: seq<int>, startLines: seq<int>, initialSolution: array<string>)
      requires Valid() && s.Valid()
      requires |procLines| == |startLines| == nProcessors && procLines[rank] <= initialSolution.Length
      modifies s, initialSolution
      ensures s.Valid() && s.pos == Skipped(|s.lines|, old(s.pos), startLines[rank])
      ensures initialSolution[..] == Filled(old(initialSolution[..]), StreamTokens(s.lines, s.pos), procLines[rank])
    {
      s.Skip(startLines[rank]);
      ExtractValues(s, procLines[rank], initialSolution);
    }
  }
}
