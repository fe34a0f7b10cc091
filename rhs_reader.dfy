/** The right-hand side reader (src/rhsReader.cpp): each process reads the header
    count of the shared right-hand side file, checks it against the count the caller
    expects, and extracts its own block of values into its local buffer. */
module RhsReading {
  import opened Streams
  import opened LineFormat
  import opened Partition
  import opened VectorFile

  class RhsReader {
    const nProcessors: int
    const rank: int
    var location: FileLocation
    var nRows: int

    /** The process grid is well formed: the readers divide by `nProcessors` and index
        their per-rank vectors with `rank`. */
    predicate Valid()
    {
      0 < nProcessors && 0 <= rank < nProcessors
    }

    /** The two-argument constructor: a default file handler and no rows. */
    constructor Default(nProcessors: int, rank: int)
      requires 0 <= rank < nProcessors
      ensures Valid() && this.nProcessors == nProcessors && this.rank == rank
      ensures location == DefaultLocation && nRows == 0
    {
      this.nProcessors := nProcessors;
      this.rank := rank;
      location := DefaultLocation;
      nRows := 0;
    }

    /** The five-argument constructor: the file handler takes the directory, name and
        extension given, and there are no rows yet. */
    constructor (nProcessors: int, rank: int, dir: string, name: string, app: string)
      requires 0 <= rank < nProcessors
      ensures Valid() && this.nProcessors == nProcessors && this.rank == rank
      ensures location == FileLocation(dir, name, app) && nRows == 0
    {
      this.nProcessors := nProcessors;
      this.rank := rank;
      location := FileLocation(dir, name, app);
      nRows := 0;
    }

    method SetDirectory(dir: string)
      modifies this
      ensures location == old(location).(directory := dir) && nRows == old(nRows)
    {
      location := location.(directory := dir);
    }

    method SetName(name: string)
      modifies this
      ensures location == old(location).(name := name) && nRows == old(nRows)
    {
      location := location.(name := name);
    }

    method SetAppendix(app: string)
      modifies this
      ensures location == old(location).(appendix := app) && nRows == old(nRows)
    {
      location := location.(appendix := app);
    }

    /** `read`: nothing happens when the file cannot be opened; otherwise the header
        count is read, and only when it equals `expectedElements` is the body read
        into `rhs`. A mismatch ends the run before any slot is written. */
    method Read(files: FileSystem, rhs: array<string>, expectedElements: int) returns (status: ReadStatus)
      requires Valid()
      requires RowCount(expectedElements, nProcessors, rank) <= rhs.Length
      modifies this, rhs
      ensures location == old(location)
      ensures location !in files ==> status == NotOpened && nRows == old(nRows) && rhs[..] == old(rhs[..])
      ensures location in files ==> nRows == HeaderCount(files[location], old(nRows))
      ensures location in files && nRows != expectedElements ==>
        status == CountMismatch && rhs[..] == old(rhs[..])
      ensures location in files && nRows == expectedElements ==>
        status == Loaded && rhs[..] == VectorShard(files[location], nRows, nProcessors, rank, old(rhs[..]))
    {
      if location !in files {
        return NotOpened;
      }
      var s := new LineStream(files[location]);
      var consistent := ReadInfo(s, expectedElements);
      if !consistent {
        return CountMismatch;
      }
      var procRows := ComputeRowsPerProc();
      var startRows := ComputeStartRowPerProc(procRows);
      ReadRhs(s, procRows, startRows, rhs);
      status := Loaded;
    }

    /** `readInfo`: the header scan, `ss >> m_nRows` on the header line, and the check
        against the expected count (whose failure ends the run). */
    method ReadInfo(s: LineStream, expectedElements: int) returns (consistent: bool)
      requires s.Valid()
      modifies this, s
      ensures s.Valid() && s.pos == AfterHeader(s.lines, old(s.pos))
      ensures location == old(location)
      ensures nRows == CountOf(HeaderAt(s.lines, old(s.pos)), old(nRows))
      ensures consistent <==> nRows == expectedElements
    {
      var header := ScanHeader(s);
      nRows := CountOf(header, nRows);
      consistent := expectedElements == nRows;
    }

    /** `computeRowsPerProc`. */
    method ComputeRowsPerProc() returns (rows: seq<int>)
      requires Valid()
      ensures rows == RowCounts(nRows, nProcessors)
    {
      rows := Partition.ComputeRowsPerProc(nRows, nProcessors);
    }

    /** `computeStartRowPerProc`: plain prefix sums, one line per row. */
    method ComputeStartRowPerProc(procRows: seq<int>) returns (startRows: seq<int>)
      requires Valid() && |procRows| == nProcessors
      ensures |startRows| == nProcessors
      ensures forall p :: 0 <= p < nProcessors ==> startRows[p] == Start(procRows, p)
    {
      startRows := ComputeStartPerProc(nProcessors, procRows, 1);
    }

    /** `readRhs`: skip the lower ranks' lines, then extract this rank's values into
        slots `0 .. procRows[rank]` of the local buffer. */
    method ReadRhs(s: LineStream, procRows: seq<int>, startRows: seq<int>, rhs: array<string>)
      requires Valid() && s.Valid()
      requires |procRows| == |startRows| == nProcessors && procRows[rank] <= rhs.Length
      modifies s, rhs
      ensures s.Valid() && s.pos == Skipped(|s.lines|, old(s.pos), startRows[rank])
      ensures rhs[..] == Filled(old(rhs[..]), StreamTokens(s.lines, s.pos), procRows[rank])
    {
      s.Skip(startRows[rank]);
      ExtractValues(s, procRows[rank], rhs);
    }
  }
}
