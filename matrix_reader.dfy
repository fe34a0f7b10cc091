/** The matrix reader (src/matrixReader.cpp): each process reads the three header
    counts of the shared CSR file, works out its block of rows, skips the lower ranks'
    lines and appends one sparse row per (index line, value line) pair to a local
    matrix sized to its block. */
module MatrixReading {
  import opened CppInt
  import opened Text
  import opened Streams
  import opened LineFormat
  import opened Partition

  /** One sparse row: its column indices and its values, as the tokens of its two
      lines. */
  datatype Row = Row(pattern: seq<string>, values: seq<string>)

  /** The three header counts. */
  datatype Dims = Dims(nRows: int, nCols: int, nNz: int)

  /** `ss >> m_nRows; ss >> m_nCols; ss >> m_nNz;` on the header line: each extraction
      continues where the last stopped, and a failed one leaves that count and every
      later one as it was. Without a header line nothing changes. */
  function ParseDims(header: Option<string>, prev: Dims): (d: Dims)
    ensures header.None? || header == Some("") ==> d == prev
    ensures d.nRows == CountOf(header, prev.nRows)
    ensures InRange(prev) ==> InRange(d)
  {
    match header
    case None => prev
    case Some(t) =>
      var rows := ExtractInt(InStream(t, false), prev.nRows);
      var cols := ExtractInt(rows.0, prev.nCols);
      var nz := ExtractInt(cols.0, prev.nNz);
      Dims(rows.1, cols.1, nz.1)
  }

  /** Every count lies in the range of a 32-bit `int`. */
  predicate InRange(d: Dims)
  {
    IntMin <= d.nRows <= IntMax && IntMin <= d.nCols <= IntMax && IntMin <= d.nNz <= IntMax
  }

  /** The counts the header of a whole matrix file announces; the row count is read
      exactly as a vector file's count is. */
  function MatrixHeader(lines: seq<string>, prev: Dims): (d: Dims)
    ensures HeaderText(lines).None? ==> d == prev
    ensures d.nRows == HeaderCount(lines, prev.nRows)
  {
    ParseDims(HeaderText(lines), prev)
  }

  /** The row whose index line is line `pos`: that line's tokens and the next line's,
      each empty past the end of the file. */
  function RowAt(lines: seq<string>, pos: int): Row
  {
    Row(Words(LineAt(lines, pos)), Words(LineAt(lines, pos + 1)))
  }

  /** The `count` rows read from line `pos` on, two lines per row: row `k` is the one
      whose index line is `2 * k` lines on. */
  function MatrixRows(lines: seq<string>, pos: nat, count: int): (rows: seq<Row>)
    requires pos <= |lines|
    ensures |rows| == if count <= 0 then 0 else count
  {
    seq(if count <= 0 then 0 else count, k => RowAt(lines, Skipped(|lines|, pos, 2 * k)))
  }

  /** One more row read from line `pos = Skipped(p0, 2 * l)`: the rows so far gain the
      row at `pos`, and the stream moves two lines on. */
  lemma NextRow(lines: seq<string>, p0: nat, l: nat, pos: nat)
    requires p0 <= |lines| && pos == Skipped(|lines|, p0, 2 * l)
    ensures MatrixRows(lines, p0, l + 1) == MatrixRows(lines, p0, l) + [RowAt(lines, pos)]
    ensures Skipped(|lines|, pos, 2) == Skipped(|lines|, p0, 2 * (l + 1))
  {
  }

  /** The rows rank `rank` appends when the header announced `n` rows: its block of
      rows, starting `2 * Start(rank)` lines into the body. */
  function MatrixShard(lines: seq<string>, n: int, nProcessors: int, rank: nat): (rows: seq<Row>)
    requires nProcessors > 0 && rank < nProcessors
    ensures |rows| == if RowCount(n, nProcessors, rank) <= 0 then 0 else RowCount(n, nProcessors, rank)
  {
    MatrixRows(lines, Skipped(|lines|, BodyStart(lines), 2 * Start(RowCounts(n, nProcessors), rank)),
               RowCount(n, nProcessors, rank))
  }

  /** Global row `g` of the file: its index line is `2 * g` lines into the body. */
  function GlobalRow(lines: seq<string>, g: nat): Row
  {
    RowAt(lines, BodyStart(lines) + 2 * g)
  }

  /** Reading past the end of the file yields the same empty rows whether the stream
      was stopped at the end or not. */
  lemma RowAtSkipped(lines: seq<string>, pos: nat, n: nat)
    requires pos <= |lines|
    ensures RowAt(lines, Skipped(|lines|, pos, n)) == RowAt(lines, pos + n)
  {
    if pos + n > |lines| {
      assert LineAt(lines, pos + n) == LineAt(lines, |lines|) == "";
      assert LineAt(lines, pos + n + 1) == LineAt(lines, |lines| + 1) == "";
    }
  }

  /** Row `k` of rank `rank`'s shard is global row `Start(rank) + k`, for any file:
      past the end both are empty. */
  lemma ShardRow(lines: seq<string>, n: int, nProcessors: int, rank: nat, k: int)
    requires n >= 0 && nProcessors > 0 && rank < nProcessors
    requires 0 <= k < RowCount(n, nProcessors, rank)
    ensures 0 <= Start(RowCounts(n, nProcessors), rank) + k < n
    ensures MatrixShard(lines, n, nProcessors, rank)[k]
         == GlobalRow(lines, Start(RowCounts(n, nProcessors), rank) + k)
  {
    BlockWithinRows(n, nProcessors, rank);
    BlockRow(lines, BodyStart(lines), Start(RowCounts(n, nProcessors), rank), RowCount(n, nProcessors, rank), k);
  }

  /** Row `k` of a block of `count` rows starting `s` rows into a body that starts at
      line `b` is the row whose index line is `b + 2 * (s + k)`. */
  lemma BlockRow(lines: seq<string>, b: nat, s: nat, count: int, k: int)
    requires b <= |lines| && 0 <= k < count
    ensures MatrixRows(lines, Skipped(|lines|, b, 2 * s), count)[k] == RowAt(lines, b + 2 * (s + k))
  {
    var p0 := Skipped(|lines|, b, 2 * s);
    assert Skipped(|lines|, p0, 2 * k) == Skipped(|lines|, b, 2 * s + 2 * k);
    RowAtSkipped(lines, b, 2 * s + 2 * k);
  }

  /** Every row of the file lands in exactly one process's matrix: the owner of global
      row `g` holds it as local row `g - Start(owner)`, and no other rank's block
      contains `g`. */
  lemma EveryRowOnce(lines: seq<string>, n: int, nProcessors: int, g: int) returns (owner: nat)
    requires n >= 0 && nProcessors > 0 && 0 <= g < n
    ensures owner < nProcessors && Covers(RowCounts(n, nProcessors), 1, owner, g)
    ensures forall r :: 0 <= r < nProcessors && Covers(RowCounts(n, nProcessors), 1, r, g) ==> r == owner
    ensures MatrixShard(lines, n, nProcessors, owner)[g - Start(RowCounts(n, nProcessors), owner)]
         == GlobalRow(lines, g)
  {
    owner := PartitionTiles(n, nProcessors, 1, g);
    ShardRow(lines, n, nProcessors, owner, g - Start(RowCounts(n, nProcessors), owner));
  }

  /** The header line `rows cols nnz`, each count in decimal. */
  function HeaderLine(r: nat, c: nat, z: nat): string
  {
    Decimal(r) + (" " + (Decimal(c) + (" " + Decimal(z))))
  }

  /** A header line holding three numbers in decimal gives rows, columns and nonzeros
      in that order. */
  lemma ParseDimsOfThree(r: nat, c: nat, z: nat, prev: Dims)
    requires r <= IntMax && c <= IntMax && z <= IntMax
    ensures ParseDims(Some(HeaderLine(r, c, z)), prev) == Dims(r, c, z)
  {
    var tail := " " + Decimal(z);
    var rest := " " + (Decimal(c) + tail);
    ExtractIntOfDecimal(r, rest, prev.nRows);
    ExtractIntAfterSpace(c, tail, prev.nCols);
    assert Decimal(z) + [] == Decimal(z);
    ExtractIntAfterSpace(z, [], prev.nNz);
  }

  /** A header line holding only the row count leaves the column and nonzero counts as
      they were: the second extraction meets the end of the line and fails, and the
      third is skipped. */
  lemma ParseDimsOfOne(r: nat, prev: Dims)
    requires r <= IntMax
    ensures ParseDims(Some(Decimal(r)), prev) == Dims(r, prev.nCols, prev.nNz)
  {
    assert Decimal(r) == Decimal(r) + [];
    ExtractIntOfDecimal(r, [], prev.nRows);
  }

  /** A file whose lines after the title are all comments has no header: every count
      keeps its value, so a freshly constructed reader stays at zero. */
  lemma NoHeaderKeepsDims(title: string, comments: seq<string>, prev: Dims)
    requires forall i :: 0 <= i < |comments| ==> IsComment(comments[i])
    ensures MatrixHeader([title] + comments, prev) == prev
  {
    var a := [title] + comments;
    forall j | 1 <= j < |a| ensures IsComment(a[j]) {
      assert a[j] == comments[j - 1];
    }
    SkipComments(a, 1, |a|);
    assert HeaderIndex(a, 0) == None;
  }

  /** A title, comments, then the header line `rows cols nnz`: the counts are read from
      that line, whatever the comments say. */
  lemma HeaderAfterComments(title: string, comments: seq<string>, r: nat, c: nat, z: nat, body: seq<string>, prev: Dims)
    requires forall i :: 0 <= i < |comments| ==> IsComment(comments[i])
    requires r <= IntMax && c <= IntMax && z <= IntMax
    ensures MatrixHeader([title] + comments + [HeaderLine(r, c, z)] + body, prev) == Dims(r, c, z)
  {
    var h := HeaderLine(r, c, z);
    assert [title] + comments + [h] + body == [title] + comments + ([h] + body);
    CommentsAreTransparent(title, comments, [h] + body);
    var a := [title] + ([h] + body);
    assert a[1] == h;
    HeaderLineIsData(r, c, z);
    assert FirstDataLine(a, 1) == Some(1);
    ParseDimsOfThree(r, c, z, prev);
  }

  /** A header line written in decimal is not a comment and has nothing to trim. */
  lemma HeaderLineIsData(r: nat, c: nat, z: nat)
    ensures !IsComment(HeaderLine(r, c, z)) && Trim(HeaderLine(r, c, z)) == HeaderLine(r, c, z)
  {
    var h := HeaderLine(r, c, z);
    assert h[0] == Decimal(r)[0];
    assert FirstNonSpace(h, 0) == 0;
    TrimLeftOfNonSpace(h);
    assert h[|h| - 1] == (" " + Decimal(z))[|" " + Decimal(z)| - 1] == Decimal(z)[|Decimal(z)| - 1];
    assert TrimRight(h) == h;
  }

  /** A stand-in for bitpit's `SparseMatrix`: its local size and nonzero hint as
      constructed, the rows appended so far, and whether it has been assembled. */
  class SparseMatrix {
    const nRows: int
    const nCols: int
    const nzHint: int
    var rows: seq<Row>
    var assembled: bool

    constructor (nRows: int, nCols: int, nzHint: int)
      ensures this.nRows == nRows && this.nCols == nCols && this.nzHint == nzHint
      ensures rows == [] && !assembled
    {
      this.nRows := nRows;
      this.nCols := nCols;
      this.nzHint := nzHint;
      rows := [];
      assembled := false;
    }

    method AddRow(pattern: seq<string>, values: seq<string>)
      modifies this
      ensures rows == old(rows) + [Row(pattern, values)] && assembled == old(assembled)
    {
      rows := rows + [Row(pattern, values)];
    }

    method Assembly()
      modifies this
      ensures rows == old(rows) && assembled
    {
      assembled := true;
    }
  }

  class MatrixReader {
    const nProcessors: int
    const rank: int
    var location: FileLocation
    var nRows: int
    var nCols: int
    var nNz: int

    /** The process grid is well formed: the reader divides by `nProcessors` and
        indexes its per-rank vectors with `rank`. */
    predicate Valid()
    {
      0 < nProcessors && 0 <= rank < nProcessors
    }

    function Dimensions(): Dims
      reads this
    {
      Dims(nRows, nCols, nNz)
    }

    /** The two-argument constructor: a default file handler and all counts zero. */
    constructor Default(nProcessors: int, rank: int)
      requires 0 <= rank < nProcessors
      ensures Valid() && this.nProcessors == nProcessors && this.rank == rank
      ensures location == DefaultLocation && Dimensions() == Dims(0, 0, 0)
    {
      this.nProcessors := nProcessors;
      this.rank := rank;
      location := DefaultLocation;
      nRows, nCols, nNz := 0, 0, 0;
    }

    /** The five-argument constructor: the file handler takes the directory, name and
        extension given, and all counts are zero. */
    constructor (nProcessors: int, rank: int, dir: string, name: string, app: string)
      requires 0 <= rank < nProcessors
      ensures Valid() && this.nProcessors == nProcessors && this.rank == rank
      ensures location == FileLocation(dir, name, app) && Dimensions() == Dims(0, 0, 0)
    {
      this.nProcessors := nProcessors;
      this.rank := rank;
      location := FileLocation(dir, name, app);
      nRows, nCols, nNz := 0, 0, 0;
    }

    /** `readMatrixCSRFormat`. When the file opens: the header is read, a matrix of
        `procRows[rank]` by `procRows[rank]` with nonzero hint `m_nNz / m_nProcessors`
        replaces `matrix`, this rank's rows are appended, and it is assembled. When
        the file does not open, `matrix` is kept and assembled as it is; a null
        `matrix` comes back null (the source then dereferences it). */
    method ReadMatrixCSRFormat(files: FileSystem, matrix: SparseMatrix?) returns (result: SparseMatrix?)
      requires Valid()
      modifies this, matrix
      ensures location == old(location)
      ensures location !in files ==>
        result == matrix && Dimensions() == old(Dimensions()) &&
        (matrix != null ==> matrix.assembled && matrix.rows == old(matrix.rows))
      ensures location in files ==>
        result != null && fresh(result) && result.assembled &&
        Dimensions() == MatrixHeader(files[location], old(Dimensions())) &&
        result.nRows == result.nCols == RowCount(nRows, nProcessors, rank) &&
        result.nzHint == Quot(nNz, nProcessors) &&
        result.rows == MatrixShard(files[location], nRows, nProcessors, rank)
    {
      result := matrix;
      if location in files {
        var s := new LineStream(files[location]);
        ReadMatrixCSRFormatInfo(s);
        var procRows := ComputeLinesPerProc();
        var startRows := ComputeStartLinePerProc(procRows);
        result := new SparseMatrix(procRows[rank], procRows[rank], Quot(nNz, nProcessors));
        ReadMatrixCSRFormatMatrix(s, procRows, startRows, result);
      }
      if result != null {
        result.Assembly();
      }
    }

    /** `readMatrixCSRFormatInfo`: the header scan, then the three counts from the
        header line. */
    method ReadMatrixCSRFormatInfo(s: LineStream)
      requires s.Valid()
      modifies this, s
      ensures s.Valid() && s.pos == AfterHeader(s.lines, old(s.pos))
      ensures location == old(location)
      ensures Dimensions() == ParseDims(HeaderAt(s.lines, old(s.pos)), old(Dimensions()))
    {
      var header := ScanHeader(s);
      var dims := ParseDims(header, Dims(nRows, nCols, nNz));
      nRows, nCols, nNz := dims.nRows, dims.nCols, dims.nNz;
    }

    /** `readMatrixCSRFormatMatrix`: skip `startLines[rank]` lines, then read this
        rank's `procLines[rank]` rows. */
    method ReadMatrixCSRFormatMatrix(s: LineStream, procLines: seq<int>, startLines: seq<int>, matrix: SparseMatrix)
      requires Valid() && s.Valid()
      requires |procLines| == |startLines| == nProcessors
      modifies s, matrix
      ensures s.Valid()
      ensures matrix.rows
           == old(matrix.rows) + MatrixRows(s.lines, Skipped(|s.lines|, old(s.pos), startLines[rank]), procLines[rank])
      ensures matrix.assembled == old(matrix.assembled)
    {
      s.Skip(startLines[rank]);
      ReadRows(s, procLines[rank], matrix);
    }

    /** The row loop of `readMatrixCSRFormatMatrix`: `count` times, an index line and
        a value line are read and appended to `matrix` as one row. */
    static method ReadRows(s: LineStream, count: int, matrix: SparseMatrix)
      requires s.Valid()
      modifies s, matrix
      ensures s.Valid() && s.pos == Skipped(|s.lines|, old(s.pos), 2 * count)
      ensures matrix.rows == old(matrix.rows) + MatrixRows(s.lines, old(s.pos), count)
      ensures matrix.assembled == old(matrix.assembled)
    {
      ghost var p0 := s.pos;
      for l := 0 to if count <= 0 then 0 else count
        invariant s.Valid() && s.pos == Skipped(|s.lines|, p0, 2 * l)
        invariant matrix.rows == old(matrix.rows) + MatrixRows(s.lines, p0, l)
        invariant matrix.assembled == old(matrix.assembled)
      {
        AppendRow(s, matrix, old(matrix.rows), p0, l);
      }
    }

    /** One pass of the row loop, the `l`-th from line `p0` on: the next row is read
        and appended after the `l` rows already read. */
    static method AppendRow(s: LineStream, matrix: SparseMatrix, ghost prefix: seq<Row>, ghost p0: nat, ghost l: nat)
      requires s.Valid() && p0 <= |s.lines| && s.pos == Skipped(|s.lines|, p0, 2 * l)
      requires matrix.rows == prefix + MatrixRows(s.lines, p0, l)
      modifies s, matrix
      ensures s.Valid() && s.pos == Skipped(|s.lines|, p0, 2 * (l + 1))
      ensures matrix.rows == prefix + MatrixRows(s.lines, p0, l + 1)
      ensures matrix.assembled == old(matrix.assembled)
    {
      ghost var pos := s.pos;
      var row := ReadRow(s);
      NextRow(s.lines, p0, l, pos);
      matrix.AddRow(row.pattern, row.values);
      assert matrix.rows == prefix + MatrixRows(s.lines, p0, l) + [row];
    }

    /** Reading one row: `genericIO::lineStream` on the index line, then on the value
        line. */
    static method ReadRow(s: LineStream) returns (row: Row)
      requires s.Valid()
      modifies s
      ensures s.Valid() && s.pos == Skipped(|s.lines|, old(s.pos), 2)
      ensures row == RowAt(s.lines, old(s.pos))
    {
      var rowPattern := s.ReadTokenLine();
      var rowValues := s.ReadTokenLine();
      row := Row(rowPattern, rowValues);
    }

    /** `computeLinesPerProc`. */
    method ComputeLinesPerProc() returns (rows: seq<int>)
      requires Valid()
      ensures rows == RowCounts(nRows, nProcessors)
    {
      rows := Partition.ComputeRowsPerProc(nRows, nProcessors);
    }

    /** `computeStartLinePerProc`: prefix sums doubled, two lines per row. */
    method ComputeStartLinePerProc(procRows: seq<int>) returns (startLines: seq<int>)
      requires Valid() && |procRows| == nProcessors
      ensures |startLines| == nProcessors
      ensures forall p :: 0 <= p < nProcessors ==> startLines[p] == 2 * Start(procRows, p)
    {
      startLines := ComputeStartPerProc(nProcessors, procRows, 2);
    }

    method GetNRows() returns (n: int)
      ensures n == nRows
    {
      n := nRows;
    }

    method SetNRows(n: int)
      modifies this
      ensures Dimensions() == old(Dimensions()).(nRows := n) && location == old(location)
    {
      nRows := n;
    }

    method SetNCols(n: int)
      modifies this
      ensures Dimensions() == old(Dimensions()).(nCols := n) && location == old(location)
    {
      nCols := n;
    }

    method SetNNz(n: int)
      modifies this
      ensures Dimensions() == old(Dimensions()).(nNz := n) && location == old(location)
    {
      nNz := n;
    }

    method SetDirectory(dir: string)
      modifies this
      ensures location == old(location).(directory := dir) && Dimensions() == old(Dimensions())
    {
      location := location.(directory := dir);
    }

    method SetName(name: string)
      modifies this
      ensures location == old(location).(name := name) && Dimensions() == old(Dimensions())
    {
      location := location.(name := name);
    }

    method SetAppendix(app: string)
      modifies this
      ensures location == old(location).(appendix := app) && Dimensions() == old(Dimensions())
    {
      location := location.(appendix := app);
    }

    method GetPath() returns (path: FileLocation)
      ensures path == location
    {
      path := location;
    }
  }
}
