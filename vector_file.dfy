/** What the right-hand side and initial solution files share: a title line, `#`
    comment lines, a header line holding the global row count, then one value per
    line. Each process skips the lines of the lower ranks and extracts its own values
    with `>>` into slots `0, 1, ...` of its local buffer. */
module VectorFile {
  import opened Text
  import opened Streams
  import opened LineFormat
  import opened Partition

  /** How a vector read ends. The source ends the whole run with `exit(1)` on a count
      mismatch; here that is a status the run manager acts on. */
  datatype ReadStatus = NotOpened | CountMismatch | Loaded

  /** The buffer after `count` extractions `>> buffer[i]` from a stream holding
      `tokens`: slot `i < count` takes token `i` while tokens last; an extraction at
      the end of the stream fails and leaves its slot as it was. */
  function Filled(before: seq<string>, tokens: seq<string>, count: int): (after: seq<string>)
    ensures |after| == |before|
    ensures forall i :: 0 <= i < |before| && (i >= count || i >= |tokens|) ==> after[i] == before[i]
    ensures forall i :: 0 <= i < |before| && i < count && i < |tokens| ==> after[i] == tokens[i]
  {
    seq(|before|, i requires 0 <= i < |before| => if i < count && i < |tokens| then tokens[i] else before[i])
  }

  /** The body read's `for (i = 0; i < count; ++i) fileStream >> buffer[i];` over the
      tokens left in the stream from line `s.pos` on. */
  method ExtractValues(s: LineStream, count: int, buffer: array<string>)
    requires s.Valid() && count <= buffer.Length
    modifies buffer
    ensures buffer[..] == Filled(old(buffer[..]), StreamTokens(s.lines, s.pos), count)
  {
    var tokens := StreamTokens(s.lines, s.pos);
    ghost var before := buffer[..];
    for i := 0 to if count <= 0 then 0 else count
      invariant buffer[..] == Filled(before, tokens, i)
    {
      if i < |tokens| {
        buffer[i] := tokens[i];
      }
    }
  }

  /** The stream position the body read starts from: past the header line, then past
      the lower ranks' lines. */
  function ShardStart(lines: seq<string>, n: int, nProcessors: int, rank: nat): nat
    requires nProcessors > 0 && rank < nProcessors
  {
    Skipped(|lines|, BodyStart(lines), Start(RowCounts(n, nProcessors), rank))
  }

  /** The local buffer of `rank` after reading a file whose header announced `n` rows. */
  function VectorShard(lines: seq<string>, n: int, nProcessors: int, rank: nat, before: seq<string>): (after: seq<string>)
    requires nProcessors > 0 && rank < nProcessors
    ensures |after| == |before|
    ensures forall i :: 0 <= i < |before| && i >= RowCount(n, nProcessors, rank) ==> after[i] == before[i]
  {
    Filled(before, StreamTokens(lines, ShardStart(lines, n, nProcessors, rank)), RowCount(n, nProcessors, rank))
  }

  /** A file as the format describes it: a header line, and after it `n` lines each
      holding one value and nothing else. */
  predicate WellFormed(lines: seq<string>, n: int)
  {
    n >= 0 && HeaderIndex(lines, 0).Some? && BodyStart(lines) + n <= |lines| &&
    forall i :: BodyStart(lines) <= i < BodyStart(lines) + n ==> IsWord(lines[i])
  }

  /** The value of global row `g` of a well-formed file. */
  function GlobalValue(lines: seq<string>, n: int, g: int): string
    requires WellFormed(lines, n) && 0 <= g < n
  {
    lines[BodyStart(lines) + g]
  }

  /** Reading `k` values from line `from` on, where each of those lines (all within a
      range `[lo, hi)` of one-value lines) holds one value, puts line `from + i` into
      slot `i`. */
  lemma SlotFromLine(lines: seq<string>, lo: nat, hi: nat, from: nat, k: int, before: seq<string>, i: int)
    requires lo <= from && from + k <= hi <= |lines|
    requires forall j :: lo <= j < hi ==> IsWord(lines[j])
    requires 0 <= i < k && i < |before|
    ensures Filled(before, StreamTokens(lines, from), k)[i] == lines[from + i]
  {
    TokensOfLeadingLines(lines, from, k);
  }

  /** Slot `i` of rank `rank` holds global row `Start(rank) + i` of a well-formed file. */
  lemma ShardSlot(lines: seq<string>, n: int, nProcessors: int, rank: nat, before: seq<string>, i: int)
    requires WellFormed(lines, n) && nProcessors > 0 && rank < nProcessors
    requires 0 <= i < RowCount(n, nProcessors, rank) && i < |before|
    ensures 0 <= Start(RowCounts(n, nProcessors), rank) + i < n
    ensures VectorShard(lines, n, nProcessors, rank, before)[i]
         == GlobalValue(lines, n, Start(RowCounts(n, nProcessors), rank) + i)
  {
    var s := Start(RowCounts(n, nProcessors), rank);
    var k := RowCount(n, nProcessors, rank);
    BlockWithinRows(n, nProcessors, rank);
    var b := BodyStart(lines);
    assert ShardStart(lines, n, nProcessors, rank) == b + s;
    SlotFromLine(lines, b, b + n, b + s, k, before, i);
    assert GlobalValue(lines, n, s + i) == lines[b + s + i];
  }

  /** Every value of a well-formed file lands in exactly one process's buffer: the
      owner of global row `g` holds it in slot `g - Start(owner)`, and no other rank's
      row range contains `g`. */
  lemma EveryValueOnce(lines: seq<string>, n: int, nProcessors: int, g: int, before: seq<string>) returns (owner: nat)
    requires WellFormed(lines, n) && nProcessors > 0 && 0 <= g < n
    requires |before| >= RowCount(n, nProcessors, 0)
    ensures owner < nProcessors && Covers(RowCounts(n, nProcessors), 1, owner, g)
    ensures forall r :: 0 <= r < nProcessors && Covers(RowCounts(n, nProcessors), 1, r, g) ==> r == owner
    ensures VectorShard(lines, n, nProcessors, owner, before)[g - Start(RowCounts(n, nProcessors), owner)]
         == GlobalValue(lines, n, g)
  {
    owner := PartitionTiles(n, nProcessors, 1, g);
    var counts := RowCounts(n, nProcessors);
    CountsBalanced(n, nProcessors);
    ShardSlot(lines, n, nProcessors, owner, before, g - Start(counts, owner));
  }
}
