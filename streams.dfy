/** Files as the readers see them: a file is its sequence of lines (each without its
    line break), opened through a (directory, name, extension) location, and read
    through a stream with a line cursor, as `std::fstream` with `std::getline`. */
module Streams {
  import opened Text

  /** The (directory, base name, extension) triple a reader's file handler holds. */
  datatype FileLocation = FileLocation(directory: string, name: string, appendix: string)

  /** The location a default-constructed file handler holds. */
  const DefaultLocation := FileLocation("", "", "")

  /** The files that can be opened: a location absent from the map cannot be opened. */
  type FileSystem = map<FileLocation, seq<string>>

  /** Line `i` of the file, or the empty line past its end. */
  function LineAt(lines: seq<string>, i: int): (line: string)
    ensures 0 <= i < |lines| ==> line == lines[i]
    ensures i >= |lines| ==> line == ""
  {
    if 0 <= i < |lines| then lines[i] else ""
  }

  /** The tokens of each line from `from` on, line by line. */
  function LineWords(lines: seq<string>, from: nat): (ws: seq<seq<string>>)
    requires from <= |lines|
    ensures |ws| == |lines| - from
  {
    seq(|lines| - from, i requires 0 <= i < |lines| - from => Words(lines[from + i]))
  }

  /** The pieces of `ws` laid end to end. */
  function Concat(ws: seq<seq<string>>): seq<string>
  {
    if |ws| == 0 then [] else ws[0] + Concat(ws[1..])
  }

  /** The tokens `>>` meets reading on from line `from`: line breaks are whitespace,
      so these are the tokens of each line, line after line. */
  function StreamTokens(lines: seq<string>, from: nat): seq<string>
    requires from <= |lines|
  {
    Concat(LineWords(lines, from))
  }

  lemma {:induction false} ConcatOfSingletons(ws: seq<seq<string>>, k: nat)
    requires k <= |ws|
    requires forall i :: 0 <= i < k ==> |ws[i]| == 1
    ensures |Concat(ws)| >= k
    ensures forall i :: 0 <= i < k ==> Concat(ws)[i] == ws[i][0]
  {
    if k > 0 {
      ConcatOfSingletons(ws[1..], k - 1);
      assert Concat(ws) == ws[0] + Concat(ws[1..]);
    }
  }

  /** When each of the `k` lines from `from` on is a single token with no whitespace
      around it, the first `k` tokens of the stream are those lines, in order. */
  lemma TokensOfLeadingLines(lines: seq<string>, from: nat, k: nat)
    requires from + k <= |lines|
    requires forall i :: from <= i < from + k ==> IsWord(lines[i])
    ensures |StreamTokens(lines, from)| >= k
    ensures forall i :: 0 <= i < k ==> StreamTokens(lines, from)[i] == lines[from + i]
  {
    var ws := LineWords(lines, from);
    forall i | 0 <= i < k ensures ws[i] == [lines[from + i]] {
      WordsOfWord(lines[from + i]);
    }
    ConcatOfSingletons(ws, k);
  }

  /** Where a stream at line `pos` of a `len`-line file stands after `n` `getline`
      calls: `n` lines on, but never past the end. */
  function Skipped(len: nat, pos: nat, n: int): (p: nat)
    requires pos <= len
    ensures pos <= p <= len
  {
    if n <= 0 then pos else if pos + n <= len then pos + n else len
  }

  /** An open input file stream positioned before line `pos`. */
  class LineStream {
    const lines: seq<string>
    var pos: nat

    ghost predicate Valid()
      reads this
    {
      pos <= |lines|
    }

    constructor (lines: seq<string>)
      ensures Valid() && this.lines == lines && pos == 0
    {
      this.lines := lines;
      pos := 0;
    }

    /** `std::getline`: succeeds iff a line is left, and then moves past it. */
    method GetLine() returns (ok: bool, line: string)
      requires Valid()
      modifies this
      ensures Valid()
      ensures ok <==> old(pos) < |lines|
      ensures line == LineAt(lines, old(pos))
      ensures pos == if ok then old(pos) + 1 else old(pos)
    {
      ok := pos < |lines|;
      line := LineAt(lines, pos);
      if ok {
        pos := pos + 1;
      }
    }

    /** The readers' `for (l = 0; l < n; ++l) getline(...)` loop: passes `n` lines, or
        stops at the end of the file. */
    method Skip(n: int)
      requires Valid()
      modifies this
      ensures Valid()
      ensures pos == Skipped(|lines|, old(pos), n)
    {
      for l := 0 to if n <= 0 then 0 else n
        invariant Valid()
        invariant pos == Skipped(|lines|, old(pos), l)
      {
        var ok, line := GetLine();
      }
    }

    /** `genericIO::lineStream`: the tokens of the next line, none past the end. */
    method ReadTokenLine() returns (tokens: seq<string>)
      requires Valid()
      modifies this
      ensures Valid()
      ensures tokens == Words(LineAt(lines, old(pos)))
      ensures pos == Skipped(|lines|, old(pos), 1)
    {
      var ok, line := GetLine();
      tokens := Words(line);
    }
  }
}
