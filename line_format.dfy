/** The header scan all three readers share: the first line of the file is passed over
    unread, comment lines (those whose trimmed text starts with `#`) are skipped, and
    the first other line is the header line (src/matrixReader.cpp:105-115,
    src/rhsReader.cpp:102-111, src/initialSolutionReader.cpp:103-112). */
module LineFormat {
  import opened CppInt
  import opened Text
  import opened Streams

  datatype Option<T> = None | Some(value: T)

  /** Index of the first non-whitespace character of `s` at or after `i`, or `|s|`. */
  function FirstNonSpace(s: string, i: nat): (k: nat)
    requires i <= |s|
    ensures i <= k <= |s|
    ensures k < |s| ==> !IsSpace(s[k])
    ensures forall j :: i <= j < k ==> IsSpace(s[j])
    decreases |s| - i
  {
    if i == |s| || !IsSpace(s[i]) then i else FirstNonSpace(s, i + 1)
  }

  /** A comment line: its first non-whitespace character is `#`. An empty or blank
      line is not a comment. */
  predicate IsComment(line: string)
  {
    var k := FirstNonSpace(line, 0);
    k < |line| && line[k] == '#'
  }

  lemma {:induction false} TrimLeftAt(s: string, i: nat)
    requires i <= |s|
    ensures TrimLeft(s[i..]) == s[FirstNonSpace(s, i)..]
    decreases |s| - i
  {
    if i < |s| && IsSpace(s[i]) {
      assert s[i..][1..] == s[i + 1..];
      TrimLeftAt(s, i + 1);
    }
  }

  /** `IsComment` is the readers' test as written: the trimmed line's first character
      is `#`. */
  lemma IsCommentOfTrim(line: string)
    ensures IsComment(line) <==> |Trim(line)| > 0 && Trim(line)[0] == '#'
  {
    TrimLeftAt(line, 0);
    assert line[0..] == line;
    var t := TrimLeft(line);
    if |t| > 0 {
      assert |TrimRight(t)| > 0;
      assert TrimRight(t)[0] == t[0];
    }
  }

  /** Index of the first line at or after `from` that is not a comment, if any. */
  function FirstDataLine(lines: seq<string>, from: nat): (r: Option<nat>)
    requires from <= |lines|
    ensures r.Some? ==> from <= r.value < |lines|
    decreases |lines| - from
  {
    if from == |lines| then None
    else if !IsComment(lines[from]) then Some(from)
    else FirstDataLine(lines, from + 1)
  }

  /** Where the scan resumes after passing over the line at `pos`. */
  function AfterTitle(lines: seq<string>, pos: nat): nat
    requires pos <= |lines|
  {
    if pos < |lines| then pos + 1 else pos
  }

  /** Index of the header line for a scan that starts at line `pos`. */
  function HeaderIndex(lines: seq<string>, pos: nat): (r: Option<nat>)
    requires pos <= |lines|
    ensures r.Some? ==> AfterTitle(lines, pos) <= r.value < |lines|
  {
    FirstDataLine(lines, AfterTitle(lines, pos))
  }

  /** The trimmed header line a scan from line `pos` finds, if any. */
  function HeaderAt(lines: seq<string>, pos: nat): Option<string>
    requires pos <= |lines|
  {
    match HeaderIndex(lines, pos)
    case None => None
    case Some(i) => Some(Trim(lines[i]))
  }

  /** Where a scan from line `pos` leaves the stream: right after the header line, or
      at the end of the file. */
  function AfterHeader(lines: seq<string>, pos: nat): (b: nat)
    requires pos <= |lines|
    ensures pos <= b <= |lines|
  {
    match HeaderIndex(lines, pos)
    case None => |lines|
    case Some(i) => i + 1
  }

  /** The trimmed header line of a whole file, if it has one. */
  function HeaderText(lines: seq<string>): Option<string>
  {
    HeaderAt(lines, 0)
  }

  /** The line the body starts at: right after the header line, or the end of the file. */
  function BodyStart(lines: seq<string>): (b: nat)
    ensures b <= |lines|
  {
    AfterHeader(lines, 0)
  }

  /** The count a vector header line announces: `ss >> m_nRows` on the trimmed line,
      so `prev` survives when there is no header line or the line holds no number. */
  function CountOf(header: Option<string>, prev: int): (n: int)
    ensures header.None? || header == Some("") ==> n == prev
    ensures IntMin <= prev <= IntMax ==> IntMin <= n <= IntMax
  {
    match header
    case None => prev
    case Some(t) => ExtractInt(InStream(t, false), prev).1
  }

  /** The count the header of a whole vector file announces. */
  function HeaderCount(lines: seq<string>, prev: int): (n: int)
    ensures HeaderText(lines).None? ==> n == prev
    ensures IntMin <= prev <= IntMax ==> IntMin <= n <= IntMax
  {
    CountOf(HeaderText(lines), prev)
  }

  /** The line found is not a comment and every line passed over before it is one;
      when none is found, every line from `from` on is a comment. */
  lemma {:induction false} FirstDataLineSkipsOnlyComments(lines: seq<string>, from: nat)
    requires from <= |lines|
    ensures FirstDataLine(lines, from).Some? ==>
      !IsComment(lines[FirstDataLine(lines, from).value]) &&
      forall j :: from <= j < FirstDataLine(lines, from).value ==> IsComment(lines[j])
    ensures FirstDataLine(lines, from).None? ==>
      forall j :: from <= j < |lines| ==> IsComment(lines[j])
    decreases |lines| - from
  {
    if from < |lines| && IsComment(lines[from]) {
      FirstDataLineSkipsOnlyComments(lines, from + 1);
    }
  }

  /** The scan: pass over one line, then read lines until one is not a comment; that
      line, trimmed, is the header, and the stream stops right after it. Without such
      a line the stream ends up at the end of the file and there is no header. */
  method ScanHeader(s: LineStream) returns (header: Option<string>)
    requires s.Valid()
    modifies s
    ensures s.Valid()
    ensures header == HeaderAt(s.lines, old(s.pos))
    ensures s.pos == AfterHeader(s.lines, old(s.pos))
  {
    var titleRead, title := s.GetLine();
    var found, line := SkipCommentLines(s);
    if found {
      header := Some(Trim(line));
    } else {
      header := None;
    }
  }

  /** The `while (getline(...))` loop of the scan: reads lines until one is not a
      comment and returns it, or reaches the end of the file. */
  method SkipCommentLines(s: LineStream) returns (found: bool, line: string)
    requires s.Valid()
    modifies s
    ensures s.Valid()
    ensures found ==> 0 < s.pos && FirstDataLine(s.lines, old(s.pos)) == Some(s.pos - 1)
                      && line == s.lines[s.pos - 1]
    ensures !found ==> FirstDataLine(s.lines, old(s.pos)) == None && s.pos == |s.lines|
  {
    ghost var from := s.pos;
    var ok;
    ok, line := s.GetLine();
    while ok
      invariant s.Valid() && from <= s.pos
      invariant ok ==> from < s.pos && line == s.lines[s.pos - 1]
      invariant ok ==> FirstDataLine(s.lines, from) == FirstDataLine(s.lines, s.pos - 1)
      invariant !ok ==> s.pos == |s.lines| && FirstDataLine(s.lines, from) == None
      decreases |s.lines| - s.pos, ok
    {
      if !IsComment(line) {
        return true, line;
      }
      ok, line := s.GetLine();
    }
    found := false;
  }

  /** Comment lines between `from` and `to` are passed over. */
  lemma {:induction false} SkipComments(lines: seq<string>, from: nat, to: nat)
    requires from <= to <= |lines|
    requires forall j :: from <= j < to ==> IsComment(lines[j])
    ensures FirstDataLine(lines, from) == FirstDataLine(lines, to)
    decreases |lines| - from
  {
    if from < to {
      SkipComments(lines, from + 1, to);
    }
  }

  /** The scan depends only on the lines it visits: two files that agree from some
      point on find their first non-comment line at the same place relative to it. */
  lemma {:induction false} FirstDataLineShift(a: seq<string>, b: seq<string>, off: nat, from: nat)
    requires from <= |b| && |a| == |b| + off
    requires forall j :: from <= j < |b| ==> a[j + off] == b[j]
    ensures FirstDataLine(a, from + off)
         == match FirstDataLine(b, from)
            case None => None
            case Some(i) => Some(i + off)
    decreases |b| - from
  {
    if from < |b| {
      assert a[from + off] == b[from];
      FirstDataLineShift(a, b, off, from + 1);
    }
  }

  /** Comment lines after the title change nothing: a file with them has the same
      header line and the same body as the file without them. */
  lemma CommentsAreTransparent(title: string, comments: seq<string>, rest: seq<string>)
    requires forall i :: 0 <= i < |comments| ==> IsComment(comments[i])
    ensures HeaderText([title] + comments + rest) == HeaderText([title] + rest)
    ensures var a := [title] + comments + rest;
            var b := [title] + rest;
            a[BodyStart(a)..] == b[BodyStart(b)..]
  {
    var a := [title] + comments + rest;
    var b := [title] + rest;
    var c := |comments|;
    forall j | 1 <= j < 1 + c ensures IsComment(a[j]) {
      assert a[j] == comments[j - 1];
    }
    SkipComments(a, 1, 1 + c);
    forall j | 1 <= j < |b| ensures a[j + c] == b[j] {
      assert a[j + c] == rest[j - 1] == b[j];
    }
    FirstDataLineShift(a, b, c, 1);
    assert AfterTitle(a, 0) == 1 && AfterTitle(b, 0) == 1;
    match FirstDataLine(b, 1)
    case None =>
      assert HeaderIndex(a, 0) == None && HeaderIndex(b, 0) == None;
      assert BodyStart(a) == |a| && BodyStart(b) == |b|;
    case Some(i) =>
      assert HeaderIndex(a, 0) == Some(i + c) && HeaderIndex(b, 0) == Some(i);
      assert a[i + c] == b[i];
      assert BodyStart(a) == i + c + 1 && BodyStart(b) == i + 1;
      assert a[i + c + 1..] == b[i + 1..];
  }

  /** Blank lines are not skipped: a blank line after the title is taken as the header
      line, and its empty text yields no count, so the previous count survives. */
  lemma BlankLineIsHeader(title: string, rest: seq<string>, prev: int)
    ensures HeaderText([title, ""] + rest) == Some("")
    ensures HeaderCount([title, ""] + rest, prev) == prev
  {
    var a := [title, ""] + rest;
    assert a[1] == "";
    assert !IsComment("");
    assert FirstDataLine(a, 1) == Some(1);
  }
}
