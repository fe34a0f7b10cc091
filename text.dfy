/** Character-level helpers the readers use: `utils::string::trim`, whitespace
    tokenising, and extraction of an `int` from a `std::stringstream` with `>>`. */
module Text {
  import opened CppInt

  /** The characters `std::isspace` accepts in the "C" locale. */
  predicate IsSpace(c: char)
  {
    c == ' ' || c == '\t' || c == '\n' || c == '\r' || c == '\U{000B}' || c == '\U{000C}'
  }

  predicate IsDigit(c: char)
  {
    '0' <= c <= '9'
  }

  /** A whitespace-free, non-empty token. */
  predicate IsWord(w: string)
  {
    |w| > 0 && forall i :: 0 <= i < |w| ==> !IsSpace(w[i])
  }

  /** `s` without its leading whitespace. */
  function TrimLeft(s: string): (r: string)
    ensures |r| <= |s|
    ensures r == [] || !IsSpace(r[0])
  {
    if |s| > 0 && IsSpace(s[0]) then TrimLeft(s[1..]) else s
  }

  /** What `TrimLeft` cuts off is whitespace, and what it keeps is the rest of `s`. */
  lemma {:induction false} TrimLeftCutsSpace(s: string)
    ensures TrimLeft(s) == s[|s| - |TrimLeft(s)|..]
    ensures forall j :: 0 <= j < |s| - |TrimLeft(s)| ==> IsSpace(s[j])
  {
    if |s| > 0 && IsSpace(s[0]) {
      TrimLeftCutsSpace(s[1..]);
    }
  }

  /** `s` without its trailing whitespace. */
  function TrimRight(s: string): (r: string)
    ensures |r| <= |s| && r == s[..|r|]
    ensures forall j :: |r| <= j < |s| ==> IsSpace(s[j])
    ensures |s| > 0 && !IsSpace(s[0]) ==> |r| > 0
    ensures r == [] || !IsSpace(r[|r| - 1])
  {
    if |s| > 0 && IsSpace(s[|s| - 1]) then TrimRight(s[..|s| - 1]) else s
  }

  /** `utils::string::trim`: `s` without surrounding whitespace; the result neither
      starts nor ends with whitespace (`TrimIsSlice` says what was cut off). */
  function Trim(s: string): (r: string)
    ensures |r| <= |s|
    ensures r == [] || (!IsSpace(r[0]) && !IsSpace(r[|r| - 1]))
  {
    TrimRight(TrimLeft(s))
  }

  /** The trimmed text is the slice of `s` starting at `a`, and everything cut off on
      either side of it is whitespace. */
  lemma TrimIsSlice(s: string) returns (a: nat)
    ensures a + |Trim(s)| <= |s| && Trim(s) == s[a..a + |Trim(s)|]
    ensures forall j :: 0 <= j < a ==> IsSpace(s[j])
    ensures forall j :: a + |Trim(s)| <= j < |s| ==> IsSpace(s[j])
  {
    var t := TrimLeft(s);
    a := |s| - |t|;
    TrimLeftCutsSpace(s);
    assert Trim(s) == t[..|Trim(s)|];
  }

  /** Length of the run of non-whitespace characters at the front of `s`. */
  function WordLength(s: string): (k: nat)
    ensures k <= |s|
  {
    if |s| > 0 && !IsSpace(s[0]) then 1 + WordLength(s[1..]) else 0
  }

  /** The run `WordLength` measures is non-space, and ends at whitespace or the end. */
  lemma {:induction false} WordLengthRun(s: string)
    ensures forall j :: 0 <= j < WordLength(s) ==> !IsSpace(s[j])
    ensures WordLength(s) < |s| ==> IsSpace(s[WordLength(s)])
    ensures |s| > 0 && !IsSpace(s[0]) ==> WordLength(s) > 0
  {
    if |s| > 0 && !IsSpace(s[0]) {
      WordLengthRun(s[1..]);
    }
  }

  /** The whitespace-separated tokens of `s`, in order: what repeated `>>` into a
      token yields, and how a body line splits into its entries. */
  function Words(s: string): seq<string>
    decreases |s|
  {
    var t := TrimLeft(s);
    if t == [] then []
    else
      var k := WordLength(t);
      [t[..k]] + Words(t[k..])
  }

  /** Every entry is a whitespace-free, non-empty token. */
  predicate AllWords(ws: seq<string>)
  {
    forall i :: 0 <= i < |ws| ==> IsWord(ws[i])
  }

  /** Tokens joined by single spaces: how a well-formed line is written. */
  function Unwords(ws: seq<string>): string
  {
    if |ws| == 0 then ""
    else if |ws| == 1 then ws[0]
    else ws[0] + " " + Unwords(ws[1..])
  }

  lemma {:induction false} WordLengthOfWord(w: string, rest: string)
    requires IsWord(w)
    requires rest == [] || IsSpace(rest[0])
    ensures WordLength(w + rest) == |w|
    decreases |w|
  {
    if |w| > 1 {
      assert (w + rest)[1..] == w[1..] + rest;
      WordLengthOfWord(w[1..], rest);
    } else {
      assert (w + rest)[1..] == rest;
    }
  }

  /** A word followed by whitespace (or nothing) is split off as the first token. */
  lemma WordsOfWordThen(w: string, rest: string)
    requires IsWord(w)
    requires rest == [] || IsSpace(rest[0])
    ensures Words(w + rest) == [w] + Words(rest)
  {
    var s := w + rest;
    assert s[0] == w[0];
    assert TrimLeft(s) == s;
    WordLengthOfWord(w, rest);
    assert s[..|w|] == w;
    assert s[|w|..] == rest;
  }

  /** A single word splits into itself. */
  lemma WordsOfWord(w: string)
    requires IsWord(w)
    ensures Words(w) == [w]
  {
    assert TrimLeft(w) == w;
    WordLengthOfWhole(w);
    assert w[..|w|] == w;
    assert w[|w|..] == [];
  }

  lemma {:induction false} WordLengthOfWhole(w: string)
    requires forall i :: 0 <= i < |w| ==> !IsSpace(w[i])
    ensures WordLength(w) == |w|
  {
    if |w| > 0 {
      WordLengthOfWhole(w[1..]);
    }
  }

  lemma WordsOfSpaceThen(s: string)
    ensures Words(" " + s) == Words(s)
  {
    assert (" " + s)[1..] == s;
    assert TrimLeft(" " + s) == TrimLeft(s);
  }

  /** Splitting yields whitespace-free, non-empty tokens only. */
  lemma {:induction false} WordsAreWords(s: string)
    ensures AllWords(Words(s))
    decreases |s|
  {
    var t := TrimLeft(s);
    if t != [] {
      var k := WordLength(t);
      WordLengthRun(t);
      WordsAreWords(t[k..]);
    }
  }

  /** A word, a space and more text: the word is the first token, the text gives the rest. */
  lemma WordsOfJoin(w: string, tail: string)
    requires IsWord(w)
    ensures Words(w + " " + tail) == [w] + Words(tail)
  {
    assert w + " " + tail == w + (" " + tail);
    WordsOfWordThen(w, " " + tail);
    WordsOfSpaceThen(tail);
  }

  /** Splitting a line written from tokens gives the tokens back. */
  lemma {:induction false} WordsOfUnwords(ws: seq<string>)
    requires forall i :: 0 <= i < |ws| ==> IsWord(ws[i])
    ensures Words(Unwords(ws)) == ws
  {
    if |ws| == 1 {
      WordsOfWord(ws[0]);
    } else if |ws| > 1 {
      var tail := Unwords(ws[1..]);
      assert Unwords(ws) == ws[0] + " " + tail;
      WordsOfUnwords(ws[1..]);
      WordsOfJoin(ws[0], tail);
      assert [ws[0]] + ws[1..] == ws;
    }
  }

  /** A `std::stringstream` over one line: the characters not yet consumed, and
      whether a previous extraction has set `failbit`. */
  datatype InStream = InStream(rest: string, failed: bool)

  /** Number of decimal digits at the front of `s`. */
  function DigitRun(s: string): (k: nat)
    ensures k <= |s|
  {
    if |s| > 0 && IsDigit(s[0]) then 1 + DigitRun(s[1..]) else 0
  }

  /** The value of a string of decimal digits, most significant first. */
  function DigitsValue(s: string): nat
  {
    if |s| == 0 then 0 else 10 * DigitsValue(s[..|s| - 1]) + DigitValue(s[|s| - 1])
  }

  /** The value of a decimal digit (and 0 for any other character, which the
      conversion never passes it). */
  function DigitValue(c: char): (d: nat)
    ensures d < 10
  {
    if IsDigit(c) then c as int - '0' as int else 0
  }

  /** `ss >> v` for an `int` `v`, as libstdc++ does it: once `failbit` is set nothing
      is read and `v` keeps its value; the sentry skips whitespace and, finding the
      end of the line, fails and leaves `v` alone; otherwise an optional sign and a
      run of digits are read, no digits storing 0 and failing, and a value outside
      the `int` range storing the nearest bound and failing. */
  function ExtractInt(ss: InStream, v: int): (r: (InStream, int))
    ensures ss.failed ==> r == (ss, v)
    ensures !r.0.failed ==> !ss.failed && IntMin <= r.1 <= IntMax
    ensures IntMin <= v <= IntMax ==> IntMin <= r.1 <= IntMax
  {
    if ss.failed then (ss, v)
    else
      var t := TrimLeft(ss.rest);
      if t == [] then (InStream([], true), v) else ReadSigned(t)
  }

  /** The number conversion proper, on text that starts with a non-space character. */
  function ReadSigned(t: string): (r: (InStream, int))
    requires t != []
    ensures IntMin <= r.1 <= IntMax
  {
    var negative := t[0] == '-';
    var digits := if t[0] == '-' || t[0] == '+' then t[1..] else t;
    var k := DigitRun(digits);
    if k == 0 then (InStream(digits, true), 0)
    else
      var m: int := DigitsValue(digits[..k]);
      var n := if negative then -m else m;
      if n < IntMin then (InStream(digits[k..], true), IntMin)
      else if n > IntMax then (InStream(digits[k..], true), IntMax)
      else (InStream(digits[k..], false), n)
  }

  function DigitChar(d: nat): (c: char)
    requires d < 10
    ensures IsDigit(c) && DigitValue(c) == d
  {
    ('0' as int + d) as char
  }

  /** The shortest decimal writing of `n`. */
  function Decimal(n: nat): (s: string)
    ensures |s| > 0 && forall i :: 0 <= i < |s| ==> IsDigit(s[i])
  {
    if n < 10 then [DigitChar(n)] else Decimal(n / 10) + [DigitChar(n % 10)]
  }

  lemma {:induction false} DigitsValueOfDecimal(n: nat)
    ensures DigitsValue(Decimal(n)) == n
  {
    if n >= 10 {
      var s := Decimal(n);
      assert s[..|s| - 1] == Decimal(n / 10);
      DigitsValueOfDecimal(n / 10);
    }
  }

  lemma {:induction false} DigitRunOfDigits(d: string, rest: string)
    requires forall i :: 0 <= i < |d| ==> IsDigit(d[i])
    requires rest == [] || !IsDigit(rest[0])
    ensures DigitRun(d + rest) == |d|
    decreases |d|
  {
    if |d| > 0 {
      assert (d + rest)[1..] == d[1..] + rest;
      DigitRunOfDigits(d[1..], rest);
    } else {
      assert d + rest == rest;
    }
  }

  /** Round trip: extracting from an in-range number written in decimal, followed by
      anything that is not a digit, yields that number and leaves the rest unread. */
  lemma ExtractIntOfDecimal(n: nat, rest: string, v: int)
    requires n <= IntMax
    requires rest == [] || !IsDigit(rest[0])
    ensures ExtractInt(InStream(Decimal(n) + rest, false), v) == (InStream(rest, false), n)
  {
    var s := Decimal(n) + rest;
    assert s[0] == Decimal(n)[0];
    TrimLeftOfNonSpace(s);
    ReadSignedOfDecimal(n, rest);
  }

  /** The same, after one separating space: how the second and third counts of a
      header line are read. */
  lemma ExtractIntAfterSpace(n: nat, rest: string, v: int)
    requires n <= IntMax
    requires rest == [] || !IsDigit(rest[0])
    ensures ExtractInt(InStream(" " + (Decimal(n) + rest), false), v) == (InStream(rest, false), n)
  {
    var s := Decimal(n) + rest;
    assert (" " + s)[1..] == s;
    assert TrimLeft(" " + s) == TrimLeft(s);
    assert s[0] == Decimal(n)[0];
    TrimLeftOfNonSpace(s);
    ReadSignedOfDecimal(n, rest);
  }

  lemma TrimLeftOfNonSpace(s: string)
    requires |s| > 0 && !IsSpace(s[0])
    ensures TrimLeft(s) == s
  {
  }

  lemma ReadSignedOfDecimal(n: nat, rest: string)
    requires n <= IntMax
    requires rest == [] || !IsDigit(rest[0])
    ensures ReadSigned(Decimal(n) + rest) == (InStream(rest, false), n)
  {
    var d := Decimal(n);
    var s := d + rest;
    assert s[0] == d[0] && IsDigit(s[0]);
    DigitRunOfDigits(d, rest);
    assert s[..|d|] == d;
    assert s[|d|..] == rest;
    DigitsValueOfDecimal(n);
  }
}
