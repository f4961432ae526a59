/** The log of a Docker update, reduced to the lines that can be markers: a reader with a bounded buffer, over
    the whole log or over a window at each end of it, against a plain pass over the lines of the log.

    What every marker starts with is a parameter, `prefix`, and is not empty. */
module DockerMarkers {

  newtype Byte = b: int | 0 <= b < 256

  type Bytes = seq<Byte>

  const NL: Byte := 10
  const CR: Byte := 13

  predicate IsMarkerLine(prefix: Bytes, line: Bytes) {
    prefix <= line
  }

  // ---------------------------------------------------------------- lines

  /** Where the first new line is, or the length when there is none. */
  function FirstNewline(s: Bytes): (n: nat)
    ensures n <= |s| && (n < |s| ==> s[n] == NL)
    ensures forall k :: 0 <= k < n ==> s[k] != NL
  {
    if s == [] || s[0] == NL then 0 else 1 + FirstNewline(s[1..])
  }

  /** How long the first line is, its new line included. */
  function LineLength(s: Bytes): (n: nat)
    requires s != []
    ensures 0 < n <= |s|
  {
    var n := FirstNewline(s);
    if n == |s| then n else n + 1
  }

  /** The text with every carriage return and new line at its end taken off. */
  function TrimRight(s: Bytes): (t: Bytes)
    ensures t <= s && (t != [] ==> t[|t| - 1] != NL && t[|t| - 1] != CR)
    ensures forall k :: |t| <= k < |s| ==> s[k] == NL || s[k] == CR
  {
    if s != [] && (s[|s| - 1] == NL || s[|s| - 1] == CR) then TrimRight(s[..|s| - 1]) else s
  }

  function Min(a: nat, b: nat): nat {
    if a < b then a else b
  }

  predicate IsEnded(line: Bytes) {
    line != [] && line[|line| - 1] == NL
  }

  /** Whether a line fits a buffer of `size`: an unended one must leave room, or its end is not seen. */
  predicate Fits(line: Bytes, size: nat) {
    if IsEnded(line) then |line| <= size else |line| < size
  }

  predicate IsMarker(prefix: Bytes, line: Bytes, size: nat) {
    Fits(line, size) && IsMarkerLine(prefix, TrimRight(line))
  }

  /** Which lines are markers, for a prefix that does not end as a line does: those that begin with it, and that fit the
      buffer whole, with room for an end when they have none. */
  lemma {:induction false} MarkerExactly(prefix: Bytes, line: Bytes, size: nat)
    requires prefix != [] && prefix[|prefix| - 1] != 10 && prefix[|prefix| - 1] != 13
    ensures IsMarker(prefix, line, size) <==>
      && |prefix| <= |line| && line[..|prefix|] == prefix
      && |line| <= size && (line[|line| - 1] != 10 ==> |line| < size)
  {
    var text := TrimRight(line);
    if |prefix| <= |line| && line[..|prefix|] == prefix {
      assert line[|prefix| - 1] == prefix[|prefix| - 1];
      assert text[..|prefix|] == line[..|prefix|];
    }
  }

  /** The text of a line of which `seen` bytes are seen. */
  function TextOf(line: Bytes, seen: nat): Bytes {
    TrimRight(line[..Min(seen, |line|)])
  }

  /** The lines of a text, in order, each with its new line; only the last one may have none. */
  datatype Lines = NoLine | Line(line: Bytes, rest: Lines)

  function LinesOf(data: Bytes): Lines
    decreases |data|
  {
    if data == [] then NoLine
    else Line(data[..LineLength(data)], LinesOf(data[LineLength(data)..]))
  }

  /** The texts that are kept, in order. */
  datatype Texts = Nothing | Text(text: Bytes, rest: Texts)

  function Also(keep: bool, text: Bytes, rest: Texts): Texts {
    if keep then Text(text, rest) else rest
  }

  function Join(a: Texts, b: Texts): Texts {
    match a
    case Nothing => b
    case Text(text, rest) => Text(text, Join(rest, b))
  }

  /** The texts as they are written out, each ended by a new line. */
  function Written(texts: Texts): Bytes {
    match texts
    case Nothing => []
    case Text(text, rest) => text + [NL] + Written(rest)
  }

  /** What is collected from the lines of a reader: of the first its head, of the others the markers that fit.
      `inside` is a reader that begins inside a line, whose end is skipped; `cut` one that ends inside its last
      line. */
  function Collected(prefix: Bytes, lines: Lines, size: nat, first: bool, inside: bool, cut: bool): Texts {
    match lines
    case NoLine => Nothing
    case Line(line, rest) =>
      var keep := !inside && (first || (!(cut && !IsEnded(line)) && IsMarker(prefix, line, size)));
      Also(keep, TextOf(line, size), Collected(prefix, rest, size, first && inside, false, cut))
  }

  // ---------------------------------------------------------------- the reader

  datatype ReadEnd = AtNewline | BufferFull | EndOfFile

  /** What the buffered reader gives next of what is left: up to a new line, a full buffer, or the end. */
  function ReadSlice(rest: Bytes, size: nat): (r: (Bytes, ReadEnd))
    ensures r.0 <= rest
    ensures r.1.AtNewline? <==> IsEnded(r.0)
    ensures r.1.EndOfFile? ==> r.0 == rest
    ensures r.1.BufferFull? ==> |r.0| == size
  {
    var n := FirstNewline(rest);
    if n < |rest| && n < size then (rest[..n + 1], AtNewline)
    else if |rest| >= size then (rest[..size], BufferFull)
    else (rest, EndOfFile)
  }

  /** Whether what was read is kept: the head of the first line, or a whole line that is a marker. */
  predicate Keeps(prefix: Bytes, fragment: Bytes, end: ReadEnd, first: bool, atStart: bool, cut: bool) {
    var whole := end.AtNewline? || (end.EndOfFile? && !cut);
    atStart && ((first && (|fragment| > 0 || !end.EndOfFile?)) || (whole && IsMarkerLine(prefix, TrimRight(fragment))))
  }

  lemma {:induction false} FirstNewlineAfter(s: Bytes, k: nat)
    requires k <= FirstNewline(s)
    ensures FirstNewline(s[k..]) == FirstNewline(s) - k
  {
  }

  lemma {:induction false} SliceOfSuffix(s: Bytes, n: nat, k: nat)
    requires k <= n <= |s|
    ensures s[k..][n - k..] == s[n..] && s[k..][..n - k] == s[..n][k..]
  {
  }

  lemma {:induction false} OneLine(data: Bytes)
    requires data != [] && FirstNewline(data) == |data|
    ensures LinesOf(data) == Line(data, NoLine)
  {
    assert data[..|data|] == data && data[|data|..] == [];
  }

  /** Reading on from inside a line skips the rest of it, and goes on with the lines that follow it. */
  lemma {:induction false} RestOfLine(data: Bytes, k: nat)
    requires k <= FirstNewline(data) && k < |data|
    ensures LinesOf(data[k..]) == Line(data[..LineLength(data)][k..], LinesOf(data).rest)
  {
    var n, tail := LineLength(data), data[k..];
    FirstNewlineAfter(data, k);
    assert LineLength(tail) == n - k;
    SliceOfSuffix(data, n, k);
    assert LinesOf(tail) == Line(tail[..n - k], LinesOf(tail[n - k..]));
  }

  /** A slice that ends in its line is the line, and one that fills the buffer the beginning of one that does
      not fit; what follows the slice is the lines that follow, or the rest of the line. */
  lemma {:induction false} SliceEnds(rest: Bytes, size: nat)
    requires rest != [] && size > 0 && !ReadSlice(rest, size).1.BufferFull?
    ensures
      var (fragment, end) := ReadSlice(rest, size);
      var Line(line, others) := LinesOf(rest);
      && fragment == line && Fits(line, size) && TrimRight(fragment) == TextOf(line, size)
      && (end.EndOfFile? ==> others == NoLine)
  {
    if FirstNewline(rest) == |rest| {
      OneLine(rest);
    }
    var line := LinesOf(rest).line;
    assert line[..|line|] == line;
  }

  lemma {:induction false} SliceFills(rest: Bytes, size: nat)
    requires rest != [] && size > 0 && ReadSlice(rest, size).1.BufferFull?
    ensures
      var fragment := ReadSlice(rest, size).0;
      var Line(line, others) := LinesOf(rest);
      && !Fits(line, size) && TrimRight(fragment) == TextOf(line, size)
      && LinesOf(rest[size..]) == if size < |rest| then Line(line[size..], others) else others
  {
    var n := LineLength(rest);
    assert rest[..size] == rest[..n][..Min(size, n)];
    if size < |rest| {
      RestOfLine(rest, size);
    } else {
      OneLine(rest);
      assert rest[size..] == [];
    }
  }

  /** One turn of the reading: whether the fragment is kept, and what is left to collect. */
  lemma {:induction false} Turn(prefix: Bytes, rest: Bytes, size: nat, first: bool, atStart: bool, cut: bool)
    requires size > 0 && prefix != []
    ensures
      var (fragment, end) := ReadSlice(rest, size);
      Collected(prefix, LinesOf(rest), size, first, !atStart, cut)
      == Also(Keeps(prefix, fragment, end, first, atStart, cut), TrimRight(fragment),
              if end.EndOfFile? then Nothing
              else Collected(prefix, LinesOf(rest[|fragment|..]), size, first && !atStart, !end.AtNewline?, cut))
  {
    var (fragment, end) := ReadSlice(rest, size);
    if rest == [] {
      assert TrimRight([]) == [];
    } else {
      if end.BufferFull? {
        SliceFills(rest, size);
      } else {
        SliceEnds(rest, size);
      }
    }
  }

  lemma {:induction false} Associative(a: Bytes, b: Bytes, c: Bytes)
    ensures a + (b + c) == a + b + c
  {
  }

  /** `startsInLine`: the data begins inside a line, whose end is skipped. `endsInLine`: it ends where its reader
      was stopped, and a last line with no new line is cut. */
  method CollectDockerMarkers(prefix: Bytes, data: Bytes, size: nat, isFirst: bool, startsInLine: bool, endsInLine: bool)
    returns (out: Bytes)
    requires size > 0 && prefix != []
    ensures out == Written(Collected(prefix, LinesOf(data), size, isFirst, startsInLine, endsInLine))
  {
    out := [];
    var first, atStart, rest := isFirst, !startsInLine, data;
    ghost var left := Collected(prefix, LinesOf(data), size, isFirst, startsInLine, endsInLine);
    while true
      invariant left == Collected(prefix, LinesOf(rest), size, first, !atStart, endsInLine)
      invariant out + Written(left) == Written(Collected(prefix, LinesOf(data), size, isFirst, startsInLine, endsInLine))
      decreases |rest|
    {
      var (fragment, end) := ReadSlice(rest, size);
      Turn(prefix, rest, size, first, atStart, endsInLine);
      if Keeps(prefix, fragment, end, first, atStart, endsInLine) {
        Associative(out, TrimRight(fragment) + [NL], Written(left.rest));
        out := out + (TrimRight(fragment) + [NL]);
        left := left.rest;
      }
      if atStart {
        first := false;
      }
      // the turns up to the next new line see only middles of this line
      atStart := end.AtNewline?;
      rest := rest[|fragment|..];
      if end.EndOfFile? {
        break;
      }
    }
  }

  // ---------------------------------------------------------------- the log

  /** A plain pass over lines that begin at `off` of a log: of the first line the head that is seen, of every
      other line the marker it is, when it fits and lies whole in the first `lo` bytes or begins at `hi` or
      later. */
  function Plain(prefix: Bytes, lines: Lines, off: nat, size: nat, first: bool, lo: nat, hi: nat): Texts {
    match lines
    case NoLine => Nothing
    case Line(line, rest) =>
      var keep := first || (IsMarker(prefix, line, size) && (off + |line| <= lo || hi <= off));
      Also(keep, TextOf(line, if first then Min(size, lo) else size),
           Plain(prefix, rest, off + |line|, size, false, lo, hi))
  }

  function Length(lines: Lines): nat {
    match lines
    case NoLine => 0
    case Line(line, rest) => |line| + Length(rest)
  }

  /** No line is empty, and only the last has no new line, which every other has at its end alone. */
  predicate Proper(lines: Lines) {
    lines.Line? ==>
      && lines.line != [] && FirstNewline(lines.line) >= |lines.line| - 1
      && (lines.rest.Line? ==> IsEnded(lines.line)) && Proper(lines.rest)
  }

  lemma {:induction false} FirstNewlineBefore(s: Bytes, k: nat)
    requires k <= |s|
    ensures FirstNewline(s[..k]) == Min(k, FirstNewline(s))
  {
  }

  lemma {:induction false} LinesAreProper(data: Bytes)
    ensures Proper(LinesOf(data)) && Length(LinesOf(data)) == |data|
    decreases |data|
  {
    if data != [] {
      FirstNewlineBefore(data, LineLength(data));
      LinesAreProper(data[LineLength(data)..]);
    }
  }

  /** The lines of the first `k` bytes, the last of them cut. */
  function Take(lines: Lines, k: nat): Lines {
    match lines
    case NoLine => NoLine
    case Line(line, rest) =>
      if k == 0 then NoLine
      else if |line| <= k then Line(line, Take(rest, k - |line|))
      else Line(line[..k], NoLine)
  }

  /** The lines after the first `k` bytes, the first of them cut. */
  function Drop(lines: Lines, k: nat): Lines {
    match lines
    case NoLine => NoLine
    case Line(line, rest) =>
      if |line| <= k then Drop(rest, k - |line|) else Line(line[k..], rest)
  }

  lemma {:induction false} SliceOfPrefix(s: Bytes, n: nat, k: nat)
    requires n <= k <= |s|
    ensures s[..k][..n] == s[..n] && s[..k][n..] == s[n..][..k - n] && s[k..] == s[n..][k - n..]
  {
  }

  lemma {:induction false} LinesBegin(data: Bytes, line: Bytes, rest: Bytes)
    requires data != [] && line == data[..LineLength(data)] && rest == data[LineLength(data)..]
    ensures LinesOf(data) == Line(line, LinesOf(rest))
  {
  }

  /** The first `k` bytes of a text, of which the first line is no longer. */
  lemma {:induction false} TakesLine(data: Bytes, k: nat, n: nat)
    requires data != [] && n == LineLength(data) <= k <= |data|
    ensures LinesOf(data[..k]) == Line(data[..n], LinesOf(data[n..][..k - n]))
  {
    FirstNewlineBefore(data, k);
    SliceOfPrefix(data, n, k);
    assert LineLength(data[..k]) == n;
    LinesBegin(data[..k], data[..n], data[n..][..k - n]);
  }

  lemma {:induction false} TakesCut(data: Bytes, k: nat, n: nat)
    requires data != [] && 0 < k < n == LineLength(data)
    ensures LinesOf(data[..k]) == Line(data[..k], NoLine) && data[..n][..k] == data[..k]
  {
    FirstNewlineBefore(data, k);
    OneLine(data[..k]);
    SliceOfPrefix(data, k, n);
  }

  lemma {:induction false} LinesOfTake(data: Bytes, k: nat)
    requires k <= |data|
    ensures LinesOf(data[..k]) == Take(LinesOf(data), k)
    decreases |data|
  {
    if k > 0 {
      var n := LineLength(data);
      LinesBegin(data, data[..n], data[n..]);
      if n <= k {
        TakesLine(data, k, n);
        LinesOfTake(data[n..], k - n);
      } else {
        TakesCut(data, k, n);
      }
    }
  }

  lemma {:induction false} LinesOfDrop(data: Bytes, k: nat)
    requires k <= |data|
    ensures LinesOf(data[k..]) == Drop(LinesOf(data), k)
    decreases |data|
  {
    if data != [] {
      var n := LineLength(data);
      if n <= k {
        SliceOfPrefix(data, n, k);
        LinesOfDrop(data[n..], k - n);
      } else {
        RestOfLine(data, k);
      }
    }
  }

  lemma {:induction false} NothingLow(prefix: Bytes, lines: Lines, off: nat, size: nat, lo: nat, hi: nat)
    requires lo <= off && off + Length(lines) <= hi && Proper(lines)
    ensures Plain(prefix, lines, off, size, false, lo, hi) == Nothing
  {
    if lines.Line? {
      NothingLow(prefix, lines.rest, off + |lines.line|, size, lo, hi);
    }
  }

  /** What a pass sees is what lies whole at the beginning, and then what begins near the end. */
  lemma {:induction false} PlainSplits(prefix: Bytes, lines: Lines, off: nat, size: nat, first: bool, lo: nat, hi: nat, end: nat)
    requires lo < hi && (first ==> off < hi) && Proper(lines) && off + Length(lines) <= end
    ensures Plain(prefix, lines, off, size, first, lo, hi)
         == Join(Plain(prefix, lines, off, size, first, lo, end), Plain(prefix, lines, off, size, false, 0, hi))
  {
    if lines.Line? {
      var next := off + |lines.line|;
      PlainSplits(prefix, lines.rest, next, size, false, lo, hi, end);
      if off >= hi {
        NothingLow(prefix, lines, off, size, lo, end);
        NothingLow(prefix, lines.rest, next, size, lo, end);
      }
    }
  }

  lemma {:induction false} TextOfCut(line: Bytes, lo: nat, size: nat)
    requires lo <= |line|
    ensures TextOf(line[..lo], size) == TextOf(line, Min(size, lo))
  {
    assert line[..lo][..Min(size, lo)] == line[..Min(size, lo)];
  }

  lemma {:induction false} CutIsUnended(line: Bytes, lo: nat)
    requires lo < |line| && FirstNewline(line) >= |line| - 1
    ensures !IsEnded(line[..lo])
  {
  }

  lemma {:induction false} CutCollects(prefix: Bytes, cut: Bytes, size: nat, first: bool)
    requires !IsEnded(cut)
    ensures Collected(prefix, Line(cut, NoLine), size, first, false, true) == Also(first, TextOf(cut, size), Nothing)
  {
  }

  lemma {:induction false} CutIsPlain(prefix: Bytes, line: Bytes, rest: Lines, off: nat, size: nat, first: bool, lo: nat, end: nat)
    requires lo < off + |line| && off < end
    ensures Plain(prefix, Line(line, rest), off, size, first, lo, end)
         == Also(first, TextOf(line, if first then Min(size, lo) else size), Plain(prefix, rest, off + |line|, size, false, lo, end))
  {
  }

  /** A window that ends inside its first line. */
  lemma {:induction false} CutWindow(prefix: Bytes, line: Bytes, rest: Lines, off: nat, size: nat, first: bool, lo: nat, end: nat)
    requires FirstNewline(line) >= |line| - 1 && off < lo < off + |line| <= end && (first ==> off == 0)
    requires Plain(prefix, rest, off + |line|, size, false, lo, end) == Nothing
    ensures Collected(prefix, Line(line[..lo - off], NoLine), size, first, false, true)
         == Plain(prefix, Line(line, rest), off, size, first, lo, end)
  {
    CutIsUnended(line, lo - off);
    CutCollects(prefix, line[..lo - off], size, first);
    CutIsPlain(prefix, line, rest, off, size, first, lo, end);
    TextOfCut(line, lo - off, size);
  }

  /** A window that goes on after its first line. */
  lemma {:induction false} WholeLine(prefix: Bytes, line: Bytes, seen: Lines, rest: Lines, off: nat, size: nat, first: bool, lo: nat, end: nat)
    requires IsEnded(line) && off + |line| <= lo && (first ==> off == 0)
    requires Collected(prefix, seen, size, false, false, true) == Plain(prefix, rest, off + |line|, size, false, lo, end)
    ensures Collected(prefix, Line(line, seen), size, first, false, true)
         == Plain(prefix, Line(line, rest), off, size, first, lo, end)
  {
    assert first ==> Min(size, |line|) == Min(Min(size, lo), |line|);
  }

  /** The first window, which ends at `lo`. */
  lemma {:induction false} FirstWindow(prefix: Bytes, lines: Lines, off: nat, size: nat, first: bool, lo: nat, end: nat)
    requires Proper(lines) && off <= lo < end && end == off + Length(lines) && (first ==> off == 0 < lo)
    ensures Collected(prefix, Take(lines, lo - off), size, first, false, true) == Plain(prefix, lines, off, size, first, lo, end)
  {
    var k := lo - off;
    match lines
    case Line(line, rest) =>
      if k == 0 {
        assert Take(lines, k) == NoLine;
        NothingLow(prefix, lines, off, size, lo, end);
      } else if |line| <= k {
        assert Take(lines, k) == Line(line, Take(rest, k - |line|));
        FirstWindow(prefix, rest, off + |line|, size, false, lo, end);
        WholeLine(prefix, line, Take(rest, k - |line|), rest, off, size, first, lo, end);
      } else {
        assert Take(lines, k) == Line(line[..k], NoLine);
        NothingLow(prefix, rest, off + |line|, size, lo, end);
        CutWindow(prefix, line, rest, off, size, first, lo, end);
      }
  }

  lemma {:induction false} FromStart(prefix: Bytes, lines: Lines, off: nat, size: nat, hi: nat)
    requires hi <= off
    ensures Collected(prefix, lines, size, false, false, false) == Plain(prefix, lines, off, size, false, 0, hi)
  {
    if lines.Line? {
      FromStart(prefix, lines.rest, off + |lines.line|, size, hi);
    }
  }

  /** A line that begins before the last window is in no pass over it. */
  lemma {:induction false} NotInLast(prefix: Bytes, line: Bytes, rest: Lines, off: nat, size: nat, hi: nat)
    requires off < hi && line != []
    ensures Plain(prefix, Line(line, rest), off, size, false, 0, hi) == Plain(prefix, rest, off + |line|, size, false, 0, hi)
  {
  }

  lemma {:induction false} SkipsCut(prefix: Bytes, cut: Bytes, rest: Lines, size: nat)
    ensures Collected(prefix, Line(cut, rest), size, false, true, false) == Collected(prefix, rest, size, false, false, false)
  {
  }

  /** The last window, read from the byte before `hi`. */
  lemma {:induction false} LastWindow(prefix: Bytes, lines: Lines, off: nat, size: nat, hi: nat)
    requires Proper(lines) && off < hi <= off + Length(lines) + 1
    ensures Collected(prefix, Drop(lines, hi - 1 - off), size, false, true, false) == Plain(prefix, lines, off, size, false, 0, hi)
  {
    match lines
    case NoLine =>
    case Line(line, rest) =>
      var k, next := hi - 1 - off, off + |line|;
      NotInLast(prefix, line, rest, off, size, hi);
      if |line| <= k {
        assert Drop(lines, k) == Drop(rest, k - |line|);
        LastWindow(prefix, rest, next, size, hi);
      } else {
        assert Drop(lines, k) == Line(line[k..], rest);
        SkipsCut(prefix, line[k..], rest, size);
        FromStart(prefix, rest, next, size, hi);
      }
  }

  lemma {:induction false} WholeLog(prefix: Bytes, lines: Lines, off: nat, size: nat, first: bool, end: nat)
    requires Proper(lines) && end == off + Length(lines) && (first ==> off == 0)
    ensures Collected(prefix, lines, size, first, false, false) == Plain(prefix, lines, off, size, first, end, end)
  {
    if lines.Line? {
      WholeLog(prefix, lines.rest, off + |lines.line|, size, false, end);
    }
  }

  lemma {:induction false} WrittenJoin(a: Texts, b: Texts)
    ensures Written(Join(a, b)) == Written(a) + Written(b)
  {
    if a.Text? {
      WrittenJoin(a.rest, b);
      Associative(a.text + [NL], Written(a.rest), Written(b));
    }
  }

  lemma {:induction false} PlainOfBoth(prefix: Bytes, lines: Lines, half: nat, hi: nat, size: nat, first: Texts, last: Texts)
    requires Proper(lines) && 0 < half < hi <= Length(lines)
    requires first == Plain(prefix, lines, 0, size, true, half, Length(lines)) && last == Plain(prefix, lines, 0, size, false, 0, hi)
    ensures Join(first, last) == Plain(prefix, lines, 0, size, true, half, hi)
  {
    PlainSplits(prefix, lines, 0, size, true, half, hi, Length(lines));
  }

  lemma {:induction false} FirstOfBoth(prefix: Bytes, lines: Lines, start: Lines, half: nat, size: nat, first: Texts)
    requires Proper(lines) && 0 < half < Length(lines) && start == Take(lines, half)
    requires first == Collected(prefix, start, size, true, false, true)
    ensures first == Plain(prefix, lines, 0, size, true, half, Length(lines))
  {
    FirstWindow(prefix, lines, 0, size, true, half, Length(lines));
  }

  lemma {:induction false} LastOfBoth(prefix: Bytes, lines: Lines, end: Lines, hi: nat, size: nat, last: Texts)
    requires Proper(lines) && 0 < hi <= Length(lines) && end == Drop(lines, hi - 1)
    requires last == Collected(prefix, end, size, false, true, false)
    ensures last == Plain(prefix, lines, 0, size, false, 0, hi)
  {
    LastWindow(prefix, lines, 0, size, hi);
  }

  lemma {:induction false} BothArePlain(prefix: Bytes, lines: Lines, start: Lines, end: Lines, half: nat, hi: nat, size: nat)
    requires Proper(lines) && 0 < half < hi <= Length(lines) && start == Take(lines, half) && end == Drop(lines, hi - 1)
    ensures Join(Collected(prefix, start, size, true, false, true), Collected(prefix, end, size, false, true, false))
         == Plain(prefix, lines, 0, size, true, half, hi)
  {
    var first, last := Collected(prefix, start, size, true, false, true), Collected(prefix, end, size, false, true, false);
    FirstOfBoth(prefix, lines, start, half, size, first);
    LastOfBoth(prefix, lines, end, hi, size, last);
    PlainOfBoth(prefix, lines, half, hi, size, first, last);
  }

  /** The two windows of a log, one after the other, are the plain pass over it. */
  lemma {:induction false} WindowsArePlain(prefix: Bytes, data: Bytes, half: nat, hi: nat, size: nat)
    requires 0 < half < hi <= |data|
    ensures Join(Collected(prefix, LinesOf(data[..half]), size, true, false, true),
                 Collected(prefix, LinesOf(data[hi - 1..]), size, false, true, false))
         == Plain(prefix, LinesOf(data), 0, size, true, half, hi)
  {
    LinesAreProper(data);
    LinesOfTake(data, half);
    LinesOfDrop(data, hi - 1);
    BothArePlain(prefix, LinesOf(data), LinesOf(data[..half]), LinesOf(data[hi - 1..]), half, hi, size);
  }

  lemma {:induction false} SamePrefix(before: Bytes, after: Bytes, k: nat)
    requires before <= after && k <= |before|
    ensures before[..k] == after[..k]
  {
  }

  /** Reads a log that is `before` when it is looked at and `after` by the time its end is read: the update that
      writes it only appends. What comes out is what a plain pass over its lines sees: every line of a log
      within the limit, and of a longer one the lines that lie in its first half of the limit or begin in its
      last. */
  method ReadDockerMarkers(prefix: Bytes, before: Bytes, after: Bytes, limit: nat, size: nat) returns (out: Bytes)
    requires before <= after && limit >= 2 && size > 0 && prefix != []
    ensures |before| <= limit ==> out == Written(Plain(prefix, LinesOf(before), 0, size, true, |before|, |before|))
    ensures |before| > limit ==>
      out == Written(Plain(prefix, LinesOf(after), 0, size, true, limit / 2, |before| - limit / 2))
  {
    if |before| <= limit {
      // `after` may be longer by now: the lines added since are left to a later call
      out := CollectDockerMarkers(prefix, before, size, true, false, false);
      LinesAreProper(before);
      WholeLog(prefix, LinesOf(before), 0, size, true, |before|);
      return;
    }
    var half := limit / 2;
    var start := CollectDockerMarkers(prefix, before[..half], size, true, false, true);
    var end := CollectDockerMarkers(prefix, after[|before| - half - 1..], size, false, true, false);
    SamePrefix(before, after, half);
    WrittenJoin(Collected(prefix, LinesOf(after[..half]), size, true, false, true),
                Collected(prefix, LinesOf(after[|before| - half - 1..]), size, false, true, false));
    WindowsArePlain(prefix, after, half, |before| - half, size);
    out := start + end;
  }
}
