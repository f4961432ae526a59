/** Lines of text as the core writes and reads them: trimming, scanning, splitting, and looking for a line. */
module TextLines {

  type Text = seq<char>

  const NL: char := '\n'

  /** The white space that trimming takes off. */
  predicate IsSpace(c: char) {
    '\t' <= c <= '\r' || c == ' ' || c == '\U{0085}' || c == '\U{00A0}' || c == '\U{1680}' || '\U{2000}' <= c <= '\U{200A}'
    || c == '\U{2028}' || c == '\U{2029}' || c == '\U{202F}' || c == '\U{205F}' || c == '\U{3000}'
  }

  function TrimLeft(s: Text): Text {
    if s != [] && IsSpace(s[0]) then TrimLeft(s[1..]) else s
  }

  function TrimRight(s: Text): Text {
    if s != [] && IsSpace(s[|s| - 1]) then TrimRight(s[..|s| - 1]) else s
  }

  function Trim(s: Text): Text {
    TrimRight(TrimLeft(s))
  }

  predicate OneLine(s: Text) {
    forall i :: 0 <= i < |s| ==> s[i] != NL
  }

  datatype List<+T> = Nil | Cons(head: T, tail: List<T>)

  function Append<T>(a: List<T>, b: List<T>): List<T> {
    match a
    case Nil => b
    case Cons(x, rest) => Cons(x, Append(rest, b))
  }

  function Count<T>(a: List<T>): nat {
    match a
    case Nil => 0
    case Cons(_, rest) => 1 + Count(rest)
  }

  predicate In<T(==)>(x: T, a: List<T>) {
    a.Cons? && (a.head == x || In(x, a.tail))
  }

  type Lines = List<Text>

  predicate AllOneLine(lines: Lines) {
    lines.Cons? ==> OneLine(lines.head) && AllOneLine(lines.tail)
  }

  /** The lines as they are written, each ended by a new line. */
  function Written(lines: Lines): Text {
    match lines
    case Nil => []
    case Cons(line, rest) => line + [NL] + Written(rest)
  }

  // ---------------------------------------------------------------- trimming

  /** What is not space at the beginning is not trimmed. */
  lemma {:induction false} TrimKeeps(s: Text, n: nat)
    requires 0 < n <= |s| && !IsSpace(s[0]) && !IsSpace(s[n - 1])
    ensures n <= |Trim(s)| && Trim(s) <= s
  {
    assert TrimLeft(s) == s;
    TrimRightKeeps(s, n);
  }

  lemma {:induction false} TrimRightKeeps(s: Text, n: nat)
    requires 0 < n <= |s| && !IsSpace(s[n - 1])
    ensures n <= |TrimRight(s)| && TrimRight(s) <= s
  {
    if IsSpace(s[|s| - 1]) {
      TrimRightKeeps(s[..|s| - 1], n);
    }
  }

  lemma {:induction false} TrimIsPart(s: Text)
    ensures OneLine(s) ==> OneLine(Trim(s))
    ensures Trim(s) != [] ==> !IsSpace(Trim(s)[0]) && !IsSpace(Trim(s)[|Trim(s)| - 1])
  {
    TrimLeftIsPart(s);
    TrimRightIsPart(TrimLeft(s));
  }

  lemma {:induction false} TrimLeftIsPart(s: Text)
    ensures OneLine(s) ==> OneLine(TrimLeft(s))
    ensures TrimLeft(s) != [] ==> !IsSpace(TrimLeft(s)[0])
  {
    if s != [] && IsSpace(s[0]) {
      TrimLeftIsPart(s[1..]);
    }
  }

  lemma {:induction false} TrimRightIsPart(s: Text)
    ensures TrimRight(s) <= s
    ensures TrimRight(s) != [] ==> !IsSpace(TrimRight(s)[|TrimRight(s)| - 1])
  {
    if s != [] && IsSpace(s[|s| - 1]) {
      TrimRightIsPart(s[..|s| - 1]);
    }
  }

  /** The scanner takes a carriage return off the end of a line, which trimming would take off too. */
  function DropCR(s: Text): Text {
    if s != [] && s[|s| - 1] == '\r' then s[..|s| - 1] else s
  }

  lemma {:induction false} TrimDropsCR(s: Text)
    ensures Trim(DropCR(s)) == Trim(s)
  {
    if s != [] && s[|s| - 1] == '\r' {
      var t := s[..|s| - 1];
      TrimLeftSnoc(t, '\r');
      assert t + ['\r'] == s;
      if TrimLeft(t) == [] {
      } else {
        assert (TrimLeft(t) + ['\r'])[..|TrimLeft(t)|] == TrimLeft(t);
      }
    }
  }

  lemma {:induction false} TrimLeftSnoc(t: Text, c: char)
    requires IsSpace(c)
    ensures TrimLeft(t) == [] ==> TrimLeft(t + [c]) == []
    ensures TrimLeft(t) != [] ==> TrimLeft(t + [c]) == TrimLeft(t) + [c]
  {
    if t == [] {
      assert ([c])[1..] == [];
    } else {
      assert (t + [c])[1..] == t[1..] + [c];
      TrimLeftSnoc(t[1..], c);
    }
  }

  // ---------------------------------------------------------------- scanning

  function FirstNewline(s: Text): (n: nat)
    ensures n <= |s| && (n < |s| ==> s[n] == NL)
    ensures forall k :: 0 <= k < n ==> s[k] != NL
  {
    if s == [] || s[0] == NL then 0 else 1 + FirstNewline(s[1..])
  }

  /** The lines a scanner gives whose buffer holds `max`: it stops at the first line that does not fit it. */
  function Scanned(data: Text, max: nat): Lines
    decreases |data|
  {
    if data == [] then Nil
    else
      var n := FirstNewline(data);
      if n >= max then Nil
      else Cons(DropCR(data[..n]), if n < |data| then Scanned(data[n + 1..], max) else Nil)
  }

  function UntilLong(lines: Lines, max: nat): Lines {
    match lines
    case Nil => Nil
    case Cons(line, rest) => if |line| >= max then Nil else Cons(DropCR(line), UntilLong(rest, max))
  }

  lemma {:induction false} FirstNewlineOfLine(line: Text, rest: Text)
    requires OneLine(line)
    ensures FirstNewline(line + [NL] + rest) == |line|
  {
    var s := line + [NL] + rest;
    assert s[|line|] == NL;
    assert forall k :: 0 <= k < |line| ==> s[k] == line[k];
  }

  /** Scanning what was written gives the lines back. */
  lemma {:induction false} ScannedWritten(lines: Lines, max: nat)
    requires AllOneLine(lines)
    ensures Scanned(Written(lines), max) == UntilLong(lines, max)
  {
    if lines.Cons? {
      var line, rest := lines.head, Written(lines.tail);
      FirstNewlineOfLine(line, rest);
      var s := line + [NL] + rest;
      assert s[..|line|] == line && s[|line| + 1..] == rest;
      ScannedWritten(lines.tail, max);
    }
  }

  /** Written lines say which lines they are. */
  lemma {:induction false} WrittenInjective(a: Lines, b: Lines)
    requires AllOneLine(a) && AllOneLine(b) && Written(a) == Written(b)
    ensures a == b
  {
    match (a, b)
    case (Nil, Nil) =>
    case (Nil, Cons(line, rest)) =>
    case (Cons(line, rest), Nil) =>
    case (Cons(x, xs), Cons(y, ys)) =>
      FirstNewlineOfLine(x, Written(xs));
      FirstNewlineOfLine(y, Written(ys));
      var s, t := x + [NL] + Written(xs), y + [NL] + Written(ys);
      assert s[..|x|] == x && t[..|y|] == y && s[|x| + 1..] == Written(xs) && t[|y| + 1..] == Written(ys);
      WrittenInjective(xs, ys);
  }

  // ---------------------------------------------------------------- looking for a line

  predicate At(s: Text, i: nat, what: Text) {
    i + |what| <= |s| && s[i..i + |what|] == what
  }

  predicate Contains(s: Text, what: Text) {
    exists i :: 0 <= i <= |s| && At(s, i, what)
  }

  /** A whole line is found in written lines, after their first, exactly when it is one of them. */
  lemma {:induction false} FindsLine(first: Text, lines: Lines, line: Text)
    requires OneLine(first) && AllOneLine(lines) && OneLine(line)
    ensures Contains(Written(Cons(first, lines)), [NL] + line + [NL]) <==> In(line, lines)
    decreases lines
  {
    var s, rest, what := Written(Cons(first, lines)), Written(lines), [NL] + line + [NL];
    assert s == first + [NL] + rest;
    forall i | 0 <= i <= |s| && At(s, i, what)
      ensures i == |first| ==> lines.Cons? && lines.head == line
      ensures i != |first| ==> Contains(rest, what)
    {
      OccursLater(first, rest, line, i);
      if i == |first| {
        StartsWithLine(lines.head, Written(lines.tail), line);
      } else {
        assert At(rest, i - |first| - 1, what);
      }
    }
    if lines.Cons? {
      FindsLine(lines.head, lines.tail, line);
      if lines.head == line {
        assert s == first + what + Written(lines.tail);
        assert At(s, |first|, what);
      }
      if Contains(rest, what) {
        var i :| 0 <= i <= |rest| && At(rest, i, what);
        assert s[|first| + 1 + i..|first| + 1 + i + |what|] == rest[i..i + |what|];
        assert At(s, |first| + 1 + i, what);
      }
    }
  }

  lemma {:induction false} OccursLater(first: Text, rest: Text, line: Text, i: nat)
    requires OneLine(first) && At(first + [NL] + rest, i, [NL] + line + [NL])
    ensures i >= |first|
    ensures i == |first| ==> At(rest, 0, line + [NL])
    ensures i > |first| ==> At(rest, i - |first| - 1, [NL] + line + [NL])
  {
    var s, what := first + [NL] + rest, [NL] + line + [NL];
    assert s[i] == what[0] == NL;
    assert forall k :: 0 <= k < |first| ==> s[k] == first[k];
    assert forall k :: 0 <= k < |what| ==> s[i + k] == what[k];
    if i == |first| {
      assert rest[..|line| + 1] == line + [NL] by {
        forall k | 0 <= k < |line| + 1
          ensures rest[k] == (line + [NL])[k]
        {
          assert s[i + (k + 1)] == what[k + 1];
        }
      }
    } else {
      var j := i - |first| - 1;
      assert rest[j..j + |what|] == what by {
        forall k | 0 <= k < |what|
          ensures rest[j + k] == what[k]
        {
          assert s[i + k] == what[k];
        }
      }
    }
  }

  lemma {:induction false} StartsWithLine(head: Text, rest: Text, line: Text)
    requires OneLine(head) && OneLine(line) && At(head + [NL] + rest, 0, line + [NL])
    ensures head == line
  {
    var s := head + [NL] + rest;
    FirstNewlineOfLine(head, rest);
    assert s[..|line| + 1] == line + [NL];
    assert s[|line|] == NL;
    assert forall k :: 0 <= k < |line| ==> s[k] == line[k];
    assert |head| == |line|;
    assert forall k :: 0 <= k < |head| ==> head[k] == s[k];
  }
}
