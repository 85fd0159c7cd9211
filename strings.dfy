/**
 * The string operations of the Rust standard library that the recipe parser relies on:
 * `trim_start`, `trim`, `starts_with`, `split(':')` and `lines`, on sequences of characters.
 * Whitespace is restricted to ASCII (the space and the control characters 9 to 13).
 */
module Strings {

  /** A whitespace character, as `char::is_whitespace` answers for ASCII. */
  predicate IsSpace(c: char) {
    c == ' ' || 9 <= c as int <= 13
  }

  /** Neither end of `s` is whitespace: `s` is what `trim` returns for it. */
  predicate IsTrimmed(s: string) {
    s == [] || (!IsSpace(s[0]) && !IsSpace(s[|s| - 1]))
  }

  /** Every character of `s` is whitespace. */
  predicate AllSpace(s: string) {
    forall i :: 0 <= i < |s| ==> IsSpace(s[i])
  }

  /** `str::trim_start`: drops the leading whitespace and nothing else. */
  function TrimStart(s: string): (r: string)
    ensures |r| <= |s|
    ensures r == [] || !IsSpace(r[0])
    decreases |s|
  {
    if s != [] && IsSpace(s[0]) then TrimStart(s[1..]) else s
  }

  /** `str::trim_end`: drops the trailing whitespace and nothing else. */
  function TrimEnd(s: string): (r: string)
    ensures |r| <= |s|
    ensures r != [] ==> r[0] == s[0] && !IsSpace(r[|r| - 1])
    decreases |s|
  {
    if s != [] && IsSpace(s[|s| - 1]) then TrimEnd(s[..|s| - 1]) else s
  }

  /** `str::trim`: drops the whitespace at both ends. */
  function Trim(s: string): (r: string)
    ensures IsTrimmed(r)
    ensures |r| <= |s|
  {
    TrimEnd(TrimStart(s))
  }

  /** Trimming removes exactly the whitespace padding around a trimmed text. */
  lemma {:induction false} TrimPadded(front: string, s: string, back: string)
    requires AllSpace(front) && AllSpace(back) && IsTrimmed(s)
    ensures Trim(front + s + back) == s
  {
    if s == [] {
      assert front + s + back == (front + back) + [];
      TrimStartPadded(front + back, []);
    } else {
      assert front + s + back == front + (s + back);
      TrimStartPadded(front, s + back);
      TrimEndPadded(s, back);
    }
  }

  lemma {:induction false} TrimStartPadded(front: string, s: string)
    requires AllSpace(front) && (s == [] || !IsSpace(s[0]))
    ensures TrimStart(front + s) == s
    decreases |front|
  {
    if front != [] {
      assert (front + s)[1..] == front[1..] + s;
      TrimStartPadded(front[1..], s);
    }
  }

  lemma {:induction false} TrimEndPadded(s: string, back: string)
    requires AllSpace(back) && (s == [] || !IsSpace(s[|s| - 1]))
    ensures TrimEnd(s + back) == s
    decreases |back|
  {
    if back != [] {
      var shorter := back[..|back| - 1];
      assert (s + back)[..|s + back| - 1] == s + shorter;
      TrimEndPadded(s, shorter);
    }
  }

  /** A trimmed text is its own trim. */
  lemma TrimOfTrimmed(s: string)
    requires IsTrimmed(s)
    ensures Trim(s) == s
  {
    TrimPadded([], s, []);
    assert [] + s + [] == s;
  }

  /** The position of the first occurrence of `c` in `s`. */
  function IndexOf(s: string, c: char): (i: nat)
    requires c in s
    ensures i < |s| && s[i] == c && c !in s[..i]
  {
    if s[0] == c then 0
    else
      var j := IndexOf(s[1..], c);
      assert s[..j + 1] == [s[0]] + s[1..][..j];
      j + 1
  }

  /** The first `c` in `head + [c] + tail` is the one after `head` when `head` holds none. */
  lemma IndexAfter(head: string, tail: string, c: char)
    requires c !in head
    ensures IndexOf(head + [c] + tail, c) == |head|
  {
    var s := head + [c] + tail;
    var i := IndexOf(s, c);
    assert s[|head|] == c;
    assert s[..|head|] == head;
  }

  /** Splitting at the first separator: the piece before it, then the split of the rest. */
  lemma SplitAt(head: string, tail: string, sep: char)
    requires sep !in head
    ensures Split(head + [sep] + tail, sep) == [head] + Split(tail, sep)
  {
    var s := head + [sep] + tail;
    IndexAfter(head, tail, sep);
    assert s[|head|] == sep;
    assert s[..|head|] == head;
    assert s[|head| + 1..] == tail;
  }

  /**
   * Cutting lines at the first line feed: the line before it, less a carriage return at its
   * end, then the lines of the rest.
   */
  lemma LinesAt(head: string, tail: string)
    requires '\n' !in head
    ensures Lines(head + "\n" + tail) == [StripCarriageReturn(head)] + Lines(tail)
  {
    var s := head + "\n" + tail;
    IndexAfter(head, tail, '\n');
    assert s[|head|] == '\n';
    assert s[..|head|] == head;
    assert s[|head| + 1..] == tail;
  }

  /** The inverse of `Split`: the pieces with `sep` between each two of them. */
  function Join(pieces: seq<string>, sep: char): string
    requires |pieces| >= 1
  {
    if |pieces| == 1 then pieces[0] else pieces[0] + [sep] + Join(pieces[1..], sep)
  }

  /** `str::split` on one character: the maximal runs of `s` without `sep`, in order. */
  function Split(s: string, sep: char): (pieces: seq<string>)
    ensures |pieces| >= 1
    ensures forall i :: 0 <= i < |pieces| ==> sep !in pieces[i]
    ensures Join(pieces, sep) == s
    decreases |s|
  {
    if sep !in s then [s]
    else
      var i := IndexOf(s, sep);
      var rest := Split(s[i + 1..], sep);
      assert ([s[..i]] + rest)[1..] == rest;
      assert s == s[..i] + [sep] + s[i + 1..];
      [s[..i]] + rest
  }

  /** Splitting undoes joining pieces that do not contain the separator. */
  lemma {:induction false} SplitJoin(pieces: seq<string>, sep: char)
    requires |pieces| >= 1
    requires forall i :: 0 <= i < |pieces| ==> sep !in pieces[i]
    ensures Split(Join(pieces, sep), sep) == pieces
    decreases |pieces|
  {
    if |pieces| > 1 {
      SplitAt(pieces[0], Join(pieces[1..], sep), sep);
      SplitJoin(pieces[1..], sep);
      assert [pieces[0]] + pieces[1..] == pieces;
    }
  }

  /** `s` without one `'\r'` at its end, if it has one. */
  function StripCarriageReturn(s: string): (r: string)
    ensures r == s || s == r + "\r"
    ensures r != s <==> s != [] && s[|s| - 1] == '\r'
  {
    if s != [] && s[|s| - 1] == '\r' then s[..|s| - 1] else s
  }

  /**
   * `str::lines`: the text cut at each `'\n'`; a `'\r'` just before a `'\n'` goes with the
   * line ending, and an empty piece after the last `'\n'` is not a line.
   */
  function Lines(text: string): (lines: seq<string>)
    ensures forall i :: 0 <= i < |lines| ==> '\n' !in lines[i]
    decreases |text|
  {
    if text == [] then []
    else if '\n' !in text then [text]
    else
      var i := IndexOf(text, '\n');
      var line := StripCarriageReturn(text[..i]);
      assert line == text[..i][..|line|];
      [line] + Lines(text[i + 1..])
  }

  /** Each line followed by a line feed: the text a file with these lines holds. */
  function Terminated(lines: seq<string>): string {
    if lines == [] then [] else lines[0] + "\n" + Terminated(lines[1..])
  }

  /** A line that `Lines` gives back unchanged: no line feed in it, no carriage return at its end. */
  predicate IsPlainLine(line: string) {
    '\n' !in line && (line == [] || line[|line| - 1] != '\r')
  }

  /** `Lines` recovers the lines of a text written as `Terminated` lines. */
  lemma {:induction false} LinesOfTerminated(lines: seq<string>)
    requires forall i :: 0 <= i < |lines| ==> IsPlainLine(lines[i])
    ensures Lines(Terminated(lines)) == lines
  {
    if lines != [] {
      LinesAt(lines[0], Terminated(lines[1..]));
      LinesOfTerminated(lines[1..]);
      assert [lines[0]] + lines[1..] == lines;
    }
  }
}
