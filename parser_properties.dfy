/**
 * What the recipe parser promises, stated over `Step`, `Run` and `ParseText`: how comments,
 * continuation lines and declarations act on the map and the open key, and that a recipe of
 * single-line declarations reads back as the map it was written from.
 */
module ParserProperties {
  import opened Wrappers
  import opened Strings
  import opened Parser

  /** The lines that are not comments, in order. */
  function WithoutComments(lines: seq<string>): (r: seq<string>)
    ensures forall i :: 0 <= i < |r| ==> !IsComment(r[i])
    ensures |r| <= |lines|
  {
    if lines == [] then []
    else if IsComment(lines[0]) then WithoutComments(lines[1..])
    else [lines[0]] + WithoutComments(lines[1..])
  }

  /** Comment lines, indented or not, anywhere in the text, have no effect on the outcome. */
  lemma {:induction false} CommentsIgnored(st: ParseState, lines: seq<string>)
    requires OpenKeyPresent(st)
    ensures Run(st, WithoutComments(lines)) == Run(st, lines)
    decreases |lines|
  {
    if lines != [] {
      if IsComment(lines[0]) {
        StepComment(st, lines[0]);
        CommentsIgnored(st, lines[1..]);
      } else {
        var rest := WithoutComments(lines[1..]);
        assert ([lines[0]] + rest)[0] == lines[0];
        assert ([lines[0]] + rest)[1..] == rest;
        match Step(st, lines[0])
        case Err(_) =>
        case Ok(next) => CommentsIgnored(next, lines[1..]);
      }
    }
  }

  /**
   * `line` is a declaration `key:value` whose `value` runs from the first colon up to the
   * second one or to the end of the line; `tail` is what follows it (empty or from the second colon).
   */
  predicate DeclarationOf(line: string, key: string, value: string, tail: string) {
    line == key + ":" + value + tail && ':' !in key && ':' !in value && (tail == [] || tail[0] == ':')
  }

  /** The first two pieces of `split(':')` on a declaration are its key and its value. */
  lemma DeclarationPieces(line: string, key: string, value: string, tail: string)
    requires DeclarationOf(line, key, value, tail)
    ensures |Split(line, ':')| >= 2
    ensures Split(line, ':')[0] == key && Split(line, ':')[1] == value
  {
    if tail == [] {
      assert line == Join([key, value], ':');
      SplitJoin([key, value], ':');
    } else {
      var rest := tail[1..];
      assert tail == [':'] + rest;
      assert line == key + [':'] + (value + [':'] + rest);
      SplitAt(key, value + [':'] + rest, ':');
      SplitAt(value, rest, ':');
    }
  }

  /**
   * A declaration line closes any open block. With a value that trims to nothing or to `|` it
   * stores an empty list under the trimmed key and opens that key; otherwise it stores the
   * one-element list of the trimmed value. Either way an earlier entry for the key is replaced.
   */
  lemma StepDeclaration(st: ParseState, line: string, key: string, value: string, tail: string)
    requires OpenKeyPresent(st)
    requires !IsComment(line) && !IsIndented(line)
    requires DeclarationOf(line, key, value, tail)
    ensures Step(st, line) ==
      if Trim(value) == "" || Trim(value) == "|" then
        Ok(ParseState(st.entries[Trim(key) := []], Some(Trim(key))))
      else
        Ok(ParseState(st.entries[Trim(key) := [Trim(value)]], None))
  {
    DeclarationPieces(line, key, value, tail);
  }

  /** A line that is neither a comment nor indented and has no colon (a blank line, say) only closes the open block. */
  lemma StepWithoutColon(st: ParseState, line: string)
    requires OpenKeyPresent(st)
    requires !IsComment(line) && !IsIndented(line) && ':' !in line
    ensures Step(st, line) == Ok(ParseState(st.entries, None))
  {
  }

  /** Each line trimmed, in order. */
  function TrimAll(lines: seq<string>): (r: seq<string>)
    ensures |r| == |lines|
  {
    if lines == [] then [] else [Trim(lines[0])] + TrimAll(lines[1..])
  }

  /** Every line is a continuation line. */
  predicate AllContinuations(lines: seq<string>) {
    forall i :: 0 <= i < |lines| ==> IsContinuation(lines[i])
  }

  /** Consecutive continuation lines extend the open key's list by their trimmed texts, in order. */
  lemma {:induction false} ContinuationsAppend(st: ParseState, key: string, lines: seq<string>)
    requires OpenKeyPresent(st) && st.open == Some(key)
    requires AllContinuations(lines)
    ensures key in st.entries
    ensures Run(st, lines) == Ok(ParseState(st.entries[key := st.entries[key] + TrimAll(lines)], Some(key)))
    decreases |lines|
  {
    if lines == [] {
      assert st.entries[key] + TrimAll(lines) == st.entries[key];
      assert st.entries[key := st.entries[key]] == st.entries;
    } else {
      var head, rest := lines[0], lines[1..];
      assert IsContinuation(head);
      StepContinuation(st, head, key);
      var next := ParseState(st.entries[key := st.entries[key] + [Trim(head)]], Some(key));
      assert Run(st, lines) == Run(next, rest);
      assert AllContinuations(rest) by {
        forall i | 0 <= i < |rest| ensures IsContinuation(rest[i]) {
          assert rest[i] == lines[i + 1];
        }
      }
      ContinuationsAppend(next, key, rest);
      assert TrimAll(lines) == [Trim(head)] + TrimAll(rest);
      AppendInTwoSteps(st.entries, key, Trim(head), TrimAll(rest));
    }
  }

  /** Appending one value and then more to a key's list is appending them all at once. */
  lemma AppendInTwoSteps(m: ParseMap, key: string, first: string, more: seq<string>)
    requires key in m
    ensures m[key := m[key] + [first]][key := m[key] + [first] + more] == m[key := m[key] + ([first] + more)]
  {
    assert m[key] + [first] + more == m[key] + ([first] + more);
  }

  /** Storing an empty list and then appending to it is storing what was appended. */
  lemma ReplaceInTwoSteps(m: ParseMap, key: string, values: seq<string>)
    ensures m[key := []][key := m[key := []][key] + values] == m[key := values]
  {
    assert [] + values == values;
  }

  /**
   * A block declaration (`key:` or `key: |`) followed by N continuation lines stores exactly
   * those N lines, trimmed and in order, under the trimmed key, which is still open afterwards.
   */
  lemma BlockCollects(st: ParseState, line: string, key: string, value: string, tail: string, lines: seq<string>)
    requires OpenKeyPresent(st)
    requires !IsComment(line) && !IsIndented(line)
    requires DeclarationOf(line, key, value, tail)
    requires Trim(value) == "" || Trim(value) == "|"
    requires AllContinuations(lines)
    ensures Run(st, [line] + lines) == Ok(ParseState(st.entries[Trim(key) := TrimAll(lines)], Some(Trim(key))))
  {
    StepDeclaration(st, line, key, value, tail);
    var afterDecl := ParseState(st.entries[Trim(key) := []], Some(Trim(key)));
    assert ([line] + lines)[0] == line && ([line] + lines)[1..] == lines;
    assert Run(st, [line] + lines) == Run(afterDecl, lines);
    ContinuationsAppend(afterDecl, Trim(key), lines);
    ReplaceInTwoSteps(st.entries, Trim(key), TrimAll(lines));
  }

  /**
   * Only the text between the first and the second colon is kept: the single-line
   * declaration `source: http://a` stores `"http"`.
   */
  lemma SecondColonDropped()
    ensures Step(Start, "source: http://a") == Ok(ParseState(map["source" := ["http"]], None))
  {
    var line := "source: http://a";
    assert line == "source" + ":" + " http" + "://a";
    assert TrimStart(line) == line;
    TrimOfTrimmed("source");
    TrimPadded(" ", "http", []);
    assert " " + "http" + [] == " http";
    StepDeclaration(Start, line, "source", " http", "://a");
  }

  /** A key that can be written on a declaration line and read back unchanged. */
  predicate PlainKey(k: string) {
    k != [] && IsTrimmed(k) && ':' !in k && '\n' !in k && k[0] != '#'
  }

  /** A value that a single-line declaration stores unchanged. */
  predicate PlainValue(v: string) {
    v != [] && IsTrimmed(v) && ':' !in v && '\n' !in v && v != "|"
  }

  /** The declaration lines `key: value` for the given entries, in order. */
  function Render(entries: seq<(string, string)>): (lines: seq<string>)
    ensures |lines| == |entries|
    ensures forall i :: 0 <= i < |entries| ==> lines[i] == entries[i].0 + ": " + entries[i].1
  {
    if entries == [] then [] else [entries[0].0 + ": " + entries[0].1] + Render(entries[1..])
  }

  /** The map after the entries are stored in order, a later entry for a key replacing an earlier one. */
  function Declared(m: ParseMap, entries: seq<(string, string)>): ParseMap
    decreases |entries|
  {
    if entries == [] then m else Declared(m[entries[0].0 := [entries[0].1]], entries[1..])
  }

  /** What the parser makes of one rendered declaration line. */
  lemma {:induction false} RenderedLine(st: ParseState, k: string, v: string)
    requires OpenKeyPresent(st) && PlainKey(k) && PlainValue(v)
    ensures IsPlainLine(k + ": " + v)
    ensures Step(st, k + ": " + v) == Ok(ParseState(st.entries[k := [v]], None))
  {
    var line := k + ": " + v;
    assert line[0] == k[0] && !IsSpace(line[0]);
    assert TrimStart(line) == line;
    assert !IsIndented(line);
    assert line == k + ":" + (" " + v) + [];
    assert ':' !in " " + v;
    TrimOfTrimmed(k);
    TrimPadded(" ", v, []);
    assert " " + v + [] == " " + v;
    StepDeclaration(st, line, k, " " + v, []);
    assert line[|line| - 1] == v[|v| - 1];
    assert '\n' !in line by {
      assert forall i :: 0 <= i < |line| ==> line[i] == '\n' ==> false by {
        forall i | 0 <= i < |line| ensures line[i] != '\n' {
          if i < |k| { assert line[i] == k[i]; }
          else if i >= |k| + 2 { assert line[i] == v[i - |k| - 2]; }
        }
      }
    }
  }

  /** Running the rendered lines stores every entry, later entries replacing earlier ones. */
  lemma {:induction false} RenderedLinesRun(st: ParseState, entries: seq<(string, string)>)
    requires st.open == None
    requires forall i :: 0 <= i < |entries| ==> PlainKey(entries[i].0) && PlainValue(entries[i].1)
    ensures Run(st, Render(entries)) == Ok(ParseState(Declared(st.entries, entries), None))
    decreases |entries|
  {
    if entries != [] {
      var (k, v) := entries[0];
      RenderedLine(st, k, v);
      var lines := Render(entries);
      assert lines[0] == k + ": " + v && lines[1..] == Render(entries[1..]);
      RenderedLinesRun(ParseState(st.entries[k := [v]], None), entries[1..]);
    }
  }

  /** Every rendered line is a line that `Lines` gives back unchanged. */
  lemma RenderedLinesPlain(entries: seq<(string, string)>)
    requires forall i :: 0 <= i < |entries| ==> PlainKey(entries[i].0) && PlainValue(entries[i].1)
    ensures forall i :: 0 <= i < |Render(entries)| ==> IsPlainLine(Render(entries)[i])
    decreases |entries|
  {
    if entries != [] {
      RenderedLine(Start, entries[0].0, entries[0].1);
      RenderedLinesPlain(entries[1..]);
    }
  }

  /**
   * Round trip: a recipe written as one `key: value` line per entry parses back to the map
   * those entries describe, the last entry for a key winning.
   */
  lemma RoundTrip(entries: seq<(string, string)>)
    requires forall i :: 0 <= i < |entries| ==> PlainKey(entries[i].0) && PlainValue(entries[i].1)
    ensures ParseText(Terminated(Render(entries))) == Ok(Declared(map[], entries))
  {
    RenderedLinesPlain(entries);
    LinesOfTerminated(Render(entries));
    RenderedLinesRun(Start, entries);
  }

  /** A tab followed by a trimmed text that does not start with `#` is a continuation line carrying that text. */
  lemma TabIndented(t: string)
    requires PlainItem(t)
    ensures IsContinuation("\t" + t) && Trim("\t" + t) == t && IsPlainLine("\t" + t)
  {
    var line := "\t" + t;
    assert line[1..] == t;
    assert TrimStart(line) == TrimStart(t) == t;
    assert "\t" <= line;
    TrimPadded("\t", t, []);
    assert "\t" + t + [] == line;
    assert line[|line| - 1] == t[|t| - 1];
    assert '\n' !in line by {
      forall i | 0 <= i < |line| ensures line[i] != '\n' {
        if i > 0 { assert line[i] == t[i - 1]; }
      }
    }
  }

  /** An item that a tab-indented continuation line stores unchanged; it may hold colons. */
  predicate PlainItem(t: string) {
    t != [] && IsTrimmed(t) && '\n' !in t && t[0] != '#'
  }

  /** Each item on its own tab-indented line. */
  function TabIndentedAll(items: seq<string>): (lines: seq<string>)
    ensures |lines| == |items|
    ensures forall i :: 0 <= i < |items| ==> lines[i] == "\t" + items[i]
  {
    if items == [] then [] else ["\t" + items[0]] + TabIndentedAll(items[1..])
  }

  /** The tab-indented lines of plain items are continuation lines whose trimmed texts are the items. */
  lemma {:induction false} TabIndentedLines(items: seq<string>)
    requires forall i :: 0 <= i < |items| ==> PlainItem(items[i])
    ensures AllContinuations(TabIndentedAll(items))
    ensures forall i :: 0 <= i < |items| ==> IsPlainLine(TabIndentedAll(items)[i])
    ensures TrimAll(TabIndentedAll(items)) == items
    decreases |items|
  {
    if items != [] {
      TabIndented(items[0]);
      TabIndentedLines(items[1..]);
      var lines := TabIndentedAll(items);
      assert lines[1..] == TabIndentedAll(items[1..]);
      forall i | 0 <= i < |items| ensures IsContinuation(lines[i]) && IsPlainLine(lines[i]) {
        if i > 0 { assert lines[i] == lines[1..][i - 1]; }
      }
      assert [items[0]] + items[1..] == items;
    }
  }

  /** `key: |` opens a block for a plain key. */
  lemma BlockHeader(k: string)
    requires PlainKey(k)
    ensures !IsComment(k + ": |") && !IsIndented(k + ": |") && IsPlainLine(k + ": |")
    ensures DeclarationOf(k + ": |", k, " |", []) && Trim(k) == k && Trim(" |") == "|"
  {
    var line := k + ": |";
    assert line[0] == k[0] && !IsSpace(line[0]);
    assert TrimStart(line) == line;
    assert line == k + ":" + " |" + [];
    TrimOfTrimmed(k);
    TrimPadded(" ", "|", []);
    assert " " + "|" + [] == " |";
    assert '\n' !in line by {
      forall i | 0 <= i < |line| ensures line[i] != '\n' {
        if i < |k| { assert line[i] == k[i]; }
      }
    }
  }

  /**
   * Block round trip: `key: |` followed by one tab-indented line per item parses to the map
   * holding exactly those items under the key, in order, colons and all.
   */
  lemma BlockRoundTrip(k: string, items: seq<string>)
    requires PlainKey(k)
    requires forall i :: 0 <= i < |items| ==> PlainItem(items[i])
    ensures ParseText(Terminated([k + ": |"] + TabIndentedAll(items))) == Ok(map[k := items])
  {
    var header, lines := k + ": |", TabIndentedAll(items);
    BlockHeader(k);
    TabIndentedLines(items);
    var all := [header] + lines;
    forall i | 0 <= i < |all| ensures IsPlainLine(all[i]) {
      if i > 0 { assert all[i] == lines[i - 1]; }
    }
    LinesOfTerminated(all);
    BlockCollects(Start, header, k, " |", [], lines);
    assert Start.entries[k := items] == map[k := items];
  }
}
