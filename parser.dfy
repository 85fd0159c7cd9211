/**
 * The recipe parser (`parse`): a line-by-line state machine that turns recipe text into a map
 * from each key to its list of values. Its one piece of state besides the map is the key that
 * is open for a multi-line block.
 */
module Parser {
  import opened Wrappers
  import opened Strings

  /** The parser's output: each key with its values, in the order the recipe gives them. */
  type ParseMap = map<string, seq<string>>

  /** The one way parsing fails: a continuation line while no key is open (the source panics). */
  datatype ParseError = DanglingContinuation

  /** What the parser carries from one line to the next. */
  datatype ParseState = ParseState(entries: ParseMap, open: Option<string>)

  /** Before the first line: nothing parsed, no key open. */
  const Start := ParseState(map[], None)

  /** The key open for a multi-line block is always one the map holds. */
  predicate OpenKeyPresent(st: ParseState) {
    st.open.Some? ==> st.open.value in st.entries
  }

  /** Every key and every value of the map is trimmed. */
  predicate AllTrimmed(m: ParseMap) {
    forall k :: k in m ==> IsTrimmed(k) && ItemsTrimmed(m[k])
  }

  /** Every value of the list is trimmed. */
  predicate ItemsTrimmed(values: seq<string>) {
    forall j :: 0 <= j < |values| ==> IsTrimmed(values[j])
  }

  /** A comment: after the leading whitespace comes `#`. */
  predicate IsComment(line: string) {
    var t := TrimStart(line);
    t != [] && t[0] == '#'
  }

  /** A continuation line: it starts with a tab or with four spaces. */
  predicate IsIndented(line: string) {
    "\t" <= line || "    " <= line
  }

  /** A continuation line: indented and not a comment. */
  predicate IsContinuation(line: string) {
    !IsComment(line) && IsIndented(line)
  }

  /** What one line of a recipe is, as the loop in `Parse` tells its cases apart. */
  datatype LineKind =
    | Comment
      /** an indented line, with its trimmed text */
    | Continuation(text: string)
      /** any other line: the trimmed text before the first colon and, if there is a colon,
          the trimmed text between it and the next one */
    | Declaration(lexpr: string, rexpr: Option<string>)

  /** Every text a line kind carries is trimmed. */
  predicate KindTrimmed(kind: LineKind) {
    match kind
    case Comment => true
    case Continuation(text) => IsTrimmed(text)
    case Declaration(lexpr, rexpr) => IsTrimmed(lexpr) && (rexpr.Some? ==> IsTrimmed(rexpr.value))
  }

  /** The line classifier: comments first, then indented lines, then `split(':')` on the rest. */
  function Classify(line: string): (kind: LineKind)
    ensures KindTrimmed(kind)
    ensures kind.Comment? <==> IsComment(line)
    ensures kind.Continuation? <==> IsContinuation(line)
  {
    if IsComment(line) then Comment
    else if IsIndented(line) then Continuation(Trim(line))
    else
      var pieces := Split(line, ':');
      Declaration(Trim(pieces[0]), if |pieces| > 1 then Some(Trim(pieces[1])) else None)
  }

  /** The effect of one classified line on the parser's state (one turn of the loop in `Parse`). */
  function Apply(st: ParseState, kind: LineKind): (r: Result<ParseState, ParseError>)
    requires OpenKeyPresent(st)
    ensures r.Err? <==> kind.Continuation? && st.open.None?
    ensures r.Ok? ==> OpenKeyPresent(r.value) && st.entries.Keys <= r.value.entries.Keys
    ensures r.Ok? && AllTrimmed(st.entries) && KindTrimmed(kind) ==> AllTrimmed(r.value.entries)
  {
    match kind
    case Comment => Ok(st)
    case Continuation(text) =>
      (match st.open
       case None => Err(DanglingContinuation)
       case Some(key) => Ok(ParseState(st.entries[key := st.entries[key] + [text]], Some(key))))
    case Declaration(lexpr, rexpr) =>
      (match rexpr
       case None => Ok(ParseState(st.entries, None))
       case Some(value) =>
         if value == "" || value == "|" then Ok(ParseState(st.entries[lexpr := []], Some(lexpr)))
         else Ok(ParseState(st.entries[lexpr := [value]], None)))
  }

  /** The effect of one line of text on the parser's state. */
  function Step(st: ParseState, line: string): (r: Result<ParseState, ParseError>)
    requires OpenKeyPresent(st)
    ensures r.Err? <==> IsContinuation(line) && st.open.None?
    ensures r.Ok? ==> OpenKeyPresent(r.value)
    ensures r.Ok? && AllTrimmed(st.entries) ==> AllTrimmed(r.value.entries)
  {
    Apply(st, Classify(line))
  }

  /** The state after the given lines, or the failure of the first line that fails. */
  function Run(st: ParseState, lines: seq<string>): (r: Result<ParseState, ParseError>)
    requires OpenKeyPresent(st)
    ensures r.Ok? ==> OpenKeyPresent(r.value)
    ensures r.Ok? && AllTrimmed(st.entries) ==> AllTrimmed(r.value.entries)
    decreases |lines|
  {
    if lines == [] then Ok(st)
    else
      match Step(st, lines[0])
      case Err(e) => Err(e)
      case Ok(next) => Run(next, lines[1..])
  }

  /** What parsing a whole recipe text yields. */
  function ParseText(text: string): (r: Result<ParseMap, ParseError>)
    ensures r.Ok? ==> AllTrimmed(r.value)
  {
    match Run(Start, Lines(text))
    case Err(e) => Err(e)
    case Ok(st) => Ok(st.entries)
  }

  /**
   * `parse`: the loop over the lines of the recipe, keeping the map and the open key in two
   * variables. Comment lines are skipped; a continuation line with no open key fails.
   */
  method Parse(file: string) returns (r: Result<ParseMap, ParseError>)
    ensures r == ParseText(file)
    ensures r.Ok? ==> AllTrimmed(r.value)
  {
    var lines := Lines(file);
    var parseMap: ParseMap := map[];
    var currentLexpr: Option<string> := None;
    var i := 0;
    while i < |lines|
      invariant 0 <= i <= |lines|
      invariant currentLexpr.Some? ==> currentLexpr.value in parseMap
      invariant Run(Start, lines[..i]) == Ok(ParseState(parseMap, currentLexpr))
    {
      var line := lines[i];
      ghost var before := ParseState(parseMap, currentLexpr);
      RunStep(Start, lines[..i], line);
      PrefixExtends(lines, i);
      assert Run(Start, lines[..i + 1]) == Step(before, line);
      if IsComment(line) {
        StepComment(before, line);
      } else if IsIndented(line) {
        if currentLexpr.None? {
          RunAppend(Start, lines[..i + 1], lines[i + 1..]);
          assert lines[..i + 1] + lines[i + 1..] == lines;
          return Err(DanglingContinuation);
        }
        var key := currentLexpr.value;
        StepContinuation(before, line, key);
        parseMap := parseMap[key := parseMap[key] + [Trim(line)]];
      } else {
        var pieces := Split(line, ':');
        var lexpr := Trim(pieces[0]);
        assert Classify(line) == Declaration(lexpr, if |pieces| > 1 then Some(Trim(pieces[1])) else None);
        currentLexpr := None;
        if |pieces| > 1 {
          var rexpr := Trim(pieces[1]);
          if rexpr == "" || rexpr == "|" {
            parseMap := parseMap[lexpr := []];
            currentLexpr := Some(lexpr);
          } else {
            parseMap := parseMap[lexpr := [rexpr]];
          }
        }
        assert Step(before, line) == Ok(ParseState(parseMap, currentLexpr));
      }
      i := i + 1;
    }
    assert lines[..i] == lines;
    assert Run(Start, Lines(file)) == Ok(ParseState(parseMap, currentLexpr));
    r := Ok(parseMap);
  }

  /** A prefix one element longer is the shorter prefix and that element. */
  lemma PrefixExtends<T>(s: seq<T>, i: nat)
    requires i < |s|
    ensures s[..i + 1] == s[..i] + [s[i]]
  {
  }

  /** A comment line changes neither the map nor the open key. */
  lemma StepComment(st: ParseState, line: string)
    requires OpenKeyPresent(st) && IsComment(line)
    ensures Step(st, line) == Ok(st)
  {
  }

  /**
   * A continuation line appends its trimmed text to the open key's list; no other key
   * changes and the key stays open.
   */
  lemma StepContinuation(st: ParseState, line: string, key: string)
    requires OpenKeyPresent(st) && st.open == Some(key)
    requires IsContinuation(line)
    ensures key in st.entries
    ensures Step(st, line) == Ok(ParseState(st.entries[key := st.entries[key] + [Trim(line)]], Some(key)))
  {
  }

  /** One more line is one more `Step`. */
  lemma RunStep(st: ParseState, lines: seq<string>, line: string)
    requires OpenKeyPresent(st)
    ensures Run(st, lines + [line]) ==
      match Run(st, lines)
      case Err(e) => Err(e)
      case Ok(mid) => Step(mid, line)
  {
    RunAppend(st, lines, [line]);
    match Run(st, lines)
    case Err(_) =>
    case Ok(mid) =>
      match Step(mid, line)
      case Err(_) =>
      case Ok(next) => assert Run(next, []) == Ok(next);
  }

  /** Running two stretches of lines is running the first, then the second from where it stopped. */
  lemma {:induction false} RunAppend(st: ParseState, first: seq<string>, second: seq<string>)
    requires OpenKeyPresent(st)
    ensures Run(st, first + second) ==
      match Run(st, first)
      case Err(e) => Err(e)
      case Ok(mid) => Run(mid, second)
    decreases |first|
  {
    if first == [] {
      assert first + second == second;
    } else {
      assert (first + second)[0] == first[0];
      assert (first + second)[1..] == first[1..] + second;
      match Step(st, first[0])
      case Err(_) =>
      case Ok(next) => RunAppend(next, first[1..], second);
    }
  }
}
