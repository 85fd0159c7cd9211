/**
 * The two stages together, as the program's entry point runs them on a recipe: parse the
 * text, then map the result onto a default package.
 */
module Interpreter {
  import opened Wrappers
  import opened Strings
  import opened Parser
  import opened PackageMapper

  /** A parsed map has trimmed keys, so the mapper's result for it does not depend on iteration order. */
  lemma ParsedKeysTrimmed(text: string)
    requires ParseText(text).Ok?
    ensures KeysTrimmed(ParseText(text).value)
  {
    var m := ParseText(text).value;
    forall k | k in m ensures Trim(k) == k {
      TrimOfTrimmed(k);
    }
  }

  /** Either stage's panic, as an error value. */
  datatype RunError = ParseFailed(cause: ParseError) | MapFailed(reason: MapError)

  /**
   * The entry point without its file reading and debug output: parse the recipe text and map
   * the result onto a default package. Each field of the package is then the value of the
   * entry named after it, whatever order the entries are visited in.
   */
  method Interpret(file: string) returns (r: Result<Package, RunError>, warnings: seq<string>, ghost visited: seq<string>)
    ensures ParseText(file).Err? ==> r == Err(ParseFailed(ParseText(file).error))
    ensures ParseText(file).Ok? ==>
      (r.Err? <==> exists k :: k in ParseText(file).value && MissingScalar(k, ParseText(file).value[k]))
    ensures r.Err? ==> warnings == []
    ensures r.Ok? ==> ParseText(file).Ok? && FieldsByName(ParseText(file).value, Default(), r.value)
    ensures r.Ok? ==> WarningsFor(ParseText(file).value, visited, warnings)
    ensures r.Ok? ==> forall w :: w in warnings <==> w in UnknownKeys(ParseText(file).value)
    ensures r.Ok? ==> forall i, j :: 0 <= i < j < |warnings| ==> warnings[i] != warnings[j]
  {
    var parsed := Parse(file);
    if parsed.Err? {
      return Err(ParseFailed(parsed.error)), [], [];
    }
    ParsedKeysTrimmed(file);
    var mapped, found, seen := ExprToPkg(parsed.value, Default());
    if mapped.Err? {
      return Err(MapFailed(mapped.error)), [], [];
    }
    WarningsOfTrimmed(parsed.value, seen, found);
    r, warnings, visited := Ok(mapped.value), found, seen;
  }
}
