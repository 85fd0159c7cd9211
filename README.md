# solar recipe interpreter, modelled in Dafny

solar reads a package recipe, a text file of `key: value` lines, and turns it into a `Package`
record. The interpreter in `src/main.rs` works in two stages, and this project models both.

1. **Parse** (`parse`). This is a line state machine that builds a map from keys to lists of
   strings. Its only state is the key that is open for a multi-line block.
   - Comment lines (`#` after leading whitespace) are dropped.
   - An indented line (a tab or four spaces) appends its trimmed text to the open key's list.
   - `key:` and `key: |` store an empty list and open the key.
   - `key: value` stores a one-element list.
   - Every non-indented line closes the open block.
2. **Map** (`expr_to_pkg`). This walks the map and sets the `Package` fields from a table of
   twelve key names.
   - Scalar fields (`name`, `version`, `release`, `component`, `summary`, `description`) take the
     first element of the list (`VecTools::fst`).
   - List fields take the whole list.
   - Unknown keys produce a warning.

Modules:

- `Wrappers` (`wrappers.dfy`): `Option` and `Result`.
- `Strings` (`strings.dfy`): models of `str::trim`, `trim_start`, `split(':')` and `str::lines`, with their algebra. Examples are splitting a join, the lines of newline-terminated text, and trimming padded text.
- `Parser` (`parser.dfy`):
  - The line state machine, as one step function `Step` (`Classify` then `Apply`) and its left fold `Run`.
  - `ParseText`, the specification of a whole parse.
  - The method `Parse`, whose `while` loop mirrors the source's `for` loop. It reassigns the local map value and `currentLexpr` line by line, as the source updates its `HashMap` and flag, and is proved equal to `ParseText`.
- `ParserProperties` (`parser_properties.dfy`): what one line does and what a sequence of lines does: comments, continuations, declarations, blocks and round trips.
- `PackageMapper` (`package.dfy`):
  - The `Package` record, `Fst`, and one arm of the key `match` (`ApplyEntry`).
  - The method `ExprToPkg`. Its loop visits the map's keys in an unspecified order, as a `HashMap` does. For maps with trimmed keys, as `parse` produces, it is proved to give the same package whatever that order is.
- `Interpreter` (`interpreter.dfy`): the two stages composed on a default package, as the entry point runs them.

Rust panics are modelled as error results:

- `DanglingContinuation`: the `unwrap` on a missing open key.
- `MissingValue`: `fst` on an empty list.

## Model

| member | source | states |
|---|---|---|
| Strings.TrimStart | src/main.rs:17 | the result is no longer than the input and does not start with whitespace |
| Strings.TrimEnd | src/main.rs:33 | the result is no longer than the input, keeps its first character and does not end with whitespace |
| Strings.Trim | src/main.rs:33 | the result is trimmed at both ends and no longer than the input |
| Strings.TrimPadded | src/main.rs:25 | trimming whitespace padding around a trimmed text gives back exactly that text |
| Strings.TrimStartPadded | src/main.rs:17 | left-trimming whitespace padding before a text that starts with a non-space gives back that text |
| Strings.TrimEndPadded | src/main.rs:33 | right-trimming whitespace padding after a text that ends with a non-space gives back that text |
| Strings.TrimOfTrimmed | src/main.rs:33 | trimming is idempotent on trimmed text |
| Strings.IndexOf | src/main.rs:29 | the index holds the first occurrence of the character |
| Strings.IndexAfter | src/main.rs:29 | in `head + [c] + tail` with `c` not in `head`, the first `c` is at `\|head\|` |
| Strings.Split | src/main.rs:29 | `split(':')` gives at least one piece, no piece holds the separator, and joining the pieces with it restores the input |
| Strings.SplitAt | src/main.rs:29 | splitting at a first separator gives the part before it, followed by the split of the rest |
| Strings.SplitJoin | src/main.rs:29 | splitting the join of separator-free pieces gives back exactly those pieces |
| Strings.StripCarriageReturn | src/main.rs:18 | the result is the line itself or the line less one final `\r`, and it is the shorter one exactly when the line ends with `\r` |
| Strings.Lines | src/main.rs:18 | no line that `lines()` yields contains a newline |
| Strings.LinesAt | src/main.rs:18 | for a `head` without line feed, the lines of `head + "\n" + tail` are `head` less a final `\r` (a `\r\n` ending), followed by the lines of `tail` |
| Strings.LinesOfTerminated | src/main.rs:18 | the lines of newline-terminated plain lines are exactly those lines |
| Parser.Classify | src/main.rs:17-38 | a line is a comment exactly when its left-trimmed text starts with `#`, a continuation exactly when it is not a comment and starts with a tab or four spaces, and every text it carries is trimmed |
| Parser.Apply | src/main.rs:21-51 | a line fails exactly when it is a continuation and no key is open; on success the open key stays in the map, no key is removed, and trimmed keys and values stay trimmed |
| Parser.Step | src/main.rs:17-51 | one line of the loop fails exactly when it is an uncommented indented line with no open key; on success the open key is in the map and the map stays trimmed |
| Parser.Run | src/main.rs:18-53 | the loop over many lines keeps the open key in the map and keeps the map trimmed |
| Parser.ParseText | src/main.rs:12-56 | a parsed map has only trimmed keys and trimmed values |
| Parser.Parse | src/main.rs:12-56 | the loop over the lines, with its `current_lexpr` flag and the map reassigned line by line, computes `ParseText` of the file: the same map, or the same failure |
| Parser.StepComment | src/main.rs:17-18 | a comment line changes neither the map nor the open key |
| Parser.StepContinuation | src/main.rs:21-26 | a continuation line under an open key appends its trimmed text to that key's list; no other key changes and the key stays open |
| Parser.RunStep | src/main.rs:18 | running the lines and then one more line is running the first lines, then stepping that line |
| Parser.RunAppend | src/main.rs:18 | running two runs of lines back to back is running their concatenation, and a failure stops the run |
| ParserProperties.WithoutComments | src/main.rs:17-18 | the filtered lines hold no comment line and are no more than the input |
| ParserProperties.CommentsIgnored | src/main.rs:17-18 | dropping every comment line from the input does not change the outcome of the run |
| ParserProperties.DeclarationPieces | src/main.rs:29-38 | for `key:value` followed by nothing or by `:…`, the split's first piece is `key` and its second is `value` |
| ParserProperties.StepDeclaration | src/main.rs:29-50 | `key:value` sets the trimmed key to the empty list and opens it when the trimmed value is empty or `\|`; otherwise it sets the key to the one trimmed value and closes the block. An earlier entry for the key is overwritten, and text after a second colon is ignored |
| ParserProperties.StepWithoutColon | src/main.rs:29-36 | a non-comment, non-indented line with no colon (a blank line, say) adds no entry and closes the open block |
| ParserProperties.TrimAll | src/main.rs:25 | one trimmed text per line |
| ParserProperties.ContinuationsAppend | src/main.rs:21-26 | N continuation lines under an open key append their N trimmed texts, in order, to that key's list and leave the key open |
| ParserProperties.AppendInTwoSteps | src/main.rs:22-25 | proof helper for `ContinuationsAppend` (map-update algebra): pushing one value onto a key's list and then more is pushing them all at once |
| ParserProperties.ReplaceInTwoSteps | src/main.rs:44 | proof helper for `BlockCollects` (map-update algebra): resetting a key to the empty list and then appending values is setting the key to those values |
| ParserProperties.BlockCollects | src/main.rs:21-26 | `key:` or `key: \|` followed by N continuation lines maps the trimmed key to exactly those N trimmed texts, in order, overwriting any earlier entry and leaving the key open |
| ParserProperties.SecondColonDropped | src/main.rs:29-38 | `source: http://a` stores `["http"]`: text after a second colon is lost |
| ParserProperties.Render | src/main.rs:48-50 | one line per entry, in order, and line i is exactly entry i's key, `: ` and its value |
| ParserProperties.RenderedLine | src/main.rs:29-50 | a rendered `k: v` line with a plain key and value stores `[v]` under `k` and closes the block |
| ParserProperties.RenderedLinesRun | src/main.rs:18-50 | a run of rendered single-value declarations stores each value under its key, a later entry overwriting an earlier one |
| ParserProperties.RenderedLinesPlain | src/main.rs:18 | rendered declarations are plain lines that `lines()` gives back unchanged |
| ParserProperties.RoundTrip | src/main.rs:12-56 | parsing the text of a list of single-value declarations gives the map those declarations describe |
| ParserProperties.TabIndented | src/main.rs:21-25 | a tab followed by a plain item is a continuation line whose trimmed text is the item |
| ParserProperties.TabIndentedAll | src/main.rs:21 | one tab-indented line per item, in order |
| ParserProperties.TabIndentedLines | src/main.rs:21-25 | the tab-indented lines of plain items are continuation lines whose trimmed texts are exactly the items |
| ParserProperties.BlockHeader | src/main.rs:29-46 | `key: \|` for a plain key is a declaration of that key with the value `\|`; it is neither a comment nor indented |
| ParserProperties.BlockRoundTrip | src/main.rs:12-56 | parsing `key: \|` followed by one tab-indented line per item gives exactly the map from the key to those items, in order, with colons inside items kept |
| PackageMapper.FieldOf | src/main.rs:60-97 | a recognised key names its own field; `None` means that no field is named by the key |
| PackageMapper.FieldOfKeyName | src/main.rs:60-96 | each of the twelve fields is found under its own key name |
| PackageMapper.GetDetermines | src/main.rs:103-116 | two packages that agree on all twelve fields are equal |
| PackageMapper.Default | src/main.rs:102-116 | the default package has every field `None` |
| PackageMapper.Fst | src/main.rs:127-130 | `fst` is `None` exactly on the empty list (where the source panics); otherwise it is the list's first element |
| PackageMapper.ApplyEntry | src/main.rs:60-97 | an unknown key leaves the package unchanged; a recognised key fails exactly when it is scalar and its list is empty, and otherwise sets its own field (the first element for a scalar, the whole list for a list field) and leaves every other field unchanged |
| PackageMapper.FieldsTrackedStep | src/main.rs:59-98 | after one more entry, every field set so far still holds the value of some applied entry naming it, and every other field its old value |
| PackageMapper.FieldsTrackedComplete | src/main.rs:59-99 | once every entry is applied, each field holds the value of a key naming it, or its old value if none does; with trimmed keys, the value of the key spelled as its name |
| PackageMapper.ByNameUnique | src/main.rs:59-60 | two results that both take each field from the key spelled as its name are equal, so the iteration order cannot show |
| PackageMapper.WarningsTrackedStep | src/main.rs:97 | applying one more entry appends the warning `Trim(k)` exactly when its key `k` is unknown, and keeps the warnings the trimmed names of the unknown keys applied so far, one per key, in visiting order |
| PackageMapper.WarningsTrackedComplete | src/main.rs:97 | once every entry is applied, the warnings are the trimmed names of the map's unknown keys, one per key and no other, in visiting order |
| PackageMapper.WarningsOfTrimmed | src/main.rs:97 | when the map's keys are trimmed, a text is warned about exactly when it is an unknown key of the map, and no key is warned about twice |
| PackageMapper.ExprToPkg | src/main.rs:58-100 | the mapping fails exactly when some scalar key has an empty list. Otherwise each field holds the value of a key naming it, or its old value when the map has none. With trimmed keys (which `parse` guarantees), each field holds the value of its own key name, whatever the iteration order. The warnings are the trimmed names of the unknown keys, one per key of the map, in visiting order |
| Interpreter.ParsedKeysTrimmed | src/main.rs:5-8 | a parsed map has trimmed keys, so the mapper's result on it is fixed by key names alone |
| Interpreter.Interpret | src/main.rs:5-8 | a parse failure is reported as such. Otherwise the run fails exactly when a scalar key has an empty list; on success each field of the default package is set from its own key, and the warnings are the map's unknown keys, each exactly once |

## Left out

- `main`'s argument and file reading, and its `dbg!` output, are input/output. `Interpreter.Interpret` takes the file's text as a parameter and returns the package.
- The `dbg!(lexpr)` in `parse` and the `eprintln!` for unknown keys are output. `ExprToPkg` returns the warnings as a list of the unknown trimmed keys instead of printing them.
- `Package::install` is an empty stub and is not modelled.
- `str::trim`, `trim_start` and `str::lines` follow Unicode. Here whitespace is ASCII space and characters 9 to 13. Lines split at `\n`, a `\r` is stripped only before a `\n`, and a final empty piece is dropped.
- `Package` is a value that `ExprToPkg` takes and returns, not a structure updated in place through `&mut`. No other reference to it exists in the source, so nothing is lost but the in-place update.
- The `HashMap`'s iteration order is an arbitrary choice of the next unvisited key. The model does not fix the order Rust would use.
- A panic is an error result. Field updates made before a panic in `expr_to_pkg` are not observable and are not modelled.
- PackageMapper.ExprToPkg, Interpreter.Interpret: when the mapping fails, the warnings the source has already printed for unknown keys visited before the panic are dropped; the error result carries no warnings.
- Not in this source, so not modelled: backslash line joining, command expansion, dependency parsing, and integer parsing of `release`. `release` is a `String` here (src/main.rs:106), so `.parse()` cannot fail.
- The value of a declaration is the text between the first and the second colon, as the code has it. It is not the whole text after the first colon (`ParserProperties.SecondColonDropped`).
- ParserProperties.TrimAll: its own contract states only the length. That each element is the trimmed line follows from its definition, and `TabIndentedLines` states it for the lines it is used on.
- Strings.TrimStart, Strings.TrimEnd: their contracts state the ends of the result, not that only whitespace was removed. The padding lemmas state that direction.
