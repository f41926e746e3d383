# getopts-util option resolution, modelled in Dafny

This project models the option-resolution layer of `getopts-util` (`src/lib.rs`), which sits on top of the `getopts` argument scanner:

- **Declarations** (`declarations.dfy`). `OptionDef`, `OptAction` and the scanner settings that `add_option` derives from a declaration:
  - the arity (`HasArg`) is `No` exactly for flag options;
  - the occurrence (`Occur`) is `Req` if the option is required, else `Multi` if it is multiple, else `Optional`.
- **Result set** (`options.dfy`). The class `Options`: the declared names in order and a map from option name to its values.
  - `Get` gives `None` for a declared name that was neither given nor defaulted.
  - `ContainsKey` still reports such a name.
- **Usage brief** (`usage.dfy`). The header line `show_usage` builds: `Usage: <prog>` and then one token per declaration.
- **Resolution** (`resolution.dfy`). What each declaration resolves to under the scanner's matches, and the left-to-right walk that builds the result map or stops at the first panic.
- **Parser** (`parser.dfy`). The class `OptionParser`, with its declarations and the scanner specs it has registered:
  - `AddOption` declares one option;
  - `ShowUsage` builds the brief with the source's loop;
  - `ParseWithArgs` adds the implicit help spec, gates on help and syntax errors, and runs the resolution loop;
  - the pure function `Parse` is its specification.
- **Scenarios** (`scenarios.dfy`). The source's unit tests, restated over the model.

The scanner is a parameter. `scan` maps the registered specs and `args[1..]` to either a syntax error or a `Matches` value. A `Matches` value has three functions: `present`, `single` (getopts' `opt_str`) and `all` (`opt_strs`). Nothing is assumed about how these three relate.

The source exits or panics in several places. Here each of those becomes a `Verdict` variant:
- `HelpExit`: usage shown, exit code 0;
- `SyntaxFatal`: usage shown, then a panic with the scanner's message;
- `Aborted`, carrying one of three `ResolveError`s: `FlagMultipleConflict`, `RequiredNoValue` or `MissingValue`;
- `NoProgramName`: `&args[1..]` panics when the argument list is empty.

Result-set shape: a name gets an entry only when it was given or has a default. A declared name without an entry is still known to `ContainsKey`.

Where the design description and the code differ, the model follows the code:
- the syntax-error help check looks only at `args[1..]`;
- usage is printed only before a help exit or a syntax-error panic, not before the three resolution panics;
- a required multiple option is registered with the scanner as `Req`, so the scanner admits it once.

## Model

| member | source | states |
|---|---|---|
| `Declarations.ToUpper` | src/lib.rs:280 | the placeholder has the name's length and no lower-case ASCII letter; lower-case letters are shifted to upper case and every other character is kept |
| `Declarations.ToUpperIdempotent` | src/lib.rs:280 | upper-casing a placeholder again changes nothing |
| `Declarations.ArityOf` | src/lib.rs:283-290 | the scanner arity is `No` exactly when an action is set, `Yes` exactly when none is |
| `Declarations.OccurOf` | src/lib.rs:291-300 | the occurrence is `Req` iff required, `Multi` iff multiple and not required, `Optional` iff neither: required takes precedence over multiple |
| `Declarations.Declare` | src/lib.rs:262-280 | name, short name, default and action are kept; absent `required`/`multiple` mean false; absent help is ""; the placeholder is the upper-cased name |
| `ResultSet.Options.constructor` | src/lib.rs:48-53 | a new result set has no declared names and no entries |
| `ResultSet.Options.SetDefinedNames` | src/lib.rs:55-59 | the names are appended in order; the entries are unchanged |
| `ResultSet.Options.Insert` | src/lib.rs:61-63 | the key's entry becomes the values; every other entry and the declared names stay; the previous entry for that key is returned, or None if there was none |
| `ResultSet.Options.Get` | src/lib.rs:65-71 | Some exactly when the key has an entry, and then that entry |
| `ResultSet.Options.ContainsKey` | src/lib.rs:73-81 | true exactly when the key has an entry or is a declared name, so true for every declared name |
| `ResultSet.Options.ParsedLenAtMostDefinedLen` | src/lib.rs:83-89 | when every entry belongs to a declared name, `ParsedLen() <= DefinedLen()` |
| `Usage.BriefTailAppend` | src/lib.rs:116-134 | the token string of two runs of declarations is the two token strings, in order |
| `Usage.BriefTailStep` | src/lib.rs:132-133 | one more declaration appends exactly its space-prefixed token |
| `Usage.FormatOptionToken` | src/lib.rs:117-132 | the loop body's formatting yields " " followed by `OptionToken` of the declaration |
| `Usage.BriefTailCons` | src/lib.rs:116-134 | the first declaration's space-prefixed token comes first |
| `Usage.TokenBracketing` | src/lib.rs:129-131 | a token starts with "[" exactly when its option is not required, and then ends with "]" |
| `Usage.TokenContents` | src/lib.rs:117-128 | a token names its option as "--name" right after any bracket; a multiple option's token ends with "..." inside any bracket |
| `Usage.BriefHeader` | src/lib.rs:135 | the brief starts with "Usage: " followed by the program name |
| `Parser.OptionParser.ShowUsage` | src/lib.rs:114-135 | the brief built by the loop equals `Brief(programName, givenOptions)` |
| `Resolution.ResolveOne` | src/lib.rs:183-246 | a stored list is never empty; an abort names the declaration and happens only when the option was given; an option is skipped exactly when it is absent and has no default |
| `Resolution.AbortedPrefix` | src/lib.rs:183-247 | once a prefix of the declarations panics, the whole walk ends with that panic |
| `Resolution.SucceedsIffNoAbort` | src/lib.rs:181-249 | resolution succeeds exactly when no declaration aborts |
| `Resolution.FirstAbortWins` | src/lib.rs:183-247 | when several declarations would panic, the first in declaration order decides the error |
| `Resolution.ResolvedShape` | src/lib.rs:181-249 | every key of a successful result is a declared name and every stored list is non-empty |
| `Resolution.ResolvedEntry` | src/lib.rs:183-246 | with distinct names, a declaration has an entry exactly when it stores values, and the entry is those values |
| `Resolution.AbsentOption` | src/lib.rs:240-246 | an option not given maps to exactly `[default]`, or has no entry when there is no default |
| `Resolution.PresentSingle` | src/lib.rs:211-238 | a given single-valued option maps to `[v]` for a captured value `v`; without one it must be a flag and maps to ["true"] or ["false"] by its action |
| `Resolution.PresentMultiple` | src/lib.rs:186-210 | a given multiple option in a successful result has no action, a non-empty value list, and maps to exactly the scanner's values in order |
| `Resolution.PresentOptionErrors` | src/lib.rs:186-237 | a given multiple flag is a conflict whatever values were captured; a multiple option with no values is `RequiredNoValue` if required, else `MissingValue`; a single option with neither value nor action is `MissingValue` |
| `Parser.ImplicitHelpSpec` | src/lib.rs:145-155 | the help spec is appended, once and after the registered specs, exactly when no declaration is named "help" |
| `Parser.SyntaxErrorGating` | src/lib.rs:157-172 | on a scanner error the usage brief is shown; the outcome is a help exit exactly when some argument after the program name is `--help` or `-h`, and otherwise a fatal error with the scanner's message |
| `Parser.HelpRequestWins` | src/lib.rs:174-179 | when the matches report help, the outcome is a help exit with the brief, before any declaration is resolved |
| `Parser.ResolvedParse` | src/lib.rs:181-249 | a resolved parse lists the declared names in order; its entries belong to declared names and are non-empty; there are no more entries than names |
| `Parser.AbortedParse` | src/lib.rs:183-247 | a parse that gets past help aborts exactly when some declaration aborts, and then with the first such declaration's error |
| `Parser.OptionParser.constructor` | src/lib.rs:107-112 | a new parser has no declarations and no registered specs |
| `Parser.OptionParser.AddOption` | src/lib.rs:252-314 | exactly one declaration, `Declare(...)`, is appended, and exactly its derived scanner spec is registered |
| `Parser.OptionParser.ResolveDeclaration` | src/lib.rs:184-246 | one pass of the loop: reports an error exactly when the declaration aborts, and otherwise updates the entries as the declaration's step says |
| `Parser.OptionParser.ResolveDeclarations` | src/lib.rs:181-249 | a fresh result set with the declared names in order and with exactly the entries of the resolution, or the first panic |
| `Parser.OptionParser.ParseWithArgs` | src/lib.rs:144-250 | the verdict is `Parse(...)` and the implicit help spec is registered if needed; on success the returned result set holds the resolved entries, knows every declared name, and `ParsedLen() <= DefinedLen()` |
| `Scenarios.SingleOption` | src/lib.rs:337-355 | `--input INPUT_VALUE` resolves to `{input: ["INPUT_VALUE"]}` |
| `Scenarios.SingleFlagOption` | src/lib.rs:378-396 | a bare `--verbose` declared with `StoreTrue` resolves to `{verbose: ["true"]}` |
| `Scenarios.SingleOptionWithoutValues` | src/lib.rs:398-413 | with no arguments, "input" is declared and has no entry |

## Left out

- `OptionParser::parse` (src/lib.rs:139-142) reads the process arguments. Only `parse_with_args`, over an explicit argument list, is modelled.
- The `getopts` scanner itself (`opts.parse`, `opt_present`, `opt_str`, `opt_strs`) is a foreign library. It is the `scan` parameter and the `Matches` value. So the model does not capture what getopts does with duplicate specs, or whether `opt_present("h")` itself panics when no option answers to "h".
- `opts.usage(&brief)` and `println!` (src/lib.rs:136) belong to getopts and to output. Only the brief string is modelled. It is carried in the `HelpExit` and `SyntaxFatal` verdicts.
- `process::exit` and `panic!` become `Verdict` variants instead of ending the process. The text of the panic messages is reduced to the error kind and the option name.
- The `fmt::Debug` implementation (src/lib.rs:92-99) is left out: its output depends on the map's iteration order.
- Declarations.ToUpper: does not model Unicode `to_uppercase`. Only ASCII `a`-`z` are mapped, and every other character is kept.
- `ResultSet.Options.DefinedLen` and `ResultSet.Options.ParsedLen` are plain counts with no contract of their own. Their relation is `ParsedLenAtMostDefinedLen`.
- The test helpers that use `env::current_exe` (src/lib.rs:322-335) are left out. The scenarios take the program name as a parameter. `test_single_short_option` (src/lib.rs:357-376) depends only on how the scanner maps `-i` to `input`, so it is not restated.
