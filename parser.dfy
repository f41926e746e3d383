/**
 * `OptionParser`: the declarations made so far, the scanner specs registered
 * for them, and `parse_with_args`, which gates on help, resolves every
 * declaration in order and returns the result set or the way the process
 * would have ended.
 */
module Parser {
  import opened Wrappers
  import opened Declarations
  import opened ResultSet
  import opened Usage
  import opened Resolution

  /** What the scanner makes of the arguments after the program name. */
  datatype ScanResult = Scanned(matches: Matches) | SyntaxError(message: string)

  /** How `parse_with_args` ends: with a result set, or where the source exits or panics. */
  datatype Verdict =
    | Resolved(names: seq<string>, parsed: map<string, seq<string>>)
    | HelpExit(usage: string)                        // usage printed, exit code 0
    | SyntaxFatal(usage: string, message: string)    // usage printed, panic with the scanner's message
    | Aborted(error: ResolveError)                   // panic while resolving a declaration
    | NoProgramName                                  // `&args[1..]` on an empty argument list

  function Names(ds: seq<OptionDef>): seq<string> {
    seq(|ds|, i requires 0 <= i < |ds| => ds[i].name)
  }

  predicate DeclaresHelp(ds: seq<OptionDef>) {
    exists i :: 0 <= i < |ds| && ds[i].name == "help"
  }

  /** The specs the scanner sees: the implicit help spec is added unless "help" was declared. */
  function WithImplicitHelp(ds: seq<OptionDef>, specs: seq<ScanSpec>): seq<ScanSpec> {
    if DeclaresHelp(ds) then specs else specs + [HelpSpec]
  }

  predicate AsksForHelp(rest: seq<string>) {
    exists i :: 0 <= i < |rest| && (rest[i] == "--help" || rest[i] == "-h")
  }

  /** The outcome of `parse_with_args` for declarations `ds`, registered specs `specs` and arguments `args`. */
  function Parse(ds: seq<OptionDef>, specs: seq<ScanSpec>, args: seq<string>,
                 scan: (seq<ScanSpec>, seq<string>) -> ScanResult): Verdict
  {
    if |args| == 0 then NoProgramName
    else
      match scan(WithImplicitHelp(ds, specs), args[1..])
      case SyntaxError(message) =>
        if AsksForHelp(args[1..]) then HelpExit(Brief(args[0], ds))
        else SyntaxFatal(Brief(args[0], ds), message)
      case Scanned(m) =>
        if m.present("h") then HelpExit(Brief(args[0], ds))
        else
          match ResolveAll(ds, m)
          case Success(parsed) => Resolved(Names(ds), parsed)
          case Failure(e) => Aborted(e)
  }

  /** The implicit help spec is appended, once, exactly when no declaration is named "help". */
  lemma ImplicitHelpSpec(ds: seq<OptionDef>, specs: seq<ScanSpec>)
    ensures var s := WithImplicitHelp(ds, specs);
      s[..|specs|] == specs &&
      (|s| == |specs| + 1 <==> forall i :: 0 <= i < |ds| ==> ds[i].name != "help") &&
      (|s| == |specs| + 1 ==> s[|specs|] == HelpSpec) &&
      (|s| == |specs| || |s| == |specs| + 1)
  {
  }

  /**
   * On a syntax error the usage brief is shown, and the process exits with
   * code 0 exactly when some argument after the program name is `--help` or
   * `-h`; otherwise it panics with the scanner's message.
   */
  lemma SyntaxErrorGating(ds: seq<OptionDef>, specs: seq<ScanSpec>, args: seq<string>,
                          scan: (seq<ScanSpec>, seq<string>) -> ScanResult)
    requires |args| > 0 && scan(WithImplicitHelp(ds, specs), args[1..]).SyntaxError?
    ensures var v := Parse(ds, specs, args, scan);
      (v.HelpExit? <==> AsksForHelp(args[1..])) &&
      (v.HelpExit? || v.SyntaxFatal?) &&
      v.usage == Brief(args[0], ds)
    ensures !AsksForHelp(args[1..]) ==>
      Parse(ds, specs, args, scan).message == scan(WithImplicitHelp(ds, specs), args[1..]).message
  {
  }

  /** A help request wins over every declaration, including ones that would abort. */
  lemma HelpRequestWins(ds: seq<OptionDef>, specs: seq<ScanSpec>, args: seq<string>,
                        scan: (seq<ScanSpec>, seq<string>) -> ScanResult)
    requires |args| > 0
    requires var r := scan(WithImplicitHelp(ds, specs), args[1..]); r.Scanned? && r.matches.present("h")
    ensures Parse(ds, specs, args, scan) == HelpExit(Brief(args[0], ds))
  {
  }

  /**
   * A resolved parse lists the declared names in declaration order, has an
   * entry only for declared names, never stores an empty list, and so has
   * no more entries than declared names.
   */
  lemma ResolvedParse(ds: seq<OptionDef>, specs: seq<ScanSpec>, args: seq<string>,
                      scan: (seq<ScanSpec>, seq<string>) -> ScanResult)
    requires Parse(ds, specs, args, scan).Resolved?
    ensures var v := Parse(ds, specs, args, scan);
      |v.names| == |ds| && (forall i :: 0 <= i < |ds| ==> v.names[i] == ds[i].name) &&
      (forall k :: k in v.parsed ==> k in v.names) &&
      (forall k :: k in v.parsed ==> |v.parsed[k]| > 0) &&
      |v.parsed| <= |v.names|
  {
    var m := scan(WithImplicitHelp(ds, specs), args[1..]).matches;
    var v := Parse(ds, specs, args, scan);
    ResolvedShape(ds, m);
    forall k | k in v.parsed ensures k in v.names {
      var i :| 0 <= i < |ds| && NameOf(ds[i]) == k;
      assert v.names[i] == k;
    }
    DistinctAtMostLength(v.parsed.Keys, v.names);
  }

  /** A parse aborts with the error of the first declaration that aborts. */
  lemma AbortedParse(ds: seq<OptionDef>, specs: seq<ScanSpec>, args: seq<string>,
                     scan: (seq<ScanSpec>, seq<string>) -> ScanResult)
    requires |args| > 0
    requires var r := scan(WithImplicitHelp(ds, specs), args[1..]); r.Scanned? && !r.matches.present("h")
    ensures var m := scan(WithImplicitHelp(ds, specs), args[1..]).matches;
      Parse(ds, specs, args, scan).Aborted? <==> exists i :: 0 <= i < |ds| && ResolveOne(ds[i], m).Abort?
    ensures var m := scan(WithImplicitHelp(ds, specs), args[1..]).matches;
      forall i ::
        (0 <= i < |ds| && ResolveOne(ds[i], m).Abort? && forall j :: 0 <= j < i ==> !ResolveOne(ds[j], m).Abort?) ==>
        Parse(ds, specs, args, scan) == Aborted(ResolveOne(ds[i], m).error)
  {
    var m := scan(WithImplicitHelp(ds, specs), args[1..]).matches;
    SucceedsIffNoAbort(ds, m);
    forall i | 0 <= i < |ds| && ResolveOne(ds[i], m).Abort? &&
        (forall j :: 0 <= j < i ==> !ResolveOne(ds[j], m).Abort?)
      ensures Parse(ds, specs, args, scan) == Aborted(ResolveOne(ds[i], m).error)
    {
      FirstAbortWins(ds, m, i);
    }
  }

  class OptionParser {
    var givenOptions: seq<OptionDef>
    var specs: seq<ScanSpec>

    constructor ()
      ensures givenOptions == [] && specs == []
    {
      givenOptions := [];
      specs := [];
    }

    /**
     * Declares one option: fills in the defaults, registers the derived
     * scanner spec and appends the declaration.
     */
    method AddOption(name: string, shortName: string, required: Option<bool>, multiple: Option<bool>,
                     default: Option<string>, action: Option<OptAction>, help: Option<string>)
      modifies this
      ensures givenOptions == old(givenOptions) + [Declare(name, shortName, required, multiple, default, action, help)]
      ensures specs == old(specs) + [SpecOf(Declare(name, shortName, required, multiple, default, action, help))]
    {
      var option := EmptyDef;
      option := option.(name := name, shortName := shortName);
      option := option.(required := if required.Some? then required.value else false);
      option := option.(multiple := if multiple.Some? then multiple.value else false);
      option := option.(default := default, action := action);
      option := option.(help := if help.Some? then help.value else "");
      option := option.(uppercaseName := ToUpper(option.name));
      var hasArg := if option.action.Some? then No else Yes;
      var occur := if option.required then Req else if option.multiple then Multi else Optional;
      specs := specs + [ScanSpec(option.shortName, option.name, option.help, option.uppercaseName, hasArg, occur)];
      givenOptions := givenOptions + [option];
    }

    /** The usage brief, built by appending one space-prefixed token per declaration. */
    method ShowUsage(programName: string) returns (brief: string)
      ensures brief == Brief(programName, givenOptions)
    {
      var ds := givenOptions;
      var optionsForBrief := "";
      var i := 0;
      while i < |ds|
        invariant 0 <= i <= |ds|
        invariant optionsForBrief == BriefTail(ds[..i])
      {
        var o := ds[i];
        var singleOpt := FormatOptionToken(o);
        BriefTailStep(ds, i);
        optionsForBrief := optionsForBrief + singleOpt;
        i := i + 1;
      }
      assert ds[..i] == ds;
      brief := "Usage: " + programName + optionsForBrief;
    }

    /**
     * One pass of the resolution loop: stores the declaration's values in
     * `result`, or reports the panic it raises.
     */
    method ResolveDeclaration(result: Options, o: OptionDef, m: Matches) returns (error: Option<ResolveError>)
      modifies result
      ensures result.definedNames == old(result.definedNames)
      ensures error.Some? <==> ResolveOne(o, m).Abort?
      ensures error.Some? ==> error.value == ResolveOne(o, m).error
      ensures error.None? ==> Apply(old(result.parsedOptions), o, m) == Success(result.parsedOptions)
    {
      error := None;
      if m.present(o.name) {
        if o.multiple {
          if o.action.Some? {
            error := Some(FlagMultipleConflict(o.name));
          } else {
            var values := m.all(o.name);
            if |values| > 0 {
              var _ := result.Insert(o.name, values);
            } else if o.required {
              error := Some(RequiredNoValue(o.name));
            } else {
              error := Some(MissingValue(o.name));
            }
          }
        } else {
          var value := m.single(o.name);
          if value.Some? {
            var _ := result.Insert(o.name, [value.value]);
          } else if o.action.Some? {
            var _ := result.Insert(o.name, [if o.action.value == StoreTrue then "true" else "false"]);
          } else {
            error := Some(MissingValue(o.name));
          }
        }
      } else if o.default.Some? {
        var _ := result.Insert(o.name, [o.default.value]);
      }
    }

    /**
     * The resolution loop: a fresh result set holding the declared names,
     * filled declaration by declaration; the first panic stops it.
     */
    method ResolveDeclarations(m: Matches) returns (error: Option<ResolveError>, result: Options)
      ensures fresh(result) && result.definedNames == Names(givenOptions)
      ensures error.Some? <==> ResolveAll(givenOptions, m).Failure?
      ensures error.Some? ==> error.value == ResolveAll(givenOptions, m).error
      ensures error.None? ==> result.parsedOptions == ResolveAll(givenOptions, m).value
    {
      result := new Options();
      result.SetDefinedNames(Names(givenOptions));
      var i := 0;
      while i < |givenOptions|
        invariant 0 <= i <= |givenOptions|
        invariant fresh(result)
        invariant result.definedNames == Names(givenOptions)
        invariant ResolveAll(givenOptions[..i], m) == Success(result.parsedOptions)
      {
        var o := givenOptions[i];
        assert givenOptions[..i + 1][..i] == givenOptions[..i];
        error := ResolveDeclaration(result, o, m);
        if error.Some? {
          assert ResolveAll(givenOptions[..i + 1], m) == Failure(error.value);
          AbortedPrefix(givenOptions, m, i + 1);
          return;
        }
        i := i + 1;
      }
      assert givenOptions[..i] == givenOptions;
      error := None;
    }

    /**
     * Registers the implicit help spec when needed, scans `args[1..]`, and
     * either stops on help or a syntax error, or resolves every declaration
     * into a fresh result set. `options` is that result set exactly when the
     * verdict is `Resolved`.
     */
    method ParseWithArgs(args: seq<string>, scan: (seq<ScanSpec>, seq<string>) -> ScanResult)
      returns (verdict: Verdict, options: Options?)
      modifies this
      ensures givenOptions == old(givenOptions)
      ensures specs == WithImplicitHelp(old(givenOptions), old(specs))
      ensures verdict == Parse(old(givenOptions), old(specs), args, scan)
      ensures options != null <==> verdict.Resolved?
      ensures options != null ==>
        fresh(options) && options.definedNames == verdict.names && options.parsedOptions == verdict.parsed
      ensures options != null ==>
        (forall i :: 0 <= i < |givenOptions| ==> options.ContainsKey(givenOptions[i].name)) &&
        options.ParsedLen() <= options.DefinedLen()
    {
      if !DeclaresHelp(givenOptions) {
        specs := specs + [HelpSpec];
      }
      if |args| == 0 {
        return NoProgramName, null;
      }
      var scanned := scan(specs, args[1..]);
      if scanned.SyntaxError? {
        var usage := ShowUsage(args[0]);
        if AsksForHelp(args[1..]) {
          return HelpExit(usage), null;
        }
        return SyntaxFatal(usage, scanned.message), null;
      }
      var m := scanned.matches;
      if m.present("h") {
        var usage := ShowUsage(args[0]);
        return HelpExit(usage), null;
      }

      var error, result := ResolveDeclarations(m);
      if error.Some? {
        return Aborted(error.value), null;
      }
      verdict := Resolved(Names(givenOptions), result.parsedOptions);
      options := result;
      ResolvedParse(givenOptions, old(specs), args, scan);
    }
  }
}
