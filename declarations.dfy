/**
 * One option declaration (`OptionDef` in src/lib.rs) and the scanner spec
 * that `OptionParser::add_option` derives from it.
 */
module Declarations {
  import opened Wrappers

  /** The boolean action of a flag option: its presence stores "true" or "false". */
  datatype OptAction = StoreTrue | StoreFalse

  /** Whether the scanner expects a value token after the option (getopts' `HasArg`). */
  datatype HasArg = Yes | No

  /** How often the scanner admits the option (getopts' `Occur`). */
  datatype Occur = Req | Optional | Multi

  datatype OptionDef = OptionDef(
    name: string,
    shortName: string,
    required: bool,
    multiple: bool,
    default: Option<string>,
    action: Option<OptAction>,
    help: string,
    uppercaseName: string)

  /** The arguments of one `opts.opt(short, long, help, hint, hasarg, occur)` registration. */
  datatype ScanSpec = ScanSpec(
    shortName: string,
    longName: string,
    help: string,
    placeholder: string,
    hasArg: HasArg,
    occur: Occur)

  /** `OptionDef::new()`: every field empty or off. */
  const EmptyDef: OptionDef := OptionDef("", "", false, false, None, None, "", "")

  /** The `-h`/`--help` spec registered when no declaration is named "help". */
  const HelpSpec: ScanSpec :=
    ScanSpec("h", "help", "show this help message and exit", "", No, Optional)

  predicate IsAsciiLower(c: char) {
    'a' <= c <= 'z'
  }

  function UpperChar(c: char): char {
    if IsAsciiLower(c) then (c as int - 32) as char else c
  }

  /** Upper-casing of a name, restricted to ASCII letters. */
  function ToUpper(s: string): (r: string)
    ensures |r| == |s|
    ensures forall i :: 0 <= i < |r| ==> !IsAsciiLower(r[i])
    ensures forall i :: 0 <= i < |r| && !IsAsciiLower(s[i]) ==> r[i] == s[i]
    ensures forall i :: 0 <= i < |r| && IsAsciiLower(s[i]) ==> r[i] as int + 32 == s[i] as int
  {
    seq(|s|, i requires 0 <= i < |s| => UpperChar(s[i]))
  }

  /** Upper-casing twice is upper-casing once. */
  lemma ToUpperIdempotent(s: string)
    ensures ToUpper(ToUpper(s)) == ToUpper(s)
  {
    var u := ToUpper(s);
    assert forall i :: 0 <= i < |u| ==> ToUpper(u)[i] == u[i];
  }

  /** The scanner arity of a declaration: no value token exactly when it has an action. */
  function ArityOf(action: Option<OptAction>): (h: HasArg)
    ensures h == No <==> action.Some?
    ensures h == Yes <==> action.None?
  {
    if action.Some? then No else Yes
  }

  /**
   * The scanner occurrence of a declaration: `required` takes precedence over
   * `multiple`, and neither gives an optional single occurrence.
   */
  function OccurOf(required: bool, multiple: bool): (o: Occur)
    ensures o == Req <==> required
    ensures o == Multi <==> !required && multiple
    ensures o == Optional <==> !required && !multiple
  {
    if required then Req else if multiple then Multi else Optional
  }

  /**
   * The declaration `add_option` builds from its arguments: absent booleans
   * are false, an absent help text is empty, and the placeholder is the
   * upper-cased name.
   */
  function Declare(
    name: string, shortName: string, required: Option<bool>, multiple: Option<bool>,
    default: Option<string>, action: Option<OptAction>, help: Option<string>): (d: OptionDef)
    ensures d.name == name && d.shortName == shortName
    ensures d.required <==> required == Some(true)
    ensures d.multiple <==> multiple == Some(true)
    ensures d.default == default && d.action == action
    ensures help.None? ==> d.help == ""
    ensures help.Some? ==> d.help == help.value
    ensures d.uppercaseName == ToUpper(name)
  {
    OptionDef(
      name, shortName,
      match required case Some(v) => v case None => false,
      match multiple case Some(v) => v case None => false,
      default, action,
      match help case Some(v) => v case None => "",
      ToUpper(name))
  }

  /** The scanner spec registered for a declaration. */
  function SpecOf(d: OptionDef): ScanSpec {
    ScanSpec(d.shortName, d.name, d.help, d.uppercaseName, ArityOf(d.action), OccurOf(d.required, d.multiple))
  }
}
