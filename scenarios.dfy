/**
 * The unit tests of src/lib.rs restated over the model, with the scanner's
 * answer for each argument list written out.
 */
module Scenarios {
  import opened Wrappers
  import opened Declarations
  import opened Resolution
  import opened Parser

  /** A scanner that reports the given options present with the given first values. */
  function ScanOf(given: map<string, string>, flags: set<string>): (seq<ScanSpec>, seq<string>) -> ScanResult {
    (specs: seq<ScanSpec>, rest: seq<string>) =>
      Scanned(Matches(
        (n: string) => n in given || n in flags,
        (n: string) => if n in given then Some(given[n]) else None,
        (n: string) => if n in given then [given[n]] else []))
  }

  /** `--input INPUT_VALUE` against a plain declaration stores the value. */
  lemma SingleOption(prog: string)
    ensures var ds := [Declare("input", "", None, None, None, None, None)];
      Parse(ds, [SpecOf(ds[0])], [prog, "--input", "INPUT_VALUE"], ScanOf(map["input" := "INPUT_VALUE"], {}))
        == Resolved(["input"], map["input" := ["INPUT_VALUE"]])
  {
    var ds := [Declare("input", "", None, None, None, None, None)];
    assert Names(ds) == ["input"];
    assert ds[..0] == [];
  }

  /** A bare `--verbose` declared with `StoreTrue` stores "true". */
  lemma SingleFlagOption(prog: string)
    ensures var ds := [Declare("verbose", "", None, None, None, Some(StoreTrue), None)];
      Parse(ds, [SpecOf(ds[0])], [prog, "--verbose"], ScanOf(map[], {"verbose"}))
        == Resolved(["verbose"], map["verbose" := ["true"]])
  {
    var ds := [Declare("verbose", "", None, None, None, Some(StoreTrue), None)];
    assert Names(ds) == ["verbose"];
    assert ds[..0] == [];
  }

  /** No arguments: the declared name is listed but has no entry. */
  lemma SingleOptionWithoutValues(prog: string)
    ensures var ds := [Declare("input", "", None, None, None, None, None)];
      Parse(ds, [SpecOf(ds[0])], [prog], ScanOf(map[], {})) == Resolved(["input"], map[])
  {
    var ds := [Declare("input", "", None, None, None, None, None)];
    assert Names(ds) == ["input"];
    assert ds[..0] == [];
  }
}
