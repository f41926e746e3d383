/**
 * The one-line usage brief `show_usage` hands to the scanner's help renderer:
 * "Usage: <prog>" followed by one token per declaration, in declaration order.
 */
module Usage {
  import opened Wrappers
  import opened Declarations

  /** "--name", followed by " PLACEHOLDER" unless the option is a flag. */
  function BaseToken(d: OptionDef): string {
    "--" + d.name + (if d.action.Some? then "" else " " + d.uppercaseName)
  }

  /** The token of one declaration: repeated with "..." when multiple, bracketed when optional. */
  function OptionToken(d: OptionDef): string {
    var base := BaseToken(d);
    var repeated := if d.multiple then base + " " + base + "..." else base;
    if d.required then repeated else "[" + repeated + "]"
  }

  /** The space-prefixed tokens of the declarations, accumulated left to right. */
  function BriefTail(ds: seq<OptionDef>): string {
    if ds == [] then "" else BriefTail(ds[..|ds| - 1]) + " " + OptionToken(ds[|ds| - 1])
  }

  function Brief(programName: string, ds: seq<OptionDef>): string {
    "Usage: " + programName + BriefTail(ds)
  }

  /** The tokens of two runs of declarations are the tokens of each, in order. */
  lemma {:induction false} BriefTailAppend(a: seq<OptionDef>, b: seq<OptionDef>)
    ensures BriefTail(a + b) == BriefTail(a) + BriefTail(b)
    decreases |b|
  {
    if b == [] {
      assert a + b == a;
    } else {
      var b' := b[..|b| - 1];
      assert (a + b)[..|a + b| - 1] == a + b';
      BriefTailAppend(a, b');
    }
  }

  /** The body of `show_usage`'s loop: formats one declaration's space-prefixed token. */
  method FormatOptionToken(o: OptionDef) returns (singleOpt: string)
    ensures singleOpt == " " + OptionToken(o)
  {
    singleOpt := "--" + o.name + (if o.action.Some? then "" else " " + o.uppercaseName);
    if o.multiple {
      singleOpt := singleOpt + " " + singleOpt + "...";
    }
    if !o.required {
      singleOpt := "[" + singleOpt + "]";
    }
    singleOpt := " " + singleOpt;
  }

  /** One more declaration adds its space-prefixed token at the end. */
  lemma BriefTailStep(ds: seq<OptionDef>, i: nat)
    requires i < |ds|
    ensures BriefTail(ds[..i + 1]) == BriefTail(ds[..i]) + (" " + OptionToken(ds[i]))
  {
    assert ds[..i + 1][..i] == ds[..i];
    var a, t := BriefTail(ds[..i]), OptionToken(ds[i]);
    assert a + " " + t == a + (" " + t);
  }

  /** Read from the front: the first declaration's token comes first. */
  lemma {:induction false} BriefTailCons(d: OptionDef, ds: seq<OptionDef>)
    ensures BriefTail([d] + ds) == " " + OptionToken(d) + BriefTail(ds)
  {
    BriefTailAppend([d], ds);
    assert [d][..0] == [];
    var t := OptionToken(d);
    assert BriefTail([d]) == "" + " " + t;
    assert "" + " " + t == " " + t;
  }

  /** A token starts with "[" exactly when its option is optional, and then it ends with "]". */
  lemma TokenBracketing(d: OptionDef)
    ensures |OptionToken(d)| >= 2
    ensures OptionToken(d)[0] == '[' <==> !d.required
    ensures !d.required ==> OptionToken(d)[|OptionToken(d)| - 1] == ']'
  {
    var base := BaseToken(d);
    assert base[0] == '-';
    var repeated := if d.multiple then base + " " + base + "..." else base;
    assert repeated[0] == '-';
  }

  /**
   * The token names the option as "--name"; a multiple option's token ends
   * with "..." (inside the brackets when optional).
   */
  lemma TokenContents(d: OptionDef)
    ensures var t := OptionToken(d);
      var k := if d.required then 0 else 1;
      |t| >= k + 2 + |d.name| && t[k..k + 2 + |d.name|] == "--" + d.name
    ensures d.multiple ==>
      var t := OptionToken(d);
      var e := if d.required then |t| else |t| - 1;
      3 <= e <= |t| && t[e - 3..e] == "..."
  {
    var n := 2 + |d.name|;
    var base := BaseToken(d);
    assert base[..n] == "--" + d.name;
    var repeated := if d.multiple then base + " " + base + "..." else base;
    assert repeated[..n] == base[..n];
    if d.multiple {
      assert repeated[|repeated| - 3..] == "...";
    }
    if !d.required {
      var t := "[" + repeated + "]";
      assert t[1..|t| - 1] == repeated;
      assert t[1..1 + n] == repeated[..n];
      if d.multiple {
        assert t[|t| - 4..|t| - 1] == repeated[|repeated| - 3..];
      }
    }
  }

  /** The brief begins with "Usage: " and the program name. */
  lemma BriefHeader(programName: string, ds: seq<OptionDef>)
    ensures |Brief(programName, ds)| >= 7 + |programName|
    ensures Brief(programName, ds)[..7 + |programName|] == "Usage: " + programName
  {
  }
}
