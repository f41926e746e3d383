/**
 * The parse result (`Options` in src/lib.rs): the declared names in
 * declaration order and a map from option name to its resolved values.
 * A name that was declared but neither given nor defaulted has no entry
 * in the map, yet `ContainsKey` still reports it.
 */
module ResultSet {
  import opened Wrappers

  /** The number of distinct elements of a sequence never exceeds its length. */
  lemma {:induction false} DistinctAtMostLength(keys: set<string>, names: seq<string>)
    requires forall k :: k in keys ==> k in names
    ensures |keys| <= |names|
  {
    if names != [] {
      var last := names[|names| - 1];
      var rest := names[..|names| - 1];
      var others := keys - {last};
      forall k | k in others ensures k in rest {
        var i :| 0 <= i < |names| && names[i] == k;
        assert i < |names| - 1 && rest[i] == k;
      }
      DistinctAtMostLength(others, rest);
    }
  }

  class Options {
    var definedNames: seq<string>
    var parsedOptions: map<string, seq<string>>

    constructor ()
      ensures definedNames == [] && parsedOptions == map[]
    {
      definedNames := [];
      parsedOptions := map[];
    }

    /** Appends the given names, one at a time and in order, to the declared names. */
    method SetDefinedNames(names: seq<string>)
      modifies this
      ensures definedNames == old(definedNames) + names
      ensures parsedOptions == old(parsedOptions)
    {
      var i := 0;
      while i < |names|
        invariant 0 <= i <= |names|
        invariant definedNames == old(definedNames) + names[..i]
        invariant parsedOptions == old(parsedOptions)
      {
        definedNames := definedNames + [names[i]];
        i := i + 1;
      }
      assert names[..i] == names;
    }

    /**
     * Stores `values` under `key`, replacing any earlier entry, and returns
     * the entry it replaced. The declared names and the other keys are untouched.
     */
    method Insert(key: string, values: seq<string>) returns (previous: Option<seq<string>>)
      modifies this
      ensures parsedOptions == old(parsedOptions)[key := values]
      ensures forall k :: k in old(parsedOptions) && k != key ==> parsedOptions[k] == old(parsedOptions)[k]
      ensures previous.Some? <==> key in old(parsedOptions)
      ensures previous.Some? ==> previous.value == old(parsedOptions)[key]
      ensures definedNames == old(definedNames)
    {
      previous := if key in parsedOptions then Some(parsedOptions[key]) else None;
      parsedOptions := parsedOptions[key := values];
    }

    /** The values stored under `key`, if any; a declared name without an entry gives None. */
    function Get(key: string): (r: Option<seq<string>>)
      reads this
      ensures r.Some? <==> key in parsedOptions
      ensures r.Some? ==> r.value == parsedOptions[key]
    {
      if key in parsedOptions then Some(parsedOptions[key]) else None
    }

    /** A key is known when it has an entry or was declared. */
    function ContainsKey(key: string): (r: bool)
      reads this
      ensures r <==> key in parsedOptions || key in definedNames
      ensures key in definedNames ==> r
    {
      if key in parsedOptions then true
      else if key in definedNames then true
      else false
    }

    function DefinedLen(): nat
      reads this
    {
      |definedNames|
    }

    function ParsedLen(): nat
      reads this
    {
      |parsedOptions|
    }

    /** When every entry belongs to a declared name, there are no more entries than declared names. */
    lemma ParsedLenAtMostDefinedLen()
      requires forall k :: k in parsedOptions ==> k in definedNames
      ensures ParsedLen() <= DefinedLen()
    {
      DistinctAtMostLength(parsedOptions.Keys, definedNames);
    }
  }
}
