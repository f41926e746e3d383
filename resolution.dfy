/**
 * Resolution of the declarations against the scanner's matches: the value
 * each declaration contributes (or the panic it raises), and the whole
 * result map built by walking the declarations in order.
 */
module Resolution {
  import opened Wrappers
  import opened Declarations

  /**
   * What the scanner reports after a successful scan: whether an option
   * occurred, its first value, and all its values in input order.
   */
  datatype Matches = Matches(
    present: string -> bool,
    single: string -> Option<string>,
    all: string -> seq<string>)

  /** The three `panic!`s of the resolution loop. */
  datatype ResolveError =
    | FlagMultipleConflict(name: string)  // a multiple option with an action was given
    | RequiredNoValue(name: string)       // a required multiple option was given without values
    | MissingValue(name: string)          // an option was given without a value it needs

  /** What one declaration does to the result: store values, leave it alone, or abort. */
  datatype Step = Store(values: seq<string>) | Skip | Abort(error: ResolveError)

  function ActionValue(a: OptAction): string {
    match a
    case StoreTrue => "true"
    case StoreFalse => "false"
  }

  /** The value one declaration resolves to under the given matches. */
  function ResolveOne(d: OptionDef, m: Matches): (s: Step)
    ensures s.Store? ==> |s.values| > 0
    ensures s.Abort? ==> s.error.name == d.name && m.present(d.name)
    ensures s.Skip? <==> !m.present(d.name) && d.default.None?
  {
    if m.present(d.name) then
      if d.multiple then
        if d.action.Some? then Abort(FlagMultipleConflict(d.name))
        else
          var values := m.all(d.name);
          if |values| > 0 then Store(values)
          else if d.required then Abort(RequiredNoValue(d.name))
          else Abort(MissingValue(d.name))
      else
        match m.single(d.name)
        case Some(v) => Store([v])
        case None =>
          match d.action
          case Some(a) => Store([ActionValue(a)])
          case None => Abort(MissingValue(d.name))
    else
      match d.default
      case Some(v) => Store([v])
      case None => Skip
  }

  /** Applies one declaration's step to the map built so far. */
  function Apply(parsed: map<string, seq<string>>, d: OptionDef, m: Matches): Result<map<string, seq<string>>, ResolveError> {
    match ResolveOne(d, m)
    case Store(values) => Success(parsed[d.name := values])
    case Skip => Success(parsed)
    case Abort(e) => Failure(e)
  }

  /** The declarations resolved left to right; the first abort ends the walk. */
  function ResolveAll(ds: seq<OptionDef>, m: Matches): Result<map<string, seq<string>>, ResolveError> {
    if ds == [] then Success(map[])
    else
      match ResolveAll(ds[..|ds| - 1], m)
      case Failure(e) => Failure(e)
      case Success(parsed) => Apply(parsed, ds[|ds| - 1], m)
  }

  function NameOf(d: OptionDef): string {
    d.name
  }

  predicate NamesDistinct(ds: seq<OptionDef>) {
    forall i, j :: 0 <= i < j < |ds| ==> NameOf(ds[i]) != NameOf(ds[j])
  }

  /** Once a prefix of the declarations aborts, the whole walk aborts with the same error. */
  lemma {:induction false} AbortedPrefix(ds: seq<OptionDef>, m: Matches, k: nat)
    requires k <= |ds| && ResolveAll(ds[..k], m).Failure?
    ensures ResolveAll(ds, m) == ResolveAll(ds[..k], m)
    decreases |ds| - k
  {
    if k < |ds| {
      var ds' := ds[..|ds| - 1];
      assert ds'[..k] == ds[..k];
      AbortedPrefix(ds', m, k);
    } else {
      assert ds[..k] == ds;
    }
  }

  /** The walk succeeds exactly when no declaration aborts. */
  lemma {:induction false} SucceedsIffNoAbort(ds: seq<OptionDef>, m: Matches)
    ensures ResolveAll(ds, m).Success? <==> forall i :: 0 <= i < |ds| ==> !ResolveOne(ds[i], m).Abort?
  {
    if ds != [] {
      var ds' := ds[..|ds| - 1];
      SucceedsIffNoAbort(ds', m);
      assert forall i :: 0 <= i < |ds'| ==> ds'[i] == ds[i];
    }
  }

  /** When several declarations abort, the error reported is that of the first of them. */
  lemma {:induction false} FirstAbortWins(ds: seq<OptionDef>, m: Matches, i: nat)
    requires i < |ds| && ResolveOne(ds[i], m).Abort?
    requires forall j :: 0 <= j < i ==> !ResolveOne(ds[j], m).Abort?
    ensures ResolveAll(ds, m) == Failure(ResolveOne(ds[i], m).error)
  {
    var before := ds[..i];
    SucceedsIffNoAbort(before, m);
    assert ds[..i + 1][..i] == before;
    AbortedPrefix(ds, m, i + 1);
  }

  /** Every key of a successful result is a declared name, and every stored list is non-empty. */
  lemma {:induction false} ResolvedShape(ds: seq<OptionDef>, m: Matches)
    requires ResolveAll(ds, m).Success?
    ensures forall k :: k in ResolveAll(ds, m).value ==> exists i :: 0 <= i < |ds| && NameOf(ds[i]) == k
    ensures forall k :: k in ResolveAll(ds, m).value ==> |ResolveAll(ds, m).value[k]| > 0
  {
    if ds != [] {
      var ds' := ds[..|ds| - 1];
      ResolvedShape(ds', m);
      forall k | k in ResolveAll(ds, m).value
        ensures exists i :: 0 <= i < |ds| && NameOf(ds[i]) == k
      {
        if k != NameOf(ds[|ds| - 1]) {
          var i :| 0 <= i < |ds'| && NameOf(ds'[i]) == k;
          assert NameOf(ds[i]) == k;
        }
      }
    }
  }

  /**
   * With distinct names, a successful result holds an entry for a declaration
   * exactly when that declaration stores values, and the entry is those values.
   */
  lemma {:induction false} ResolvedEntry(ds: seq<OptionDef>, m: Matches, i: nat)
    requires NamesDistinct(ds) && i < |ds| && ResolveAll(ds, m).Success?
    ensures ds[i].name in ResolveAll(ds, m).value <==> ResolveOne(ds[i], m).Store?
    ensures ResolveOne(ds[i], m).Store? ==> ResolveAll(ds, m).value[ds[i].name] == ResolveOne(ds[i], m).values
  {
    var ds' := ds[..|ds| - 1];
    assert NamesDistinct(ds') by {
      forall a, b | 0 <= a < b < |ds'| ensures NameOf(ds'[a]) != NameOf(ds'[b]) {
        assert ds'[a] == ds[a] && ds'[b] == ds[b];
      }
    }
    if i < |ds| - 1 {
      assert ds'[i] == ds[i];
      ResolvedEntry(ds', m, i);
      assert NameOf(ds[i]) != NameOf(ds[|ds| - 1]);
    } else if ds' != [] {
      ResolvedShape(ds', m);
      assert forall j :: 0 <= j < |ds'| ==> NameOf(ds'[j]) != ds[i].name;
      assert ds[i].name !in ResolveAll(ds', m).value;
    }
  }

  /**
   * An option that was not given maps to exactly its default; without a
   * default it gets no entry at all.
   */
  lemma AbsentOption(ds: seq<OptionDef>, m: Matches, i: nat)
    requires NamesDistinct(ds) && i < |ds| && ResolveAll(ds, m).Success?
    requires !m.present(ds[i].name)
    ensures ds[i].default.Some? ==>
      ds[i].name in ResolveAll(ds, m).value && ResolveAll(ds, m).value[ds[i].name] == [ds[i].default.value]
    ensures ds[i].default.None? ==> ds[i].name !in ResolveAll(ds, m).value
  {
    ResolvedEntry(ds, m, i);
  }

  /**
   * A given single-valued option maps to its captured value; without one, a
   * flag maps to "true" or "false" by its action.
   */
  lemma PresentSingle(ds: seq<OptionDef>, m: Matches, i: nat)
    requires NamesDistinct(ds) && i < |ds| && ResolveAll(ds, m).Success?
    requires m.present(ds[i].name) && !ds[i].multiple
    ensures m.single(ds[i].name).Some? ==>
      ds[i].name in ResolveAll(ds, m).value && ResolveAll(ds, m).value[ds[i].name] == [m.single(ds[i].name).value]
    ensures m.single(ds[i].name).None? ==> ds[i].action.Some?
    ensures m.single(ds[i].name).None? && ds[i].action == Some(StoreTrue) ==>
      ds[i].name in ResolveAll(ds, m).value && ResolveAll(ds, m).value[ds[i].name] == ["true"]
    ensures m.single(ds[i].name).None? && ds[i].action == Some(StoreFalse) ==>
      ds[i].name in ResolveAll(ds, m).value && ResolveAll(ds, m).value[ds[i].name] == ["false"]
  {
    ResolvedEntry(ds, m, i);
    SucceedsIffNoAbort(ds, m);
  }

  /** A given multiple option maps to exactly the scanner's values, in order, and never to an empty list. */
  lemma PresentMultiple(ds: seq<OptionDef>, m: Matches, i: nat)
    requires NamesDistinct(ds) && i < |ds| && ResolveAll(ds, m).Success?
    requires m.present(ds[i].name) && ds[i].multiple
    ensures ds[i].action.None? && |m.all(ds[i].name)| > 0
    ensures ds[i].name in ResolveAll(ds, m).value && ResolveAll(ds, m).value[ds[i].name] == m.all(ds[i].name)
  {
    ResolvedEntry(ds, m, i);
    SucceedsIffNoAbort(ds, m);
  }

  /**
   * The errors of a given option, in the order they are checked: a multiple
   * flag is a conflict whatever values were captured; a multiple option
   * without values is a missing required option or a missing value; a single
   * option with neither a value nor an action is a missing value.
   */
  lemma PresentOptionErrors(d: OptionDef, m: Matches, m': Matches)
    requires m.present(d.name) && m'.present(d.name)
    ensures d.multiple && d.action.Some? ==>
      ResolveOne(d, m) == ResolveOne(d, m') == Abort(FlagMultipleConflict(d.name))
    ensures d.multiple && d.action.None? && m.all(d.name) == [] ==>
      ResolveOne(d, m) == Abort(if d.required then RequiredNoValue(d.name) else MissingValue(d.name))
    ensures !d.multiple && m.single(d.name).None? && d.action.None? ==>
      ResolveOne(d, m) == Abort(MissingValue(d.name))
  {
  }
}
