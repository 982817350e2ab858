/**
 * The filter compiler `create_filter` of cogs/pokemon.py: it turns the flags
 * of the `pokemon` and `releaseall` commands into an ordered list of
 * aggregation stages, or rejects the whole request.
 */
module Filter {
  import opened Wrappers
  import opened Text
  import opened NumericFlag
  import opened Game
  import opened Pipeline

  /**
   * The flags a command hands over. A flag the command does not declare, or
   * that was not given, is `false` or `None`; `numerical` holds the IV flags
   * that were given, by flag name, with their tokens.
   */
  datatype Flags = Flags(
    mythical: bool,
    legendary: bool,
    ub: bool,
    typeName: Option<string>,
    favorite: bool,
    name: Option<string>,
    level: Option<int>,
    numerical: map<string, seq<string>>)

  /** One row of the `FILTER_BY_NUMERICAL` table: a flag name and the expression of the value it compares. */
  datatype NumericalFlag = NumericalFlag(flag: string, expr: Expr)

  /** None of the given IV flags would make the parser raise. */
  predicate FlagsParsable(flags: Flags) {
    forall f :: f in flags.numerical ==> Parsable(flags.numerical[f])
  }

  /** Python truthiness of the `type` flag: given and not the empty string. */
  predicate TypeGiven(flags: Flags) {
    flags.typeName.Some? && flags.typeName.value != ""
  }

  function CmpOf(op: Op): Cmp {
    match op
    case Lt => Less
    case Eq => Equal
    case Gt => Greater
  }

  /** `acc` with `s` appended when the flag holds. */
  function AppendIf(acc: seq<Stage>, given: bool, s: Stage): seq<Stage> {
    if given then acc + [s] else acc
  }

  function TypeIds(flags: Flags, data: GameData): seq<int> {
    if flags.typeName.Some? then data.idsOfType(flags.typeName.value) else []
  }

  /** The match stages of the value-free flags, in the order the source appends them. */
  function BooleanStages(flags: Flags, data: GameData): seq<Stage> {
    var s0: seq<Stage> := [];
    var s1 := AppendIf(s0, flags.mythical, Match(SpeciesId, InIds(data.mythical)));
    var s2 := AppendIf(s1, flags.legendary, Match(SpeciesId, InIds(data.legendary)));
    var s3 := AppendIf(s2, flags.ub, Match(SpeciesId, InIds(data.ultraBeasts)));
    var s4 := AppendIf(s3, TypeGiven(flags), Match(SpeciesId, InIds(TypeIds(flags, data))));
    AppendIf(s4, flags.favorite, Match(Favorite, IsBool(true)))
  }

  /** The species-name lookup fails: the source answers `SpeciesNotFoundError`. */
  predicate NameRejected(flags: Flags, data: GameData) {
    flags.name.Some? && data.speciesByName(flags.name.value).None?
  }

  /** The id the `name` flag resolves to (0 when there is none to resolve; then it is not used). */
  function NamedSpecies(flags: Flags, data: GameData): int {
    if flags.name.Some? && data.speciesByName(flags.name.value).Some?
    then data.speciesByName(flags.name.value).value.id
    else 0
  }

  /** The `level` flag's value (0 when it is not given; then it is not used). */
  function GivenLevel(flags: Flags): int {
    if flags.level.Some? then flags.level.value else 0
  }

  /** The value-free stages followed by the name and level matches. */
  function FixedStages(flags: Flags, data: GameData): seq<Stage> {
    var withName := AppendIf(BooleanStages(flags, data), flags.name.Some?, Match(SpeciesId, IntCmp(Equal, NamedSpecies(flags, data))));
    AppendIf(withName, flags.level.Some?, Match(Level, IntCmp(Equal, GivenLevel(flags))))
  }

  /** The computed-field stage of an IV flag and the match on it. */
  function ComparisonStages(nf: NumericalFlag, c: Comparison): seq<Stage>
    requires IsDigits(c.digits)
  {
    [AddFields(nf.flag, nf.expr), Match(Computed(nf.flag), IntCmp(CmpOf(c.op), ValueOf(c.digits)))]
  }

  /** The stages so far, extended by one table row. */
  function Extend(flags: Flags, acc: Option<seq<Stage>>, row: NumericalFlag): Option<seq<Stage>>
    requires FlagsParsable(flags)
  {
    match acc
    case None => None
    case Some(ns) =>
      if row.flag !in flags.numerical then Some(ns)
      else match ParseNumericalFlag(flags.numerical[row.flag])
        case None => None
        case Some(c) => Some(ns + ComparisonStages(row, c))
  }

  /** The stages of the IV flags, table row by table row; `None` once one of them does not parse. */
  function NumericStages(flags: Flags, table: seq<NumericalFlag>): Option<seq<Stage>>
    requires FlagsParsable(flags)
    decreases |table|
  {
    if table == [] then Some([])
    else Extend(flags, NumericStages(flags, table[..|table| - 1]), table[|table| - 1])
  }

  /** What `create_filter` computes: `None` for a rejected request, else the stage list. */
  function CompileFilter(flags: Flags, data: GameData, table: seq<NumericalFlag>): (r: Option<seq<Stage>>)
    requires FlagsParsable(flags)
    ensures NameRejected(flags, data) ==> r.None?
    ensures r.Some? ==>
      && |FixedStages(flags, data)| <= |r.value|
      && r.value[..|FixedStages(flags, data)|] == FixedStages(flags, data)
  {
    if NameRejected(flags, data) then None
    else match NumericStages(flags, table)
      case None => None
      case Some(ns) => Some(FixedStages(flags, data) + ns)
  }

  /**
   * `create_filter` as the source writes it: the stage list grows step by
   * step, the IV flags are handled in one pass over the table, and the first
   * failure returns at once (the message sent to the chat is left out).
   */
  method CreateFilter(flags: Flags, data: GameData, table: seq<NumericalFlag>) returns (r: Option<seq<Stage>>)
    requires FlagsParsable(flags)
    ensures r == CompileFilter(flags, data, table)
  {
    // the source's `aggregations`
    var aggregations := AppendBooleanStages(flags, data);
    if flags.name.Some? {
      var species := data.speciesByName(flags.name.value);
      if species.None? {
        return None;
      }
      aggregations := aggregations + [Match(SpeciesId, IntCmp(Equal, species.value.id))];
    }
    if flags.level.Some? {
      aggregations := aggregations + [Match(Level, IntCmp(Equal, flags.level.value))];
    }
    assert aggregations == FixedStages(flags, data);
    r := AppendNumericStages(flags, table, aggregations);
  }

  /** The first five tests of `create_filter`: one match stage per value-free flag that holds, in order. */
  method AppendBooleanStages(flags: Flags, data: GameData) returns (aggregations: seq<Stage>)
    ensures aggregations == BooleanStages(flags, data)
  {
    aggregations := [];
    if flags.mythical {
      aggregations := aggregations + [Match(SpeciesId, InIds(data.mythical))];
    }
    if flags.legendary {
      aggregations := aggregations + [Match(SpeciesId, InIds(data.legendary))];
    }
    if flags.ub {
      aggregations := aggregations + [Match(SpeciesId, InIds(data.ultraBeasts))];
    }
    if flags.typeName.Some? && flags.typeName.value != "" {
      aggregations := aggregations + [Match(SpeciesId, InIds(data.idsOfType(flags.typeName.value)))];
    }
    if flags.favorite {
      aggregations := aggregations + [Match(Favorite, IsBool(true))];
    }
  }

  /**
   * The loop over `FILTER_BY_NUMERICAL` at the end of `create_filter`: for
   * each IV flag given, a computed field and the match on it are appended to
   * `aggregations`; a flag that does not parse rejects everything.
   */
  method AppendNumericStages(flags: Flags, table: seq<NumericalFlag>, prefix: seq<Stage>) returns (r: Option<seq<Stage>>)
    requires FlagsParsable(flags)
    ensures NumericStages(flags, table).None? ==> r.None?
    ensures NumericStages(flags, table).Some? ==> r == Some(prefix + NumericStages(flags, table).value)
  {
    var aggregations := prefix;
    for i := 0 to |table|
      invariant NumericStages(flags, table[..i]).Some?
      invariant aggregations == prefix + NumericStages(flags, table[..i]).value
    {
      assert table[..i + 1][..i] == table[..i];
      assert NumericStages(flags, table[..i + 1]) == Extend(flags, NumericStages(flags, table[..i]), table[i]);
      ghost var done := NumericStages(flags, table[..i]).value;
      var row := table[i];
      if row.flag in flags.numerical {
        var ops := ParseNumericalFlag(flags.numerical[row.flag]);
        if ops.None? {
          NumericNoneExtends(flags, table, i + 1);
          return None;
        }
        var bound := ValueOf(ops.value.digits);
        var pair: seq<Stage>;
        if ops.value.op == Lt {
          pair := [AddFields(row.flag, row.expr), Match(Computed(row.flag), IntCmp(Less, bound))];
        } else if ops.value.op == Eq {
          pair := [AddFields(row.flag, row.expr), Match(Computed(row.flag), IntCmp(Equal, bound))];
        } else if ops.value.op == Gt {
          pair := [AddFields(row.flag, row.expr), Match(Computed(row.flag), IntCmp(Greater, bound))];
        }
        assert pair == ComparisonStages(row, ops.value);
        assert NumericStages(flags, table[..i + 1]).value == done + pair;
        aggregations := aggregations + pair;
        assert aggregations == prefix + (done + pair);
      }
    }
    assert table[..|table|] == table;
    return Some(aggregations);
  }

  /** Once a prefix of the table is rejected, the whole table is. */
  lemma {:induction false} NumericNoneExtends(flags: Flags, table: seq<NumericalFlag>, i: nat)
    requires FlagsParsable(flags)
    requires i <= |table| && NumericStages(flags, table[..i]).None?
    ensures NumericStages(flags, table).None?
    decreases |table|
  {
    if i < |table| {
      var init := table[..|table| - 1];
      assert init[..i] == table[..i];
      NumericNoneExtends(flags, init, i);
    } else {
      assert table[..i] == table;
    }
  }

  // ----- What a compiled filter looks like -----

  /** The rows of the table whose flag was given, in table order. */
  function Present(flags: Flags, table: seq<NumericalFlag>): seq<NumericalFlag>
    decreases |table|
  {
    if table == [] then []
    else
      var last := table[|table| - 1];
      Present(flags, table[..|table| - 1]) + (if last.flag in flags.numerical then [last] else [])
  }

  /** Some IV flag that was given does not parse. */
  predicate NumericRejected(flags: Flags, table: seq<NumericalFlag>)
    requires FlagsParsable(flags)
  {
    exists i :: 0 <= i < |table| && table[i].flag in flags.numerical && ParseNumericalFlag(flags.numerical[table[i].flag]).None?
  }

  /** At positions `j` and `j + 1` of `st`: the computed field of row `row`, then the match of its comparison. */
  predicate PairAt(st: seq<Stage>, j: int, row: NumericalFlag, flags: Flags)
    requires FlagsParsable(flags)
  {
    && 0 <= j && j + 1 < |st|
    && row.flag in flags.numerical
    && ParseNumericalFlag(flags.numerical[row.flag]).Some?
    && var c := ParseNumericalFlag(flags.numerical[row.flag]).value;
    && st[j] == AddFields(row.flag, row.expr)
    && st[j + 1] == Match(Computed(row.flag), IntCmp(CmpOf(c.op), ValueOf(c.digits)))
  }

  /** The IV stages are rejected exactly when one given IV flag does not parse. */
  lemma {:induction false} NumericStagesNoneIff(flags: Flags, table: seq<NumericalFlag>)
    requires FlagsParsable(flags)
    ensures NumericStages(flags, table).None? <==> NumericRejected(flags, table)
    decreases |table|
  {
    if table != [] {
      var init, last := table[..|table| - 1], table[|table| - 1];
      NumericStagesNoneIff(flags, init);
      if NumericRejected(flags, init) {
        var i :| 0 <= i < |init| && init[i].flag in flags.numerical && ParseNumericalFlag(flags.numerical[init[i].flag]).None?;
        assert table[i] == init[i];
      }
      if NumericRejected(flags, table) {
        var i :| 0 <= i < |table| && table[i].flag in flags.numerical && ParseNumericalFlag(flags.numerical[table[i].flag]).None?;
        if i < |init| {
          assert init[i] == table[i];
        }
      }
    }
  }

  /**
   * Every IV flag given contributes, in table order, a computed field
   * immediately followed by the match of its comparison, and nothing else
   * is produced.
   */
  lemma {:induction false} NumericStagesPaired(flags: Flags, table: seq<NumericalFlag>)
    requires FlagsParsable(flags)
    requires NumericStages(flags, table).Some?
    ensures |NumericStages(flags, table).value| == 2 * |Present(flags, table)|
    ensures forall k :: 0 <= k < |Present(flags, table)| ==>
              PairAt(NumericStages(flags, table).value, 2 * k, Present(flags, table)[k], flags)
    decreases |table|
  {
    if table != [] {
      var init, last := table[..|table| - 1], table[|table| - 1];
      NumericStagesPaired(flags, init);
      var ns, p := NumericStages(flags, init).value, Present(flags, init);
      var ns', p' := NumericStages(flags, table).value, Present(flags, table);
      forall k | 0 <= k < |p'|
        ensures PairAt(ns', 2 * k, p'[k], flags)
      {
        if k < |p| {
          assert p'[k] == p[k];
          assert PairAt(ns, 2 * k, p[k], flags);
        }
      }
    }
  }

  /** How many of the value-free, name and level flags were given. */
  function FixedCount(flags: Flags): nat {
    (if flags.mythical then 1 else 0) + (if flags.legendary then 1 else 0) + (if flags.ub then 1 else 0)
    + (if TypeGiven(flags) then 1 else 0) + (if flags.favorite then 1 else 0)
    + (if flags.name.Some? then 1 else 0) + (if flags.level.Some? then 1 else 0)
  }

  /** A match on a stored field (not on a computed one). */
  predicate PlainMatch(s: Stage) {
    s.Match? && !s.field.Computed?
  }

  /** Appending a plain match when a flag holds adds one stage exactly then, and keeps all stages plain. */
  lemma AppendIfPlain(acc: seq<Stage>, given: bool, s: Stage)
    requires PlainMatch(s) && forall i :: 0 <= i < |acc| ==> PlainMatch(acc[i])
    ensures |AppendIf(acc, given, s)| == |acc| + (if given then 1 else 0)
    ensures forall i :: 0 <= i < |AppendIf(acc, given, s)| ==> PlainMatch(AppendIf(acc, given, s)[i])
  {
  }

  /** The fixed part holds one plain match per value-free, name or level flag given. */
  lemma FixedStagesPlain(flags: Flags, data: GameData)
    ensures |FixedStages(flags, data)| == FixedCount(flags)
    ensures forall i :: 0 <= i < |FixedStages(flags, data)| ==> PlainMatch(FixedStages(flags, data)[i])
  {
    var s0: seq<Stage> := [];
    AppendIfPlain(s0, flags.mythical, Match(SpeciesId, InIds(data.mythical)));
    var s1 := AppendIf(s0, flags.mythical, Match(SpeciesId, InIds(data.mythical)));
    AppendIfPlain(s1, flags.legendary, Match(SpeciesId, InIds(data.legendary)));
    var s2 := AppendIf(s1, flags.legendary, Match(SpeciesId, InIds(data.legendary)));
    AppendIfPlain(s2, flags.ub, Match(SpeciesId, InIds(data.ultraBeasts)));
    var s3 := AppendIf(s2, flags.ub, Match(SpeciesId, InIds(data.ultraBeasts)));
    AppendIfPlain(s3, TypeGiven(flags), Match(SpeciesId, InIds(TypeIds(flags, data))));
    var s4 := AppendIf(s3, TypeGiven(flags), Match(SpeciesId, InIds(TypeIds(flags, data))));
    AppendIfPlain(s4, flags.favorite, Match(Favorite, IsBool(true)));
    var s5 := AppendIf(s4, flags.favorite, Match(Favorite, IsBool(true)));
    assert s5 == BooleanStages(flags, data);
    AppendIfPlain(s5, flags.name.Some?, Match(SpeciesId, IntCmp(Equal, NamedSpecies(flags, data))));
    var s6 := AppendIf(s5, flags.name.Some?, Match(SpeciesId, IntCmp(Equal, NamedSpecies(flags, data))));
    AppendIfPlain(s6, flags.level.Some?, Match(Level, IntCmp(Equal, GivenLevel(flags))));
  }

  /** `create_filter` rejects exactly when the name lookup fails or a given IV flag does not parse. */
  lemma CompileRejectsIff(flags: Flags, data: GameData, table: seq<NumericalFlag>)
    requires FlagsParsable(flags)
    ensures CompileFilter(flags, data, table).None? <==> NameRejected(flags, data) || NumericRejected(flags, table)
  {
    NumericStagesNoneIff(flags, table);
  }

  /**
   * The layout of an accepted filter: first one plain match per value-free,
   * name or level flag given (and none for the others), then for each IV flag
   * given, in table order, its computed field immediately followed by its match.
   */
  lemma CompiledLayout(flags: Flags, data: GameData, table: seq<NumericalFlag>)
    requires FlagsParsable(flags)
    requires CompileFilter(flags, data, table).Some?
    ensures var st, p := CompileFilter(flags, data, table).value, Present(flags, table);
      && |st| == FixedCount(flags) + 2 * |p|
      && (forall i :: 0 <= i < FixedCount(flags) ==> PlainMatch(st[i]))
      && (forall k :: 0 <= k < |p| ==> PairAt(st, FixedCount(flags) + 2 * k, p[k], flags))
  {
    FixedStagesPlain(flags, data);
    NumericStagesPaired(flags, table);
    LayoutOfConcat(FixedStages(flags, data), NumericStages(flags, table).value, Present(flags, table), flags);
  }

  lemma LayoutOfConcat(fixed: seq<Stage>, ns: seq<Stage>, p: seq<NumericalFlag>, flags: Flags)
    requires FlagsParsable(flags)
    requires forall i :: 0 <= i < |fixed| ==> PlainMatch(fixed[i])
    requires |ns| == 2 * |p| && forall k :: 0 <= k < |p| ==> PairAt(ns, 2 * k, p[k], flags)
    ensures forall i :: 0 <= i < |fixed| ==> PlainMatch((fixed + ns)[i])
    ensures forall k :: 0 <= k < |p| ==> PairAt(fixed + ns, |fixed| + 2 * k, p[k], flags)
  {
    var st := fixed + ns;
    forall k | 0 <= k < |p|
      ensures PairAt(st, |fixed| + 2 * k, p[k], flags)
    {
      assert PairAt(ns, 2 * k, p[k], flags);
      assert st[|fixed| + 2 * k] == ns[2 * k] && st[|fixed| + 2 * k + 1] == ns[2 * k + 1];
    }
  }

  /** With neither a name nor an IV flag, the request is never rejected and yields only plain matches. */
  lemma ValueFreeNeverRejected(flags: Flags, data: GameData, table: seq<NumericalFlag>)
    requires flags.name.None? && flags.numerical == map[]
    ensures CompileFilter(flags, data, table).Some?
    ensures forall i :: 0 <= i < |CompileFilter(flags, data, table).value| ==> PlainMatch(CompileFilter(flags, data, table).value[i])
  {
    NumericStagesNoneIff(flags, table);
    CompiledLayout(flags, data, table);
    assert Present(flags, table) == [] by {
      NoneGivenPresent(flags, table);
    }
  }

  lemma {:induction false} NoneGivenPresent(flags: Flags, table: seq<NumericalFlag>)
    requires flags.numerical == map[]
    ensures Present(flags, table) == []
    decreases |table|
  {
    if table != [] {
      NoneGivenPresent(flags, table[..|table| - 1]);
    }
  }

  // ----- What a compiled filter means for one entry -----

  /** What the value-free, name and level flags ask of an entry. */
  predicate MeetsFixed(e: Entry, flags: Flags, data: GameData) {
    && MeetsBoolean(e, flags, data)
    && (flags.name.Some? ==>
          data.speciesByName(flags.name.value).Some? && e.speciesId == data.speciesByName(flags.name.value).value.id)
    && (flags.level.Some? ==> e.level == flags.level.value)
  }

  /** What one IV flag asks of an entry, when it was given: the comparison holds of its computed value. */
  predicate MeetsNumerical(e: Entry, flags: Flags, row: NumericalFlag, eval: Evaluator)
    requires FlagsParsable(flags)
  {
    row.flag in flags.numerical ==>
      match ParseNumericalFlag(flags.numerical[row.flag])
      case None => false
      case Some(c) => Accepts(c, eval(row.expr, e))
  }

  /** Every flag given holds of the entry (several rarity flags together must all hold). */
  predicate SatisfiesFlags(e: Entry, flags: Flags, data: GameData, table: seq<NumericalFlag>, eval: Evaluator)
    requires FlagsParsable(flags)
  {
    MeetsFixed(e, flags, data) && forall i :: 0 <= i < |table| ==> MeetsNumerical(e, flags, table[i], eval)
  }

  lemma AdmitsAppendIf(acc: seq<Stage>, given: bool, s: Stage, e: Entry, eval: Evaluator, env: Env)
    requires PlainMatch(s)
    ensures Admits(AppendIf(acc, given, s), e, eval, env)
        == (Admits(acc, e, eval, env) && (given ==> Holds(e, EnvAfter(acc, e, eval, env), s.field, s.cond)))
    ensures EnvAfter(AppendIf(acc, given, s), e, eval, env) == EnvAfter(acc, e, eval, env)
  {
    if given {
      AdmitsAppend(acc, [s], e, eval, env);
    }
  }

  /** What the value-free flags ask of an entry. */
  predicate MeetsBoolean(e: Entry, flags: Flags, data: GameData) {
    && (flags.mythical ==> e.speciesId in data.mythical)
    && (flags.legendary ==> e.speciesId in data.legendary)
    && (flags.ub ==> e.speciesId in data.ultraBeasts)
    && (TypeGiven(flags) ==> e.speciesId in data.idsOfType(flags.typeName.value))
    && (flags.favorite ==> e.favorite)
  }

  lemma BooleanMeaning(flags: Flags, data: GameData, e: Entry, eval: Evaluator, env: Env)
    ensures Admits(BooleanStages(flags, data), e, eval, env) <==> MeetsBoolean(e, flags, data)
    ensures EnvAfter(BooleanStages(flags, data), e, eval, env) == env
  {
    var s0: seq<Stage> := [];
    var s1 := AppendIf(s0, flags.mythical, Match(SpeciesId, InIds(data.mythical)));
    var s2 := AppendIf(s1, flags.legendary, Match(SpeciesId, InIds(data.legendary)));
    var s3 := AppendIf(s2, flags.ub, Match(SpeciesId, InIds(data.ultraBeasts)));
    var s4 := AppendIf(s3, TypeGiven(flags), Match(SpeciesId, InIds(TypeIds(flags, data))));
    AdmitsAppendIf(s0, flags.mythical, Match(SpeciesId, InIds(data.mythical)), e, eval, env);
    AdmitsAppendIf(s1, flags.legendary, Match(SpeciesId, InIds(data.legendary)), e, eval, env);
    AdmitsAppendIf(s2, flags.ub, Match(SpeciesId, InIds(data.ultraBeasts)), e, eval, env);
    AdmitsAppendIf(s3, TypeGiven(flags), Match(SpeciesId, InIds(TypeIds(flags, data))), e, eval, env);
    AdmitsAppendIf(s4, flags.favorite, Match(Favorite, IsBool(true)), e, eval, env);
  }

  /** An entry passes the fixed stages exactly when it meets the value-free, name and level flags. */
  lemma FixedMeaning(flags: Flags, data: GameData, e: Entry, eval: Evaluator, env: Env)
    requires !NameRejected(flags, data)
    ensures Admits(FixedStages(flags, data), e, eval, env) <==> MeetsFixed(e, flags, data)
    ensures EnvAfter(FixedStages(flags, data), e, eval, env) == env
  {
    var s5 := BooleanStages(flags, data);
    var s6 := AppendIf(s5, flags.name.Some?, Match(SpeciesId, IntCmp(Equal, NamedSpecies(flags, data))));
    BooleanMeaning(flags, data, e, eval, env);
    AdmitsAppendIf(s5, flags.name.Some?, Match(SpeciesId, IntCmp(Equal, NamedSpecies(flags, data))), e, eval, env);
    AdmitsAppendIf(s6, flags.level.Some?, Match(Level, IntCmp(Equal, GivenLevel(flags))), e, eval, env);
  }

  /** An IV flag's two stages let an entry through exactly when its comparison holds of the computed value. */
  lemma ComparisonStagesMeaning(row: NumericalFlag, c: Comparison, e: Entry, eval: Evaluator, env: Env)
    requires IsDigits(c.digits)
    ensures Admits(ComparisonStages(row, c), e, eval, env) <==> Accepts(c, eval(row.expr, e))
  {
    var st := ComparisonStages(row, c);
    var env' := env[row.flag := eval(row.expr, e)];
    assert st[1..] == [st[1]];
    assert st[1..][1..] == [];
    assert Admits(st, e, eval, env) == Admits(st[1..], e, eval, env');
    assert IntField(e, env', Computed(row.flag)) == Some(eval(row.expr, e));
    assert Admits(st[1..], e, eval, env')
        == Holds(e, env', Computed(row.flag), IntCmp(CmpOf(c.op), ValueOf(c.digits)));
  }

  /** An entry passes the IV stages exactly when it meets every IV flag given. */
  lemma {:induction false} NumericMeaning(flags: Flags, table: seq<NumericalFlag>, e: Entry, eval: Evaluator, env: Env)
    requires FlagsParsable(flags)
    requires NumericStages(flags, table).Some?
    ensures Admits(NumericStages(flags, table).value, e, eval, env)
        <==> forall i :: 0 <= i < |table| ==> MeetsNumerical(e, flags, table[i], eval)
    decreases |table|
  {
    if table != [] {
      var init, last := table[..|table| - 1], table[|table| - 1];
      NumericMeaning(flags, init, e, eval, env);
      var ns := NumericStages(flags, init).value;
      if last.flag in flags.numerical {
        var c := ParseNumericalFlag(flags.numerical[last.flag]).value;
        AdmitsAppend(ns, ComparisonStages(last, c), e, eval, env);
        ComparisonStagesMeaning(last, c, e, eval, EnvAfter(ns, e, eval, env));
      }
      assert forall i :: 0 <= i < |init| ==> init[i] == table[i];
      assert (forall i :: 0 <= i < |table| ==> MeetsNumerical(e, flags, table[i], eval))
         <==> (forall i :: 0 <= i < |init| ==> MeetsNumerical(e, flags, init[i], eval)) && MeetsNumerical(e, flags, last, eval);
    }
  }

  /**
   * An accepted filter lets an entry through exactly when the entry satisfies
   * every flag given. This needs each computed field to come before its match.
   */
  lemma PipelineMeaning(flags: Flags, data: GameData, table: seq<NumericalFlag>, e: Entry, eval: Evaluator, env: Env)
    requires FlagsParsable(flags)
    requires CompileFilter(flags, data, table).Some?
    ensures Admits(CompileFilter(flags, data, table).value, e, eval, env) <==> SatisfiesFlags(e, flags, data, table, eval)
  {
    FixedMeaning(flags, data, e, eval, env);
    NumericMeaning(flags, table, e, eval, env);
    AdmitsAppend(FixedStages(flags, data), NumericStages(flags, table).value, e, eval, env);
  }

  /**
   * `--mythical --level 50` on a collection with a mythical pokémon at level 50
   * and one at level 10: only the first passes the compiled filter.
   */
  lemma MythicalLevelExample(data: GameData, table: seq<NumericalFlag>, eval: Evaluator, a: Entry, b: Entry)
    requires a.speciesId in data.mythical && a.level == 50
    requires b.speciesId in data.mythical && b.level == 10
    ensures var flags := Flags(true, false, false, None, false, None, Some(50), map[]);
      && CompileFilter(flags, data, table).Some?
      && Admits(CompileFilter(flags, data, table).value, a, eval, map[])
      && !Admits(CompileFilter(flags, data, table).value, b, eval, map[])
  {
    var flags := Flags(true, false, false, None, false, None, Some(50), map[]);
    NumericStagesNoneIff(flags, table);
    PipelineMeaning(flags, data, table, a, eval, map[]);
    PipelineMeaning(flags, data, table, b, eval, map[]);
  }
}
