/**
 * Aggregation stages as data, and what a stage sequence means for one
 * collection entry: whether the entry survives every `$match`, with the
 * fields that `$addFields` stages compute along the way. Sorting does not
 * change which entries survive.
 */
module Pipeline {
  import opened Wrappers
  import opened Game

  /** An aggregation expression taken verbatim from the source's lookup tables. */
  type Expr = string

  /** The value an expression computes for an entry; the database's business, so a parameter. */
  type Evaluator = (Expr, Entry) -> int

  /** The fields computed so far by `$addFields` stages. */
  type Env = map<string, int>

  datatype Cmp = Less | Equal | Greater

  datatype Field = SpeciesId | Level | Number | Favorite | Computed(name: string)

  datatype Condition =
    | InIds(ids: seq<int>)         // {"$in": ids}
    | IntCmp(cmp: Cmp, bound: int)  // {"$lt": b}, {"$eq": b} or a bare value, {"$gt": b}
    | NotInt(value: int)            // {"$not": {"$eq": v}}
    | IsBool(b: bool)               // a bare boolean
    | NotBool(b: bool)              // {"$not": {"$eq": b}}

  datatype Stage =
    | Match(field: Field, cond: Condition)
    | AddFields(name: string, expr: Expr)
    | Sort(key: string)

  predicate Compare(cmp: Cmp, x: int, y: int) {
    match cmp
    case Less => x < y
    case Equal => x == y
    case Greater => x > y
  }

  function IntField(e: Entry, env: Env, f: Field): Option<int> {
    match f
    case SpeciesId => Some(e.speciesId)
    case Level => Some(e.level)
    case Number => Some(e.number)
    case Favorite => None
    case Computed(n) => if n in env then Some(env[n]) else None
  }

  function BoolField(e: Entry, f: Field): Option<bool> {
    if f == Favorite then Some(e.favorite) else None
  }

  /** A comparison on a missing field fails; a negated equality on a missing field holds. */
  predicate Holds(e: Entry, env: Env, f: Field, c: Condition) {
    match c
    case InIds(ids) => IntField(e, env, f).Some? && IntField(e, env, f).value in ids
    case IntCmp(cmp, b) => IntField(e, env, f).Some? && Compare(cmp, IntField(e, env, f).value, b)
    case NotInt(v) => IntField(e, env, f) != Some(v)
    case IsBool(b) => BoolField(e, f) == Some(b)
    case NotBool(b) => BoolField(e, f) != Some(b)
  }

  /** Whether entry `e` passes every stage, starting with computed fields `env`. */
  predicate Admits(stages: seq<Stage>, e: Entry, eval: Evaluator, env: Env)
    decreases |stages|
  {
    if stages == [] then true
    else match stages[0]
      case Match(f, c) => Holds(e, env, f, c) && Admits(stages[1..], e, eval, env)
      case AddFields(n, x) => Admits(stages[1..], e, eval, env[n := eval(x, e)])
      case Sort(_) => Admits(stages[1..], e, eval, env)
  }

  /** The computed fields after running `stages` on `e`. */
  function EnvAfter(stages: seq<Stage>, e: Entry, eval: Evaluator, env: Env): Env
    decreases |stages|
  {
    if stages == [] then env
    else match stages[0]
      case AddFields(n, x) => EnvAfter(stages[1..], e, eval, env[n := eval(x, e)])
      case _ => EnvAfter(stages[1..], e, eval, env)
  }

  /** An entry passes `a + b` exactly when it passes `a`, and then `b` with what `a` computed. */
  lemma {:induction false} AdmitsAppend(a: seq<Stage>, b: seq<Stage>, e: Entry, eval: Evaluator, env: Env)
    ensures Admits(a + b, e, eval, env) == (Admits(a, e, eval, env) && Admits(b, e, eval, EnvAfter(a, e, eval, env)))
    ensures EnvAfter(a + b, e, eval, env) == EnvAfter(b, e, eval, EnvAfter(a, e, eval, env))
    decreases |a|
  {
    if a != [] {
      assert (a + b)[0] == a[0];
      assert (a + b)[1..] == a[1..] + b;
      match a[0]
      case Match(f, c) => AdmitsAppend(a[1..], b, e, eval, env);
      case AddFields(n, x) => AdmitsAppend(a[1..], b, e, eval, env[n := eval(x, e)]);
      case Sort(_) => AdmitsAppend(a[1..], b, e, eval, env);
    } else {
      assert a + b == b;
    }
  }

  /** A stage sequence without `$match` stages lets every entry through. */
  lemma {:induction false} NoMatchAdmitsAll(stages: seq<Stage>, e: Entry, eval: Evaluator, env: Env)
    requires forall i :: 0 <= i < |stages| ==> !stages[i].Match?
    ensures Admits(stages, e, eval, env)
    decreases |stages|
  {
    if stages != [] {
      match stages[0]
      case AddFields(n, x) => NoMatchAdmitsAll(stages[1..], e, eval, env[n := eval(x, e)]);
      case Sort(_) => NoMatchAdmitsAll(stages[1..], e, eval, env);
    }
  }
}
