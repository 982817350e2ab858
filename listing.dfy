/**
 * The `pokemon` listing command: the page argument check, the pipeline it
 * runs (the compiled filter followed by the member's sort order) and the
 * page arithmetic handed to the paginator.
 */
module Listing {
  import opened Wrappers
  import opened Game
  import opened Pipeline
  import opened Filter

  /** Rows shown on one page of the listing. */
  const PAGE_SIZE: nat := 20

  /** The two stages appended after the filter: compute `sorting`, then sort on it ascending. */
  function SortStages(sortExpr: Expr): (r: seq<Stage>)
    ensures |r| == 2 && forall i :: 0 <= i < |r| ==> !r[i].Match?
  {
    [AddFields("sorting", sortExpr), Sort("sorting")]
  }

  /** `math.ceil(num / 20)`, written as integer ceiling division. */
  function NumPages(num: nat): (n: nat)
    ensures num == 0 ==> n == 0
    ensures num >= 1 ==> n >= 1 && (n - 1) * PAGE_SIZE < num <= n * PAGE_SIZE
  {
    (num + PAGE_SIZE - 1) / PAGE_SIZE
  }

  /** The number of rows a page index skips (`pgstart`). */
  function PageStart(pidx: nat): nat {
    pidx * PAGE_SIZE
  }

  /** The rows the page fetch asks the database for: skip `skip` rows, take at most `limit`. */
  datatype Window = Window(skip: nat, limit: nat)

  /** `fetch_pokemon_list(member, pgstart, 20, …)` for page index pidx. */
  function PageWindow(pidx: nat): (w: Window)
    ensures w.limit == PAGE_SIZE
    ensures w.skip == pidx * PAGE_SIZE
    ensures pidx > 0 ==> w.skip == PageWindow(pidx - 1).skip + PageWindow(pidx - 1).limit
  {
    Window(PageStart(pidx), PAGE_SIZE)
  }

  /** "Showing first–last out of total." */
  datatype Footer = Footer(first: int, last: int, total: nat)

  function Min(a: int, b: int): int {
    if a <= b then a else b
  }

  /**
   * The footer of page pidx: its range starts after the skipped rows and ends
   * after a full page, or at the last match when that comes first.
   */
  function FooterOf(pidx: nat, num: nat): (f: Footer)
    ensures f.total == num && f.first == PageWindow(pidx).skip + 1
    ensures f.last <= num && f.last - f.first < PAGE_SIZE
    ensures f.last == num || f.last == PageWindow(pidx).skip + PageWindow(pidx).limit
  {
    Footer(PageStart(pidx) + 1, Min(PageStart(pidx) + PAGE_SIZE, num), num)
  }

  /** What `get_page` produces from the rows the database returned for a page index. */
  datatype PageView = NoRowsOnPage | Page(rows: seq<Entry>, footer: Footer)

  function GetPage(pidx: nat, rows: seq<Entry>, num: nat): (v: PageView)
    ensures v.NoRowsOnPage? <==> |rows| == 0
    ensures v.Page? ==> v.rows == rows && v.footer == FooterOf(pidx, num)
  {
    if |rows| == 0 then NoRowsOnPage else Page(rows, FooterOf(pidx, num))
  }

  /** How the `pokemon` command ends. */
  datatype ListOutcome =
    | PageNotPositive
    | FilterRejected
    | NoMatches
    | Paginate(pipeline: seq<Stage>, numPages: nat, startIndex: nat)

  /**
   * The `pokemon` command up to the hand-off to the paginator.  `sortExpr` is
   * the sort expression of the member's ordering, and `count` is the number
   * of matches the database reports for the pipeline (0 when it reports none).
   */
  method ListPokemon(page: int, flags: Flags, data: GameData, table: seq<NumericalFlag>,
                     sortExpr: Expr, count: nat) returns (outcome: ListOutcome)
    requires FlagsParsable(flags)
    ensures page < 1 ==> outcome == PageNotPositive
    ensures page >= 1 && CompileFilter(flags, data, table).None? ==> outcome == FilterRejected
    ensures page >= 1 && CompileFilter(flags, data, table).Some? && count == 0 ==> outcome == NoMatches
    ensures page >= 1 && CompileFilter(flags, data, table).Some? && count > 0 ==>
      outcome == Paginate(CompileFilter(flags, data, table).value + SortStages(sortExpr),
                          NumPages(count), page - 1)
    ensures outcome.Paginate? ==> outcome.numPages >= 1
  {
    if page < 1 {
      return PageNotPositive;
    }
    var filter := CreateFilter(flags, data, table);
    if filter.None? {
      return FilterRejected;
    }
    var aggregations := filter.value;
    aggregations := aggregations + SortStages(sortExpr);
    if count == 0 {
      return NoMatches;
    }
    outcome := Paginate(aggregations, NumPages(count), page - 1);
  }

  /** Every page index below NumPages shows a non-empty range within 1..num, full except possibly on the last page. */
  lemma FooterInRange(pidx: nat, num: nat)
    requires pidx < NumPages(num)
    ensures var f := FooterOf(pidx, num);
      && 1 <= f.first <= f.last <= num
      && f.last - f.first + 1 <= PAGE_SIZE
      && (pidx + 1 < NumPages(num) ==> f.last - f.first + 1 == PAGE_SIZE)
  {
  }

  /**
   * Row k (1-based) of the result is fetched by the window of page (k-1)/20
   * and of no other page, and appears in that page's footer range only.
   */
  lemma RowOnExactlyOnePage(num: nat, k: int, pidx: nat)
    requires 1 <= k <= num
    ensures (k - 1) / PAGE_SIZE < NumPages(num)
    ensures PageWindow(pidx).skip <= k - 1 < PageWindow(pidx).skip + PageWindow(pidx).limit
        <==> pidx == (k - 1) / PAGE_SIZE
    ensures FooterOf(pidx, num).first <= k <= FooterOf(pidx, num).last <==> pidx == (k - 1) / PAGE_SIZE
  {
  }

  /** The sort stages reorder but never drop a row: the listing shows exactly what the filter admits. */
  lemma SortKeepsMatches(filter: seq<Stage>, sortExpr: Expr, e: Entry, eval: Evaluator, env: Env)
    ensures Admits(filter + SortStages(sortExpr), e, eval, env) == Admits(filter, e, eval, env)
  {
    AdmitsAppend(filter, SortStages(sortExpr), e, eval, env);
    NoMatchAdmitsAll(SortStages(sortExpr), e, eval, EnvAfter(filter, e, eval, env));
  }
}
