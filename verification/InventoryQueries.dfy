/** The stock queries against the ERP database: the rows that each source's page query yields, the merge of
    detailed and article-level stock, the summary queries, and how paging relates to summaries.  SQL tables
    are sequences of rows in no particular order. */
module InventoryQueries {
  import opened Common
  import opened Sequences
  import opened Paging

  // ---------------------------------------------------------------------------------------------
  // Tables
  // ---------------------------------------------------------------------------------------------

  /** Rows of `Report.Product`, `vLagerbestandEx`, `tlagerbestand` and `tArtikel`; every column may be NULL. */
  datatype ReportRow = ReportRow(product: Option<int>, available: Option<int>, reserved: Option<int>,
                                 total: Option<int>, minimum: Option<int>)
  datatype ViewRow = ViewRow(product: Option<int>, available: Option<int>, reserved: Option<int>, total: Option<int>)
  datatype LevelRow = LevelRow(product: Option<int>, available: Option<int>, total: Option<int>)
  datatype ArticleRow = ArticleRow(product: Option<int>, stock: Option<int>, reorder: Option<int>)

  /** A table is missing when the object, or a column that every query needs, is not there.  The minimum
      columns are optional. */
  datatype Database = Database(
    report: Option<seq<ReportRow>>, reportHasMinimum: bool,
    view: Option<seq<ViewRow>>,
    levels: Option<seq<LevelRow>>,
    articles: Option<seq<ArticleRow>>, articlesHaveMinimum: bool)

  function IsNull(value: Option<int>, other: int): int {
    if value.Some? then value.value else other
  }

  function RowsOf<R>(table: Option<seq<R>>): seq<R> {
    if table.Some? then table.value else []
  }

  /** A row of a page. */
  datatype Stock = Stock(product: int, available: int, reserved: int, total: int, reorder: int)

  /** A row that a merged summary counts: it has no reorder point. */
  datatype Figures = Figures(product: int, available: int, reserved: int, total: int)

  function FiguresOf(s: Stock): Figures {
    Figures(s.product, s.available, s.reserved, s.total)
  }

  function ProductOf(s: Stock): int { s.product }

  function ProductOfFigures(f: Figures): int { f.product }

  function Map<A, B>(s: seq<A>, f: A -> B): seq<B> {
    seq(|s|, i requires 0 <= i < |s| => f(s[i]))
  }

  function Plain(rows: seq<Stock>): seq<Figures> {
    Map(rows, FiguresOf)
  }

  /** `SELECT ... WHERE product IS NOT NULL` */
  function Select<R, S>(rows: seq<R>, project: R -> Option<S>): seq<S> {
    if rows == [] then []
    else OneOrNone(project(rows[0])) + Select(rows[1..], project)
  }

  function OneOrNone<S>(selected: Option<S>): seq<S> {
    if selected.Some? then [selected.value] else []
  }

  // ---------------------------------------------------------------------------------------------
  // The full outer join
  // ---------------------------------------------------------------------------------------------

  datatype Joined<R> = Both(left: R, right: R) | LeftOnly(left: R) | RightOnly(right: R)

  function Partners<R>(rows: seq<R>, key: R -> int, k: int): seq<R> {
    Filter(rows, (r: R) => key(r) == k)
  }

  function JoinOne<R>(l: R, right: seq<R>, key: R -> int): seq<Joined<R>> {
    var partners := Partners(right, key, key(l));
    if partners == [] then [LeftOnly(l)] else Map(partners, (p: R) => Both(l, p))
  }

  function JoinLeft<R>(left: seq<R>, right: seq<R>, key: R -> int): seq<Joined<R>> {
    if left == [] then [] else JoinOne(left[0], right, key) + JoinLeft(left[1..], right, key)
  }

  function Unmatched<R>(left: seq<R>, right: seq<R>, key: R -> int): seq<R> {
    Filter(right, (r: R) => Partners(left, key, key(r)) == [])
  }

  function FullOuterJoin<R>(left: seq<R>, right: seq<R>, key: R -> int): seq<Joined<R>> {
    JoinLeft(left, right, key) + Map(Unmatched(left, right, key), (r: R) => RightOnly(r))
  }

  // ---------------------------------------------------------------------------------------------
  // The page queries
  // ---------------------------------------------------------------------------------------------

  datatype SourceType =
    | Legacy | MergedArticleStock | ReportProduct | VLagerbestandEx | TLagerbestand | TArtikelNLagerbestand

  function ReportStock(r: ReportRow, hasMinimum: bool): Option<Stock> {
    if r.product.None? then None
    else Some(Stock(r.product.value, IsNull(r.available, 0), IsNull(r.reserved, 0), IsNull(r.total, 0),
                    if hasMinimum then IsNull(r.minimum, 0) else 0))
  }

  function ViewStock(r: ViewRow): Option<Stock> {
    if r.product.None? then None
    else Some(Stock(r.product.value, IsNull(r.available, 0), IsNull(r.reserved, 0), IsNull(r.total, 0), 0))
  }

  /** This table knows no reservations: what is there but not available counts as reserved. */
  function LevelStock(r: LevelRow): Option<Stock> {
    if r.product.None? then None
    else
      var total, available := IsNull(r.total, 0), IsNull(r.available, 0);
      Some(Stock(r.product.value, available, if total > available then total - available else 0, total, 0))
  }

  function ArticleStock(r: ArticleRow, hasMinimum: bool): Option<Stock> {
    if r.product.None? then None
    else Some(Stock(r.product.value, IsNull(r.stock, 0), 0, IsNull(r.stock, 0),
                    if hasMinimum then IsNull(r.reorder, 0) else 0))
  }

  /** `normal_stock`: the report if there is one, else the view. */
  function NormalStock(db: Database): seq<Stock> {
    if db.report.Some? then Select(db.report.value, (r: ReportRow) => ReportStock(r, db.reportHasMinimum))
    else Select(RowsOf(db.view), ViewStock)
  }

  /** `COALESCE(NULLIF(first, 0), second, 0)` over possibly missing join partners. */
  function FirstNonZero(first: Option<int>, second: Option<int>): int {
    if first.Some? && first.value != 0 then first.value else IsNull(second, 0)
  }

  function Left<R>(j: Joined<R>): Option<R> {
    if j.RightOnly? then None else Some(j.left)
  }

  function Right<R>(j: Joined<R>): Option<R> {
    if j.LeftOnly? then None else Some(j.right)
  }

  predicate PrefersNormal(n: Option<Stock>) {
    n.Some? && (n.value.total > 0 || n.value.available > 0 || n.value.reserved > 0)
  }

  /** One row of the merged page query. */
  function Merge(j: Joined<Stock>): Stock {
    var n, s := Left(j), Right(j);
    var used := if PrefersNormal(n) then n else s;
    Stock(
      if n.Some? then n.value.product else j.right.product,
      if used.Some? then used.value.available else 0,
      if used.Some? then used.value.reserved else 0,
      FirstNonZero(if s.Some? then Some(s.value.total) else None, if n.Some? then Some(n.value.total) else None),
      FirstNonZero(if n.Some? then Some(n.value.reorder) else None, if s.Some? then Some(s.value.reorder) else None))
  }

  function Merged(normal: seq<Stock>, articles: seq<Stock>): seq<Stock> {
    Map(FullOuterJoin(normal, articles, ProductOf), Merge)
  }

  /** What the page query of a source pages through, before it is sorted. */
  function PageRows(db: Database, source: SourceType): seq<Stock> {
    match source
    case Legacy => []
    case MergedArticleStock =>
      Merged(NormalStock(db), Select(RowsOf(db.articles), (r: ArticleRow) => ArticleStock(r, db.articlesHaveMinimum)))
    case ReportProduct => Select(RowsOf(db.report), (r: ReportRow) => ReportStock(r, true))
    case VLagerbestandEx => Select(RowsOf(db.view), ViewStock)
    case TLagerbestand => Select(RowsOf(db.levels), LevelStock)
    case TArtikelNLagerbestand => Select(RowsOf(db.articles), (r: ArticleRow) => ArticleStock(r, false))
  }

  // ---------------------------------------------------------------------------------------------
  // The summary queries
  // ---------------------------------------------------------------------------------------------

  datatype Totals = Totals(rows: nat, rowsWithStock: nat, total: int, available: int, reserved: int)

  /** `SELECT COUNT(*), SUM(CASE ...), SUM(total), SUM(available), SUM(reserved)` */
  function Summarise(rows: seq<Figures>): Totals {
    if rows == [] then Totals(0, 0, 0, 0, 0) else AddRow(Summarise(rows[1..]), rows[0])
  }

  function AddRow(t: Totals, r: Figures): Totals {
    Totals(t.rows + 1, t.rowsWithStock + if r.total > 0 || r.available > 0 then 1 else 0,
           t.total + r.total, t.available + r.available, t.reserved + r.reserved)
  }

  function AddTotals(a: Totals, b: Totals): Totals {
    Totals(a.rows + b.rows, a.rowsWithStock + b.rowsWithStock, a.total + b.total, a.available + b.available,
           a.reserved + b.reserved)
  }

  function ReportFigures(r: ReportRow): Option<Figures> {
    if r.product.None? then None
    else Some(Figures(r.product.value, IsNull(r.available, 0), IsNull(r.reserved, 0), IsNull(r.total, 0)))
  }

  function ViewFigures(r: ViewRow): Option<Figures> {
    if r.product.None? then None
    else Some(Figures(r.product.value, IsNull(r.available, 0), IsNull(r.reserved, 0), IsNull(r.total, 0)))
  }

  function ArticleFigures(r: ArticleRow): Option<Figures> {
    if r.product.None? then None else Some(Figures(r.product.value, IsNull(r.stock, 0), 0, IsNull(r.stock, 0)))
  }

  /** One row of the merged summary query, which is written out a second time, without reorder points. */
  function MergeFigures(j: Joined<Figures>): Figures {
    match j
    case Both(n, s) =>
      var normal := n.total > 0 || n.available > 0 || n.reserved > 0;
      Figures(n.product, if normal then n.available else s.available, if normal then n.reserved else s.reserved,
              if s.total != 0 then s.total else n.total)
    case LeftOnly(n) =>
      var normal := n.total > 0 || n.available > 0 || n.reserved > 0;
      Figures(n.product, if normal then n.available else 0, if normal then n.reserved else 0, n.total)
    case RightOnly(s) => s
  }

  /** `BuildMergedArticleStockSummaryQuery` has its own joins; `BuildSummaryQuery` cuts the sorting and the
      paging off the source's page query and sums over the rest. */
  function SummaryQuery(db: Database, source: SourceType): Totals {
    if source == MergedArticleStock then
      var normal := if db.report.Some? then Select(db.report.value, ReportFigures)
          else Select(RowsOf(db.view), ViewFigures);
      var articles := Select(RowsOf(db.articles), ArticleFigures);
      Summarise(Map(FullOuterJoin(normal, articles, ProductOfFigures), MergeFigures))
    else Summarise(Plain(PageRows(db, source)))
  }

  // ---------------------------------------------------------------------------------------------
  // Both merged queries see the same figures
  // ---------------------------------------------------------------------------------------------

  function Drop<S, Q>(selected: Option<S>, drop: S -> Q): Option<Q> {
    if selected.Some? then Some(drop(selected.value)) else None
  }

  lemma MapConcat<S, Q>(a: seq<S>, b: seq<S>, f: S -> Q)
    ensures Map(a + b, f) == Map(a, f) + Map(b, f)
  {
  }

  lemma {:induction false} SelectDrops<R, S, Q>(rows: seq<R>, project: R -> Option<S>, drop: S -> Q,
                                                plain: R -> Option<Q>)
    requires forall i :: 0 <= i < |rows| ==> plain(rows[i]) == Drop(project(rows[i]), drop)
    ensures Map(Select(rows, project), drop) == Select(rows, plain)
  {
    if rows != [] {
      SelectDrops(rows[1..], project, drop, plain);
      FirstDrops(project(rows[0]), Select(rows[1..], project), drop);
    }
  }

  lemma FirstDrops<S, Q>(selected: Option<S>, rest: seq<S>, drop: S -> Q)
    ensures Map(OneOrNone(selected) + rest, drop) == OneOrNone(Drop(selected, drop)) + Map(rest, drop)
  {
  }

  lemma {:induction false} FilterDrops<R, Q>(rows: seq<R>, drop: R -> Q, keep: R -> bool, keepPlain: Q -> bool)
    requires forall r <- rows :: keepPlain(drop(r)) <==> keep(r)
    ensures Filter(Map(rows, drop), keepPlain) == Map(Filter(rows, keep), drop)
  {
    if rows != [] {
      FilterDrops(rows[1..], drop, keep, keepPlain);
      assert Map(rows, drop)[1..] == Map(rows[1..], drop);
      assert rows[0] in rows;
    }
  }

  function DropJoined<R, Q>(j: Joined<R>, drop: R -> Q): Joined<Q> {
    match j
    case Both(l, r) => Both(drop(l), drop(r))
    case LeftOnly(l) => LeftOnly(drop(l))
    case RightOnly(r) => RightOnly(drop(r))
  }

  function DropAll<R, Q>(js: seq<Joined<R>>, drop: R -> Q): seq<Joined<Q>> {
    Map(js, (j: Joined<R>) => DropJoined(j, drop))
  }

  lemma PartnersDrop<R(!new), Q>(rows: seq<R>, key: R -> int, drop: R -> Q, keyPlain: Q -> int, k: int)
    requires forall r :: keyPlain(drop(r)) == key(r)
    ensures Partners(Map(rows, drop), keyPlain, k) == Map(Partners(rows, key, k), drop)
  {
    FilterDrops(rows, drop, (r: R) => key(r) == k, (q: Q) => keyPlain(q) == k);
  }

  lemma JoinOneDrops<R(!new), Q>(l: R, right: seq<R>, key: R -> int, drop: R -> Q, keyPlain: Q -> int)
    requires forall r :: keyPlain(drop(r)) == key(r)
    ensures JoinOne(drop(l), Map(right, drop), keyPlain) == DropAll(JoinOne(l, right, key), drop)
  {
    PartnersDrop(right, key, drop, keyPlain, key(l));
  }

  lemma {:induction false} JoinLeftDrops<R(!new), Q>(left: seq<R>, right: seq<R>, key: R -> int, drop: R -> Q,
                                                     keyPlain: Q -> int)
    requires forall r :: keyPlain(drop(r)) == key(r)
    ensures JoinLeft(Map(left, drop), Map(right, drop), keyPlain) == DropAll(JoinLeft(left, right, key), drop)
    decreases |left|
  {
    if left != [] {
      JoinLeftDrops(left[1..], right, key, drop, keyPlain);
      JoinOneDrops(left[0], right, key, drop, keyPlain);
      assert Map(left, drop)[0] == drop(left[0]) && Map(left, drop)[1..] == Map(left[1..], drop);
      MapConcat(JoinOne(left[0], right, key), JoinLeft(left[1..], right, key), (j: Joined<R>) => DropJoined(j, drop));
    }
  }

  lemma UnmatchedDrop<R(!new), Q>(left: seq<R>, right: seq<R>, key: R -> int, drop: R -> Q, keyPlain: Q -> int)
    requires forall r :: keyPlain(drop(r)) == key(r)
    ensures Unmatched(Map(left, drop), Map(right, drop), keyPlain) == Map(Unmatched(left, right, key), drop)
  {
    forall r | r in right
      ensures Partners(Map(left, drop), keyPlain, keyPlain(drop(r))) == [] <==> Partners(left, key, key(r)) == []
    {
      PartnersDrop(left, key, drop, keyPlain, key(r));
    }
    FilterDrops(right, drop, (r: R) => Partners(left, key, key(r)) == [],
                (q: Q) => Partners(Map(left, drop), keyPlain, keyPlain(q)) == []);
  }

  /** Dropping columns before or after the join makes no difference. */
  lemma JoinDrops<R(!new), Q>(left: seq<R>, right: seq<R>, key: R -> int, drop: R -> Q, keyPlain: Q -> int)
    requires forall r :: keyPlain(drop(r)) == key(r)
    ensures FullOuterJoin(Map(left, drop), Map(right, drop), keyPlain) == DropAll(FullOuterJoin(left, right, key), drop)
  {
    JoinLeftDrops(left, right, key, drop, keyPlain);
    UnmatchedDrop(left, right, key, drop, keyPlain);
    MapConcat(JoinLeft(left, right, key), Map(Unmatched(left, right, key), (r: R) => RightOnly(r)),
              (j: Joined<R>) => DropJoined(j, drop));
  }

  lemma MergeDrops(j: Joined<Stock>)
    ensures FiguresOf(Merge(j)) == MergeFigures(DropJoined(j, FiguresOf))
  {
  }

  lemma MergedDrops(normal: seq<Stock>, articles: seq<Stock>)
    ensures Plain(Merged(normal, articles))
            == Map(FullOuterJoin(Plain(normal), Plain(articles), ProductOfFigures), MergeFigures)
  {
    var joined := FullOuterJoin(normal, articles, ProductOf);
    JoinDrops(normal, articles, ProductOf, FiguresOf, ProductOfFigures);
    forall i | 0 <= i < |joined|
      ensures FiguresOf(Merge(joined[i])) == MergeFigures(DropJoined(joined[i], FiguresOf))
    {
      MergeDrops(joined[i]);
    }
  }

  lemma ArticlesDrop(db: Database)
    ensures Plain(Select(RowsOf(db.articles), (r: ArticleRow) => ArticleStock(r, db.articlesHaveMinimum)))
            == Select(RowsOf(db.articles), ArticleFigures)
  {
    SelectDrops(RowsOf(db.articles), (r: ArticleRow) => ArticleStock(r, db.articlesHaveMinimum), FiguresOf,
                ArticleFigures);
  }

  lemma NormalDrops(db: Database)
    ensures Plain(NormalStock(db))
            == if db.report.Some? then Select(db.report.value, ReportFigures) else Select(RowsOf(db.view), ViewFigures)
  {
    if db.report.Some? {
      SelectDrops(db.report.value, (r: ReportRow) => ReportStock(r, db.reportHasMinimum), FiguresOf, ReportFigures);
    } else {
      SelectDrops(RowsOf(db.view), ViewStock, FiguresOf, ViewFigures);
    }
  }

  /** Every summary query counts and sums exactly the rows that the page query of its source pages through,
      although the merged pair is written out twice and only one of them knows reorder points. */
  lemma SummaryCountsPageRows(db: Database, source: SourceType)
    ensures SummaryQuery(db, source) == Summarise(Plain(PageRows(db, source)))
  {
    if source == MergedArticleStock {
      NormalDrops(db);
      ArticlesDrop(db);
      MergedDrops(NormalStock(db), Select(RowsOf(db.articles),
                                          (r: ArticleRow) => ArticleStock(r, db.articlesHaveMinimum)));
    }
  }

  // ---------------------------------------------------------------------------------------------
  // What the merge yields
  // ---------------------------------------------------------------------------------------------

  /** Of partners without negative figures the merged row shows stock exactly when one of them does. */
  lemma MergedRowHasStockIff(j: Joined<Stock>)
    requires Left(j).Some? ==> j.left.total >= 0 && j.left.available >= 0 && j.left.reserved >= 0
    requires Right(j).Some? ==> j.right.available == j.right.total >= 0
    ensures Merge(j).total > 0 || Merge(j).available > 0 <==>
            || (Left(j).Some? && (j.left.total > 0 || j.left.available > 0))
            || (Right(j).Some? && j.right.total > 0)
  {
  }

  ghost predicate UniqueProducts(rows: seq<Stock>) {
    forall i, k :: 0 <= i < k < |rows| ==> rows[i].product != rows[k].product
  }

  ghost predicate Has(rows: seq<Stock>, product: int) {
    exists i :: 0 <= i < |rows| && rows[i].product == product
  }

  lemma PartnersCons<R>(rows: seq<R>, key: R -> int, k: int)
    requires rows != []
    ensures Partners(rows, key, k) == (if key(rows[0]) == k then [rows[0]] else []) + Partners(rows[1..], key, k)
  {
  }

  lemma {:induction false} PartnersMeaning(rows: seq<Stock>, product: int)
    ensures Partners(rows, ProductOf, product) == [] <==> !Has(rows, product)
    ensures UniqueProducts(rows) ==> |Partners(rows, ProductOf, product)| <= 1
  {
    if rows != [] {
      var rest := rows[1..];
      PartnersMeaning(rest, product);
      PartnersCons(rows, ProductOf, product);
      assert UniqueProducts(rows) ==> UniqueProducts(rest) && !Has(rest, rows[0].product);
      assert Has(rows, product) <==> rows[0].product == product || Has(rest, product) by {
        if Has(rest, product) {
          var i :| 0 <= i < |rest| && rest[i].product == product;
          assert rows[i + 1].product == product;
        }
      }
    }
  }

  ghost predicate DistinctKeys<R>(rows: seq<R>, key: R -> int) {
    forall i, k :: 0 <= i < k < |rows| ==> key(rows[i]) != key(rows[k])
  }

  lemma {:induction false} DistinctAfterFilter<R>(rows: seq<R>, key: R -> int, keep: R -> bool)
    requires DistinctKeys(rows, key)
    ensures DistinctKeys(Filter(rows, keep), key)
  {
    if rows != [] {
      DistinctAfterFilter(rows[1..], key, keep);
      assert rows == [rows[0]] + rows[1..];
      forall r | r in Filter(rows[1..], keep)
        ensures key(r) != key(rows[0])
      {
        FilterMembers(rows[1..], keep, r);
      }
    }
  }

  lemma AppendProducts(left: seq<Stock>, right: seq<Stock>, product: int)
    ensures Has(left + right, product) <==> Has(left, product) || Has(right, product)
    ensures UniqueProducts(left) && UniqueProducts(right)
            && (forall i, k :: 0 <= i < |left| && 0 <= k < |right| ==> left[i].product != right[k].product)
            ==> UniqueProducts(left + right)
  {
    var all := left + right;
    if Has(left, product) {
      var i :| 0 <= i < |left| && left[i].product == product;
      assert all[i].product == product;
    }
    if Has(right, product) {
      var i :| 0 <= i < |right| && right[i].product == product;
      assert all[|left| + i].product == product;
    }
  }

  /** Two lists with the same products in the same places. */
  ghost predicate SameProducts(a: seq<Stock>, b: seq<Stock>) {
    |a| == |b| && forall i :: 0 <= i < |a| ==> a[i].product == b[i].product
  }

  lemma {:induction false} MatchedProducts(normal: seq<Stock>, articles: seq<Stock>)
    requires UniqueProducts(normal) && UniqueProducts(articles)
    ensures SameProducts(Map(JoinLeft(normal, articles, ProductOf), Merge), normal)
    decreases |normal|
  {
    if normal != [] {
      PartnersMeaning(articles, normal[0].product);
      MatchedProducts(normal[1..], articles);
      var one, rest := JoinOne(normal[0], articles, ProductOf), JoinLeft(normal[1..], articles, ProductOf);
      assert |one| == 1 && Merge(one[0]).product == normal[0].product;
      assert Map(one + rest, Merge) == [Merge(one[0])] + Map(rest, Merge);
    }
  }

  lemma UnmatchedFilter<R>(left: seq<R>, right: seq<R>, key: R -> int, x: R)
    ensures x in Unmatched(left, right, key) <==> x in right && Partners(left, key, key(x)) == []
  {
    FilterMembers(right, (r: R) => Partners(left, key, key(r)) == [], x);
  }

  lemma UniqueUnmatched<R>(left: seq<R>, right: seq<R>, key: R -> int)
    requires DistinctKeys(right, key)
    ensures DistinctKeys(Unmatched(left, right, key), key)
  {
    DistinctAfterFilter(right, key, (r: R) => Partners(left, key, key(r)) == []);
  }

  lemma UnmatchedMembers(normal: seq<Stock>, articles: seq<Stock>, s: Stock)
    ensures s in Unmatched(normal, articles, ProductOf) <==> s in articles && !Has(normal, s.product)
  {
    UnmatchedFilter(normal, articles, ProductOf, s);
    PartnersMeaning(normal, s.product);
  }

  lemma UnmatchedProducts(normal: seq<Stock>, articles: seq<Stock>, product: int)
    ensures Has(normal, product) || Has(Unmatched(normal, articles, ProductOf), product)
            <==> Has(normal, product) || Has(articles, product)
  {
    var others := Unmatched(normal, articles, ProductOf);
    if Has(others, product) {
      var k :| 0 <= k < |others| && others[k].product == product;
      UnmatchedMembers(normal, articles, others[k]);
      var i :| 0 <= i < |articles| && articles[i] == others[k];
    }
    if Has(articles, product) && !Has(normal, product) {
      var k :| 0 <= k < |articles| && articles[k].product == product;
      UnmatchedMembers(normal, articles, articles[k]);
      var i :| 0 <= i < |others| && others[i] == articles[k];
    }
  }

  lemma SameProductsAgree(a: seq<Stock>, b: seq<Stock>, product: int)
    requires SameProducts(a, b)
    ensures (Has(a, product) <==> Has(b, product)) && (UniqueProducts(a) <==> UniqueProducts(b))
  {
  }

  function MatchedRows(normal: seq<Stock>, articles: seq<Stock>): seq<Stock> {
    Map(JoinLeft(normal, articles, ProductOf), Merge)
  }

  function UnmatchedRows(normal: seq<Stock>, articles: seq<Stock>): seq<Stock> {
    Map(Unmatched(normal, articles, ProductOf), (r: Stock) => Merge(RightOnly(r)))
  }

  lemma MergedSplits(normal: seq<Stock>, articles: seq<Stock>)
    ensures Merged(normal, articles) == MatchedRows(normal, articles) + UnmatchedRows(normal, articles)
    ensures SameProducts(UnmatchedRows(normal, articles), Unmatched(normal, articles, ProductOf))
  {
  }

  lemma MatchedAndUnmatchedDiffer(normal: seq<Stock>, articles: seq<Stock>)
    requires UniqueProducts(normal) && UniqueProducts(articles)
    ensures forall a <- MatchedRows(normal, articles), b <- UnmatchedRows(normal, articles) :: a.product != b.product
  {
    var left, others := MatchedRows(normal, articles), Unmatched(normal, articles, ProductOf);
    MatchedProducts(normal, articles);
    forall i, k | 0 <= i < |left| && 0 <= k < |others|
      ensures left[i].product != others[k].product
    {
      UnmatchedMembers(normal, articles, others[k]);
      assert left[i].product == normal[i].product;
    }
  }

  /** Of tables with one row per product the merge has one row per product that occurs in either. */
  lemma MergedIsPerProduct(normal: seq<Stock>, articles: seq<Stock>, product: int)
    requires UniqueProducts(normal) && UniqueProducts(articles)
    ensures UniqueProducts(Merged(normal, articles))
    ensures Has(Merged(normal, articles), product) <==> Has(normal, product) || Has(articles, product)
  {
    var left, right := MatchedRows(normal, articles), UnmatchedRows(normal, articles);
    MatchedProducts(normal, articles);
    UniqueUnmatched(normal, articles, ProductOf);
    MergedSplits(normal, articles);
    SameProductsAgree(left, normal, product);
    SameProductsAgree(right, Unmatched(normal, articles, ProductOf), product);
    MatchedAndUnmatchedDiffer(normal, articles);
    AppendProducts(left, right, product);
    UnmatchedProducts(normal, articles, product);
  }

  // ---------------------------------------------------------------------------------------------
  // Summaries and order
  // ---------------------------------------------------------------------------------------------

  lemma AddRowFirst(a: Totals, b: Totals, r: Figures)
    ensures AddRow(AddTotals(a, b), r) == AddTotals(AddRow(a, r), b) == AddTotals(a, AddRow(b, r))
  {
  }

  lemma {:induction false} SummariseConcat(a: seq<Figures>, b: seq<Figures>)
    ensures Summarise(a + b) == AddTotals(Summarise(a), Summarise(b))
  {
    if a != [] {
      SummariseConcat(a[1..], b);
      AddRowFirst(Summarise(a[1..]), Summarise(b), a[0]);
      assert Summarise(a + b) == AddRow(Summarise(a[1..] + b), a[0]) by {
        assert (a + b)[1..] == a[1..] + b;
      }
    } else {
      assert a + b == b;
    }
  }

  lemma SummaryAround(before: seq<Figures>, r: Figures, after: seq<Figures>)
    ensures Summarise(before + ([r] + after)) == AddRow(Summarise(before + after), r)
  {
    SummariseConcat(before, after);
    SummariseConcat(before, [r] + after);
    assert ([r] + after)[1..] == after;
    AddRowFirst(Summarise(before), Summarise(after), r);
  }

  lemma Around(b: seq<Stock>, i: nat)
    requires i < |b|
    ensures b == b[..i] + ([b[i]] + b[i + 1..])
    ensures multiset(b[..i] + b[i + 1..]) == multiset(b) - multiset{b[i]}
  {
    assert b == b[..i] + ([b[i]] + b[i + 1..]);
    assert multiset(b) == multiset(b[..i]) + (multiset{b[i]} + multiset(b[i + 1..]));
  }

  lemma PlainConcat(a: seq<Stock>, b: seq<Stock>)
    ensures Plain(a + b) == Plain(a) + Plain(b)
  {
  }

  lemma RemovedRow(b: seq<Stock>, i: nat)
    requires i < |b|
    ensures Summarise(Plain(b)) == AddRow(Summarise(Plain(b[..i] + b[i + 1..])), FiguresOf(b[i]))
  {
    Around(b, i);
    PlainConcat(b[..i], [b[i]] + b[i + 1..]);
    PlainConcat([b[i]], b[i + 1..]);
    PlainConcat(b[..i], b[i + 1..]);
    assert Plain([b[i]]) == [FiguresOf(b[i])];
    SummaryAround(Plain(b[..i]), FiguresOf(b[i]), Plain(b[i + 1..]));
  }

  /** Paging sorts the rows; the summary does not.  The order makes no difference. */
  lemma {:induction false} SummaryIgnoresOrder(a: seq<Stock>, b: seq<Stock>)
    requires multiset(a) == multiset(b)
    ensures Summarise(Plain(a)) == Summarise(Plain(b))
    decreases |a|
  {
    if a == [] {
      assert |multiset(b)| == 0;
    } else {
      var i, rest := RestOf(a, b);
      RemovedRow(a, 0);
      RemovedRow(b, i);
      assert a[..0] + a[0 + 1..] == a[1..];
      SummaryIgnoresOrder(a[1..], rest);
    }
  }

  /** The first row of one list, found in the other. */
  lemma RestOf(a: seq<Stock>, b: seq<Stock>) returns (i: nat, rest: seq<Stock>)
    requires a != [] && multiset(a) == multiset(b)
    ensures i < |b| && b[i] == a[0] && rest == b[..i] + b[i + 1..] && multiset(a[1..]) == multiset(rest)
  {
    assert a[0] in multiset(a) && a[0] in multiset(b) && a[0] in b;
    i :| 0 <= i < |b| && b[i] == a[0];
    rest := b[..i] + b[i + 1..];
    Around(a, 0);
    Around(b, i);
    assert a[..0] + a[0 + 1..] == a[1..];
  }

  // ---------------------------------------------------------------------------------------------
  // Pages
  // ---------------------------------------------------------------------------------------------

  /** One outcome of `ORDER BY product`. */
  ghost predicate Listing(rows: seq<Stock>, listing: seq<Stock>) {
    && multiset(listing) == multiset(rows)
    && forall i, k :: 0 <= i < k < |listing| ==> listing[i].product <= listing[k].product
  }

  /** Every page is cut from some sorted list of the rows; the database need not sort alike twice. */
  ghost predicate Pages(page: Pager<Stock>, rows: seq<Stock>) {
    forall offset: nat, n: nat ::
      exists listing :: Listing(rows, listing) && page(offset, n) == Slice(listing, offset, n)
  }

  lemma ListingKeepsProducts(rows: seq<Stock>, listing: seq<Stock>)
    requires multiset(rows) == multiset(listing) && UniqueProducts(rows)
    ensures UniqueProducts(listing)
  {
    forall i, k | 0 <= i < k < |listing|
      ensures listing[i].product != listing[k].product
    {
      var a, b := listing[i], listing[k];
      assert multiset(rows)[a] <= 1 by { CountsOnce(rows, a); }
      assert a != b by {
        if a == b {
          CountsTwice(listing, i, k);
        }
      }
      assert a in listing && b in listing && a in multiset(rows) && b in multiset(rows) && a in rows && b in rows;
    }
  }

  lemma {:induction false} CountsOnce(s: seq<Stock>, x: Stock)
    requires UniqueProducts(s)
    ensures multiset(s)[x] <= 1
  {
    if s != [] {
      var rest := s[1..];
      CountsOnce(rest, x);
      assert s == [s[0]] + rest;
      assert multiset(s)[x] == (if x == s[0] then 1 else 0) + multiset(rest)[x];
      if x in rest {
        var i :| 0 <= i < |rest| && rest[i] == x;
        assert s[i + 1] == x;
      }
    }
  }

  /** With one row per product there is one way to sort. */
  lemma {:induction false} ListingIsUnique(a: seq<Stock>, b: seq<Stock>)
    requires Listing(a, a) && Listing(a, b) && UniqueProducts(a)
    ensures a == b
    decreases |a|
  {
    if a == [] {
      assert |multiset(b)| == 0;
    } else {
      ListingKeepsProducts(a, b);
      var i, rest := RestOf(a, b);
      assert b[0] in multiset(a) && b[0] in a;
      assert a[0].product <= b[0].product <= b[i].product;
      assert i == 0;
      assert rest == b[1..];
      ListingIsUnique(a[1..], b[1..]);
    }
  }

  /** So with one row per product all pages are cut from one list. */
  lemma PagesShareAListing(page: Pager<Stock>, rows: seq<Stock>) returns (listing: seq<Stock>)
    requires Pages(page, rows) && UniqueProducts(rows)
    ensures Listing(rows, listing) && UniqueProducts(listing) && PagesOf(page, listing)
  {
    var first := page(0, 0);
    listing :| Listing(rows, listing) && first == Slice(listing, 0, 0);
    ListingKeepsProducts(rows, listing);
    forall offset: nat, n: nat
      ensures page(offset, n) == Slice(listing, offset, n)
    {
      var other :| Listing(rows, other) && page(offset, n) == Slice(other, offset, n);
      ListingIsUnique(listing, other);
    }
  }

  /** The pages of one size from an offset on, until one comes back empty. */
  ghost function ReadPages(page: Pager<Stock>, offset: nat, size: nat, count: nat): seq<seq<Stock>>
    requires size > 0
    decreases if offset < count then count - offset else 0
  {
    if offset >= count then [] else [page(offset, size)] + ReadPages(page, offset + size, size, count)
  }

  function FoldPages(pages: seq<seq<Stock>>): Totals {
    if pages == [] then Totals(0, 0, 0, 0, 0) else AddTotals(Summarise(Plain(pages[0])), FoldPages(pages[1..]))
  }

  lemma SummariseRows(a: seq<Stock>, b: seq<Stock>)
    ensures Summarise(Plain(a + b)) == AddTotals(Summarise(Plain(a)), Summarise(Plain(b)))
  {
    PlainConcat(a, b);
    SummariseConcat(Plain(a), Plain(b));
  }

  /** One page, and the pages after it. */
  lemma NextPage(page: Pager<Stock>, listing: seq<Stock>, offset: nat, size: nat)
    requires PagesOf(page, listing) && size > 0 && offset < |listing|
    ensures var next, pages := Min(offset + size, |listing|), ReadPages(page, offset, size, |listing|);
            && pages != [] && pages[0] == listing[offset..next]
            && pages[1..] == ReadPages(page, next, size, |listing|)
            && listing[offset..next] + listing[next..] == listing[offset..]
  {
    var next, rest := Min(offset + size, |listing|), ReadPages(page, offset + size, size, |listing|);
    assert page(offset, size) == listing[offset..next] by {
      assert page(offset, size) == Slice(listing, offset, size);
    }
    ConsParts(page(offset, size), rest);
    SplitRest(listing, offset, next);
    assert rest == ReadPages(page, next, size, |listing|) by {
      if next < offset + size {
        assert rest == [] && ReadPages(page, next, size, |listing|) == [];
      }
    }
  }

  lemma {:induction false} FoldFrom(page: Pager<Stock>, listing: seq<Stock>, offset: nat, size: nat)
    requires PagesOf(page, listing) && size > 0 && offset <= |listing|
    ensures FoldPages(ReadPages(page, offset, size, |listing|)) == Summarise(Plain(listing[offset..]))
    decreases |listing| - offset
  {
    if offset < |listing| {
      var next := Min(offset + size, |listing|);
      NextPage(page, listing, offset, size);
      FoldFrom(page, listing, next, size);
      SummariseRows(listing[offset..next], listing[next..]);
    }
  }

  /** What the summary query of a source reports is the fold over the pages that its page query reads, in
      chunks of any size, as long as no product has two rows. */
  lemma SummaryIsFoldOverPages(db: Database, source: SourceType, page: Pager<Stock>, size: nat)
    requires UniqueProducts(PageRows(db, source)) && Pages(page, PageRows(db, source)) && size > 0
    ensures SummaryQuery(db, source) == FoldPages(ReadPages(page, 0, size, SummaryQuery(db, source).rows))
  {
    var rows := PageRows(db, source);
    var listing := PagesShareAListing(page, rows);
    SummaryCountsPageRows(db, source);
    SummaryIgnoresOrder(rows, listing);
    RowCount(Plain(listing));
    FoldFrom(page, listing, 0, size);
    assert listing[0..] == listing;
  }

  lemma {:induction false} RowCount(rows: seq<Figures>)
    ensures Summarise(rows).rows == |rows|
  {
    if rows != [] {
      RowCount(rows[1..]);
    }
  }

  // ---------------------------------------------------------------------------------------------
  // One row per product
  // ---------------------------------------------------------------------------------------------

  /** Every table has its articles once, as the keys of the ERP schema demand. */
  ghost predicate Keyed(db: Database) {
    && UniqueProducts(PageRows(db, ReportProduct))
    && UniqueProducts(PageRows(db, VLagerbestandEx))
    && UniqueProducts(PageRows(db, TLagerbestand))
    && UniqueProducts(PageRows(db, TArtikelNLagerbestand))
  }

  lemma {:induction false} SelectedProducts<R>(rows: seq<R>, a: R -> Option<Stock>, b: R -> Option<Stock>)
    requires forall r <- rows ::
               (a(r).Some? <==> b(r).Some?) && (a(r).Some? ==> a(r).value.product == b(r).value.product)
    ensures SameProducts(Select(rows, a), Select(rows, b))
  {
    if rows != [] {
      assert rows[0] in rows;
      SelectedProducts(rows[1..], a, b);
    }
  }

  /** Then so has every source. */
  lemma KeyedSources(db: Database, source: SourceType)
    requires Keyed(db)
    ensures UniqueProducts(PageRows(db, source))
  {
    if source == MergedArticleStock {
      var table := RowsOf(db.articles);
      var articles := Select(table, (r: ArticleRow) => ArticleStock(r, db.articlesHaveMinimum));
      SelectedProducts(table, (r: ArticleRow) => ArticleStock(r, db.articlesHaveMinimum),
                       (r: ArticleRow) => ArticleStock(r, false));
      SameProductsAgree(articles, PageRows(db, TArtikelNLagerbestand), 0);
      if db.report.Some? {
        SelectedProducts(db.report.value, (r: ReportRow) => ReportStock(r, db.reportHasMinimum),
                         (r: ReportRow) => ReportStock(r, true));
        SameProductsAgree(NormalStock(db), PageRows(db, ReportProduct), 0);
      }
      MergedIsPerProduct(NormalStock(db), articles, 0);
    }
  }
}
