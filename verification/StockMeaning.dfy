/** What the stock queries yield, told from the columns of the database tables: which rows a source has and what
    stands in them, what the merge makes of a product's two rows, and what a summary counts. */
module StockMeaning {
  import opened Common
  import opened Sequences
  import opened InventoryQueries

  // ---------------------------------------------------------------------------------------------
  // Selections and joins
  // ---------------------------------------------------------------------------------------------

  lemma {:induction false} SelectMembers<R, S>(rows: seq<R>, project: R -> Option<S>, s: S)
    ensures s in Select(rows, project) <==> exists r <- rows :: project(r) == Some(s)
  {
    if rows != [] {
      SelectMembers(rows[1..], project, s);
      assert rows == [rows[0]] + rows[1..];
      assert s in Select(rows, project) <==> project(rows[0]) == Some(s) || s in Select(rows[1..], project);
    }
  }

  lemma MapMembers<A, B>(s: seq<A>, f: A -> B, y: B)
    ensures y in Map(s, f) <==> exists x <- s :: f(x) == y
  {
    if y in Map(s, f) {
      var i :| 0 <= i < |s| && Map(s, f)[i] == y;
      assert s[i] in s;
    }
    if exists x <- s :: f(x) == y {
      var x :| x in s && f(x) == y;
      var i :| 0 <= i < |s| && s[i] == x;
      assert Map(s, f)[i] == y;
    }
  }

  /** Which rows a full outer join has: pairs of the same key, and rows without a partner on the other side. */
  ghost predicate Joins<R>(left: seq<R>, right: seq<R>, key: R -> int, j: Joined<R>) {
    match j
    case Both(a, b) => a in left && b in right && key(a) == key(b)
    case LeftOnly(a) => a in left && forall b <- right :: key(b) != key(a)
    case RightOnly(b) => b in right && forall a <- left :: key(a) != key(b)
  }

  lemma PartnersMembers<R>(rows: seq<R>, key: R -> int, k: int)
    ensures forall r :: r in Partners(rows, key, k) <==> r in rows && key(r) == k
    ensures Partners(rows, key, k) == [] <==> forall r <- rows :: key(r) != k
  {
    forall r
      ensures r in Partners(rows, key, k) <==> r in rows && key(r) == k
    {
      FilterMembers(rows, (x: R) => key(x) == k, r);
    }
    if r :| r in rows && key(r) == k {
      assert r in Partners(rows, key, k);
    } else if Partners(rows, key, k) != [] {
      var first := Partners(rows, key, k)[0];
      FilterMembers(rows, (x: R) => key(x) == k, first);
    }
  }

  lemma JoinOneMembers<R>(l: R, right: seq<R>, key: R -> int, j: Joined<R>)
    ensures j in JoinOne(l, right, key) <==>
            || (j.Both? && j.left == l && j.right in right && key(l) == key(j.right))
            || (j == LeftOnly(l) && forall b <- right :: key(b) != key(l))
  {
    PartnersMembers(right, key, key(l));
    MapMembers(Partners(right, key, key(l)), (p: R) => Both(l, p), j);
  }

  lemma {:induction false} JoinLeftMembers<R>(left: seq<R>, right: seq<R>, key: R -> int, j: Joined<R>)
    ensures j in JoinLeft(left, right, key) <==> !j.RightOnly? && Joins(left, right, key, j)
  {
    if left != [] {
      JoinLeftMembers(left[1..], right, key, j);
      JoinOneMembers(left[0], right, key, j);
      assert left == [left[0]] + left[1..];
    }
  }

  lemma UnmatchedRight<R>(left: seq<R>, right: seq<R>, key: R -> int, b: R)
    ensures b in Unmatched(left, right, key) <==> b in right && forall a <- left :: key(a) != key(b)
  {
    FilterMembers(right, (r: R) => Partners(left, key, key(r)) == [], b);
    PartnersMembers(left, key, key(b));
  }

  lemma JoinMembers<R>(left: seq<R>, right: seq<R>, key: R -> int, j: Joined<R>)
    ensures j in FullOuterJoin(left, right, key) <==> Joins(left, right, key, j)
  {
    JoinLeftMembers(left, right, key, j);
    MapMembers(Unmatched(left, right, key), (r: R) => RightOnly(r), j);
    if j.RightOnly? {
      UnmatchedRight(left, right, key, j.right);
    }
  }

  // ---------------------------------------------------------------------------------------------
  // The rows of the single sources
  // ---------------------------------------------------------------------------------------------

  /** A missing figure counts as none. */
  predicate Reads(column: Option<int>, figure: int) {
    column == Some(figure) || (column == None && figure == 0)
  }

  predicate FromReport(r: ReportRow, s: Stock) {
    && r.product == Some(s.product)
    && Reads(r.available, s.available) && Reads(r.reserved, s.reserved) && Reads(r.total, s.total)
  }

  predicate FromView(r: ViewRow, s: Stock) {
    && r.product == Some(s.product) && s.reorder == 0
    && Reads(r.available, s.available) && Reads(r.reserved, s.reserved) && Reads(r.total, s.total)
  }

  /** What is there but not available is reserved, and nothing is reserved if all of it is available. */
  predicate FromLevels(r: LevelRow, s: Stock) {
    && r.product == Some(s.product) && s.reorder == 0
    && Reads(r.available, s.available) && Reads(r.total, s.total)
    && s.reserved >= 0 && s.available + s.reserved >= s.total
    && (s.reserved > 0 ==> s.available + s.reserved == s.total)
  }

  predicate FromArticles(r: ArticleRow, s: Stock) {
    r.product == Some(s.product) && Reads(r.stock, s.total) && s.available == s.total && s.reserved == 0
  }

  lemma ReportRows(rows: seq<ReportRow>, hasMinimum: bool, s: Stock)
    ensures s in Select(rows, (r: ReportRow) => ReportStock(r, hasMinimum)) <==>
            exists r <- rows :: FromReport(r, s) && if hasMinimum then Reads(r.minimum, s.reorder) else s.reorder == 0
  {
    SelectMembers(rows, (r: ReportRow) => ReportStock(r, hasMinimum), s);
  }

  lemma ViewRows(rows: seq<ViewRow>, s: Stock)
    ensures s in Select(rows, ViewStock) <==> exists r <- rows :: FromView(r, s)
  {
    SelectMembers(rows, ViewStock, s);
  }

  lemma LevelsRow(r: LevelRow, s: Stock)
    ensures LevelStock(r) == Some(s) <==> FromLevels(r, s)
  {
  }

  lemma LevelRows(rows: seq<LevelRow>, s: Stock)
    ensures s in Select(rows, LevelStock) <==> exists r <- rows :: FromLevels(r, s)
  {
    SelectMembers(rows, LevelStock, s);
    forall r | r in rows
      ensures LevelStock(r) == Some(s) <==> FromLevels(r, s)
    {
      LevelsRow(r, s);
    }
  }

  lemma ArticleRows(rows: seq<ArticleRow>, hasMinimum: bool, s: Stock)
    ensures s in Select(rows, (r: ArticleRow) => ArticleStock(r, hasMinimum)) <==>
            exists r <- rows ::
              FromArticles(r, s) && if hasMinimum then Reads(r.reorder, s.reorder) else s.reorder == 0
  {
    SelectMembers(rows, (r: ArticleRow) => ArticleStock(r, hasMinimum), s);
  }

  /** Every single source has exactly the rows that its table gives rise to, rows without a product left out. */
  lemma SingleSources(db: Database, s: Stock)
    ensures s in PageRows(db, ReportProduct) <==>
            db.report.Some? && exists r <- db.report.value :: FromReport(r, s) && Reads(r.minimum, s.reorder)
    ensures s in PageRows(db, VLagerbestandEx) <==> db.view.Some? && exists r <- db.view.value :: FromView(r, s)
    ensures s in PageRows(db, TLagerbestand) <==> db.levels.Some? && exists r <- db.levels.value :: FromLevels(r, s)
    ensures s in PageRows(db, TArtikelNLagerbestand) <==>
            db.articles.Some? && exists r <- db.articles.value :: FromArticles(r, s) && s.reorder == 0
    ensures PageRows(db, Legacy) == []
  {
    ReportRows(RowsOf(db.report), true, s);
    ViewRows(RowsOf(db.view), s);
    LevelRows(RowsOf(db.levels), s);
    ArticleRows(RowsOf(db.articles), false, s);
  }

  // ---------------------------------------------------------------------------------------------
  // The merged source
  // ---------------------------------------------------------------------------------------------

  /** The detailed side of the merge: the report, or the view where there is no report; the minimum counts only
      where the report has one. */
  ghost predicate Detailed(db: Database, s: Stock) {
    if db.report.Some?
    then exists r <- db.report.value ::
        FromReport(r, s) && if db.reportHasMinimum then Reads(r.minimum, s.reorder) else s.reorder == 0
    else db.view.Some? && exists r <- db.view.value :: FromView(r, s)
  }

  /** The article side. */
  ghost predicate OfArticle(db: Database, s: Stock) {
    && db.articles.Some?
    && exists r <- db.articles.value ::
         FromArticles(r, s) && if db.articlesHaveMinimum then Reads(r.reorder, s.reorder) else s.reorder == 0
  }

  predicate Shows(s: Stock) {
    s.total > 0 || s.available > 0 || s.reserved > 0
  }

  /** What the merge makes of a product's detailed row and article row, of which one may be missing: available and
      reserved stock are the detailed ones where these show anything, else the article's; the total is the
      article's unless that is nothing; the reorder point is the detailed one unless that is nothing. */
  predicate MergesTo(n: Option<Stock>, a: Option<Stock>, m: Stock) {
    && (n.Some? ==> n.value.product == m.product) && (a.Some? ==> a.value.product == m.product)
    && (n.Some? && Shows(n.value) ==> m.available == n.value.available && m.reserved == n.value.reserved)
    && (!(n.Some? && Shows(n.value)) && a.Some? ==>
          m.available == a.value.available && m.reserved == a.value.reserved)
    && (!(n.Some? && Shows(n.value)) && a.None? ==> m.available == 0 && m.reserved == 0)
    && (a.Some? && a.value.total != 0 ==> m.total == a.value.total)
    && (a.None? || a.value.total == 0 ==> if n.Some? then m.total == n.value.total else m.total == 0)
    && (n.Some? && n.value.reorder != 0 ==> m.reorder == n.value.reorder)
    && (n.None? || n.value.reorder == 0 ==> if a.Some? then m.reorder == a.value.reorder else m.reorder == 0)
  }

  lemma DetailedRows(db: Database, s: Stock)
    ensures s in NormalStock(db) <==> Detailed(db, s)
  {
    ReportRows(RowsOf(db.report), db.reportHasMinimum, s);
    ViewRows(RowsOf(db.view), s);
  }

  lemma MergeMeaning(j: Joined<Stock>, m: Stock)
    requires j.Both? ==> j.left.product == j.right.product
    ensures m == Merge(j) <==>
            MergesTo(if j.RightOnly? then None else Some(j.left), if j.LeftOnly? then None else Some(j.right), m)
  {
  }

  lemma MergedMembers(normal: seq<Stock>, articles: seq<Stock>, m: Stock)
    ensures m in Merged(normal, articles) <==>
            || (exists n <- normal, a <- articles :: MergesTo(Some(n), Some(a), m))
            || (exists n <- normal :: MergesTo(Some(n), None, m) && forall a <- articles :: a.product != m.product)
            || (exists a <- articles :: MergesTo(None, Some(a), m) && forall n <- normal :: n.product != m.product)
  {
    MapMembers(FullOuterJoin(normal, articles, ProductOf), Merge, m);
    if m in Merged(normal, articles) {
      var j :| j in FullOuterJoin(normal, articles, ProductOf) && Merge(j) == m;
      JoinMembers(normal, articles, ProductOf, j);
      MergeMeaning(j, m);
    }
    if n, a :| n in normal && a in articles && MergesTo(Some(n), Some(a), m) {
      JoinMembers(normal, articles, ProductOf, Both(n, a));
      MergeMeaning(Both(n, a), m);
    }
    if n :| n in normal && MergesTo(Some(n), None, m) && forall a <- articles :: a.product != m.product {
      JoinMembers(normal, articles, ProductOf, LeftOnly(n));
      MergeMeaning(LeftOnly(n), m);
    }
    if a :| a in articles && MergesTo(None, Some(a), m) && forall n <- normal :: n.product != m.product {
      JoinMembers(normal, articles, ProductOf, RightOnly(a));
      MergeMeaning(RightOnly(a), m);
    }
  }

  /** The merged source has exactly the rows that come of a product's detailed row and article row, or of one of
      them where the other side does not know the product. */
  lemma MergedSource(db: Database, m: Stock)
    ensures m in PageRows(db, MergedArticleStock) <==>
            || (exists n, a :: Detailed(db, n) && OfArticle(db, a) && MergesTo(Some(n), Some(a), m))
            || (exists n :: Detailed(db, n) && MergesTo(Some(n), None, m)
                            && forall a :: OfArticle(db, a) ==> a.product != m.product)
            || (exists a :: OfArticle(db, a) && MergesTo(None, Some(a), m)
                            && forall n :: Detailed(db, n) ==> n.product != m.product)
  {
    var normal := NormalStock(db);
    var articles := Select(RowsOf(db.articles), (r: ArticleRow) => ArticleStock(r, db.articlesHaveMinimum));
    MergedMembers(normal, articles, m);
    forall s
      ensures s in normal <==> Detailed(db, s)
      ensures s in articles <==> OfArticle(db, s)
    {
      DetailedRows(db, s);
      ArticleRows(RowsOf(db.articles), db.articlesHaveMinimum, s);
    }
  }

  // ---------------------------------------------------------------------------------------------
  // What a summary counts
  // ---------------------------------------------------------------------------------------------

  function SumOf(rows: seq<Stock>, column: Stock -> int): int {
    if rows == [] then 0 else column(rows[0]) + SumOf(rows[1..], column)
  }

  function CountOf(rows: seq<Stock>, test: Stock -> bool): nat {
    if rows == [] then 0 else (if test(rows[0]) then 1 else 0) + CountOf(rows[1..], test)
  }

  /** A summary counts the rows and those with stock, and adds up each column. */
  lemma {:induction false} SummaryMeaning(rows: seq<Stock>)
    ensures var t := Summarise(Plain(rows));
            && t.rows == |rows|
            && t.rowsWithStock == CountOf(rows, (s: Stock) => s.total > 0 || s.available > 0)
            && t.total == SumOf(rows, (s: Stock) => s.total)
            && t.available == SumOf(rows, (s: Stock) => s.available)
            && t.reserved == SumOf(rows, (s: Stock) => s.reserved)
  {
    if rows != [] {
      SummaryMeaning(rows[1..]);
      assert Plain(rows)[0] == FiguresOf(rows[0]) && Plain(rows)[1..] == Plain(rows[1..]);
    }
  }
}
