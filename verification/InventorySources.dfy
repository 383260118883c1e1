/** Where the client gets its stock from: the diagnosis of each source, the choice among them, and the
    agreement of that choice with the backend's guards, up to the stock that arrives. */
module InventorySources {
  import opened Common
  import opened Sequences
  import opened InventoryQueries
  import Inv = Inventory
  import E2E = EndToEnd
  import LostSnapshots
  import Paging
  import Pipeline
  import RunBatches
  import StagedGroups
  import TenantIsolation

  // ---------------------------------------------------------------------------------------------
  // The choice of the source
  // ---------------------------------------------------------------------------------------------

  const PRIORITY := [MergedArticleStock, ReportProduct, VLagerbestandEx, TLagerbestand, TArtikelNLagerbestand, Legacy]

  /** The position in the priority list. */
  function Rank(s: SourceType): (rank: nat)
    ensures rank < |PRIORITY| && PRIORITY[rank] == s
  {
    match s
    case MergedArticleStock => 0
    case ReportProduct => 1
    case VLagerbestandEx => 2
    case TLagerbestand => 3
    case TArtikelNLagerbestand => 4
    case Legacy => 5
  }

  datatype Summary = Summary(source: SourceType, present: bool, queryable: bool, totals: Totals)

  datatype Settings = Settings(rejectConflicting: bool, allowConfirmedZero: bool, rejectUnverifiedZero: bool)

  datatype Diagnostics = Diagnostics(selected: SourceType, status: Inv.StockStatus, safe: bool)

  /** The object is there with the columns that the probe asks for; the merge needs articles and one of the
      two detailed sources. */
  predicate Present(db: Database, source: SourceType) {
    match source
    case Legacy => false
    case MergedArticleStock => db.articles.Some? && (db.report.Some? || db.view.Some?)
    case ReportProduct => db.report.Some?
    case VLagerbestandEx => db.view.Some?
    case TLagerbestand => db.levels.Some?
    case TArtikelNLagerbestand => db.articles.Some?
  }

  /** The probe of a source.  Its query fails for reasons of its own (`fails`), on a report without the minimum
      column, and over no rows, where the sum of rows with stock is NULL. */
  function Probe(db: Database, source: SourceType, fails: bool): Summary {
    var queryable := Present(db, source) && !fails && SummaryQuery(db, source).rows > 0
                     && (source == ReportProduct ==> db.reportHasMinimum);
    Summary(source, Present(db, source), queryable,
            if queryable then SummaryQuery(db, source) else Totals(0, 0, 0, 0, 0))
  }

  const PROBED := [MergedArticleStock, ReportProduct, VLagerbestandEx, TLagerbestand, TArtikelNLagerbestand]

  function Diagnose(db: Database, fails: SourceType -> bool): seq<Summary> {
    seq(|PROBED|, i requires 0 <= i < |PROBED| => Probe(db, PROBED[i], fails(PROBED[i])))
  }

  predicate IsValid(s: Summary) {
    s.present && s.queryable && s.totals.rows > 0
  }

  predicate Positive(s: Summary) {
    s.totals.total > 0 || s.totals.available > 0
  }

  function ValidSources(summaries: seq<Summary>): seq<Summary> {
    Filter(summaries, (s: Summary) => IsValid(s))
  }

  /** The first source of the best rank. */
  function Best(valid: seq<Summary>): Summary
    requires valid != []
  {
    if |valid| == 1 then valid[0]
    else
      var rest := Best(valid[1..]);
      if Rank(valid[0].source) <= Rank(rest.source) then valid[0] else rest
  }

  /** Two valid sources show positive stock but not the same stock. */
  predicate Conflicting(valid: seq<Summary>) {
    exists p <- valid, q <- valid ::
      && Positive(p) && Positive(q)
      && (p.totals.total, p.totals.available) != (q.totals.total, q.totals.available)
  }

  predicate LowerHasStock(valid: seq<Summary>, best: Summary) {
    !Positive(best) && exists s <- valid :: Rank(s.source) > Rank(best.source) && Positive(s)
  }

  function Resolve(summaries: seq<Summary>, settings: Settings): Diagnostics {
    var valid := ValidSources(summaries);
    if valid == [] then Diagnostics(Legacy, Inv.NoValidSource, false)
    else
      var best := Best(valid);
      if best.source == MergedArticleStock && Positive(best) then
        Diagnostics(best.source, Inv.PositiveStockConfirmed, true)
      else if settings.rejectConflicting && (Conflicting(valid) || LowerHasStock(valid, best)) then
        Diagnostics(best.source, Inv.SourceConflict, false)
      else if Positive(best) then Diagnostics(best.source, Inv.PositiveStock, true)
      else if settings.allowConfirmedZero then Diagnostics(best.source, Inv.ConfirmedZeroStock, true)
      else Diagnostics(best.source, Inv.UnverifiedZeroStock, !settings.rejectUnverifiedZero)
  }

  ghost predicate DistinctSources(summaries: seq<Summary>) {
    forall i, k :: 0 <= i < k < |summaries| ==> summaries[i].source != summaries[k].source
  }

  lemma {:induction false} BestIsBest(valid: seq<Summary>)
    requires valid != []
    ensures Best(valid) in valid && forall s <- valid :: Rank(Best(valid).source) <= Rank(s.source)
  {
    if |valid| > 1 {
      BestIsBest(valid[1..]);
      assert valid == [valid[0]] + valid[1..];
    }
  }

  lemma SameSourceSameSummary(summaries: seq<Summary>, a: Summary, b: Summary)
    requires DistinctSources(summaries) && a in summaries && b in summaries && a.source == b.source
    ensures a == b
  {
    var i :| 0 <= i < |summaries| && summaries[i] == a;
    var k :| 0 <= k < |summaries| && summaries[k] == b;
  }

  lemma ValidMembers(summaries: seq<Summary>)
    ensures forall s :: s in ValidSources(summaries) <==> s in summaries && IsValid(s)
  {
    forall s
      ensures s in ValidSources(summaries) <==> s in summaries && IsValid(s)
    {
      FilterMembers(summaries, (x: Summary) => IsValid(x), s);
    }
  }

  /** The order in which distinct sources are reported does not matter. */
  lemma ResolveIgnoresOrder(a: seq<Summary>, b: seq<Summary>, settings: Settings)
    requires DistinctSources(a) && forall s :: s in a <==> s in b
    ensures Resolve(a, settings) == Resolve(b, settings)
  {
    var x, y := ValidSources(a), ValidSources(b);
    ValidMembers(a);
    ValidMembers(b);
    assert x == [] <==> y == [] by {
      assert x != [] ==> x[0] in x;
      assert y != [] ==> y[0] in y;
    }
    if x != [] {
      BestIsBest(x);
      BestIsBest(y);
      assert Rank(Best(x).source) == Rank(Best(y).source);
      SameSourceSameSummary(a, Best(x), Best(y));
    }
  }

  /** A valid source that no valid source of a higher priority precedes. */
  ghost predicate ComesFirst(summaries: seq<Summary>, s: Summary) {
    s in summaries && IsValid(s) && forall other <- summaries :: IsValid(other) ==> Rank(s.source) <= Rank(other.source)
  }

  /** Every valid source with positive stock shows the same stock as this one. */
  ghost predicate Undisputed(summaries: seq<Summary>, s: Summary) {
    forall other <- summaries :: IsValid(other) && Positive(other) ==>
      other.totals.total == s.totals.total && other.totals.available == s.totals.available
  }

  ghost predicate NoStockAnywhere(summaries: seq<Summary>) {
    forall other <- summaries :: IsValid(other) ==> !Positive(other)
  }

  /** When the resolver lets a sync go ahead: the first source in priority is the merged one with stock, or
      has stock that no other source disputes, or no source has any and zero stock is allowed. */
  lemma SafeIff(summaries: seq<Summary>, policy: Inv.Policy)
    requires DistinctSources(summaries)
    ensures var d := Resolve(summaries, Normalised(policy));
            d.safe <==> exists s <- summaries :: s.source == d.selected && ComesFirst(summaries, s)
                          && if Positive(s) then s.source == MergedArticleStock || Undisputed(summaries, s)
                             else policy == Inv.Allow && NoStockAnywhere(summaries)
  {
    var valid, d := ValidSources(summaries), Resolve(summaries, Normalised(policy));
    ValidMembers(summaries);
    if valid != [] {
      var best := Best(valid);
      BestIsBest(valid);
      assert ComesFirst(summaries, best);
      forall s | s in summaries && ComesFirst(summaries, s)
        ensures s == best
      {
        SameSourceSameSummary(summaries, s, best);
      }
      if Positive(best) {
        ConflictIff(summaries, best);
      } else {
        LowerStockIff(summaries, best);
      }
    } else {
      forall s | s in summaries
        ensures !ComesFirst(summaries, s)
      {
        assert s !in valid;
      }
    }
  }

  ghost predicate HasValid(summaries: seq<Summary>, source: SourceType) {
    exists s <- summaries :: s.source == source && s.present && s.queryable && s.totals.rows > 0
  }

  /** The priority, written out: the first of these sources that is there, answers and has rows. */
  lemma SelectedByPriority(summaries: seq<Summary>, settings: Settings)
    ensures Resolve(summaries, settings).selected ==
            if HasValid(summaries, MergedArticleStock) then MergedArticleStock
            else if HasValid(summaries, ReportProduct) then ReportProduct
            else if HasValid(summaries, VLagerbestandEx) then VLagerbestandEx
            else if HasValid(summaries, TLagerbestand) then TLagerbestand
            else if HasValid(summaries, TArtikelNLagerbestand) then TArtikelNLagerbestand
            else Legacy
  {
    var valid := ValidSources(summaries);
    ValidMembers(summaries);
    if valid != [] {
      BestIsBest(valid);
      var best := Best(valid);
      assert HasValid(summaries, best.source);
      forall source | HasValid(summaries, source)
        ensures Rank(best.source) <= Rank(source)
      {
        var s :| s in summaries && s.source == source && s.present && s.queryable && s.totals.rows > 0;
        assert s in valid;
      }
    } else {
      forall s | s in summaries
        ensures !(s.present && s.queryable && s.totals.rows > 0)
      {
        assert s !in valid;
      }
    }
  }

  /** What the resolver says of the first source in priority, whatever the settings; without a valid source it says
      that there is none, and stops the sync. */
  lemma StatusMeaning(summaries: seq<Summary>, settings: Settings, first: Summary)
    requires DistinctSources(summaries) && ComesFirst(summaries, first)
    ensures var d := Resolve(summaries, settings);
            && d.selected == first.source
            && (d.status, d.safe) ==
               if first.totals.total > 0 || first.totals.available > 0
               then if first.source == MergedArticleStock then (Inv.PositiveStockConfirmed, true)
                    else if settings.rejectConflicting && !Undisputed(summaries, first) then (Inv.SourceConflict, false)
                    else (Inv.PositiveStock, true)
               else if settings.rejectConflicting && !NoStockAnywhere(summaries) then (Inv.SourceConflict, false)
               else if settings.allowConfirmedZero then (Inv.ConfirmedZeroStock, true)
               else (Inv.UnverifiedZeroStock, !settings.rejectUnverifiedZero)
  {
    var valid := ValidSources(summaries);
    ValidMembers(summaries);
    assert first in valid;
    BestIsBest(valid);
    SameSourceSameSummary(summaries, first, Best(valid));
    if Positive(first) {
      ConflictIff(summaries, first);
    } else {
      LowerStockIff(summaries, first);
    }
  }

  lemma NoSourceMeaning(summaries: seq<Summary>, settings: Settings)
    requires forall s <- summaries :: !(s.present && s.queryable && s.totals.rows > 0)
    ensures Resolve(summaries, settings) == Diagnostics(Legacy, Inv.NoValidSource, false)
  {
    ValidMembers(summaries);
    FirstIsMember(ValidSources(summaries));
  }

  lemma ConflictIff(summaries: seq<Summary>, best: Summary)
    requires best in summaries && IsValid(best) && Positive(best)
    ensures Conflicting(ValidSources(summaries)) <==> !Undisputed(summaries, best)
  {
    ValidMembers(summaries);
    var valid := ValidSources(summaries);
    if !Undisputed(summaries, best) {
      var other :| other in summaries && IsValid(other) && Positive(other)
                   && !(other.totals.total == best.totals.total && other.totals.available == best.totals.available);
      assert best in valid && other in valid;
    }
  }

  lemma LowerStockIff(summaries: seq<Summary>, best: Summary)
    requires DistinctSources(summaries) && ComesFirst(summaries, best) && !Positive(best)
    ensures LowerHasStock(ValidSources(summaries), best) <==> !NoStockAnywhere(summaries)
    ensures NoStockAnywhere(summaries) ==> !Conflicting(ValidSources(summaries))
  {
    ValidMembers(summaries);
    if !NoStockAnywhere(summaries) {
      var other :| other in summaries && IsValid(other) && Positive(other);
      assert other in ValidSources(summaries);
      if Rank(other.source) == Rank(best.source) {
        SameSourceSameSummary(summaries, other, best);
      }
    }
  }

  // ---------------------------------------------------------------------------------------------
  // Agreement with the backend
  // ---------------------------------------------------------------------------------------------

  /** The settings after loading: everything but the zero-stock policy is fixed. */
  function Normalised(policy: Inv.Policy): Settings {
    Settings(true, policy == Inv.Allow, true)
  }

  function BackendMetadata(d: Diagnostics): Option<Inv.Metadata> {
    Some(Inv.Metadata(Some(d.safe), Some(d.status)))
  }

  /** With the same zero-stock policy on both sides, the backend accepts the metadata of exactly those
      diagnostics that the client calls safe; otherwise only a confirmed zero can be disputed. */
  lemma MetadataAgrees(summaries: seq<Summary>, policy: Inv.Policy, cfg: Inv.Config)
    ensures var d := Resolve(summaries, Normalised(policy));
            && (Inv.MetadataSafe(cfg, BackendMetadata(d))
                <==> d.safe && (d.status == Inv.ConfirmedZeroStock ==> cfg.policy == Inv.Allow))
            && (cfg.policy == policy ==> (Inv.MetadataSafe(cfg, BackendMetadata(d)) <==> d.safe))
  {
  }

  function ToRow(r: Stock): Inv.StockRow {
    var low := r.available <= r.reorder && r.reorder > 0;
    Inv.StockRow(r.product, 0, Inv.Stock(r.available, r.reserved, r.total, r.reorder, low))
  }

  function ToRows(rows: seq<Stock>): seq<Inv.StockRow> {
    seq(|rows|, i requires 0 <= i < |rows| => ToRow(rows[i]))
  }

  lemma {:induction false} StagedSums(rows: seq<Stock>, run: Inv.RunId, t: Tenant)
    ensures var staged := Inv.Stamp(ToRows(rows), run, t);
            && |staged| == Summarise(Plain(rows)).rows
            && Inv.SumStaged(staged, Inv.Everything, Inv.Total) == Summarise(Plain(rows)).total
            && Inv.SumStaged(staged, Inv.Everything, Inv.Available) == Summarise(Plain(rows)).available
            && Inv.SumStaged(staged, Inv.Everything, Inv.Reserved) == Summarise(Plain(rows)).reserved
  {
    if rows != [] {
      StagedSums(rows[1..], run, t);
      assert Inv.Stamp(ToRows(rows), run, t)[1..] == Inv.Stamp(ToRows(rows[1..]), run, t);
      assert Plain(rows)[0] == FiguresOf(rows[0]) && Plain(rows)[1..] == Plain(rows[1..]);
    }
  }

  lemma DiagnosedSources(db: Database, fails: SourceType -> bool)
    ensures DistinctSources(Diagnose(db, fails))
    ensures forall s <- Diagnose(db, fails) :: IsValid(s) ==> s.totals == SummaryQuery(db, s.source)
  {
    var summaries := Diagnose(db, fails);
    forall i | 0 <= i < |summaries|
      ensures Rank(summaries[i].source) == i
    {
    }
  }

  /** Which sources can be chosen at all: the tables are there, for the report with its minimum column and for the
      merge with one of the detailed sources, the query does not fail, and there are rows. */
  ghost predicate Usable(db: Database, fails: SourceType -> bool, source: SourceType) {
    && !fails(source) && PageRows(db, source) != []
    && match source
       case MergedArticleStock => db.articles.Some? && (db.report.Some? || db.view.Some?)
       case ReportProduct => db.report.Some? && db.reportHasMinimum
       case VLagerbestandEx => db.view.Some?
       case TLagerbestand => db.levels.Some?
       case TArtikelNLagerbestand => db.articles.Some?
       case Legacy => false
  }

  lemma UsableSources(db: Database, fails: SourceType -> bool, source: SourceType)
    ensures HasValid(Diagnose(db, fails), source) <==> Usable(db, fails, source)
  {
    if source == Legacy {
      assert forall s <- Diagnose(db, fails) :: s.source != Legacy;
    } else {
      OwnSummary(db, fails, source);
      ProbeMeaning(db, fails, source);
    }
  }

  lemma OwnSummary(db: Database, fails: SourceType -> bool, source: SourceType)
    requires source != Legacy
    ensures Probe(db, source, fails(source)) in Diagnose(db, fails)
    ensures forall s <- Diagnose(db, fails) :: s.source == source ==> s == Probe(db, source, fails(source))
  {
    var summaries, i := Diagnose(db, fails), Rank(source);
    assert PROBED[i] == source;
    assert summaries[i] == Probe(db, source, fails(source));
    assert summaries[i] in summaries;
  }

  lemma ProbeMeaning(db: Database, fails: SourceType -> bool, source: SourceType)
    requires source != Legacy
    ensures var s := Probe(db, source, fails(source));
            s.source == source && (s.present && s.queryable && s.totals.rows > 0 <==> Usable(db, fails, source))
  {
    SummaryCountsPageRows(db, source);
    RowCount(Plain(PageRows(db, source)));
  }

  /** The diagnosis selects the first usable source in priority. */
  lemma SelectedSource(db: Database, fails: SourceType -> bool, settings: Settings)
    ensures Resolve(Diagnose(db, fails), settings).selected ==
            if Usable(db, fails, MergedArticleStock) then MergedArticleStock
            else if Usable(db, fails, ReportProduct) then ReportProduct
            else if Usable(db, fails, VLagerbestandEx) then VLagerbestandEx
            else if Usable(db, fails, TLagerbestand) then TLagerbestand
            else if Usable(db, fails, TArtikelNLagerbestand) then TArtikelNLagerbestand
            else Legacy
  {
    SelectedByPriority(Diagnose(db, fails), settings);
    forall source: SourceType
      ensures HasValid(Diagnose(db, fails), source) <==> Usable(db, fails, source)
    {
      UsableSources(db, fails, source);
    }
  }

  /** What the resolver selects of a safe diagnosis, and what its summary query said. */
  lemma SelectedSummary(db: Database, fails: SourceType -> bool, policy: Inv.Policy)
    requires Resolve(Diagnose(db, fails), Normalised(policy)).safe
    ensures var d := Resolve(Diagnose(db, fails), Normalised(policy));
            var totals := SummaryQuery(db, d.selected);
            && totals.rows > 0
            && (d.status != Inv.ConfirmedZeroStock ==> totals.total > 0 || totals.available > 0)
            && (d.status == Inv.ConfirmedZeroStock ==> policy == Inv.Allow)
  {
    var summaries := Diagnose(db, fails);
    ValidMembers(summaries);
    DiagnosedSources(db, fails);
    BestIsBest(ValidSources(summaries));
    assert Best(ValidSources(summaries)) in summaries;
  }

  /** Any sorting of a source's rows adds up to what its summary query said. */
  lemma ListingSums(db: Database, source: SourceType, listing: seq<Stock>)
    requires Listing(PageRows(db, source), listing)
    ensures Summarise(Plain(listing)) == SummaryQuery(db, source)
  {
    SummaryCountsPageRows(db, source);
    SummaryIgnoresOrder(PageRows(db, source), listing);
  }

  /** A safe diagnosis passes both backend guards, whatever their zero-stock policy, unless it is a confirmed zero
      that the backend does not allow: its metadata is accepted, and the staged rows of the selected source, in
      any order, may replace whatever inventory the tenant has. */
  lemma SafeDiagnosisPassesGuards(db: Database, fails: SourceType -> bool, policy: Inv.Policy, cfg: Inv.Config,
                                  listing: seq<Stock>, run: Inv.RunId, t: Tenant, inventory: seq<Inv.InventoryRow>)
    requires var d := Resolve(Diagnose(db, fails), Normalised(policy));
             d.safe && Listing(PageRows(db, d.selected), listing)
    ensures var d := Resolve(Diagnose(db, fails), Normalised(policy));
            && (Inv.MetadataSafe(cfg, BackendMetadata(d))
                <==> (d.status == Inv.ConfirmedZeroStock ==> cfg.policy == Inv.Allow))
            && (Inv.MetadataSafe(cfg, BackendMetadata(d)) ==>
                  && Inv.SwapSafe(cfg, Inv.Stamp(ToRows(listing), run, t), inventory, t)
                  && E2E.Replaceable(cfg, ToRows(listing), RunBatches.RunInfo(t, run, BackendMetadata(d))))
  {
    var d := Resolve(Diagnose(db, fails), Normalised(policy));
    MetadataAgrees(Diagnose(db, fails), policy, cfg);
    SelectedSummary(db, fails, policy);
    ListingSums(db, d.selected, listing);
    StagedSums(listing, run, t);
  }

  // ---------------------------------------------------------------------------------------------
  // From the diagnosis to the table
  // ---------------------------------------------------------------------------------------------

  /** The run that a diagnosis starts: it counts what the summary counted and reads the pages of the selected
      source. */
  ghost predicate Starts(db: Database, selected: SourceType, page: Paging.Pager<Stock>, env: Paging.Env<Inv.StockRow>) {
    && Pages(page, PageRows(db, selected))
    && env.count == SummaryQuery(db, selected).rows
    && forall offset: nat, n: nat :: env.page(offset, n) == ToRows(page(offset, n))
  }

  /** The pages come from one list, which is what the summary counted. */
  lemma StartedRunHasAList(db: Database, selected: SourceType, page: Paging.Pager<Stock>, env: Paging.Env<Inv.StockRow>)
    returns (listing: seq<Stock>)
    requires Keyed(db) && Starts(db, selected, page, env)
    ensures Listing(PageRows(db, selected), listing) && UniqueProducts(listing)
    ensures Paging.PagesOf(env.page, ToRows(listing)) && env.count == |ToRows(listing)|
  {
    KeyedSources(db, selected);
    listing := PagesShareAListing(page, PageRows(db, selected));
    assert |listing| == SummaryQuery(db, selected).rows by {
      ListingSums(db, selected, listing);
      RowCount(Plain(listing));
    }
    SlicesToRows(page, env.page, listing);
  }

  lemma SliceToRows(listing: seq<Stock>, offset: nat, n: nat)
    ensures ToRows(Paging.Slice(listing, offset, n)) == Paging.Slice(ToRows(listing), offset, n)
  {
  }

  lemma SlicesToRows(page: Paging.Pager<Stock>, sent: Paging.Pager<Inv.StockRow>, listing: seq<Stock>)
    requires Paging.PagesOf(page, listing) && forall offset: nat, n: nat :: sent(offset, n) == ToRows(page(offset, n))
    ensures Paging.PagesOf(sent, ToRows(listing))
  {
    forall offset: nat, n: nat
      ensures sent(offset, n) == Paging.Slice(ToRows(listing), offset, n)
    {
      assert page(offset, n) == Paging.Slice(listing, offset, n);
      SliceToRows(listing, offset, n);
    }
  }

  lemma UniqueProductsStamp(listing: seq<Stock>, run: Inv.RunId, t: Tenant)
    requires UniqueProducts(listing)
    ensures StagedGroups.DistinctStaged(Inv.Stamp(ToRows(listing), run, t))
  {
  }

  lemma StagedAt(listing: seq<Stock>, run: Inv.RunId, t: Tenant, r: Stock) returns (x: Inv.StagedRow)
    requires r in listing
    ensures x in Inv.Stamp(ToRows(listing), run, t) && x.key == Inv.Key(t, r.product, 0)
    ensures x.stock == Inv.Stock(r.available, r.reserved, r.total, r.reorder, 0 < r.reorder && r.available <= r.reorder)
  {
    var i :| 0 <= i < |listing| && listing[i] == r;
    x := Inv.Stamp(ToRows(listing), run, t)[i];
  }

  /** The aggregate of a staged source with one row per product: for each product its figures as they were read,
      low on stock exactly when what is available does not exceed a positive reorder point, and nothing else. */
  lemma SourceRowByRow(listing: seq<Stock>, run: Inv.RunId, t: Tenant)
    requires UniqueProducts(listing)
    ensures var grouped := Inv.GroupBy(Inv.Stamp(ToRows(listing), run, t));
            && (forall r <- listing ::
                  Inv.Find(grouped, Inv.Key(t, r.product, 0)) ==
                  Some(Inv.Stock(r.available, r.reserved, r.total, r.reorder,
                                 0 < r.reorder && r.available <= r.reorder)))
            && (forall key :: Inv.Find(grouped, key).Some? ==> exists r <- listing :: key == Inv.Key(t, r.product, 0))
  {
    var staged := Inv.Stamp(ToRows(listing), run, t);
    UniqueProductsStamp(listing, run, t);
    forall r | r in listing
      ensures Inv.Find(Inv.GroupBy(staged), Inv.Key(t, r.product, 0)) ==
              Some(Inv.Stock(r.available, r.reserved, r.total, r.reorder, 0 < r.reorder && r.available <= r.reorder))
    {
      var x := StagedAt(listing, run, t, r);
      StagedGroups.OwnGroupIsRow(staged, x);
    }
    forall key | Inv.Find(Inv.GroupBy(staged), key).Some?
      ensures exists r <- listing :: key == Inv.Key(t, r.product, 0)
    {
      if forall x <- staged :: x.key != key {
        StagedGroups.NoGroupForKey(staged, key);
      } else {
        var i :| 0 <= i < |staged| && staged[i].key == key;
        assert listing[i] in listing;
      }
    }
  }

  /** From the diagnosis to the table.  The pages of a safe source make their way through a finished aligned run.
      When no acknowledgement is lost, or the list fits even into the last chunk size tried, the tenant's
      inventory adds up to exactly the totals that were diagnosed; and under policy `allow`, or with positive
      totals, it is the selected source, row by row, if and only if no loss counts. */
  lemma DiagnosedStockArrives(db: Database, fails: SourceType -> bool, policy: Inv.Policy, page: Paging.Pager<Stock>,
                              env: Paging.Env<Inv.StockRow>, size: nat, run: Inv.RunId, t: Tenant,
                              s: Pipeline.Sys, cfg: Pipeline.Config, steps: seq<Pipeline.Action>,
                              owner: Inv.RunId -> Tenant, start: Inv.Db) returns (listing: seq<Stock>)
    requires Keyed(db)
    requires var d := Resolve(Diagnose(db, fails), Normalised(policy)); d.safe && Starts(db, d.selected, page, env)
    requires size > 0 && env.minSize > 0
    requires var w := Paging.Walk(env, 0, 0, size); w.exit == Paging.Finished && RunBatches.AllAligned(w.sends)
    requires var d := Resolve(Diagnose(db, fails), Normalised(policy));
             E2E.Arrives(env, 0, size, RunBatches.RunInfo(t, run, BackendMetadata(d)), s, cfg, steps, owner, start)
    ensures var d := Resolve(Diagnose(db, fails), Normalised(policy));
            var totals, sends := SummaryQuery(db, d.selected), Paging.Walk(env, 0, 0, size).sends;
            var staged := Inv.Stamp(ToRows(listing), run, t);
            var inventory := TenantIsolation.InventoryOf(Pipeline.AdvanceAll(s, cfg, steps).db.inventory, t);
            && Listing(PageRows(db, d.selected), listing)
            && (RunBatches.Lossless(sends, ToRows(listing)) ==>
                  && Inv.SumInventory(inventory, Inv.Everything, Inv.Total) == totals.total
                  && Inv.SumInventory(inventory, Inv.Everything, Inv.Available) == totals.available
                  && Inv.SumInventory(inventory, Inv.Everything, Inv.Reserved) == totals.reserved)
            && (LostSnapshots.Admissible(cfg.ingest, staged) ==>
                  (inventory == Inv.GroupBy(staged) <==> LostSnapshots.Harmless(sends, ToRows(listing))))
            && (inventory == Inv.GroupBy(staged) ==>
                  forall r <- listing ::
                    Inv.Find(inventory, Inv.Key(t, r.product, 0)) ==
                    Some(Inv.Stock(r.available, r.reserved, r.total, r.reorder,
                                   0 < r.reorder && r.available <= r.reorder)))
  {
    var d := Resolve(Diagnose(db, fails), Normalised(policy));
    var info := RunBatches.RunInfo(t, run, BackendMetadata(d));
    listing := StartedRunHasAList(db, d.selected, page, env);
    SelectedSummary(db, fails, policy);
    UniqueProductsStamp(listing, run, t);
    SourceRowByRow(listing, run, t);
    var list, staged := ToRows(listing), Inv.Stamp(ToRows(listing), run, t);
    if RunBatches.Lossless(Paging.Walk(env, 0, 0, size).sends, list) {
      SafeDiagnosisPassesGuards(db, fails, policy, cfg.ingest, listing, run, t, []);
      E2E.RunBecomesInventory(env, list, size, info, s, cfg, steps, owner, start);
      GroupedSums(db, d.selected, listing, run, t);
    }
    if LostSnapshots.Admissible(cfg.ingest, staged) {
      E2E.InventoryIsListIff(env, list, size, info, s, cfg, steps, owner, start);
    }
  }

  lemma GroupedSums(db: Database, source: SourceType, listing: seq<Stock>, run: Inv.RunId, t: Tenant)
    requires Listing(PageRows(db, source), listing)
    ensures var totals, grouped := SummaryQuery(db, source), Inv.GroupBy(Inv.Stamp(ToRows(listing), run, t));
            && Inv.SumInventory(grouped, Inv.Everything, Inv.Total) == totals.total
            && Inv.SumInventory(grouped, Inv.Everything, Inv.Available) == totals.available
            && Inv.SumInventory(grouped, Inv.Everything, Inv.Reserved) == totals.reserved
  {
    var staged := Inv.Stamp(ToRows(listing), run, t);
    StagedSums(listing, run, t);
    ListingSums(db, source, listing);
    Inv.GroupByConserves(staged, Inv.Everything, Inv.Total);
    Inv.GroupByConserves(staged, Inv.Everything, Inv.Available);
    Inv.GroupByConserves(staged, Inv.Everything, Inv.Reserved);
  }
}
