/** Why the rows of a snapshot need different keys for a loss to show: a run in which two acknowledgements are
    lost and the inventory still is the aggregate of the list, because all rows are of one product. */
module SharedKeys {
  import opened Sequences
  import opened Paging
  import opened PagingProperties
  import opened ExactDelivery
  import opened RunBatches
  import opened StagedGroups
  import opened LostSnapshots
  import opened TenantIsolation
  import Inv = Inventory
  import Props = InventoryProperties
  import Snap = InventorySnapshot

  function Row(total: int): Inv.StockRow {
    Inv.StockRow(1, 0, Inv.Stock(total, 0, total, 0, false))
  }

  const ROWS := [Row(1), Row(1), Row(1), Row(1), Row(2), Row(2), Row(1)]

  /** The second and the third answer are lost. */
  function TwiceLostEnv(): Env<Inv.StockRow> {
    Env((k: nat) => Weather(false, true, if k == 1 || k == 2 then Nacked(true, true) else Acked, false),
        (offset: nat, n: nat) => Slice(ROWS, offset, n), 7, 1)
  }

  function Attempt(offset: nat, size: nat, acked: bool): Sent<Inv.StockRow>
    requires size > 0
  {
    Sent(MakeBatch(TwiceLostEnv().page, 7, offset, size), true, acked)
  }

  lemma WalkFromRowFour()
    ensures Walk(TwiceLostEnv(), 3, 4, 1) == Walked([Attempt(4, 1, true), Attempt(5, 1, true), Attempt(6, 1, true)], 7,
                                                    Finished)
  {
    var env := TwiceLostEnv();
    assert Walk(env, 6, 7, 1) == Walked([], 7, Finished);
    assert Walk(env, 5, 6, 1) == Walked([Attempt(6, 1, true)], 7, Finished);
    assert Walk(env, 4, 5, 1) == Walked([Attempt(5, 1, true), Attempt(6, 1, true)], 7, Finished);
  }

  lemma TwiceLostWalk()
    ensures Walk(TwiceLostEnv(), 0, 0, 4)
            == Walked([Attempt(0, 4, true), Attempt(4, 4, false), Attempt(4, 2, false),
                       Attempt(4, 1, true), Attempt(5, 1, true), Attempt(6, 1, true)], 7, Finished)
  {
    var env := TwiceLostEnv();
    WalkFromRowFour();
    var tail := [Attempt(4, 1, true), Attempt(5, 1, true), Attempt(6, 1, true)];
    assert Walk(env, 2, 4, 2) == Walked([Attempt(4, 2, false)] + tail, 7, Finished);
    assert Walk(env, 1, 4, 4) == Walked([Attempt(4, 4, false)] + ([Attempt(4, 2, false)] + tail), 7, Finished);
  }

  /** The walk is a finished, aligned one, and two of its losses count. */
  lemma TwiceLostIsWhole()
    ensures WholeWalk(TwiceLostEnv(), ROWS, 4) && !Lossless(Walk(TwiceLostEnv(), 0, 0, 4).sends, ROWS)
  {
    var sends := Walk(TwiceLostEnv(), 0, 0, 4).sends;
    TwiceLostWalk();
    HalvableSizesStayAligned(TwiceLostEnv(), ROWS, 0, 0, 4);
    assert sends[1] in sends && sends[1].delivered && !sends[1].acked;
  }

  lemma FirstThreeAreEnqueued()
    ensures var sends := Walk(TwiceLostEnv(), 0, 0, 4).sends;
            |sends| == 6 && IsEnqueued(sends, 0) && IsEnqueued(sends, 1) && IsEnqueued(sends, 2)
  {
    TwiceLostWalk();
    assert 4 / 4 == 1 && 4 / 2 == 2;
  }

  lemma RestFromRowFour()
    ensures var sends := Walk(TwiceLostEnv(), 0, 0, 4).sends;
            |sends| == 6 && Tiles(sends[3..], 4, 7) && NoneLost(sends, 3)
  {
    var env, sends := TwiceLostEnv(), Walk(TwiceLostEnv(), 0, 0, 4).sends;
    TwiceLostWalk();
    WalkFromRowFour();
    assert sends[3..] == Walk(env, 3, 4, 1).sends;
    WalkTiles(env, 3, 4, 1);
  }

  lemma {:induction false} GroupOneKey(rows: seq<Inv.StagedRow>, key: Inv.Key)
    requires rows != []
    requires forall i :: 0 <= i < |rows| ==> rows[i].key == key && exists v :: rows[i].stock == Row(v).stock
    ensures var sum := Inv.SumStaged(rows, Inv.Everything, Inv.Total);
            Inv.GroupBy(rows) == [Inv.InventoryRow(key, Row(sum).stock)]
  {
    var init, last := rows[..|rows| - 1], rows[|rows| - 1];
    assert rows == init + [last];
    Inv.SumStagedConcat(init, [last], Inv.Everything, Inv.Total);
    Inv.SumStagedOne(last, Inv.Everything, Inv.Total);
    if init != [] {
      GroupOneKey(init, key);
    }
  }

  /** The page with both lost acknowledgements has as much stock as the rows before it. */
  lemma SumsAgree(info: RunInfo)
    ensures var stamped := Inv.Stamp(ROWS, info.run, info.tenant);
            Inv.GroupBy(stamped[4..6] + stamped[4..]) == Inv.GroupBy(stamped)
  {
    var stamped, key := Inv.Stamp(ROWS, info.run, info.tenant), Inv.Key(info.tenant, 1, 0);
    var a, b, c := stamped[..4], stamped[4..6], stamped[4..];
    assert stamped == a + c;
    Inv.SumStagedConcat(a, c, Inv.Everything, Inv.Total);
    Inv.SumStagedConcat(b, c, Inv.Everything, Inv.Total);
    SumOfCopies(a, stamped[0], Inv.Total);
    SumOfCopies(b, stamped[4], Inv.Total);
    GroupOneKey(stamped, key);
    GroupOneKey(b + c, key);
  }

  function Addressed(info: RunInfo, index: nat, total: nat, rows: seq<Inv.StockRow>): Inv.Batch {
    Inv.Batch(info.tenant, info.run, index, total, rows, info.metadata)
  }

  lemma FirstThree(info: RunInfo)
    ensures var sends := Walk(TwiceLostEnv(), 0, 0, 4).sends;
            && |sends| == 6
            && Kept(info, sends, 0, 3) == [Addressed(info, 0, 2, ROWS[..4]), Addressed(info, 1, 2, ROWS[4..]),
                                           Addressed(info, 2, 4, ROWS[4..6])]
  {
    TwiceLostWalk();
    FirstThreeAreEnqueued();
    KeptFirstThree(info, Walk(TwiceLostEnv(), 0, 0, 4).sends);
    assert Slice(ROWS, 0, 4) == ROWS[..4] && Slice(ROWS, 4, 4) == ROWS[4..] && Slice(ROWS, 4, 2) == ROWS[4..6];
    assert TotalBatches(7, 4) == 2 && TotalBatches(7, 2) == 4 && 4 / 4 == 1 && 4 / 2 == 2;
  }

  /** The first two are a run that is swapped in. */
  lemma AfterTwo(db: Inv.Db, cfg: Inv.Config, info: RunInfo)
    requires Inv.MetadataSafe(cfg, info.metadata)
    ensures var bs := [Addressed(info, 0, 2, ROWS[..4]), Addressed(info, 1, 2, ROWS[4..])];
            Inv.OfRun(Props.IngestAll(db, cfg, Snap.Commits(bs)).staging, info.run) == []
  {
    var b0, b1 := Addressed(info, 0, 2, ROWS[..4]), Addressed(info, 1, 2, ROWS[4..]);
    var stamped := Inv.Stamp(ROWS, info.run, info.tenant);
    assert Snap.AllRows([b0, b1]) == ROWS by {
      assert [b0, b1][1..] == [b1] && [b1][1..] == [];
      assert Snap.AllRows([b1]) == ROWS[4..] + [];
      assert ROWS[..4] + ROWS[4..] == ROWS;
    }
    RowsAreAdmissible(cfg, info);
    AdmissibleIsSafe(cfg, stamped, stamped, db.inventory, info.tenant);
    Snap.RunReplacesInventory(db, cfg, [b0, b1], info.tenant, info.run);
    FilterDisjoint(db.staging, (r: Inv.StagedRow) => r.run != info.run, (r: Inv.StagedRow) => r.run == info.run);
  }

  /** Of the third two rows are staged. */
  lemma AfterThree(db: Inv.Db, cfg: Inv.Config, info: RunInfo)
    requires Inv.MetadataSafe(cfg, info.metadata)
    ensures var bs := [Addressed(info, 0, 2, ROWS[..4]), Addressed(info, 1, 2, ROWS[4..]),
                       Addressed(info, 2, 4, ROWS[4..6])];
            Inv.OfRun(Props.IngestAll(db, cfg, Snap.Commits(bs)).staging, info.run)
              == Inv.Stamp(ROWS, info.run, info.tenant)[4..6]
  {
    var two, b := [Addressed(info, 0, 2, ROWS[..4]), Addressed(info, 1, 2, ROWS[4..])],
        Addressed(info, 2, 4, ROWS[4..6]);
    var db1 := Props.IngestAll(db, cfg, Snap.Commits(two));
    AfterTwo(db, cfg, info);
    Snap.IngestBoth(db, cfg, two, [b]);
    assert two + [b] == [two[0], two[1], b];
    Snap.CommitsCons([b]);
    assert [b][1..] == [] && Snap.Commits([]) == [];
    Snap.StageOfRun(db1.staging, b);
    assert [] + Inv.Stamp(b.rows, info.run, info.tenant) == Inv.Stamp(ROWS, info.run, info.tenant)[4..6];
  }

  lemma KeptFirstThree(info: RunInfo, sends: Attempts)
    requires |sends| >= 3 && IsEnqueued(sends, 0) && IsEnqueued(sends, 1) && IsEnqueued(sends, 2)
    ensures Kept(info, sends, 0, 3) == [info.Address(sends[0].batch), info.Address(sends[1].batch),
                                        info.Address(sends[2].batch)]
  {
    assert Kept(info, sends, 2, 3) == [info.Address(sends[2].batch)] + Kept(info, sends, 3, 3);
    assert Kept(info, sends, 1, 3) == [info.Address(sends[1].batch)] + Kept(info, sends, 2, 3);
  }

  lemma RowsAreAdmissible(cfg: Inv.Config, info: RunInfo)
    ensures Admissible(cfg, Inv.Stamp(ROWS, info.run, info.tenant))
  {
  }

  lemma LossCounts(sends: Attempts)
    requires Whole(sends, ROWS) && !Lossless(sends, ROWS)
    ensures !Harmless(sends, ROWS)
  {
    forall r | r in ROWS
      ensures !Stockless(r.stock)
    {
      assert r == Row(1) || r == Row(2);
    }
    StockedRowsCount(sends, ROWS);
  }

  /** The inventory that any three first batches with these rows staged, and the rest of the run, leave. */
  lemma LeftStagedAddsUp(db: Inv.Db, cfg: Inv.Config, info: RunInfo, sends: Attempts)
    requires sends == Walk(TwiceLostEnv(), 0, 0, 4).sends && |sends| == 6 && Inv.MetadataSafe(cfg, info.metadata)
    requires Inv.OfRun(Props.IngestAll(db, cfg, Snap.Commits(Kept(info, sends, 0, 3))).staging, info.run)
             == Inv.Stamp(ROWS, info.run, info.tenant)[4..6]
    ensures var stamped := Inv.Stamp(ROWS, info.run, info.tenant);
            InventoryOf(Props.IngestAll(db, cfg, Snap.Commits(Kept(info, sends, 0, 6))).inventory, info.tenant)
            == Inv.GroupBy(stamped[4..6] + stamped[4..])
  {
    var first, rest, stamped := Kept(info, sends, 0, 3), Kept(info, sends, 3, 6),
        Inv.Stamp(ROWS, info.run, info.tenant);
    TwiceLostIsWhole();
    WholeWalkIsWhole(TwiceLostEnv(), ROWS, 4);
    RestFromRowFour();
    RowsAreAdmissible(cfg, info);
    KeptConcat(info, sends, 0, 3, 6);
    Snap.IngestBoth(db, cfg, first, rest);
    RestIsSwappedIn(Props.IngestAll(db, cfg, Snap.Commits(first)), cfg, info, sends, ROWS, 3, 4, stamped[4..6]);
  }

  /** With one key for all rows a loss that counts does not show. */
  lemma SharedKeysCanHideALoss(db: Inv.Db, cfg: Inv.Config, info: RunInfo)
    requires Inv.MetadataSafe(cfg, info.metadata)
    ensures var sends, stamped := Walk(TwiceLostEnv(), 0, 0, 4).sends, Inv.Stamp(ROWS, info.run, info.tenant);
            && WholeWalk(TwiceLostEnv(), ROWS, 4) && !Harmless(sends, ROWS) && Admissible(cfg, stamped)
            && InventoryOf(Props.IngestAll(db, cfg, Snap.Commits(Kept(info, sends, 0, |sends|))).inventory, info.tenant)
               == Inv.GroupBy(stamped)
  {
    TwiceLostIsWhole();
    WholeWalkIsWhole(TwiceLostEnv(), ROWS, 4);
    LossCounts(Walk(TwiceLostEnv(), 0, 0, 4).sends);
    RowsAreAdmissible(cfg, info);
    FirstThree(info);
    AfterThree(db, cfg, info);
    LeftStagedAddsUp(db, cfg, info, Walk(TwiceLostEnv(), 0, 0, 4).sends);
    SumsAgree(info);
  }
}
