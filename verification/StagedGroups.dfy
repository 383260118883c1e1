/** How staged rows group: by key, with rows repeated, and with rows left out. */
module StagedGroups {
  import opened Common
  import opened Sequences
  import Inv = Inventory

  // ---------------------------------------------------------------------------------------------
  // Staged rows by key
  // ---------------------------------------------------------------------------------------------

  ghost predicate DistinctStaged(rows: seq<Inv.StagedRow>) {
    forall i, k :: 0 <= i < k < |rows| ==> rows[i].key != rows[k].key
  }

  ghost predicate FromList(staged: seq<Inv.StagedRow>, stamped: seq<Inv.StagedRow>) {
    forall r <- staged :: r in stamped
  }

  lemma {:induction false} OfKeyConcat(a: seq<Inv.StagedRow>, b: seq<Inv.StagedRow>, key: Inv.Key)
    ensures Inv.OfKey(a + b, key) == Inv.OfKey(a, key) + Inv.OfKey(b, key)
    decreases |b|
  {
    if b == [] {
      assert a + b == a;
    } else {
      OfKeyConcat(a, b[..|b| - 1], key);
      assert (a + b)[..|a + b| - 1] == a + b[..|b| - 1];
    }
  }

  lemma {:induction false} OfKeyMembers(rows: seq<Inv.StagedRow>, key: Inv.Key, r: Inv.StagedRow)
    ensures r in Inv.OfKey(rows, key) <==> r in rows && r.key == key
  {
    if rows != [] {
      OfKeyMembers(rows[..|rows| - 1], key, r);
      assert rows == rows[..|rows| - 1] + [rows[|rows| - 1]];
    }
  }

  lemma {:induction false} OfKeyOnce(rows: seq<Inv.StagedRow>, key: Inv.Key)
    requires DistinctStaged(rows)
    ensures |Inv.OfKey(rows, key)| <= 1
  {
    if rows != [] {
      var init, last := rows[..|rows| - 1], rows[|rows| - 1];
      OfKeyOnce(init, key);
      if last.key == key && Inv.OfKey(init, key) != [] {
        OfKeyMembers(init, key, Inv.OfKey(init, key)[0]);
      }
    }
  }

  lemma {:induction false} SumOfCopies(rows: seq<Inv.StagedRow>, x: Inv.StagedRow, m: Inv.Measure)
    requires forall i :: 0 <= i < |rows| ==> rows[i] == x
    ensures Inv.SumStaged(rows, Inv.Everything, m) == |rows| * Inv.Value(x.stock, m)
  {
    if rows != [] {
      SumOfCopies(rows[1..], x, m);
      NextMultiple(|rows| - 1, Inv.Value(x.stock, m));
    }
  }

  lemma SameKeySameRow(stamped: seq<Inv.StagedRow>, a: Inv.StagedRow, b: Inv.StagedRow)
    requires DistinctStaged(stamped) && a in stamped && b in stamped && a.key == b.key
    ensures a == b
  {
    var i :| 0 <= i < |stamped| && stamped[i] == a;
    var k :| 0 <= k < |stamped| && stamped[k] == b;
  }

  /** What the groups hold for a key whose rows are all copies of one row. */
  lemma GroupOfCopies(rows: seq<Inv.StagedRow>, stamped: seq<Inv.StagedRow>, x: Inv.StagedRow, m: Inv.Measure)
    requires DistinctStaged(stamped) && FromList(rows, stamped) && x in rows
    ensures var found := Inv.Find(Inv.GroupBy(rows), x.key);
            found.Some? && Inv.Value(found.value, m) == |Inv.OfKey(rows, x.key)| * Inv.Value(x.stock, m)
  {
    var copies := Inv.OfKey(rows, x.key);
    OfKeyMembers(rows, x.key, x);
    forall i | 0 <= i < |copies|
      ensures copies[i] == x
    {
      OfKeyMembers(rows, x.key, copies[i]);
      SameKeySameRow(stamped, copies[i], x);
    }
    SumOfCopies(copies, x, m);
    Inv.GroupByIsAggregation(rows, x.key);
    Inv.AggregateMeaning(copies, m);
  }

  lemma NoGroupForKey(rows: seq<Inv.StagedRow>, key: Inv.Key)
    requires forall r <- rows :: r.key != key
    ensures Inv.Find(Inv.GroupBy(rows), key).None?
  {
    Inv.GroupByIsAggregation(rows, key);
    if Inv.OfKey(rows, key) != [] {
      OfKeyMembers(rows, key, Inv.OfKey(rows, key)[0]);
    }
  }

  /** Of rows with different keys each is its own group. */
  lemma OwnGroupIsRow(rows: seq<Inv.StagedRow>, x: Inv.StagedRow)
    requires DistinctStaged(rows) && x in rows
    ensures Inv.Find(Inv.GroupBy(rows), x.key) == Some(x.stock)
  {
    Inv.GroupByIsAggregation(rows, x.key);
    OfKeyMembers(rows, x.key, x);
    OfKeyOnce(rows, x.key);
    assert Inv.OfKey(rows, x.key) == [x];
  }

  predicate Stockless(s: Inv.Stock) {
    s.total == 0 && s.available == 0 && s.reserved == 0
  }

  // ---------------------------------------------------------------------------------------------
  // A harmless run groups like its list
  // ---------------------------------------------------------------------------------------------

  function AbsorbAll(groups: seq<Inv.InventoryRow>, rows: seq<Inv.StagedRow>): seq<Inv.InventoryRow>
    decreases |rows|
  {
    if rows == [] then groups else AbsorbAll(Inv.Absorb(groups, rows[0].key, rows[0].stock), rows[1..])
  }

  lemma {:induction false} AbsorbAllConcat(groups: seq<Inv.InventoryRow>, a: seq<Inv.StagedRow>, b: seq<Inv.StagedRow>)
    ensures AbsorbAll(groups, a + b) == AbsorbAll(AbsorbAll(groups, a), b)
    decreases |a|
  {
    if a == [] {
      assert a + b == b;
    } else {
      AbsorbAllConcat(Inv.Absorb(groups, a[0].key, a[0].stock), a[1..], b);
      assert (a + b)[1..] == a[1..] + b;
    }
  }

  lemma {:induction false} GroupByAppends(a: seq<Inv.StagedRow>, b: seq<Inv.StagedRow>)
    ensures Inv.GroupBy(a + b) == AbsorbAll(Inv.GroupBy(a), b)
    decreases |b|
  {
    if b == [] {
      assert a + b == a;
    } else {
      var init, last := b[..|b| - 1], b[|b| - 1];
      GroupByAppends(a, init);
      assert (a + b)[..|a + b| - 1] == a + init;
      assert b == init + [last];
      AbsorbAllConcat(Inv.GroupBy(a), init, [last]);
      assert [last][1..] == [];
    }
  }

  /** Absorbing a row without stock that a group already equals changes nothing. */
  lemma {:induction false} AbsorbStockless(groups: seq<Inv.InventoryRow>, key: Inv.Key, s: Inv.Stock)
    requires Stockless(s) && Inv.Find(groups, key) == Some(s)
    ensures Inv.Absorb(groups, key, s) == groups
  {
    if groups[0].key == key {
      assert Inv.Combine(s, s) == s;
      assert groups == [groups[0]] + groups[1..];
    } else {
      AbsorbStockless(groups[1..], key, s);
    }
  }

  lemma {:induction false} AbsorbAllStockless(groups: seq<Inv.InventoryRow>, rows: seq<Inv.StagedRow>)
    requires forall i :: 0 <= i < |rows| ==>
               Stockless(rows[i].stock) && Inv.Find(groups, rows[i].key) == Some(rows[i].stock)
    ensures AbsorbAll(groups, rows) == groups
    decreases |rows|
  {
    if rows != [] {
      AbsorbStockless(groups, rows[0].key, rows[0].stock);
      AbsorbAllStockless(groups, rows[1..]);
    }
  }

  /** Each row of a list with distinct keys is its own group. */
  lemma OwnGroup(stamped: seq<Inv.StagedRow>, p: nat, x: nat)
    requires DistinctStaged(stamped) && x < p <= |stamped|
    ensures Inv.Find(Inv.GroupBy(stamped[..p]), stamped[x].key) == Some(stamped[x].stock)
  {
    var rows, r := stamped[..p], stamped[x];
    assert r == rows[x] && DistinctStaged(rows);
    OfKeyMembers(rows, r.key, r);
    OfKeyOnce(rows, r.key);
    Inv.GroupByIsAggregation(rows, r.key);
  }

  lemma RepeatedRows(stamped: seq<Inv.StagedRow>, done: seq<Inv.StagedRow>, again: seq<Inv.StagedRow>, from: nat,
                     p: nat)
    requires DistinctStaged(stamped) && p <= |stamped| && Inv.GroupBy(done) == Inv.GroupBy(stamped[..p])
    requires from + |again| <= p && again == stamped[from..from + |again|]
    requires forall x :: 0 <= x < |again| ==> Stockless(again[x].stock)
    ensures Inv.GroupBy(done + again) == Inv.GroupBy(stamped[..p])
  {
    forall i | 0 <= i < |again|
      ensures Inv.Find(Inv.GroupBy(stamped[..p]), again[i].key) == Some(again[i].stock)
    {
      OwnGroup(stamped, p, from + i);
    }
    AbsorbAllStockless(Inv.GroupBy(done), again);
    GroupByAppends(done, again);
  }

  lemma NewRows(stamped: seq<Inv.StagedRow>, done: seq<Inv.StagedRow>, p: nat, to: nat)
    requires p <= to <= |stamped| && Inv.GroupBy(done) == Inv.GroupBy(stamped[..p])
    ensures Inv.GroupBy(done + stamped[p..to]) == Inv.GroupBy(stamped[..to])
  {
    var added := stamped[p..to];
    GroupByAppends(done, added);
    GroupByAppends(stamped[..p], added);
    assert stamped[..p] + added == stamped[..to] by { SliceConcat(stamped, 0, p, to); }
  }

  /** Staging rows `from` to `to` of the list after rows that group like its first `p`, when those repeated have
      no stock. */
  lemma OverlappingPage(stamped: seq<Inv.StagedRow>, done: seq<Inv.StagedRow>, from: nat, to: nat, p: nat)
    requires DistinctStaged(stamped) && from <= p <= |stamped| && from <= to <= |stamped|
    requires Inv.GroupBy(done) == Inv.GroupBy(stamped[..p])
    requires forall x: nat :: from <= x < p && x < to ==> Stockless(stamped[x].stock)
    ensures Inv.GroupBy(done + stamped[from..to]) == Inv.GroupBy(stamped[..if p < to then to else p])
  {
    var upTo := if p < to then p else to;
    var again := stamped[from..upTo];
    forall x | 0 <= x < |again|
      ensures Stockless(again[x].stock)
    {
      assert again[x] == stamped[from + x];
    }
    RepeatedRows(stamped, done, again, from, p);
    if p < to {
      NewRows(stamped, done + again, p, to);
      assert stamped[from..to] == again + stamped[p..to];
      ConcatAssoc(done, again, stamped[p..to]);
    }
  }

  /** Rows with distinct keys whose first ones are left out group differently. */
  lemma MissingRowShows(stamped: seq<Inv.StagedRow>, c: nat)
    requires DistinctStaged(stamped) && 0 < c < |stamped|
    ensures Inv.GroupBy(stamped[c..]) != Inv.GroupBy(stamped)
  {
    NoGroupForKey(stamped[c..], stamped[0].key);
    OwnGroup(stamped, |stamped|, 0);
    assert stamped[..|stamped|] == stamped;
  }
}
