/** Ingest of orders into a table that has no unique key: update the rows that changed, then insert the
    orders that are not there yet, both from one de-duplicated list of incoming rows. */
module Orders {
  import opened Common
  import opened Sequences

  datatype OrderKey = OrderKey(tenant: nat, id: int)

  /** The columns whose change triggers an update. */
  datatype Compared = Compared(
    orderDate: int, grossRevenue: int, status: string, modifiedAt: Option<int>,
    channel: string, payment: Option<string>, shipping: Option<string>)

  /** Columns that are overwritten by an update but do not trigger one. */
  datatype Carried = Carried(
    orderNumber: Option<string>, customerId: Option<int>, netRevenue: int, shippingCost: int,
    externalNumber: Option<string>, customerNumber: Option<string>)

  /** Columns that keep their old value when the incoming one is missing. */
  datatype Kept = Kept(
    postcode: Option<string>, city: Option<string>, country: Option<string>, region: Option<string>,
      itemCount: Option<int>)

  datatype Order = Order(key: OrderKey, compared: Compared, carried: Carried, kept: Kept)

  function Coalesce<T>(a: Option<T>, b: Option<T>): Option<T> {
    if a.Some? then a else b
  }

  function KeepOld(x: Kept, kept: Kept): Kept {
    Kept(Coalesce(x.postcode, kept.postcode), Coalesce(x.city, kept.city), Coalesce(x.country, kept.country),
         Coalesce(x.region, kept.region), Coalesce(x.itemCount, kept.itemCount))
  }

  /** `modified DESC NULLS LAST`: must `a` come before `b`? */
  predicate Later(a: Option<int>, b: Option<int>) {
    a.Some? && (b.None? || a.value > b.value)
  }

  // ---------------------------------------------------------------------------------------------
  // The statement
  // ---------------------------------------------------------------------------------------------

  /** Keep one row per key, the later one; of equally late rows the one that came first. */
  function Pick(picked: seq<Order>, r: Order): seq<Order> {
    if picked == [] then [r]
    else if picked[0].key == r.key then
      [if Later(r.compared.modifiedAt, picked[0].compared.modifiedAt) then r else picked[0]] + picked[1..]
    else [picked[0]] + Pick(picked[1..], r)
  }

  /** `SELECT DISTINCT ON (tenant, order) ... ORDER BY tenant, order, modified DESC NULLS LAST` */
  function Incoming(rows: seq<Order>): seq<Order> {
    if rows == [] then [] else Pick(Incoming(rows[..|rows| - 1]), rows[|rows| - 1])
  }

  function Lookup(table: seq<Order>, key: OrderKey): Option<Order> {
    if table == [] then None
    else if table[0].key == key then Some(table[0])
    else Lookup(table[1..], key)
  }

  /** What `UPDATE ... WHERE any compared column IS DISTINCT FROM` makes of a matched row. */
  function Merge(e: Order, x: Order): Order {
    if e.compared == x.compared then e else Order(e.key, x.compared, x.carried, KeepOld(x.kept, e.kept))
  }

  function Updated(table: seq<Order>, incoming: seq<Order>): seq<Order> {
    seq(|table|, i requires 0 <= i < |table| =>
      match Lookup(incoming, table[i].key)
      case None => table[i]
      case Some(x) => Merge(table[i], x))
  }

  /** `WHERE NOT EXISTS` an order with the same key in the table as it was before the statement. */
  function Missing(table: seq<Order>, incoming: seq<Order>): seq<Order> {
    Filter(incoming, (x: Order) => Lookup(table, x.key).None?)
  }

  function Upsert(table: seq<Order>, rows: seq<Order>): seq<Order> {
    Updated(table, Incoming(rows)) + Missing(table, Incoming(rows))
  }

  class OrderStore {
    var orders: seq<Order>

    method UpsertOrders(rows: seq<Order>)
      modifies this
      ensures orders == Upsert(old(orders), rows)
      ensures UniqueKeys(old(orders)) ==> UniqueKeys(orders)
    {
      UpsertKeepsKeysUnique(orders, rows);
      if rows == [] {
        NothingToDo(orders);
        return;
      }
      var snapshot, incoming := orders, Incoming(rows);
      orders := Updated(orders, incoming);
      orders := orders + Missing(snapshot, incoming);
    }
  }

  lemma NothingToDo(table: seq<Order>)
    ensures Upsert(table, []) == table
  {
  }

  // ---------------------------------------------------------------------------------------------
  // One statement, key by key
  // ---------------------------------------------------------------------------------------------

  ghost predicate UniqueKeys(table: seq<Order>) {
    forall i, j :: 0 <= i < j < |table| ==> table[i].key != table[j].key
  }

  /** The row that a batch brings in for a key: none later, and of equally late ones the first. */
  function Latest(rows: seq<Order>, key: OrderKey): Option<Order> {
    if rows == [] then None
    else
      var earlier, last := Latest(rows[..|rows| - 1], key), rows[|rows| - 1];
      if last.key != key then earlier
      else if earlier.None? || Later(last.compared.modifiedAt, earlier.value.compared.modifiedAt) then Some(last)
      else earlier
  }

  lemma {:induction false} LatestIsLatest(rows: seq<Order>, key: OrderKey)
    ensures match Latest(rows, key)
            case None => forall r <- rows :: r.key != key
            case Some(x) =>
              && x in rows && x.key == key
              && forall r <- rows :: r.key == key ==> !Later(r.compared.modifiedAt, x.compared.modifiedAt)
  {
    if rows != [] {
      var init := rows[..|rows| - 1];
      LatestIsLatest(init, key);
      assert rows == init + [rows[|rows| - 1]];
    }
  }

  /** On the values: of the rows of a key the one with the greatest modification time is kept, any before none, and
      of several with that time the first of the batch. */
  lemma {:induction false} LatestByTime(rows: seq<Order>, key: OrderKey) returns (i: nat)
    ensures Latest(rows, key).None? <==> forall r <- rows :: r.key != key
    ensures Latest(rows, key).Some? ==>
              && i < |rows| && rows[i].key == key && Latest(rows, key).value == rows[i]
              && var time := rows[i].compared.modifiedAt;
                 && (time.None? ==> forall r <- rows :: r.key == key ==> r.compared.modifiedAt == None)
                 && (forall r <- rows :: r.key == key && r.compared.modifiedAt.Some? ==>
                       time.Some? && r.compared.modifiedAt.value <= time.value)
                 && (forall k :: 0 <= k < i && rows[k].key == key ==> rows[k].compared.modifiedAt != time)
  {
    i := 0;
    if rows != [] {
      var init, last := rows[..|rows| - 1], rows[|rows| - 1];
      i := LatestByTime(init, key);
      assert rows == init + [last];
      if last.key == key && Latest(rows, key) != Latest(init, key) {
        i := |rows| - 1;
        assert forall k :: 0 <= k < i ==> rows[k] in init;
      }
    }
  }

  lemma {:induction false} PickLookup(picked: seq<Order>, r: Order, key: OrderKey)
    ensures Lookup(Pick(picked, r), key) ==
            match Lookup(picked, key)
            case None => if r.key == key then Some(r) else None
            case Some(p) => if r.key == key && Later(r.compared.modifiedAt, p.compared.modifiedAt) then Some(r)
              else Some(p)
  {
    if picked != [] && picked[0].key != r.key {
      PickLookup(picked[1..], r, key);
    }
  }

  lemma {:induction false} PickKeepsKeysUnique(picked: seq<Order>, r: Order)
    requires UniqueKeys(picked)
    ensures UniqueKeys(Pick(picked, r))
    ensures forall p <- Pick(picked, r) :: p.key == r.key || exists q <- picked :: q.key == p.key
  {
    if picked != [] {
      assert picked == [picked[0]] + picked[1..];
      if picked[0].key != r.key {
        PickKeepsKeysUnique(picked[1..], r);
        assert forall q <- picked[1..] :: q.key != picked[0].key;
      }
    }
  }

  lemma {:induction false} IncomingIsLatest(rows: seq<Order>, key: OrderKey)
    ensures UniqueKeys(Incoming(rows)) && Lookup(Incoming(rows), key) == Latest(rows, key)
  {
    if rows != [] {
      var init := rows[..|rows| - 1];
      IncomingIsLatest(init, key);
      PickLookup(Incoming(init), rows[|rows| - 1], key);
      PickKeepsKeysUnique(Incoming(init), rows[|rows| - 1]);
    }
  }

  lemma {:induction false} LookupConcat(a: seq<Order>, b: seq<Order>, key: OrderKey)
    ensures Lookup(a + b, key) == if Lookup(a, key).Some? then Lookup(a, key) else Lookup(b, key)
  {
    if a == [] {
      assert a + b == b;
    } else {
      LookupConcat(a[1..], b, key);
      assert (a + b)[1..] == a[1..] + b;
    }
  }

  lemma {:induction false} LookupMeaning(table: seq<Order>, key: OrderKey)
    ensures Lookup(table, key).None? <==> forall r <- table :: r.key != key
    ensures Lookup(table, key).Some? ==> Lookup(table, key).value in table && Lookup(table, key).value.key == key
  {
    if table != [] {
      LookupMeaning(table[1..], key);
      assert table == [table[0]] + table[1..];
    }
  }

  lemma {:induction false} LookupUpdated(table: seq<Order>, incoming: seq<Order>, key: OrderKey)
    ensures Lookup(Updated(table, incoming), key) ==
            match Lookup(table, key)
            case None => None
            case Some(e) => Some(if Lookup(incoming, key).Some? then Merge(e, Lookup(incoming, key).value) else e)
  {
    if table != [] {
      LookupUpdated(table[1..], incoming, key);
      assert Updated(table, incoming)[1..] == Updated(table[1..], incoming);
    }
  }

  lemma {:induction false} LookupMissing(table: seq<Order>, incoming: seq<Order>, key: OrderKey)
    requires Lookup(table, key).None?
    ensures Lookup(Missing(table, incoming), key) == Lookup(incoming, key)
  {
    if incoming != [] {
      LookupMissing(table, incoming[1..], key);
      if Lookup(table, incoming[0].key).None? {
        assert Missing(table, incoming)[1..] == Missing(table, incoming[1..]);
      }
    }
  }

  function Merged(e: Option<Order>, x: Option<Order>): Option<Order> {
    if x.None? then e else if e.None? then x else Some(Merge(e.value, x.value))
  }

  /** For each key an upsert merges the latest incoming row into the row that was there, or inserts it. */
  lemma UpsertMeaning(table: seq<Order>, rows: seq<Order>, key: OrderKey)
    ensures Lookup(Upsert(table, rows), key) == Merged(Lookup(table, key), Latest(rows, key))
  {
    IncomingIsLatest(rows, key);
    LookupUpdated(table, Incoming(rows), key);
    LookupConcat(Updated(table, Incoming(rows)), Missing(table, Incoming(rows)), key);
    if Lookup(table, key).None? {
      LookupMissing(table, Incoming(rows), key);
    }
  }

  lemma {:induction false} MissingKeysUnique(table: seq<Order>, incoming: seq<Order>)
    requires UniqueKeys(incoming)
    ensures UniqueKeys(Missing(table, incoming))
    ensures forall x <- Missing(table, incoming) :: x in incoming && Lookup(table, x.key).None?
  {
    if incoming != [] {
      MissingKeysUnique(table, incoming[1..]);
      assert incoming == [incoming[0]] + incoming[1..];
      assert forall q <- incoming[1..] :: q.key != incoming[0].key;
    }
  }

  /** One order per key stays one order per key, although no constraint enforces it. */
  lemma UpsertKeepsKeysUnique(table: seq<Order>, rows: seq<Order>)
    ensures UniqueKeys(table) ==> UniqueKeys(Upsert(table, rows))
  {
    if rows == [] {
      NothingToDo(table);
    } else {
      var updated, missing := Updated(table, Incoming(rows)), Missing(table, Incoming(rows));
      IncomingIsLatest(rows, rows[0].key);
      MissingKeysUnique(table, Incoming(rows));
      forall i, j | 0 <= i < |updated| && 0 <= j < |missing|
        ensures updated[i].key != missing[j].key
      {
        assert missing[j] in missing && table[i] in table;
        LookupMeaning(table, missing[j].key);
      }
    }
  }

  /** After an upsert every incoming key agrees with its latest incoming row on all compared columns;
      every other key is as before. */
  lemma IncomingOrdersAgree(table: seq<Order>, rows: seq<Order>, key: OrderKey)
    ensures var after := Lookup(Upsert(table, rows), key);
            match Latest(rows, key)
            case None => after == Lookup(table, key) && forall r <- rows :: r.key != key
            case Some(x) => after.Some? && after.value.key == key && after.value.compared == x.compared
  {
    UpsertMeaning(table, rows, key);
    LatestIsLatest(rows, key);
    LookupMeaning(table, key);
  }

  /** The table after an upsert, by modification times: an order of which the batch has rows agrees on all compared
      columns with the first row of its greatest modification time, or with its first row if none has a time. */
  lemma TableHasTheLatest(table: seq<Order>, rows: seq<Order>, key: OrderKey) returns (i: nat)
    requires exists r <- rows :: r.key == key
    ensures i < |rows| && rows[i].key == key
    ensures Lookup(Upsert(table, rows), key).Some?
            && Lookup(Upsert(table, rows), key).value.compared == rows[i].compared
    ensures forall r <- rows :: r.key == key && r.compared.modifiedAt.Some? ==>
              rows[i].compared.modifiedAt.Some? && r.compared.modifiedAt.value <= rows[i].compared.modifiedAt.value
    ensures forall k :: 0 <= k < i && rows[k].key == key ==>
              rows[k].compared.modifiedAt != rows[i].compared.modifiedAt
    ensures Lookup(table, key).None? ==> Lookup(Upsert(table, rows), key) == Some(rows[i])
  {
    i := LatestByTime(rows, key);
    IncomingOrdersAgree(table, rows, key);
    UpsertMeaning(table, rows, key);
  }

  /** What an upsert makes of an order that was there: a row that agrees on the compared columns stays as it
      is, even where other columns differ; otherwise every column is the incoming one, except that address
      columns and the item count survive a missing value. */
  lemma ExistingOrderColumns(table: seq<Order>, rows: seq<Order>, key: OrderKey)
    requires Lookup(table, key).Some? && Latest(rows, key).Some?
    ensures var e, x, after := Lookup(table, key).value, Latest(rows, key).value, Lookup(Upsert(table, rows), key);
            && after.Some? && after.value.key == key
            && (after.value == e <==> e.compared == x.compared)
            && (after.value != e ==>
                  && after.value.compared == x.compared && after.value.carried == x.carried
                  && after.value.kept.postcode == (if x.kept.postcode.None? then e.kept.postcode else x.kept.postcode)
                  && after.value.kept.city == (if x.kept.city.None? then e.kept.city else x.kept.city)
                  && after.value.kept.country == (if x.kept.country.None? then e.kept.country else x.kept.country)
                  && after.value.kept.region == (if x.kept.region.None? then e.kept.region else x.kept.region)
                  && after.value.kept.itemCount == (if x.kept.itemCount.None? then e.kept.itemCount
                                                    else x.kept.itemCount))
  {
    UpsertMeaning(table, rows, key);
    LookupMeaning(table, key);
  }

  /** Doing the same upsert again changes nothing at all. */
  lemma UpsertIsIdempotent(table: seq<Order>, rows: seq<Order>)
    requires UniqueKeys(table)
    ensures Upsert(Upsert(table, rows), rows) == Upsert(table, rows)
  {
    var once, incoming := Upsert(table, rows), Incoming(rows);
    UpsertKeepsKeysUnique(table, rows);
    forall i | 0 <= i < |once|
      ensures Updated(once, incoming)[i] == once[i]
    {
      var key := once[i].key;
      LookupAt(once, i);
      IncomingOrdersAgree(table, rows, key);
      IncomingIsLatest(rows, key);
    }
    forall x | x in incoming
      ensures Lookup(once, x.key).Some?
    {
      LookupMeaning(incoming, x.key);
      IncomingIsLatest(rows, x.key);
      IncomingOrdersAgree(table, rows, x.key);
    }
    FilterNone(incoming, (x: Order) => Lookup(once, x.key).None?);
  }

  lemma {:induction false} LookupAt(table: seq<Order>, i: nat)
    requires UniqueKeys(table) && i < |table|
    ensures Lookup(table, table[i].key) == Some(table[i])
  {
    if i > 0 {
      LookupAt(table[1..], i - 1);
    }
  }

  /** Two tables hold the same orders; row order in a table carries no meaning. */
  ghost predicate SameOrders(a: seq<Order>, b: seq<Order>) {
    forall key :: Lookup(a, key) == Lookup(b, key)
  }

  /** Upserts of disjoint sets of orders commute. */
  lemma DisjointUpsertsCommute(table: seq<Order>, a: seq<Order>, b: seq<Order>)
    requires forall x <- a, y <- b :: x.key != y.key
    ensures SameOrders(Upsert(Upsert(table, a), b), Upsert(Upsert(table, b), a))
  {
    forall key
      ensures Lookup(Upsert(Upsert(table, a), b), key) == Lookup(Upsert(Upsert(table, b), a), key)
    {
      UpsertMeaning(table, a, key);
      UpsertMeaning(table, b, key);
      UpsertMeaning(Upsert(table, a), b, key);
      UpsertMeaning(Upsert(table, b), a, key);
      LatestIsLatest(a, key);
      LatestIsLatest(b, key);
    }
  }

  // ---------------------------------------------------------------------------------------------
  // Delivering a window
  // ---------------------------------------------------------------------------------------------

  ghost function UpsertAll(table: seq<Order>, batches: seq<seq<Order>>): seq<Order>
    decreases |batches|
  {
    if batches == [] then table else UpsertAll(Upsert(table, batches[0]), batches[1..])
  }

  /** The batches hold rows of this window only. */
  ghost predicate DrawnFrom(batches: seq<seq<Order>>, list: seq<Order>) {
    forall b <- batches :: forall r <- b :: r in list
  }

  ghost predicate Delivers(batches: seq<seq<Order>>, r: Order) {
    exists b <- batches :: r in b
  }

  lemma KeyDeterminesRow(list: seq<Order>, a: Order, b: Order)
    requires UniqueKeys(list) && a in list && b in list && a.key == b.key
    ensures a == b
  {
    var i :| 0 <= i < |list| && list[i] == a;
    var j :| 0 <= j < |list| && list[j] == b;
  }

  /** A batch of a window brings in, for a key, the window's row of that key or nothing. */
  lemma LatestOfBatch(list: seq<Order>, b: seq<Order>, key: OrderKey)
    requires UniqueKeys(list) && forall r <- b :: r in list
    ensures Latest(b, key) == if Lookup(list, key).Some? && Lookup(list, key).value in b then Lookup(list, key)
            else None
  {
    LatestIsLatest(b, key);
    LookupMeaning(list, key);
    if Latest(b, key).Some? {
      KeyDeterminesRow(list, Latest(b, key).value, Lookup(list, key).value);
    }
  }

  /** Any sequence of batches drawn from one window, whatever the order, overlap or repetition, merges
      each delivered row of the window once. */
  lemma {:induction false} DeliveryMeaning(table: seq<Order>, list: seq<Order>, batches: seq<seq<Order>>, key: OrderKey)
    requires UniqueKeys(list) && DrawnFrom(batches, list)
    ensures var x := Lookup(list, key);
            Lookup(UpsertAll(table, batches), key)
            == Merged(Lookup(table, key), if x.Some? && Delivers(batches, x.value) then x else None)
    decreases |batches|
  {
    if batches != [] {
      var b, rest, x := batches[0], batches[1..], Lookup(list, key);
      assert batches == [b] + rest && b in batches;
      assert forall c <- rest :: c in batches;
      UpsertMeaning(table, b, key);
      LatestOfBatch(list, b, key);
      DeliveryMeaning(Upsert(table, b), list, rest, key);
      assert x.Some? ==> (Delivers(batches, x.value) <==> x.value in b || Delivers(rest, x.value));
    }
  }

  /** The table depends only on which rows were delivered. */
  lemma SameRowsSameTable(table: seq<Order>, list: seq<Order>, a: seq<seq<Order>>, b: seq<seq<Order>>)
    requires UniqueKeys(list) && DrawnFrom(a, list) && DrawnFrom(b, list)
    requires forall r <- list :: Delivers(a, r) <==> Delivers(b, r)
    ensures SameOrders(UpsertAll(table, a), UpsertAll(table, b))
  {
    forall key
      ensures Lookup(UpsertAll(table, a), key) == Lookup(UpsertAll(table, b), key)
    {
      DeliveryMeaning(table, list, a, key);
      DeliveryMeaning(table, list, b, key);
      LookupMeaning(list, key);
    }
  }

  /** Delivering every row of a window, in whatever batches, is one upsert of the window. */
  lemma FullDeliveryIsOneUpsert(table: seq<Order>, list: seq<Order>, batches: seq<seq<Order>>)
    requires UniqueKeys(list) && DrawnFrom(batches, list)
    requires forall r <- list :: Delivers(batches, r)
    ensures SameOrders(UpsertAll(table, batches), Upsert(table, list))
  {
    forall key
      ensures Lookup(UpsertAll(table, batches), key) == Lookup(Upsert(table, list), key)
    {
      DeliveryMeaning(table, list, batches, key);
      UpsertMeaning(table, list, key);
      LatestOfBatch(list, list, key);
      LookupMeaning(list, key);
    }
  }
}
