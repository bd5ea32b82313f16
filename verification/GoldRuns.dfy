/**
  dbt runs over a growing Silver, complete or stopped halfway: what the never-deleting merges leave, and when they
  fail.
 */
module GoldRuns {
  import opened Options
  import opened Contracts
  import opened Silver
  import opened SilverReplay
  import opened Relational
  import opened DeltaMerge
  import opened Gold
  import opened GoldFacts
  import opened GoldViews

  // ---------------------------------------------------------------- the stored tables and a run

  datatype GoldTables = GoldTables(
    customers: seq<DimCustomer>, products: seq<DimProduct>, countries: seq<DimCountry>, dates: seq<int>,
    orders: seq<OrderFact>, sales: seq<SaleFact>, sessions: seq<SessionFact>, inventory: seq<InventoryFact>)

  const EmptyGold := GoldTables([], [], [], [], [], [], [], [])

  datatype TableName =
    | CustomerTable | ProductTable | CountryTable | DateTable
    | OrderTable | SaleTable | SessionTable | InventoryTable

  const AllTables := {
    CustomerTable, ProductTable, CountryTable, DateTable, OrderTable, SaleTable, SessionTable, InventoryTable}

  /** A run over one Silver state, on one day; one that stops halfway has reached some of its tables only. */
  datatype Run = Run(silver: Tables, today: int, reached: set<TableName>)

  // A fact that joins a dimension is merged after it.
  predicate DimensionsFirst(r: Run) {
    && (OrderTable in r.reached || SaleTable in r.reached ==> CustomerTable in r.reached && ProductTable in r.reached)
    && (InventoryTable in r.reached ==> ProductTable in r.reached)
  }

  ghost function CustomersAt(r: Run): seq<DimCustomer> { CustomersOf(r.silver) }

  ghost function ProductsAt(r: Run): seq<DimProduct> { ProductsOf(r.silver) }

  ghost function CountriesAt(r: Run): seq<DimCountry> { CountriesOf(r.silver) }

  ghost function DatesAt(r: Run): seq<int> { DatesOf(r.silver, r.today) }

  ghost function OrdersAt(r: Run): seq<OrderFact> { OrderFactsOf(r.silver) }

  ghost function SalesAt(r: Run): seq<SaleFact> { SalesOf(r.silver) }

  ghost function SessionsAt(r: Run): seq<SessionFact> { SessionsOf(r.silver) }

  ghost function InventoryAt(r: Run): seq<InventoryFact> { InventoryOf(r.silver) }

  /** What building everything anew would give. */
  ghost function Rebuild(r: Run): GoldTables {
    GoldTables(CustomersAt(r), ProductsAt(r), CountriesAt(r), DatesAt(r),
               OrdersAt(r), SalesAt(r), SessionsAt(r), InventoryAt(r))
  }

  function MergedIf<V, K(==)>(go: bool, stored: seq<V>, view: seq<V>, key: V -> K): Option<seq<V>> {
    if go then Upsert(stored, view, key) else Some(stored)
  }

  // The tables of a run; it has failed when any of its merges has.
  function Assemble(
      customers: Option<seq<DimCustomer>>, products: Option<seq<DimProduct>>, countries: Option<seq<DimCountry>>,
      dates: Option<seq<int>>, orders: Option<seq<OrderFact>>, sales: Option<seq<SaleFact>>,
      sessions: Option<seq<SessionFact>>, inventory: Option<seq<InventoryFact>>): Option<GoldTables>
  {
    if customers.None? || products.None? || countries.None? || dates.None?
       || orders.None? || sales.None? || sessions.None? || inventory.None? then None
    else Some(GoldTables(customers.value, products.value, countries.value, dates.value,
                         orders.value, sales.value, sessions.value, inventory.value))
  }

  /** One dbt run: dimensions first, then the facts over the stored dimensions. */
  ghost function DbtRun(g: GoldTables, r: Run): Option<GoldTables> {
    var customers := MergedIf(CustomerTable in r.reached, g.customers, CustomersAt(r), CustomerKey);
    var products := MergedIf(ProductTable in r.reached, g.products, ProductsAt(r), ProductKey);
    if customers.None? || products.None? then None
    else
      var orders := FactOrders(OrdersOf(r.silver), customers.value, products.value);
      var sales := FactSales(OrdersOf(r.silver), customers.value, products.value, RefundsOf(r.silver));
      var inventory := FactInventory(Scan(r.silver.inventory), products.value);
      Assemble(customers, products,
               MergedIf(CountryTable in r.reached, g.countries, CountriesAt(r), CountryKey),
               MergedIf(DateTable in r.reached, g.dates, DatesAt(r), DateKey),
               MergedIf(OrderTable in r.reached, g.orders, orders, OrderKey),
               MergedIf(SaleTable in r.reached, g.sales, sales, SaleKey),
               MergedIf(SessionTable in r.reached, g.sessions, SessionsAt(r), SessionKey),
               MergedIf(InventoryTable in r.reached, g.inventory, inventory, InventoryKey))
  }

  ghost function AfterRuns(runs: seq<Run>): Option<GoldTables> {
    if runs == [] then Some(EmptyGold)
    else
      var before := AfterRuns(runs[..|runs| - 1]);
      if before.None? then None else DbtRun(before.value, runs[|runs| - 1])
  }

  /** Each run sees a completed batch of a Silver that only grows; nothing says that the first one sees any event. */
  ghost predicate IsHistory(runs: seq<Run>) {
    && (forall i | 0 <= i < |runs| :: Projected(runs[i].silver) && DimensionsFirst(runs[i]))
    && (forall i | 0 <= i < |runs| - 1 :: Grows(runs[i].silver, runs[i + 1].silver))
  }

  lemma {:induction false} GrowsBetween(runs: seq<Run>, i: nat, j: nat)
    requires IsHistory(runs) && i <= j < |runs|
    ensures Grows(runs[i].silver, runs[j].silver)
    decreases j
  {
    if i < j {
      GrowsBetween(runs, i, j - 1);
      assert Grows(runs[j - 1].silver, runs[j - 1 + 1].silver);
    }
  }

  lemma EarlierHistory(runs: seq<Run>)
    requires IsHistory(runs) && runs != []
    ensures IsHistory(runs[..|runs| - 1])
  {
    var before := runs[..|runs| - 1];
    assert forall i | 0 <= i < |before| :: before[i] == runs[i];
  }

  lemma WithLast(runs: seq<Run>, i: nat)
    requires IsHistory(runs) && i < |runs|
    ensures Projected(runs[i].silver) && Projected(runs[|runs| - 1].silver)
    ensures Grows(runs[i].silver, runs[|runs| - 1].silver)
  {
    GrowsBetween(runs, i, |runs| - 1);
  }

  // ---------------------------------------------------------------- one table over all runs

  /** The views that the runs merged into one table. */
  ghost function Column<V>(runs: seq<Run>, name: TableName, view: Run -> seq<V>): (views: seq<Option<seq<V>>>)
    ensures |views| == |runs|
    ensures forall i | 0 <= i < |runs| :: views[i] == if name in runs[i].reached then Some(view(runs[i])) else None
  {
    seq(|runs|, i requires 0 <= i < |runs| => if name in runs[i].reached then Some(view(runs[i])) else None)
  }

  ghost function StoredIn<V, K>(runs: seq<Run>, name: TableName, view: Run -> seq<V>, key: V -> K): Option<seq<V>> {
    MergedInOrder(Column(runs, name, view), key)
  }

  lemma {:induction false} StoredStep<V, K>(runs: seq<Run>, name: TableName, view: Run -> seq<V>, key: V -> K)
    requires runs != []
    ensures var n := |runs| - 1;
            var before := StoredIn(runs[..n], name, view, key);
            StoredIn(runs, name, view, key) ==
              if before.None? then None
              else MergedIf(name in runs[n].reached, before.value, view(runs[n]), key)
  {
    var n := |runs| - 1;
    assert Column(runs, name, view)[..n] == Column(runs[..n], name, view);
  }

  ghost predicate UniqueColumn<V, K>(runs: seq<Run>, view: Run -> seq<V>, key: V -> K) {
    forall i | 0 <= i < |runs| :: UniqueKeys(view(runs[i]), key)
  }

  ghost predicate GrowingColumn<V, K>(runs: seq<Run>, view: Run -> seq<V>, key: V -> K) {
    && UniqueColumn(runs, view, key)
    && forall i | 0 <= i < |runs| :: KeysWithin(view(runs[i]), view(runs[|runs| - 1]), key)
  }

  lemma {:induction false} UniqueColumnMerges<V, K>(runs: seq<Run>, name: TableName, view: Run -> seq<V>, key: V -> K)
    requires UniqueColumn(runs, view, key)
    ensures StoredIn(runs, name, view, key).Some?
  {
    MergingUniqueViews(Column(runs, name, view), key);
  }

  /** The stored table equals the last run's view. */
  ghost predicate StoredIsLast<V, K>(runs: seq<Run>, name: TableName, view: Run -> seq<V>, key: V -> K)
    requires runs != []
  {
    && StoredIn(runs, name, view, key).Some?
    && SameRows(StoredIn(runs, name, view, key).value, view(runs[|runs| - 1]), key)
  }

  lemma {:induction false} ColumnEqualsLast<V, K>(runs: seq<Run>, name: TableName, view: Run -> seq<V>, key: V -> K)
    requires runs != [] && name in runs[|runs| - 1].reached && GrowingColumn(runs, view, key)
    ensures StoredIsLast(runs, name, view, key)
  {
    MergedEqualsLastExactly(Column(runs, name, view), key);
  }

  lemma CustomerColumn(runs: seq<Run>)
    requires IsHistory(runs)
    ensures runs != [] ==> GrowingColumn(runs, CustomersAt, CustomerKey)
    ensures UniqueColumn(runs, CustomersAt, CustomerKey)
  {
    forall i | 0 <= i < |runs|
      ensures UniqueKeys(CustomersAt(runs[i]), CustomerKey)
      ensures KeysWithin(CustomersAt(runs[i]), CustomersAt(runs[|runs| - 1]), CustomerKey)
    {
      WithLast(runs, i);
      CustomersGrow(runs[i].silver, runs[|runs| - 1].silver);
    }
  }

  lemma ProductColumn(runs: seq<Run>)
    requires IsHistory(runs)
    ensures runs != [] ==> GrowingColumn(runs, ProductsAt, ProductKey)
    ensures UniqueColumn(runs, ProductsAt, ProductKey)
  {
    forall i | 0 <= i < |runs|
      ensures UniqueKeys(ProductsAt(runs[i]), ProductKey)
      ensures KeysWithin(ProductsAt(runs[i]), ProductsAt(runs[|runs| - 1]), ProductKey)
    {
      WithLast(runs, i);
      ProductsGrow(runs[i].silver, runs[|runs| - 1].silver);
    }
  }

  lemma CountryColumn(runs: seq<Run>)
    requires IsHistory(runs)
    ensures runs != [] ==> GrowingColumn(runs, CountriesAt, CountryKey)
    ensures UniqueColumn(runs, CountriesAt, CountryKey)
  {
    forall i | 0 <= i < |runs|
      ensures UniqueKeys(CountriesAt(runs[i]), CountryKey)
      ensures KeysWithin(CountriesAt(runs[i]), CountriesAt(runs[|runs| - 1]), CountryKey)
    {
      WithLast(runs, i);
      CountriesGrow(runs[i].silver, runs[|runs| - 1].silver);
    }
  }

  lemma OrderColumn(runs: seq<Run>)
    requires IsHistory(runs)
    ensures runs != [] ==> GrowingColumn(runs, OrdersAt, OrderKey)
    ensures UniqueColumn(runs, OrdersAt, OrderKey)
  {
    forall i | 0 <= i < |runs|
      ensures UniqueKeys(OrdersAt(runs[i]), OrderKey)
      ensures KeysWithin(OrdersAt(runs[i]), OrdersAt(runs[|runs| - 1]), OrderKey)
    {
      WithLast(runs, i);
      OrderFactsGrow(runs[i].silver, runs[|runs| - 1].silver);
    }
  }

  lemma SaleColumn(runs: seq<Run>)
    requires IsHistory(runs)
    ensures runs != [] ==> GrowingColumn(runs, SalesAt, SaleKey)
    ensures UniqueColumn(runs, SalesAt, SaleKey)
  {
    forall i | 0 <= i < |runs|
      ensures UniqueKeys(SalesAt(runs[i]), SaleKey)
      ensures KeysWithin(SalesAt(runs[i]), SalesAt(runs[|runs| - 1]), SaleKey)
    {
      WithLast(runs, i);
      SalesGrow(runs[i].silver, runs[|runs| - 1].silver);
    }
  }

  lemma InventoryColumn(runs: seq<Run>)
    requires IsHistory(runs)
    ensures runs != [] ==> GrowingColumn(runs, InventoryAt, InventoryKey)
    ensures UniqueColumn(runs, InventoryAt, InventoryKey)
  {
    forall i | 0 <= i < |runs|
      ensures UniqueKeys(InventoryAt(runs[i]), InventoryKey)
      ensures KeysWithin(InventoryAt(runs[i]), InventoryAt(runs[|runs| - 1]), InventoryKey)
    {
      WithLast(runs, i);
      InventoryGrows(runs[i].silver, runs[|runs| - 1].silver);
    }
  }

  lemma SessionColumn(runs: seq<Run>)
    requires IsHistory(runs) && runs != [] && OneCustomerPerSession(runs[|runs| - 1].silver)
    ensures GrowingColumn(runs, SessionsAt, SessionKey)
  {
    forall i | 0 <= i < |runs|
      ensures UniqueKeys(SessionsAt(runs[i]), SessionKey)
      ensures KeysWithin(SessionsAt(runs[i]), SessionsAt(runs[|runs| - 1]), SessionKey)
    {
      GrowsBetween(runs, i, |runs| - 1);
      SessionsGrow(runs[i].silver, runs[|runs| - 1].silver);
      SessionKeysUniqueExactly(runs[i].silver);
    }
  }

  lemma DateColumn(runs: seq<Run>)
    requires IsHistory(runs)
    ensures UniqueColumn(runs, DatesAt, DateKey)
  {
    forall i | 0 <= i < |runs| ensures UniqueKeys(DatesAt(runs[i]), DateKey) {
      DatesExactly(runs[i].silver, runs[i].today, 0);
    }
  }

  // ---------------------------------------------------------------- all tables over all runs

  // The stored tables, had each been merged on its own from the views over Silver.
  ghost function Separately(runs: seq<Run>): Option<GoldTables> {
    Assemble(
      StoredIn(runs, CustomerTable, CustomersAt, CustomerKey), StoredIn(runs, ProductTable, ProductsAt, ProductKey),
      StoredIn(runs, CountryTable, CountriesAt, CountryKey), StoredIn(runs, DateTable, DatesAt, DateKey),
      StoredIn(runs, OrderTable, OrdersAt, OrderKey), StoredIn(runs, SaleTable, SalesAt, SaleKey),
      StoredIn(runs, SessionTable, SessionsAt, SessionKey), StoredIn(runs, InventoryTable, InventoryAt, InventoryKey))
  }

  // What one run does to its tables when its facts are built over the views of the dimensions.
  ghost function RunOverViews(g: GoldTables, r: Run): Option<GoldTables> {
    Assemble(
      MergedIf(CustomerTable in r.reached, g.customers, CustomersAt(r), CustomerKey),
      MergedIf(ProductTable in r.reached, g.products, ProductsAt(r), ProductKey),
      MergedIf(CountryTable in r.reached, g.countries, CountriesAt(r), CountryKey),
      MergedIf(DateTable in r.reached, g.dates, DatesAt(r), DateKey),
      MergedIf(OrderTable in r.reached, g.orders, OrdersAt(r), OrderKey),
      MergedIf(SaleTable in r.reached, g.sales, SalesAt(r), SaleKey),
      MergedIf(SessionTable in r.reached, g.sessions, SessionsAt(r), SessionKey),
      MergedIf(InventoryTable in r.reached, g.inventory, InventoryAt(r), InventoryKey))
  }

  ghost predicate GoodDimensions(g: GoldTables, r: Run) {
    var customers := MergedIf(CustomerTable in r.reached, g.customers, CustomersAt(r), CustomerKey);
    var products := MergedIf(ProductTable in r.reached, g.products, ProductsAt(r), ProductKey);
    && customers.Some? && products.Some?
    && (CustomerTable in r.reached ==> SameRows(customers.value, CustomersAt(r), CustomerKey))
    && (ProductTable in r.reached ==> SameRows(products.value, ProductsAt(r), ProductKey))
  }

  /**
    Facts built over stored dimensions are those built over the views, wherever the stored dimensions equal the
    views.
   */
  lemma FactsIgnoreStorage(t: Tables, customers: seq<DimCustomer>, products: seq<DimProduct>)
    requires SameRows(products, ProductsOf(t), ProductKey)
    ensures FactInventory(Scan(t.inventory), products) == InventoryOf(t)
    ensures SameRows(customers, CustomersOf(t), CustomerKey) ==>
              && FactOrders(OrdersOf(t), customers, products) == OrderFactsOf(t)
              && FactSales(OrdersOf(t), customers, products, RefundsOf(t)) == SalesOf(t)
  {
    InventoryIgnoresStorage(Scan(t.inventory), products, ProductsOf(t));
    if SameRows(customers, CustomersOf(t), CustomerKey) {
      LinesIgnoreStorage(OrdersOf(t), customers, CustomersOf(t), products, ProductsOf(t));
    }
  }

  lemma RunIsOverViews(g: GoldTables, r: Run)
    requires DimensionsFirst(r) && GoodDimensions(g, r)
    ensures DbtRun(g, r) == RunOverViews(g, r)
  {
    var customers := MergedIf(CustomerTable in r.reached, g.customers, CustomersAt(r), CustomerKey);
    var products := MergedIf(ProductTable in r.reached, g.products, ProductsAt(r), ProductKey);
    if ProductTable in r.reached { FactsIgnoreStorage(r.silver, customers.value, products.value); }
  }

  lemma DimensionsAreGood(runs: seq<Run>, g: GoldTables)
    requires IsHistory(runs) && runs != []
    requires Some(g.customers) == StoredIn(runs[..|runs| - 1], CustomerTable, CustomersAt, CustomerKey)
    requires Some(g.products) == StoredIn(runs[..|runs| - 1], ProductTable, ProductsAt, ProductKey)
    ensures GoodDimensions(g, runs[|runs| - 1])
  {
    var last := runs[|runs| - 1];
    CustomerColumn(runs);
    ProductColumn(runs);
    StoredStep(runs, CustomerTable, CustomersAt, CustomerKey);
    StoredStep(runs, ProductTable, ProductsAt, ProductKey);
    UniqueColumnMerges(runs, CustomerTable, CustomersAt, CustomerKey);
    UniqueColumnMerges(runs, ProductTable, ProductsAt, ProductKey);
    if CustomerTable in last.reached { ColumnEqualsLast(runs, CustomerTable, CustomersAt, CustomerKey); }
    if ProductTable in last.reached { ColumnEqualsLast(runs, ProductTable, ProductsAt, ProductKey); }
  }

  lemma SeparateStep(runs: seq<Run>)
    requires runs != []
    ensures var before := Separately(runs[..|runs| - 1]);
            Separately(runs) == if before.None? then None else RunOverViews(before.value, runs[|runs| - 1])
  {
    StoredStep(runs, CustomerTable, CustomersAt, CustomerKey);
    StoredStep(runs, ProductTable, ProductsAt, ProductKey);
    StoredStep(runs, CountryTable, CountriesAt, CountryKey);
    StoredStep(runs, DateTable, DatesAt, DateKey);
    StoredStep(runs, OrderTable, OrdersAt, OrderKey);
    StoredStep(runs, SaleTable, SalesAt, SaleKey);
    StoredStep(runs, SessionTable, SessionsAt, SessionKey);
    StoredStep(runs, InventoryTable, InventoryAt, InventoryKey);
  }

  /** Though facts join stored dimensions, each table is just its own views merged one after the other. */
  lemma {:induction false} RunsMergeSeparately(runs: seq<Run>)
    requires IsHistory(runs)
    ensures AfterRuns(runs) == Separately(runs)
  {
    if runs != [] {
      var n := |runs| - 1;
      EarlierHistory(runs);
      RunsMergeSeparately(runs[..n]);
      SeparateStep(runs);
      if AfterRuns(runs[..n]).Some? {
        DimensionsAreGood(runs, AfterRuns(runs[..n]).value);
        RunIsOverViews(AfterRuns(runs[..n]).value, runs[n]);
      }
    }
  }

  // ---------------------------------------------------------------- when a run fails

  predicate MergesSessions(runs: seq<Run>, i: int) { 0 <= i < |runs| && SessionTable in runs[i].reached }

  lemma OnlySessionsFail(runs: seq<Run>)
    requires IsHistory(runs)
    ensures Separately(runs).None? <==> StoredIn(runs, SessionTable, SessionsAt, SessionKey).None?
  {
    CustomerColumn(runs);
    ProductColumn(runs);
    CountryColumn(runs);
    DateColumn(runs);
    OrderColumn(runs);
    SaleColumn(runs);
    InventoryColumn(runs);
    UniqueColumnMerges(runs, CustomerTable, CustomersAt, CustomerKey);
    UniqueColumnMerges(runs, ProductTable, ProductsAt, ProductKey);
    UniqueColumnMerges(runs, CountryTable, CountriesAt, CountryKey);
    UniqueColumnMerges(runs, DateTable, DatesAt, DateKey);
    UniqueColumnMerges(runs, OrderTable, OrdersAt, OrderKey);
    UniqueColumnMerges(runs, SaleTable, SalesAt, SaleKey);
    UniqueColumnMerges(runs, InventoryTable, InventoryAt, InventoryKey);
  }

  ghost predicate SessionClash(runs: seq<Run>, i: int, j: int, session: Id) {
    && i < j && MergesSessions(runs, i) && MergesSessions(runs, j)
    && SessionSeen(runs[i].silver, session) && TwoCustomers(runs[j].silver, session)
  }

  lemma ClashInViews(runs: seq<Run>, i: int, j: int, session: Id)
    ensures var views := Column(runs, SessionTable, SessionsAt);
            SessionClash(runs, i, j, session) <==>
              i < j && KeyInView(views, SessionKey, i, session) && TwiceInView(views, SessionKey, j, session)
  {
    if MergesSessions(runs, i) && MergesSessions(runs, j) {
      SessionKeys(runs[i].silver, session);
      SessionKeys(runs[j].silver, session);
    }
  }

  lemma SessionsFailExactly(runs: seq<Run>)
    ensures StoredIn(runs, SessionTable, SessionsAt, SessionKey).None? <==>
            exists i, j, session :: SessionClash(runs, i, j, session)
  {
    var views := Column(runs, SessionTable, SessionsAt);
    MergingFailsExactly(views, SessionKey);
    if MergedInOrder(views, SessionKey).None? {
      var i, j, session :|
        i < j && KeyInView(views, SessionKey, i, session) && TwiceInView(views, SessionKey, j, session);
      ClashInViews(runs, i, j, session);
    }
    if i, j, session :| SessionClash(runs, i, j, session) {
      ClashInViews(runs, i, j, session);
    }
  }

  /** Some run fails exactly when a session that an earlier run merged has two customers when a later run merges it. */
  lemma {:induction false} RunsFailExactly(runs: seq<Run>)
    requires IsHistory(runs)
    ensures AfterRuns(runs).None? <==> exists i, j, session :: SessionClash(runs, i, j, session)
  {
    RunsMergeSeparately(runs);
    OnlySessionsFail(runs);
    SessionsFailExactly(runs);
  }

  // ---------------------------------------------------------------- what complete runs leave

  ghost predicate SameButDates(g: GoldTables, h: GoldTables) {
    && SameRows(g.customers, h.customers, CustomerKey) && SameRows(g.products, h.products, ProductKey)
    && SameRows(g.countries, h.countries, CountryKey)
    && SameRows(g.orders, h.orders, OrderKey) && SameRows(g.sales, h.sales, SaleKey)
    && SameRows(g.sessions, h.sessions, SessionKey) && SameRows(g.inventory, h.inventory, InventoryKey)
  }

  /**
    The stored dates equal a rebuild exactly when the day of every run over an empty Silver is among the last
    run's days.
   */
  lemma DatesEqualExactly(runs: seq<Run>)
    requires IsHistory(runs) && runs != [] && DateTable in runs[|runs| - 1].reached
    ensures StoredIn(runs, DateTable, DatesAt, DateKey).Some?
    ensures SameRows(StoredIn(runs, DateTable, DatesAt, DateKey).value, DatesAt(runs[|runs| - 1]), DateKey) <==>
            forall i | 0 <= i < |runs| && DateTable in runs[i].reached && runs[i].silver.events == map[] ::
              runs[i].today in DatesAt(runs[|runs| - 1])
  {
    var n := |runs| - 1;
    var views := Column(runs, DateTable, DatesAt);
    DateColumn(runs);
    MergedEqualsLastExactly(views, DateKey);
    forall i | 0 <= i < |runs|
      ensures KeysWithin(DatesAt(runs[i]), DatesAt(runs[n]), DateKey) <==>
              (runs[i].silver.events == map[] ==> runs[i].today in DatesAt(runs[n]))
    {
      GrowsBetween(runs, i, n);
      DatesGrowExactly(runs[i].silver, runs[n].silver, runs[i].today, runs[n].today);
    }
  }

  lemma DimensionsStored(runs: seq<Run>)
    requires IsHistory(runs) && runs != [] && runs[|runs| - 1].reached == AllTables
    ensures StoredIsLast(runs, CustomerTable, CustomersAt, CustomerKey)
    ensures StoredIsLast(runs, ProductTable, ProductsAt, ProductKey)
    ensures StoredIsLast(runs, CountryTable, CountriesAt, CountryKey)
  {
    CustomerColumn(runs);
    ProductColumn(runs);
    CountryColumn(runs);
    ColumnEqualsLast(runs, CustomerTable, CustomersAt, CustomerKey);
    ColumnEqualsLast(runs, ProductTable, ProductsAt, ProductKey);
    ColumnEqualsLast(runs, CountryTable, CountriesAt, CountryKey);
  }

  lemma FactsStored(runs: seq<Run>)
    requires IsHistory(runs) && runs != [] && runs[|runs| - 1].reached == AllTables
    requires OneCustomerPerSession(runs[|runs| - 1].silver)
    ensures StoredIsLast(runs, OrderTable, OrdersAt, OrderKey) && StoredIsLast(runs, SaleTable, SalesAt, SaleKey)
    ensures StoredIsLast(runs, SessionTable, SessionsAt, SessionKey)
    ensures StoredIsLast(runs, InventoryTable, InventoryAt, InventoryKey)
  {
    OrderColumn(runs);
    SaleColumn(runs);
    SessionColumn(runs);
    InventoryColumn(runs);
    ColumnEqualsLast(runs, OrderTable, OrdersAt, OrderKey);
    ColumnEqualsLast(runs, SaleTable, SalesAt, SaleKey);
    ColumnEqualsLast(runs, SessionTable, SessionsAt, SessionKey);
    ColumnEqualsLast(runs, InventoryTable, InventoryAt, InventoryKey);
  }

  /**
    However many earlier runs stopped after whichever merges, a complete run leaves what a rebuild would
    give in seven tables; and in the dates, exactly when no run over an empty Silver left a day of its own.
   */
  lemma {:induction false} GoldEqualsRebuildExactly(runs: seq<Run>)
    requires IsHistory(runs) && runs != [] && runs[|runs| - 1].reached == AllTables
    requires OneCustomerPerSession(runs[|runs| - 1].silver)
    ensures AfterRuns(runs).Some? && SameButDates(AfterRuns(runs).value, Rebuild(runs[|runs| - 1]))
    ensures SameRows(AfterRuns(runs).value.dates, DatesAt(runs[|runs| - 1]), DateKey) <==>
            forall i | 0 <= i < |runs| && DateTable in runs[i].reached && runs[i].silver.events == map[] ::
              runs[i].today in DatesAt(runs[|runs| - 1])
  {
    RunsMergeSeparately(runs);
    DimensionsStored(runs);
    FactsStored(runs);
    DatesEqualExactly(runs);
  }

  /** In particular all eight tables equal a rebuild when the first run already sees some event. */
  lemma {:induction false} NonEmptyStartEqualsRebuild(runs: seq<Run>)
    requires IsHistory(runs) && runs != [] && runs[|runs| - 1].reached == AllTables
    requires OneCustomerPerSession(runs[|runs| - 1].silver) && runs[0].silver.events != map[]
    ensures AfterRuns(runs).Some? && SameButDates(AfterRuns(runs).value, Rebuild(runs[|runs| - 1]))
    ensures SameRows(AfterRuns(runs).value.dates, DatesAt(runs[|runs| - 1]), DateKey)
  {
    GoldEqualsRebuildExactly(runs);
    var id :| id in runs[0].silver.events;
    forall i | 0 <= i < |runs| ensures runs[i].silver.events != map[] {
      GrowsBetween(runs, 0, i);
      assert id in runs[i].silver.events;
    }
  }
}
