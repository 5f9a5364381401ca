/**
 * The local store behind the `db-*` IPC handlers of the Electron main process:
 * four tables held in one `Database` object, each handler a method returning the
 * `{ success, data }` / `{ success: false, error }` envelope. Ids that the source
 * draws from `crypto.randomUUID()` and the clock reading are parameters.
 *
 * Before `initializeDatabase` has run, the module-level handle is undefined and
 * every handler's `db.prepare` throws; the `isOpen` flag stands for that handle.
 */
module Store {
  import opened Common
  import opened Records
  import opened Tables
  import opened Calendar
  import opened Sorting
  import opened Sql

  /** SQLite's `CURRENT_TIMESTAMP`: the UTC time of `now`, to the whole second. */
  function SqlNow(now: int): (r: int)
    ensures r <= now < r + 1000 && r % 1000 == 0
  {
    now / 1000 * 1000
  }

  /** The message of the TypeError thrown when the handle is still undefined. */
  const NotOpenError: string := "Cannot read properties of undefined (reading 'prepare')"

  function NotNullError(column: string): string
  {
    "NOT NULL constraint failed: " + column
  }

  function UniqueError(column: string): string
  {
    "UNIQUE constraint failed: " + column
  }

  /** The order a caller hands to `db-create-order`; an absent key binds NULL. */
  datatype OrderData = OrderData(
    customerName: Option<string>,
    customerPhone: Option<string>,
    items: Option<seq<LineItem>>,
    totalAmount: Option<int>,
    pickupDate: Option<int>)

  /** What `db-create-order` echoes back: the inserted columns, `created_at` from the clock. */
  datatype CreatedOrder = CreatedOrder(
    id: string,
    customerName: string,
    customerPhone: Option<string>,
    items: seq<LineItem>,
    totalAmount: int,
    pickupDate: int,
    status: string,
    createdAt: int)

  datatype ExpenseData = ExpenseData(description: string, amount: int, category: string, date: int)
  datatype ItemData = ItemData(name: string, price: int, category: string)
  datatype CustomerData = CustomerData(firstName: string, lastName: string, phone: string)

  datatype DashboardStats = DashboardStats(
    todayRevenue: int,
    monthlyRevenue: int,
    monthlyExpenses: int,
    monthlyProfit: int,
    pendingOrders: int)

  /** The price list seeded into an empty `item_types` table. */
  const DefaultItems: seq<ItemData> := [
    ItemData("Chemise Homme", 500, "V\U{00EA}tements Homme"),
    ItemData("Pantalon Homme", 600, "V\U{00EA}tements Homme"),
    ItemData("Costume", 1200, "V\U{00EA}tements Homme"),
    ItemData("Robe", 800, "V\U{00EA}tements Femme"),
    ItemData("Jupe", 500, "V\U{00EA}tements Femme"),
    ItemData("Blouse", 400, "V\U{00EA}tements Femme"),
    ItemData("T-shirt", 300, "V\U{00EA}tements G\U{00E9}n\U{00E9}ral"),
    ItemData("Jeans", 700, "V\U{00EA}tements G\U{00E9}n\U{00E9}ral"),
    ItemData("Drap de lit", 800, "Linge de maison"),
    ItemData("Serviette", 400, "Linge de maison"),
    ItemData("Nappe", 600, "Linge de maison")
  ]

  function SeedRow(id: string, item: ItemData, createdAt: int): ItemTypeRow
  {
    Row(id, ItemType(item.name, item.price, item.category, createdAt))
  }

  /** Every default item has a name and a positive price. */
  lemma DefaultItemsWellFormed()
    ensures |DefaultItems| == 11
    ensures forall k :: 0 <= k < |DefaultItems| ==> DefaultItems[k].price > 0 && DefaultItems[k].name != ""
  {
  }

  // ---- ORDER BY keys -------------------------------------------------------

  /** `ORDER BY created_at DESC`. */
  predicate NewestFirst(a: OrderRow, b: OrderRow)
  {
    a.fields.createdAt >= b.fields.createdAt
  }

  /** `ORDER BY date DESC`. */
  predicate LatestDateFirst(a: ExpenseRow, b: ExpenseRow)
  {
    a.fields.date >= b.fields.date
  }

  /** `ORDER BY category, name`. */
  predicate ByCategoryThenName(a: ItemTypeRow, b: ItemTypeRow)
  {
    TextPairLe(a.fields.category, a.fields.name, b.fields.category, b.fields.name)
  }

  /** `ORDER BY first_name, last_name`. */
  predicate ByFirstThenLastName(a: CustomerRow, b: CustomerRow)
  {
    TextPairLe(a.fields.firstName, a.fields.lastName, b.fields.firstName, b.fields.lastName)
  }

  lemma OrderKeysArePreorders()
    ensures TotalPreorder(NewestFirst)
    ensures TotalPreorder(LatestDateFirst)
  {
  }

  lemma {:induction false} TextKeysArePreorders()
    ensures TotalPreorder(ByCategoryThenName)
    ensures TotalPreorder(ByFirstThenLastName)
  {
    forall a: ItemTypeRow, b: ItemTypeRow ensures ByCategoryThenName(a, b) || ByCategoryThenName(b, a) {
      TextPairLeTotal(a.fields.category, a.fields.name, b.fields.category, b.fields.name);
    }
    forall a: ItemTypeRow, b: ItemTypeRow, c: ItemTypeRow | ByCategoryThenName(a, b) && ByCategoryThenName(b, c)
      ensures ByCategoryThenName(a, c)
    {
      TextPairLeTrans(a.fields.category, a.fields.name, b.fields.category, b.fields.name, c.fields.category, c.fields.name);
    }
    forall a: CustomerRow, b: CustomerRow ensures ByFirstThenLastName(a, b) || ByFirstThenLastName(b, a) {
      TextPairLeTotal(a.fields.firstName, a.fields.lastName, b.fields.firstName, b.fields.lastName);
    }
    forall a: CustomerRow, b: CustomerRow, c: CustomerRow | ByFirstThenLastName(a, b) && ByFirstThenLastName(b, c)
      ensures ByFirstThenLastName(a, c)
    {
      TextPairLeTrans(a.fields.firstName, a.fields.lastName, b.fields.firstName, b.fields.lastName, c.fields.firstName, c.fields.lastName);
    }
  }

  /** The `WHERE` of `db-search-customers`: any of the three columns is `LIKE '%term%'`. */
  predicate CustomerMatches(c: CustomerRow, term: string)
  {
    Like(c.fields.firstName, Around(term)) || Like(c.fields.lastName, Around(term)) || Like(c.fields.phone, Around(term))
  }

  /** The customers the search keeps, in table order. */
  function Matching(customers: seq<CustomerRow>, term: string): (r: seq<CustomerRow>)
    ensures forall c :: c in r <==> c in customers && CustomerMatches(c, term)
  {
    Filter(customers, (c: CustomerRow) => CustomerMatches(c, term))
  }

  /** A search term without `%` or `_` finds the customers holding it in a column, ASCII case aside. */
  lemma PlainTermMatch(c: CustomerRow, term: string)
    requires forall i :: 0 <= i < |term| ==> !IsWildcard(term[i])
    ensures CustomerMatches(c, term) <==>
      || Contains(AsciiLower(c.fields.firstName), AsciiLower(term))
      || Contains(AsciiLower(c.fields.lastName), AsciiLower(term))
      || Contains(AsciiLower(c.fields.phone), AsciiLower(term))
  {
    LikeAroundIsContains(c.fields.firstName, term);
    LikeAroundIsContains(c.fields.lastName, term);
    LikeAroundIsContains(c.fields.phone, term);
  }

  /** The empty search term matches every customer. */
  lemma EmptyTermMatchesAll(c: CustomerRow)
    ensures CustomerMatches(c, "")
  {
    assert Around("") == "%%";
    LikeAnything(c.fields.firstName);
  }

  // ---- Dashboard rollups ---------------------------------------------------

  function OrderTotal(o: OrderRow): int { o.fields.totalAmount }
  function ExpenseAmount(e: ExpenseRow): int { e.fields.amount }

  /** `DATE(created_at) = today`, today being the UTC date of `now`. */
  predicate CreatedToday(o: OrderRow, now: int)
  {
    UtcDay(o.fields.createdAt) == UtcDay(now)
  }

  /** The `YYYY-MM` built from the local year and month of `now`. */
  function ThisMonth(now: int, offset: int): YearMonth
  {
    YearMonthOfDay(LocalDay(now, offset))
  }

  /** `strftime('%Y-%m', created_at) = thisMonth`; `created_at` holds UTC time. */
  predicate CreatedThisMonth(o: OrderRow, now: int, offset: int)
  {
    YearMonthOfDay(UtcDay(o.fields.createdAt)) == ThisMonth(now, offset)
  }

  /** `strftime('%Y-%m', date) = thisMonth`. */
  predicate DatedThisMonth(e: ExpenseRow, now: int, offset: int)
  {
    YearMonthOfDay(e.fields.date) == ThisMonth(now, offset)
  }

  /** `COALESCE(SUM(total_amount), 0)` over today's orders. */
  function TodayRevenue(orders: seq<OrderRow>, now: int): (r: int)
    ensures (forall o :: o in orders ==> !CreatedToday(o, now)) ==> r == 0
    ensures (forall o :: o in orders ==> CreatedToday(o, now)) ==> r == SumOf(orders, OrderTotal)
    ensures (forall o :: o in orders ==> o.fields.totalAmount >= 0) ==> r >= 0
  {
    var p := (o: OrderRow) => CreatedToday(o, now);
    var todays := Filter(orders, p);
    assert (forall o :: o in orders ==> CreatedToday(o, now)) ==> todays == orders by {
      if forall o :: o in orders ==> CreatedToday(o, now) {
        FilterKeepsAll(orders, p);
      }
    }
    assert (forall o :: o in orders ==> !CreatedToday(o, now)) ==> todays == [] by {
      if forall o :: o in orders ==> !CreatedToday(o, now) {
        FilterKeepsNone(orders, p);
      }
    }
    assert (forall o :: o in orders ==> o.fields.totalAmount >= 0) ==> SumOf(todays, OrderTotal) >= 0 by {
      if forall o :: o in orders ==> o.fields.totalAmount >= 0 {
        SumOfNonNegative(todays, OrderTotal);
      }
    }
    SumOf(todays, OrderTotal)
  }

  function MonthlyRevenue(orders: seq<OrderRow>, now: int, offset: int): (r: int)
    ensures (forall o :: o in orders ==> !CreatedThisMonth(o, now, offset)) ==> r == 0
    ensures (forall o :: o in orders ==> o.fields.totalAmount >= 0) ==> r >= 0
  {
    var p := (o: OrderRow) => CreatedThisMonth(o, now, offset);
    var months := Filter(orders, p);
    assert (forall o :: o in orders ==> !CreatedThisMonth(o, now, offset)) ==> months == [] by {
      if forall o :: o in orders ==> !CreatedThisMonth(o, now, offset) {
        FilterKeepsNone(orders, p);
      }
    }
    assert (forall o :: o in orders ==> o.fields.totalAmount >= 0) ==> SumOf(months, OrderTotal) >= 0 by {
      if forall o :: o in orders ==> o.fields.totalAmount >= 0 {
        SumOfNonNegative(months, OrderTotal);
      }
    }
    SumOf(months, OrderTotal)
  }

  function MonthlyExpenses(expenses: seq<ExpenseRow>, now: int, offset: int): (r: int)
    ensures (forall e :: e in expenses ==> !DatedThisMonth(e, now, offset)) ==> r == 0
    ensures (forall e :: e in expenses ==> e.fields.amount >= 0) ==> r >= 0
  {
    var p := (e: ExpenseRow) => DatedThisMonth(e, now, offset);
    var months := Filter(expenses, p);
    assert (forall e :: e in expenses ==> !DatedThisMonth(e, now, offset)) ==> months == [] by {
      if forall e :: e in expenses ==> !DatedThisMonth(e, now, offset) {
        FilterKeepsNone(expenses, p);
      }
    }
    assert (forall e :: e in expenses ==> e.fields.amount >= 0) ==> SumOf(months, ExpenseAmount) >= 0 by {
      if forall e :: e in expenses ==> e.fields.amount >= 0 {
        SumOfNonNegative(months, ExpenseAmount);
      }
    }
    SumOf(months, ExpenseAmount)
  }

  predicate IsPendingRow(o: OrderRow)
  {
    o.fields.status == Pending
  }

  /** `COUNT(*) ... WHERE status = 'pending'`. */
  function PendingCount(orders: seq<OrderRow>): (r: int)
    ensures 0 <= r <= |orders|
    ensures r == 0 <==> forall o :: o in orders ==> o.fields.status != Pending
  {
    var pending := Filter(orders, IsPendingRow);
    assert (forall o :: o in orders ==> o.fields.status != Pending) ==> pending == [] by {
      if forall o :: o in orders ==> o.fields.status != Pending {
        FilterKeepsNone(orders, IsPendingRow);
      }
    }
    |pending|
  }

  /** One more row raises the pending count by one exactly when that row is pending. */
  lemma PendingCountAppend(orders: seq<OrderRow>, o: OrderRow)
    ensures PendingCount(orders + [o]) == PendingCount(orders) + (if o.fields.status == Pending then 1 else 0)
  {
    FilterAppend(orders, [o], IsPendingRow);
    assert Filter([o], IsPendingRow) == if IsPendingRow(o) then [o] else [] by {
      assert [o][1..] == [];
    }
  }

  /** One more row adds its total to today's revenue exactly when it was created today. */
  lemma TodayRevenueAppend(orders: seq<OrderRow>, o: OrderRow, now: int)
    ensures TodayRevenue(orders + [o], now) ==
            TodayRevenue(orders, now) + (if CreatedToday(o, now) then o.fields.totalAmount else 0)
  {
    var p := (o: OrderRow) => CreatedToday(o, now);
    var todays := Filter(orders, p);
    FilterAppend(orders, [o], p);
    assert Filter([o], p) == if p(o) then [o] else [] by {
      assert [o][1..] == [];
    }
    if p(o) {
      assert (todays + [o])[..|todays|] == todays;
    } else {
      assert todays + [] == todays;
    }
  }

  /** Truncating to the second never leaves the UTC day. */
  lemma SqlNowSameDay(now: int)
    ensures UtcDay(SqlNow(now)) == UtcDay(now)
  {
    var d := now / DayMs;
    var rest := now % DayMs;
    assert now == DayMs * d + rest && 0 <= rest < DayMs;
    assert now / 1000 == 86400 * d + rest / 1000;
    assert SqlNow(now) == DayMs * d + rest / 1000 * 1000;
    assert 0 <= rest / 1000 * 1000 <= rest;
  }

  /**
   * With the local zone at UTC, today's orders are among this month's, so today's
   * revenue never exceeds the month's when totals are non-negative.
   */
  lemma {:induction false} TodayWithinMonthAtUtc(orders: seq<OrderRow>, now: int)
    requires forall o :: o in orders ==> o.fields.totalAmount >= 0
    ensures TodayRevenue(orders, now) <= MonthlyRevenue(orders, now, 0)
  {
    var p := (o: OrderRow) => CreatedToday(o, now);
    var q := (o: OrderRow) => CreatedThisMonth(o, now, 0);
    var pq := (o: OrderRow) => q(o) && p(o);
    assert forall o :: o in orders ==> pq(o) == p(o) by {
      forall o | o in orders ensures pq(o) == p(o) {
        if p(o) {
          assert LocalDay(now, 0) == UtcDay(now);
        }
      }
    }
    FilterCongruent(orders, p, pq);
    FilterFilter(orders, q, p, pq);
    var months := Filter(orders, q);
    SumOfSubsequence(Filter(months, p), months, OrderTotal);
  }

  /**
   * The two buckets disagree away from UTC: at 23:30 UTC on 30 June 2024, one hour
   * ahead of UTC, an order created that instant counts for today but not for July.
   */
  lemma TodayOutsideMonthAwayFromUtc()
    ensures var now := 19904 * DayMs + 84600000;
            var o := Row("o1", Order("Ama", None, [], 1000, 19905, Pending, now, now));
            TodayRevenue([o], now) == 1000 && MonthlyRevenue([o], now, 3600000) == 0
  {
    var now := 19904 * DayMs + 84600000;
    var o := Row("o1", Order("Ama", None, [], 1000, 19905, Pending, now, now));
    JuneLastDate();
    JulyFirstDate();
    assert UtcDay(now) == 19904;
    assert LocalDay(now, 3600000) == 19905;
    assert CreatedToday(o, now);
    assert !CreatedThisMonth(o, now, 3600000);
    assert SumOf([o], OrderTotal) == 1000;
  }

  /** Profit is revenue minus expenses with no floor: it is negative whenever expenses exceed revenue. */
  lemma ProfitCanBeNegative(orders: seq<OrderRow>, expenses: seq<ExpenseRow>, now: int, offset: int)
    requires forall o :: o in orders ==> !CreatedThisMonth(o, now, offset)
    requires exists e :: e in expenses && DatedThisMonth(e, now, offset) && e.fields.amount > 0
    requires forall e :: e in expenses ==> e.fields.amount >= 0
    ensures MonthlyRevenue(orders, now, offset) - MonthlyExpenses(expenses, now, offset) < 0
  {
    var p := (e: ExpenseRow) => DatedThisMonth(e, now, offset);
    var e :| e in expenses && DatedThisMonth(e, now, offset) && e.fields.amount > 0;
    var months := Filter(expenses, p);
    assert MonthlyExpenses(expenses, now, offset) == SumOf(months, ExpenseAmount);
    assert e in months;
    SumOfAtLeastMember(months, e, ExpenseAmount);
  }

  /**
   * `after` is `before` with the status and `updated_at` of the row keyed `orderId`
   * replaced, every other column and row as it was.
   */
  predicate StatusSet(before: seq<OrderRow>, after: seq<OrderRow>, orderId: string, status: string, ts: int)
  {
    && |after| == |before|
    && forall i :: 0 <= i < |before| ==>
         after[i] == if before[i].id == orderId
                     then Row(orderId, before[i].fields.(status := status, updatedAt := ts))
                     else before[i]
  }

  class Database {
    var isOpen: bool
    var orders: seq<OrderRow>
    var expenses: seq<ExpenseRow>
    var itemTypes: seq<ItemTypeRow>
    var customers: seq<CustomerRow>

    /** Every table honours its `id TEXT PRIMARY KEY`. */
    ghost predicate Valid()
      reads this
    {
      UniqueIds(orders) && UniqueIds(expenses) && UniqueIds(itemTypes) && UniqueIds(customers)
    }

    /** The `pressia.db` file as found on disk, before the main process opens it. */
    constructor (orders: seq<OrderRow>, expenses: seq<ExpenseRow>, itemTypes: seq<ItemTypeRow>, customers: seq<CustomerRow>)
      requires UniqueIds(orders) && UniqueIds(expenses) && UniqueIds(itemTypes) && UniqueIds(customers)
      ensures Valid() && !isOpen
      ensures this.orders == orders && this.expenses == expenses
      ensures this.itemTypes == itemTypes && this.customers == customers
    {
      isOpen := false;
      this.orders := orders;
      this.expenses := expenses;
      this.itemTypes := itemTypes;
      this.customers := customers;
    }

    /**
     * `initializeDatabase`: opens the store and, only when `item_types` is empty,
     * inserts the default price list one row at a time with fresh ids.
     */
    method Initialize(ids: seq<string>, now: int)
      requires Valid()
      requires |ids| == |DefaultItems|
      requires forall i, j :: 0 <= i < j < |ids| ==> ids[i] != ids[j]
      modifies this
      ensures Valid() && isOpen
      ensures orders == old(orders) && expenses == old(expenses) && customers == old(customers)
      ensures old(itemTypes) != [] ==> itemTypes == old(itemTypes)
      ensures old(itemTypes) == [] ==>
        |itemTypes| == |DefaultItems| &&
        forall k :: 0 <= k < |DefaultItems| ==> itemTypes[k] == SeedRow(ids[k], DefaultItems[k], SqlNow(now))
    {
      isOpen := true;
      if |itemTypes| == 0 {
        var i := 0;
        while i < |DefaultItems|
          invariant 0 <= i <= |DefaultItems|
          invariant |itemTypes| == i
          invariant forall k :: 0 <= k < i ==> itemTypes[k] == SeedRow(ids[k], DefaultItems[k], SqlNow(now))
          invariant UniqueIds(itemTypes)
          invariant isOpen && orders == old(orders) && expenses == old(expenses) && customers == old(customers)
        {
          var row := SeedRow(ids[i], DefaultItems[i], SqlNow(now));
          InsertKeepsUnique(itemTypes, row);
          itemTypes := itemTypes + [row];
          i := i + 1;
        }
      }
    }

    /** `db-get-orders`: every order, newest first. */
    method GetOrders() returns (r: Reply<seq<OrderRow>>)
      ensures r.Success? <==> isOpen
      ensures r.Failure? ==> r.error == NotOpenError
      ensures r.Success? ==> multiset(r.data) == multiset(orders) && SortedBy(r.data, NewestFirst)
    {
      if !isOpen {
        return Failure(NotOpenError);
      }
      OrderKeysArePreorders();
      InsertionSortCorrect(orders, NewestFirst);
      r := Success(InsertionSort(orders, NewestFirst));
    }

    /**
     * `db-create-order`: inserts one row with status `pending` and both timestamps
     * from the clock; a NULL in a NOT NULL column or a reused id fails and inserts nothing.
     */
    method CreateOrder(id: string, data: OrderData, now: int) returns (r: Reply<CreatedOrder>)
      requires Valid()
      modifies this
      ensures Valid()
      ensures isOpen == old(isOpen) && expenses == old(expenses)
      ensures itemTypes == old(itemTypes) && customers == old(customers)
      ensures r.Success? <==>
        && isOpen
        && data.customerName.Some? && data.items.Some? && data.totalAmount.Some? && data.pickupDate.Some?
        && !HasId(old(orders), id)
      ensures r.Failure? ==> orders == old(orders)
      ensures r.Success? ==>
        && orders == old(orders) + [Row(id, Order(data.customerName.value, data.customerPhone, data.items.value,
                                               data.totalAmount.value, data.pickupDate.value, Pending,
                                               SqlNow(now), SqlNow(now)))]
        && r.data == CreatedOrder(id, data.customerName.value, data.customerPhone, data.items.value,
                                  data.totalAmount.value, data.pickupDate.value, Pending, now)
      ensures r.Success? ==>
        && PendingCount(orders) == PendingCount(old(orders)) + 1
        && TodayRevenue(orders, now) == TodayRevenue(old(orders), now) + data.totalAmount.value
    {
      if !isOpen {
        return Failure(NotOpenError);
      }
      if data.customerName.None? {
        return Failure(NotNullError("orders.customer_name"));
      }
      if data.items.None? {
        return Failure(NotNullError("orders.items"));
      }
      if data.totalAmount.None? {
        return Failure(NotNullError("orders.total_amount"));
      }
      if data.pickupDate.None? {
        return Failure(NotNullError("orders.pickup_date"));
      }
      if Find(orders, id).Some? {
        return Failure(UniqueError("orders.id"));
      }
      var row := Row(id, Order(data.customerName.value, data.customerPhone, data.items.value,
                               data.totalAmount.value, data.pickupDate.value, Pending, SqlNow(now), SqlNow(now)));
      InsertKeepsUnique(orders, row);
      PendingCountAppend(orders, row);
      TodayRevenueAppend(orders, row, now);
      SqlNowSameDay(now);
      orders := orders + [row];
      r := Success(CreatedOrder(id, data.customerName.value, data.customerPhone, data.items.value,
                                data.totalAmount.value, data.pickupDate.value, Pending, now));
    }

    /**
     * `db-update-order-status`: sets the status and `updated_at` of the row with that
     * id, leaving every other column and row alone; an unknown id changes nothing
     * and still succeeds.
     */
    method UpdateOrderStatus(orderId: string, status: string, now: int) returns (r: Reply<()>)
      requires Valid()
      modifies this
      ensures Valid()
      ensures isOpen == old(isOpen) && expenses == old(expenses)
      ensures itemTypes == old(itemTypes) && customers == old(customers)
      ensures r.Success? <==> isOpen
      ensures isOpen ==> StatusSet(old(orders), orders, orderId, status, SqlNow(now))
      ensures !isOpen || !HasId(old(orders), orderId) ==> orders == old(orders)
    {
      if !isOpen {
        return Failure(NotOpenError);
      }
      var ts := SqlNow(now);
      var f := (o: Order) => o.(status := status, updatedAt := ts);
      UpdateKeepsUnique(orders, orderId, f);
      if !HasId(orders, orderId) {
        UpdateMissing(orders, orderId, f);
      }
      orders := UpdateWhere(orders, orderId, f);
      r := Success(());
    }

    /** `db-get-expenses`: every expense, latest date first. */
    method GetExpenses() returns (r: Reply<seq<ExpenseRow>>)
      ensures r.Success? <==> isOpen
      ensures r.Success? ==> multiset(r.data) == multiset(expenses) && SortedBy(r.data, LatestDateFirst)
    {
      if !isOpen {
        return Failure(NotOpenError);
      }
      OrderKeysArePreorders();
      InsertionSortCorrect(expenses, LatestDateFirst);
      r := Success(InsertionSort(expenses, LatestDateFirst));
    }

    /** `db-create-expense`: appends one row and answers its id. */
    method CreateExpense(id: string, data: ExpenseData, now: int) returns (r: Reply<string>)
      requires Valid()
      modifies this
      ensures Valid()
      ensures isOpen == old(isOpen) && orders == old(orders)
      ensures itemTypes == old(itemTypes) && customers == old(customers)
      ensures r.Success? <==> isOpen && !HasId(old(expenses), id)
      ensures r.Success? ==>
        && r.data == id
        && expenses == old(expenses) + [Row(id, Expense(data.description, data.amount, data.category, data.date, SqlNow(now)))]
      ensures r.Failure? ==> expenses == old(expenses)
    {
      if !isOpen {
        return Failure(NotOpenError);
      }
      if Find(expenses, id).Some? {
        return Failure(UniqueError("expenses.id"));
      }
      var row := Row(id, Expense(data.description, data.amount, data.category, data.date, SqlNow(now)));
      InsertKeepsUnique(expenses, row);
      expenses := expenses + [row];
      r := Success(id);
    }

    /** `db-update-expense`: overwrites the four editable columns of the matching row only. */
    method UpdateExpense(expenseId: string, data: ExpenseData) returns (r: Reply<string>)
      requires Valid()
      modifies this
      ensures Valid()
      ensures isOpen == old(isOpen) && orders == old(orders)
      ensures itemTypes == old(itemTypes) && customers == old(customers)
      ensures r.Success? <==> isOpen
      ensures r.Success? ==> r.data == expenseId
      ensures |expenses| == |old(expenses)|
      ensures forall i :: 0 <= i < |expenses| ==>
        expenses[i] == if isOpen && old(expenses)[i].id == expenseId
                       then Row(expenseId, Expense(data.description, data.amount, data.category, data.date,
                                                   old(expenses)[i].fields.createdAt))
                       else old(expenses)[i]
      ensures !HasId(old(expenses), expenseId) ==> expenses == old(expenses)
    {
      if !isOpen {
        return Failure(NotOpenError);
      }
      var f := (e: Expense) => Expense(data.description, data.amount, data.category, data.date, e.createdAt);
      UpdateKeepsUnique(expenses, expenseId, f);
      if !HasId(expenses, expenseId) {
        UpdateMissing(expenses, expenseId, f);
      }
      expenses := UpdateWhere(expenses, expenseId, f);
      r := Success(expenseId);
    }

    /** `db-delete-expense`: removes the row with that id, if there is one, and succeeds either way. */
    method DeleteExpense(expenseId: string) returns (r: Reply<string>)
      requires Valid()
      modifies this
      ensures Valid()
      ensures isOpen == old(isOpen) && orders == old(orders)
      ensures itemTypes == old(itemTypes) && customers == old(customers)
      ensures r.Success? <==> isOpen
      ensures r.Success? ==> r.data == expenseId
      ensures !isOpen ==> expenses == old(expenses)
      ensures isOpen ==>
        && IsSubsequence(expenses, old(expenses))
        && (forall e :: e in expenses ==> e.id != expenseId)
        && (forall e :: e in old(expenses) && e.id != expenseId ==> e in expenses)
        && |expenses| == if HasId(old(expenses), expenseId) then |old(expenses)| - 1 else |old(expenses)|
    {
      if !isOpen {
        return Failure(NotOpenError);
      }
      DeleteKeepsUnique(expenses, expenseId);
      DeleteCount(expenses, expenseId);
      expenses := DeleteWhere(expenses, expenseId);
      r := Success(expenseId);
    }

    /** `db-get-item-types`: the price list by category, then name. */
    method GetItemTypes() returns (r: Reply<seq<ItemTypeRow>>)
      ensures r.Success? <==> isOpen
      ensures r.Success? ==> multiset(r.data) == multiset(itemTypes) && SortedBy(r.data, ByCategoryThenName)
    {
      if !isOpen {
        return Failure(NotOpenError);
      }
      TextKeysArePreorders();
      InsertionSortCorrect(itemTypes, ByCategoryThenName);
      r := Success(InsertionSort(itemTypes, ByCategoryThenName));
    }

    /** `db-create-item-type`: appends one row and answers its id. */
    method CreateItemType(id: string, data: ItemData, now: int) returns (r: Reply<string>)
      requires Valid()
      modifies this
      ensures Valid()
      ensures isOpen == old(isOpen) && orders == old(orders)
      ensures expenses == old(expenses) && customers == old(customers)
      ensures r.Success? <==> isOpen && !HasId(old(itemTypes), id)
      ensures r.Success? ==> r.data == id && itemTypes == old(itemTypes) + [SeedRow(id, data, SqlNow(now))]
      ensures r.Failure? ==> itemTypes == old(itemTypes)
    {
      if !isOpen {
        return Failure(NotOpenError);
      }
      if Find(itemTypes, id).Some? {
        return Failure(UniqueError("item_types.id"));
      }
      var row := SeedRow(id, data, SqlNow(now));
      InsertKeepsUnique(itemTypes, row);
      itemTypes := itemTypes + [row];
      r := Success(id);
    }

    /** `db-update-item-type`: overwrites name, price and category of the matching row only. */
    method UpdateItemType(itemId: string, data: ItemData) returns (r: Reply<string>)
      requires Valid()
      modifies this
      ensures Valid()
      ensures isOpen == old(isOpen) && orders == old(orders)
      ensures expenses == old(expenses) && customers == old(customers)
      ensures r.Success? <==> isOpen
      ensures r.Success? ==> r.data == itemId
      ensures |itemTypes| == |old(itemTypes)|
      ensures forall i :: 0 <= i < |itemTypes| ==>
        itemTypes[i] == if isOpen && old(itemTypes)[i].id == itemId
                        then Row(itemId, ItemType(data.name, data.price, data.category, old(itemTypes)[i].fields.createdAt))
                        else old(itemTypes)[i]
      ensures !HasId(old(itemTypes), itemId) ==> itemTypes == old(itemTypes)
    {
      if !isOpen {
        return Failure(NotOpenError);
      }
      var f := (t: ItemType) => ItemType(data.name, data.price, data.category, t.createdAt);
      UpdateKeepsUnique(itemTypes, itemId, f);
      if !HasId(itemTypes, itemId) {
        UpdateMissing(itemTypes, itemId, f);
      }
      itemTypes := UpdateWhere(itemTypes, itemId, f);
      r := Success(itemId);
    }

    /** `db-delete-item-type`: removes the row with that id, if there is one, and succeeds either way. */
    method DeleteItemType(itemId: string) returns (r: Reply<string>)
      requires Valid()
      modifies this
      ensures Valid()
      ensures isOpen == old(isOpen) && orders == old(orders)
      ensures expenses == old(expenses) && customers == old(customers)
      ensures r.Success? <==> isOpen
      ensures r.Success? ==> r.data == itemId
      ensures !isOpen ==> itemTypes == old(itemTypes)
      ensures isOpen ==>
        && IsSubsequence(itemTypes, old(itemTypes))
        && (forall t :: t in itemTypes ==> t.id != itemId)
        && (forall t :: t in old(itemTypes) && t.id != itemId ==> t in itemTypes)
        && |itemTypes| == if HasId(old(itemTypes), itemId) then |old(itemTypes)| - 1 else |old(itemTypes)|
    {
      if !isOpen {
        return Failure(NotOpenError);
      }
      DeleteKeepsUnique(itemTypes, itemId);
      DeleteCount(itemTypes, itemId);
      itemTypes := DeleteWhere(itemTypes, itemId);
      r := Success(itemId);
    }

    /** `db-get-customers`: the address book by first name, then last name. */
    method GetCustomers() returns (r: Reply<seq<CustomerRow>>)
      ensures r.Success? <==> isOpen
      ensures r.Success? ==> multiset(r.data) == multiset(customers) && SortedBy(r.data, ByFirstThenLastName)
    {
      if !isOpen {
        return Failure(NotOpenError);
      }
      TextKeysArePreorders();
      InsertionSortCorrect(customers, ByFirstThenLastName);
      r := Success(InsertionSort(customers, ByFirstThenLastName));
    }

    /** `db-create-customer`: appends one row and answers its id. */
    method CreateCustomer(id: string, data: CustomerData, now: int) returns (r: Reply<string>)
      requires Valid()
      modifies this
      ensures Valid()
      ensures isOpen == old(isOpen) && orders == old(orders)
      ensures expenses == old(expenses) && itemTypes == old(itemTypes)
      ensures r.Success? <==> isOpen && !HasId(old(customers), id)
      ensures r.Success? ==>
        && r.data == id
        && customers == old(customers) + [Row(id, Customer(data.firstName, data.lastName, data.phone, SqlNow(now)))]
      ensures r.Failure? ==> customers == old(customers)
    {
      if !isOpen {
        return Failure(NotOpenError);
      }
      if Find(customers, id).Some? {
        return Failure(UniqueError("customers.id"));
      }
      var row := Row(id, Customer(data.firstName, data.lastName, data.phone, SqlNow(now)));
      InsertKeepsUnique(customers, row);
      customers := customers + [row];
      r := Success(id);
    }

    /** `db-update-customer`: overwrites the three editable columns of the matching row only. */
    method UpdateCustomer(customerId: string, data: CustomerData) returns (r: Reply<string>)
      requires Valid()
      modifies this
      ensures Valid()
      ensures isOpen == old(isOpen) && orders == old(orders)
      ensures expenses == old(expenses) && itemTypes == old(itemTypes)
      ensures r.Success? <==> isOpen
      ensures r.Success? ==> r.data == customerId
      ensures |customers| == |old(customers)|
      ensures forall i :: 0 <= i < |customers| ==>
        customers[i] == if isOpen && old(customers)[i].id == customerId
                        then Row(customerId, Customer(data.firstName, data.lastName, data.phone,
                                                      old(customers)[i].fields.createdAt))
                        else old(customers)[i]
      ensures !HasId(old(customers), customerId) ==> customers == old(customers)
    {
      if !isOpen {
        return Failure(NotOpenError);
      }
      var f := (c: Customer) => Customer(data.firstName, data.lastName, data.phone, c.createdAt);
      UpdateKeepsUnique(customers, customerId, f);
      if !HasId(customers, customerId) {
        UpdateMissing(customers, customerId, f);
      }
      customers := UpdateWhere(customers, customerId, f);
      r := Success(customerId);
    }

    /** `db-delete-customer`: removes the row with that id, if there is one, and succeeds either way. */
    method DeleteCustomer(customerId: string) returns (r: Reply<string>)
      requires Valid()
      modifies this
      ensures Valid()
      ensures isOpen == old(isOpen) && orders == old(orders)
      ensures expenses == old(expenses) && itemTypes == old(itemTypes)
      ensures r.Success? <==> isOpen
      ensures r.Success? ==> r.data == customerId
      ensures !isOpen ==> customers == old(customers)
      ensures isOpen ==>
        && IsSubsequence(customers, old(customers))
        && (forall c :: c in customers ==> c.id != customerId)
        && (forall c :: c in old(customers) && c.id != customerId ==> c in customers)
        && |customers| == if HasId(old(customers), customerId) then |old(customers)| - 1 else |old(customers)|
    {
      if !isOpen {
        return Failure(NotOpenError);
      }
      DeleteKeepsUnique(customers, customerId);
      DeleteCount(customers, customerId);
      customers := DeleteWhere(customers, customerId);
      r := Success(customerId);
    }

    /** `db-search-customers`: the customers with the term in a column, by first name, then last name. */
    method SearchCustomers(term: string) returns (r: Reply<seq<CustomerRow>>)
      ensures r.Success? <==> isOpen
      ensures r.Success? ==>
        && (forall c :: c in r.data ==> c in customers && CustomerMatches(c, term))
        && (forall c :: c in customers && CustomerMatches(c, term) ==> c in r.data)
        && multiset(r.data) == multiset(Matching(customers, term))
        && SortedBy(r.data, ByFirstThenLastName)
    {
      if !isOpen {
        return Failure(NotOpenError);
      }
      var found := Matching(customers, term);
      TextKeysArePreorders();
      InsertionSortCorrect(found, ByFirstThenLastName);
      var sorted := InsertionSort(found, ByFirstThenLastName);
      assert forall c :: c in sorted <==> c in multiset(found);
      r := Success(sorted);
    }

    /** `db-get-dashboard-stats`, `now` being the clock and `offset` the local zone's lead on UTC. */
    method GetDashboardStats(now: int, offset: int) returns (r: Reply<DashboardStats>)
      ensures r.Success? <==> isOpen
      ensures r.Success? ==>
        && r.data.todayRevenue == TodayRevenue(orders, now)
        && r.data.monthlyRevenue == MonthlyRevenue(orders, now, offset)
        && r.data.monthlyExpenses == MonthlyExpenses(expenses, now, offset)
        && r.data.monthlyProfit == r.data.monthlyRevenue - r.data.monthlyExpenses
        && r.data.pendingOrders == PendingCount(orders)
    {
      if !isOpen {
        return Failure(NotOpenError);
      }
      var revenue := MonthlyRevenue(orders, now, offset);
      var spent := MonthlyExpenses(expenses, now, offset);
      r := Success(DashboardStats(TodayRevenue(orders, now), revenue, spent, revenue - spent, PendingCount(orders)));
    }
  }

  /** A delete removes one row when the id is present and none otherwise. */
  lemma DeleteCount<D>(t: seq<Row<D>>, id: string)
    requires UniqueIds(t)
    ensures |DeleteWhere(t, id)| == if HasId(t, id) then |t| - 1 else |t|
  {
    if HasId(t, id) {
      var k :| 0 <= k < |t| && t[k].id == id;
      DeleteOne(t, k);
    } else {
      DeleteMissing(t, id);
    }
  }
}
