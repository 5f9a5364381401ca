/**
 * The dashboard: the five most recent orders with their action buttons, and the
 * stat cards drawn from the figures the parent hands down.
 */
module Dashboard {
  import opened Common
  import opened Records
  import opened Sorting
  import opened Store
  import opened OrderActions

  const RecentCount: nat := 5

  /** `result.data.slice(0, 5)`: the head of the list, at most five orders. */
  function RecentOrders(orders: seq<OrderRow>): (r: seq<OrderRow>)
    ensures r <= orders
    ensures |r| == if |orders| < RecentCount then |orders| else RecentCount
  {
    if |orders| <= RecentCount then orders else orders[..RecentCount]
  }

  /** The orders shown are taken from the list, each no more often than it occurs there. */
  lemma RecentWithinOrders(orders: seq<OrderRow>)
    ensures multiset(RecentOrders(orders)) <= multiset(orders)
  {
    var r := RecentOrders(orders);
    assert orders == r + orders[|r|..];
  }

  /** Taken from a list sorted newest first, no order left out is newer than one shown. */
  lemma RecentAreNewest(orders: seq<OrderRow>)
    requires SortedBy(orders, NewestFirst)
    ensures forall o, p :: o in RecentOrders(orders) && p in orders && p !in RecentOrders(orders) ==>
      o.fields.createdAt >= p.fields.createdAt
  {
    var r := RecentOrders(orders);
    forall o, p | o in r && p in orders && p !in r
      ensures o.fields.createdAt >= p.fields.createdAt
    {
      var i :| 0 <= i < |r| && r[i] == o;
      var j :| 0 <= j < |orders| && orders[j] == p;
      assert j >= |r|;
      assert orders[i] == o;
    }
  }

  /**
   * A JavaScript property read on the stats object the store sends: only its five
   * keys are present, any other name reads as `undefined`.
   */
  function StatsField(stats: DashboardStats, key: string): (r: Option<int>)
    ensures r.Some? <==> key in {"todayRevenue", "monthlyRevenue", "monthlyExpenses", "monthlyProfit", "pendingOrders"}
  {
    if key == "todayRevenue" then Some(stats.todayRevenue)
    else if key == "monthlyRevenue" then Some(stats.monthlyRevenue)
    else if key == "monthlyExpenses" then Some(stats.monthlyExpenses)
    else if key == "monthlyProfit" then Some(stats.monthlyProfit)
    else if key == "pendingOrders" then Some(stats.pendingOrders)
    else None
  }

  datatype CardColors = CardColors(text: string, background: string)

  const GreenCard: CardColors := CardColors("text-green-600", "bg-green-50")
  const RedCard: CardColors := CardColors("text-red-600", "bg-red-50")

  /** The profit card: green when the figure read is at least zero; `undefined >= 0` is false. */
  function ProfitCardColors(monthProfit: Option<int>): (r: CardColors)
    ensures r == GreenCard <==> monthProfit.Some? && monthProfit.value >= 0
    ensures r == GreenCard || r == RedCard
  {
    if monthProfit.Some? && monthProfit.value >= 0 then GreenCard else RedCard
  }

  /** The card reads `monthProfit`, a key the store's stats do not carry: it is red whatever the figures. */
  lemma ProfitCardIgnoresStats(stats: DashboardStats)
    ensures ProfitCardColors(StatsField(stats, "monthProfit")) == RedCard
  {
    assert StatsField(stats, "monthProfit").None?;
  }

  class DashboardPage {
    var recentOrders: seq<OrderRow>
    var isLoading: bool

    constructor ()
      ensures recentOrders == [] && isLoading
    {
      recentOrders := [];
      isLoading := true;
    }

    /** `loadRecentOrders`: the head of the list on success, the old one otherwise; loading ends. */
    method LoadRecentOrders(reply: Reply<seq<OrderRow>>)
      modifies this
      ensures recentOrders == if reply.Success? then RecentOrders(reply.data) else old(recentOrders)
      ensures !isLoading
    {
      if reply.Success? {
        recentOrders := RecentOrders(reply.data);
      }
      isLoading := false;
    }

    /**
     * `loadRecentOrders` as it runs: the store's list is fetched and, when the store
     * answers, its head is shown; otherwise the old list stays. Loading ends.
     */
    method ReloadRecentOrders(db: Database)
      requires db.Valid()
      modifies this
      ensures !isLoading
      ensures !db.isOpen ==> recentOrders == old(recentOrders)
      ensures db.isOpen ==>
        && |recentOrders| == (if |db.orders| < RecentCount then |db.orders| else RecentCount)
        && multiset(recentOrders) <= multiset(db.orders)
        && (forall o :: o in recentOrders ==> o in db.orders)
        && SortedBy(recentOrders, NewestFirst)
        && (forall o, p :: o in recentOrders && p in db.orders && p !in recentOrders ==>
              o.fields.createdAt >= p.fields.createdAt)
    {
      var reply := db.GetOrders();
      if reply.Failure? {
        LoadRecentOrders(reply);
        return;
      }
      assert |reply.data| == |db.orders| by {
        assert |multiset(reply.data)| == |multiset(db.orders)|;
      }
      var r := RecentOrders(reply.data);
      assert multiset(r) <= multiset(db.orders) by {
        RecentWithinOrders(reply.data);
      }
      assert forall o :: o in r ==> o in db.orders by {
        forall o | o in r ensures o in db.orders {
          assert o in multiset(r);
        }
      }
      assert forall o, p :: o in r && p in db.orders && p !in r ==> o.fields.createdAt >= p.fields.createdAt by {
        RecentAreNewest(reply.data);
        forall p | p in db.orders ensures p in reply.data {
          assert p in multiset(db.orders);
        }
      }
      LoadRecentOrders(reply);
    }

    /**
     * `handleStatusUpdate`: asks the store to change the status; on success the
     * recent orders are fetched again and the parent refreshes its figures.
     */
    method HandleStatusUpdate(db: Database, orderId: string, newStatus: string, now: int)
      returns (notified: bool)
      requires db.Valid()
      modifies this, db
      ensures db.Valid()
      ensures notified <==> db.isOpen
      ensures db.isOpen == old(db.isOpen)
      ensures db.expenses == old(db.expenses) && db.itemTypes == old(db.itemTypes)
      ensures db.customers == old(db.customers)
      ensures notified ==> StatusSet(old(db.orders), db.orders, orderId, newStatus, SqlNow(now))
      ensures !notified ==> db.orders == old(db.orders)
      ensures notified ==>
        && !isLoading
        && |recentOrders| == (if |db.orders| < RecentCount then |db.orders| else RecentCount)
        && multiset(recentOrders) <= multiset(db.orders)
        && (forall o :: o in recentOrders ==> o in db.orders)
        && SortedBy(recentOrders, NewestFirst)
        && (forall o, p :: o in recentOrders && p in db.orders && p !in recentOrders ==>
              o.fields.createdAt >= p.fields.createdAt)
      ensures !notified ==> recentOrders == old(recentOrders) && isLoading == old(isLoading)
    {
      var result := db.UpdateOrderStatus(orderId, newStatus, now);
      notified := result.Success?;
      if notified {
        ReloadRecentOrders(db);
      }
    }

    /** The button beside a recent order: present only for the next workflow step. */
    method Advance(db: Database, order: OrderRow, now: int) returns (notified: bool)
      requires db.Valid()
      modifies this, db
      ensures db.Valid()
      ensures NextStatus(order.fields.status).None? ==>
        !notified && db.orders == old(db.orders) && recentOrders == old(recentOrders)
      ensures NextStatus(order.fields.status).Some? ==>
        && (notified <==> db.isOpen)
        && (notified ==> StatusSet(old(db.orders), db.orders, order.id, NextStatus(order.fields.status).value, SqlNow(now)))
      ensures !notified ==> db.orders == old(db.orders) && recentOrders == old(recentOrders) && isLoading == old(isLoading)
      ensures notified ==>
        && !isLoading
        && |recentOrders| == (if |db.orders| < RecentCount then |db.orders| else RecentCount)
        && multiset(recentOrders) <= multiset(db.orders)
        && (forall o :: o in recentOrders ==> o in db.orders)
        && SortedBy(recentOrders, NewestFirst)
        && (forall o, p :: o in recentOrders && p in db.orders && p !in recentOrders ==>
              o.fields.createdAt >= p.fields.createdAt)
      ensures db.isOpen == old(db.isOpen)
      ensures db.expenses == old(db.expenses) && db.itemTypes == old(db.itemTypes)
      ensures db.customers == old(db.customers)
    {
      var next := NextStatus(order.fields.status);
      if next.Some? {
        notified := HandleStatusUpdate(db, order.id, next.value, now);
      } else {
        notified := false;
      }
    }
  }
}
