/**
 * The order-tracking page: a pickup priority per order, four summary counts,
 * filters by search text, status and pickup window, and a status change that waits
 * for the user to confirm it. A pickup date is the UTC midnight that
 * `new Date('YYYY-MM-DD')` denotes; "now" and the local zone offset are parameters.
 */
module Tracking {
  import opened Common
  import opened Records
  import opened Calendar
  import opened Store
  import opened OrderActions
  import opened Sorting

  // ---- getOrderPriority ----------------------------------------------------

  /** `Math.ceil(diff / (24 * 60 * 60 * 1000))`: the whole days a span of `diff` ms reaches into. */
  function DaysUntil(diff: int): (r: int)
    ensures (r - 1) * DayMs < diff <= r * DayMs
  {
    -((-diff) / DayMs)
  }

  datatype Priority = Overdue | DueToday | DueTomorrow | Urgent | Normal
  {
    /** The key the lookup tables are indexed by. */
    function Key(): string
    {
      match this
      case Overdue => "overdue"
      case DueToday => "today"
      case DueTomorrow => "tomorrow"
      case Urgent => "urgent"
      case Normal => "normal"
    }
  }

  function PickupInstant(o: OrderRow): int
  {
    MidnightUtc(o.fields.pickupDate)
  }

  /**
   * `getOrderPriority`. Only a pending order is ever urgent: overdue once its pickup
   * instant has passed, due today only at that very instant, due tomorrow within
   * the next day, urgent within three days, normal beyond.
   */
  function GetOrderPriority(o: OrderRow, now: int): (r: Priority)
    ensures o.fields.status != Pending ==> r == Normal
    ensures r == Overdue <==> o.fields.status == Pending && PickupInstant(o) < now
    ensures r == DueToday <==> o.fields.status == Pending && PickupInstant(o) == now
    ensures r == DueTomorrow <==> o.fields.status == Pending && now < PickupInstant(o) <= now + DayMs
    ensures r == Urgent <==> o.fields.status == Pending && now + DayMs < PickupInstant(o) <= now + 3 * DayMs
    ensures r == Normal <==> o.fields.status != Pending || PickupInstant(o) > now + 3 * DayMs
  {
    var pickup := PickupInstant(o);
    var days := DaysUntil(pickup - now);
    var pending := o.fields.status == Pending;
    if pickup < now && pending then Overdue
    else if days == 0 && pending then DueToday
    else if days == 1 && pending then DueTomorrow
    else if days <= 3 && pending then Urgent
    else Normal
  }

  /** A pending order due on today's UTC date is already overdue once that day's midnight has passed. */
  lemma DueTodayIsOverdue(o: OrderRow, now: int)
    requires o.fields.status == Pending && o.fields.pickupDate == UtcDay(now) && now % DayMs != 0
    ensures GetOrderPriority(o, now) == Overdue
  {
  }

  // ---- the priority lookup tables ------------------------------------------

  predicate IsPriorityKey(key: string)
  {
    key == "overdue" || key == "today" || key == "tomorrow" || key == "urgent" || key == "normal"
  }

  const NormalColor: string := "border-gray-200 bg-gray-50"
  const NormalIcon: Icon := Calendar
  const NormalText: string := "Normal"
  const NormalTextColor: string := "text-gray-600"

  /** `getPriorityColor`: the card border and background. */
  function PriorityColor(key: string): (r: string)
    ensures !IsPriorityKey(key) ==> r == NormalColor
  {
    if key == "overdue" then "border-red-500 bg-red-50"
    else if key == "today" then "border-orange-500 bg-orange-50"
    else if key == "tomorrow" then "border-yellow-500 bg-yellow-50"
    else if key == "urgent" then "border-blue-500 bg-blue-50"
    else NormalColor
  }

  datatype Icon = AlertTriangle | Clock | Calendar

  /** `getPriorityIcon`. */
  function PriorityIcon(key: string): (r: Icon)
    ensures !IsPriorityKey(key) ==> r == NormalIcon
    ensures r == Clock <==> key == "today" || key == "tomorrow" || key == "urgent"
  {
    if key == "overdue" then AlertTriangle
    else if key == "today" || key == "tomorrow" || key == "urgent" then Clock
    else NormalIcon
  }

  /** `getPriorityText`: the translation key of the label, or the literal `Normal`. */
  function PriorityText(key: string): (r: string)
    ensures !IsPriorityKey(key) ==> r == NormalText
  {
    if key == "overdue" then "orders.overdue"
    else if key == "today" then "orders.dueToday"
    else if key == "tomorrow" then "orders.dueTomorrow"
    else if key == "urgent" then "orders.dueSoon"
    else NormalText
  }

  /** `getPriorityTextColor`. */
  function PriorityTextColor(key: string): (r: string)
    ensures !IsPriorityKey(key) ==> r == NormalTextColor
  {
    if key == "overdue" then "text-red-600"
    else if key == "today" then "text-orange-600"
    else if key == "tomorrow" then "text-yellow-600"
    else if key == "urgent" then "text-blue-600"
    else NormalTextColor
  }

  /** Every priority an order gets has its own entry in each table; the colours tell them apart. */
  lemma PriorityLookupsTotal(o: OrderRow, now: int)
    ensures IsPriorityKey(GetOrderPriority(o, now).Key())
    ensures forall p: Priority, q: Priority :: p != q ==> PriorityColor(p.Key()) != PriorityColor(q.Key())
  {
  }

  // ---- filterOrders --------------------------------------------------------

  /** Lower-casing the name misses, and there is no phone to call `includes` on: a TypeError. */
  predicate Throws(o: OrderRow, term: string)
  {
    !Contains(ToLower(o.fields.customerName), ToLower(term)) && o.fields.customerPhone.None?
  }

  /** The search test: the name ignoring case, the phone and the id as typed. */
  predicate TrackingHit(o: OrderRow, term: string)
  {
    || Contains(ToLower(o.fields.customerName), ToLower(term))
    || (o.fields.customerPhone.Some? && Contains(o.fields.customerPhone.value, term))
    || Contains(o.id, term)
  }

  /** The search step: `None` when the callback throws on some order. */
  function SearchOrders(orders: seq<OrderRow>, term: string): (r: Option<seq<OrderRow>>)
    ensures r.None? <==> exists o :: o in orders && Throws(o, term)
    ensures r.Some? ==> r.value == Filter(orders, (o: OrderRow) => TrackingHit(o, term))
  {
    if exists o :: o in orders && Throws(o, term) then None
    else Some(Filter(orders, (o: OrderRow) => TrackingHit(o, term)))
  }

  /** The pickup windows of the date select; `all` and any other value keep every order. */
  predicate DateKept(o: OrderRow, dateFilter: string, now: int, offset: int)
  {
    var pickup := PickupInstant(o);
    var pending := o.fields.status == Pending;
    if dateFilter == "overdue" then pickup < now && pending
    else if dateFilter == "today" then LocalDay(pickup, offset) == LocalDay(now, offset) && pending
    else if dateFilter == "tomorrow" then LocalDay(pickup, offset) == LocalDay(now + DayMs, offset) && pending
    else if dateFilter == "this_week" then now <= pickup <= now + 7 * DayMs && pending
    else true
  }

  predicate IsWindow(dateFilter: string)
  {
    dateFilter == "overdue" || dateFilter == "today" || dateFilter == "tomorrow" || dateFilter == "this_week"
  }

  predicate TrackingShown(o: OrderRow, searchTerm: string, statusFilter: string, dateFilter: string,
                          now: int, offset: int)
  {
    && (searchTerm == "" || TrackingHit(o, searchTerm))
    && (statusFilter == "all" || o.fields.status == statusFilter)
    && DateKept(o, dateFilter, now, offset)
  }

  /**
   * `filterOrders`: search (only for a non-empty term), then status, then pickup
   * window, each keeping the order of the list; `None` when the search throws.
   */
  function TrackingFilter(orders: seq<OrderRow>, searchTerm: string, statusFilter: string, dateFilter: string,
                          now: int, offset: int): (r: Option<seq<OrderRow>>)
    ensures r.None? <==> searchTerm != "" && exists o :: o in orders && Throws(o, searchTerm)
    ensures r.Some? ==> IsSubsequence(r.value, orders)
    ensures r.Some? ==> forall o :: o in r.value <==>
      o in orders && TrackingShown(o, searchTerm, statusFilter, dateFilter, now, offset)
    ensures searchTerm == "" && statusFilter == "all" && dateFilter == "all" ==> r == Some(orders)
  {
    SubsequenceRefl(orders);
    var searched := if searchTerm != "" then SearchOrders(orders, searchTerm) else Some(orders);
    if searched.None? then None
    else
      var byStatus := if statusFilter != "all"
                      then Filter(searched.value, (o: OrderRow) => o.fields.status == statusFilter)
                      else searched.value;
      var byDate := if dateFilter != "all"
                    then Filter(byStatus, (o: OrderRow) => DateKept(o, dateFilter, now, offset))
                    else byStatus;
      SubsequenceRefl(searched.value);
      SubsequenceRefl(byStatus);
      SubsequenceTrans(byStatus, searched.value, orders);
      SubsequenceTrans(byDate, byStatus, orders);
      Some(byDate)
  }

  /** Every pickup window shows pending orders only. */
  lemma WindowsKeepPending(orders: seq<OrderRow>, searchTerm: string, statusFilter: string, dateFilter: string,
                           now: int, offset: int)
    requires IsWindow(dateFilter)
    ensures var r := TrackingFilter(orders, searchTerm, statusFilter, dateFilter, now, offset);
      r.Some? ==> forall o :: o in r.value ==> o.fields.status == Pending
  {
  }

  /** The overdue window holds exactly the orders whose priority is overdue. */
  lemma OverdueWindowIsPriority(o: OrderRow, now: int, offset: int)
    ensures DateKept(o, "overdue", now, offset) <==> GetOrderPriority(o, now) == Overdue
  {
  }

  // ---- summary cards -------------------------------------------------------

  /** A summary card: how many of all loaded orders fall in a window, whatever the filters. */
  function WindowCount(orders: seq<OrderRow>, window: string, now: int, offset: int): (r: nat)
    ensures r <= |orders|
    ensures r == 0 <==> forall o :: o in orders ==> !DateKept(o, window, now, offset)
  {
    var inWindow := Filter(orders, (o: OrderRow) => DateKept(o, window, now, offset));
    assert (forall o :: o in orders ==> !DateKept(o, window, now, offset)) ==> inWindow == [] by {
      if forall o :: o in orders ==> !DateKept(o, window, now, offset) {
        FilterKeepsNone(orders, (o: OrderRow) => DateKept(o, window, now, offset));
      }
    }
    |inWindow|
  }

  /** A card counts what choosing its window, with no search and every status, would list. */
  lemma {:induction false} CardMatchesFilter(orders: seq<OrderRow>, window: string, now: int, offset: int)
    requires IsWindow(window)
    ensures TrackingFilter(orders, "", "all", window, now, offset).Some?
    ensures WindowCount(orders, window, now, offset) == |TrackingFilter(orders, "", "all", window, now, offset).value|
  {
    FilterCongruent(orders, (o: OrderRow) => DateKept(o, window, now, offset),
                            (o: OrderRow) => DateKept(o, window, now, offset));
  }

  // ---- the page ------------------------------------------------------------

  datatype StatusChange = StatusChange(orderId: string, newStatus: string)

  class TrackingPage {
    var orders: seq<OrderRow>
    var filteredOrders: seq<OrderRow>
    var searchTerm: string
    var statusFilter: string
    var dateFilter: string
    var selectedOrder: Option<OrderRow>
    var showReceipt: bool
    var showStatusConfirm: bool
    var pendingStatusChange: Option<StatusChange>
    /** An error thrown by the filter effect has escaped: no error boundary catches it, so the app is unmounted. */
    var crashed: bool

    constructor ()
      ensures orders == [] && filteredOrders == []
      ensures searchTerm == "" && statusFilter == "all" && dateFilter == "all"
      ensures selectedOrder.None? && !showReceipt && !showStatusConfirm && pendingStatusChange.None?
      ensures !crashed
    {
      orders := [];
      filteredOrders := [];
      searchTerm := "";
      statusFilter := "all";
      dateFilter := "all";
      selectedOrder := None;
      showReceipt := false;
      showStatusConfirm := false;
      pendingStatusChange := None;
      crashed := false;
    }

    /**
     * `filterOrders` as the effect runs it. When the search throws, the shown list
     * is never written and the error leaves the effect uncaught: the app crashes.
     */
    method FilterOrders(now: int, offset: int)
      modifies this
      ensures orders == old(orders) && searchTerm == old(searchTerm)
      ensures statusFilter == old(statusFilter) && dateFilter == old(dateFilter)
      ensures selectedOrder == old(selectedOrder) && showReceipt == old(showReceipt)
      ensures showStatusConfirm == old(showStatusConfirm) && pendingStatusChange == old(pendingStatusChange)
      ensures var r := TrackingFilter(orders, searchTerm, statusFilter, dateFilter, now, offset);
        && filteredOrders == (if r.Some? then r.value else old(filteredOrders))
        && crashed == (old(crashed) || r.None?)
    {
      var r := TrackingFilter(orders, searchTerm, statusFilter, dateFilter, now, offset);
      if r.Some? {
        filteredOrders := r.value;
      } else {
        crashed := true;
      }
    }

    /** `loadOrders`: the list on success, an empty list on any failure; the filters then rerun. */
    method LoadOrders(reply: Reply<seq<OrderRow>>, now: int, offset: int)
      modifies this
      ensures searchTerm == old(searchTerm) && statusFilter == old(statusFilter) && dateFilter == old(dateFilter)
      ensures selectedOrder == old(selectedOrder) && showReceipt == old(showReceipt)
      ensures showStatusConfirm == old(showStatusConfirm) && pendingStatusChange == old(pendingStatusChange)
      ensures orders == if reply.Success? then reply.data else []
      ensures var r := TrackingFilter(orders, searchTerm, statusFilter, dateFilter, now, offset);
        && filteredOrders == (if r.Some? then r.value else old(filteredOrders))
        && crashed == (old(crashed) || r.None?)
    {
      orders := if reply.Success? then reply.data else [];
      FilterOrders(now, offset);
    }

    /** Changing the search box, the status select and the date select; the filters rerun. */
    method SetFilters(search: string, status: string, date: string, now: int, offset: int)
      modifies this
      ensures orders == old(orders) && selectedOrder == old(selectedOrder) && showReceipt == old(showReceipt)
      ensures showStatusConfirm == old(showStatusConfirm) && pendingStatusChange == old(pendingStatusChange)
      ensures searchTerm == search && statusFilter == status && dateFilter == date
      ensures var r := TrackingFilter(orders, search, status, date, now, offset);
        && filteredOrders == (if r.Some? then r.value else old(filteredOrders))
        && crashed == (old(crashed) || r.None?)
    {
      searchTerm, statusFilter, dateFilter := search, status, date;
      FilterOrders(now, offset);
    }

    /** `handleStatusUpdate`: only records the change and opens the confirmation; the store is not called. */
    method HandleStatusUpdate(orderId: string, newStatus: string)
      modifies this
      ensures pendingStatusChange == Some(StatusChange(orderId, newStatus)) && showStatusConfirm
      ensures orders == old(orders) && filteredOrders == old(filteredOrders)
      ensures searchTerm == old(searchTerm) && statusFilter == old(statusFilter) && dateFilter == old(dateFilter)
      ensures selectedOrder == old(selectedOrder) && showReceipt == old(showReceipt) && crashed == old(crashed)
    {
      pendingStatusChange := Some(StatusChange(orderId, newStatus));
      showStatusConfirm := true;
    }

    /** The button on a listed order: asks to confirm the next workflow step, if there is one. */
    method Advance(order: OrderRow)
      modifies this
      ensures orders == old(orders) && filteredOrders == old(filteredOrders)
      ensures searchTerm == old(searchTerm) && statusFilter == old(statusFilter) && dateFilter == old(dateFilter)
      ensures selectedOrder == old(selectedOrder) && showReceipt == old(showReceipt) && crashed == old(crashed)
      ensures NextStatus(order.fields.status).Some? ==>
        pendingStatusChange == Some(StatusChange(order.id, NextStatus(order.fields.status).value)) && showStatusConfirm
      ensures NextStatus(order.fields.status).None? ==>
        pendingStatusChange == old(pendingStatusChange) && showStatusConfirm == old(showStatusConfirm)
    {
      var next := NextStatus(order.fields.status);
      if next.Some? {
        HandleStatusUpdate(order.id, next.value);
      }
    }

    /** The dialog's Cancel button: the change is dropped and nothing is sent. */
    method CancelStatusChange()
      modifies this
      ensures pendingStatusChange.None? && !showStatusConfirm
      ensures orders == old(orders) && filteredOrders == old(filteredOrders)
      ensures searchTerm == old(searchTerm) && statusFilter == old(statusFilter) && dateFilter == old(dateFilter)
      ensures selectedOrder == old(selectedOrder) && showReceipt == old(showReceipt) && crashed == old(crashed)
    {
      showStatusConfirm := false;
      pendingStatusChange := None;
    }

    /**
     * `confirmStatusUpdate`: sends the recorded change, then reloads and notifies
     * the parent without looking at the store's answer, and closes the dialog
     * whatever happened. Nothing is sent when no change is recorded.
     */
    method ConfirmStatusUpdate(db: Database, now: int, offset: int) returns (notified: bool)
      requires db.Valid()
      modifies this, db
      ensures db.Valid()
      ensures db.isOpen == old(db.isOpen)
      ensures db.expenses == old(db.expenses) && db.itemTypes == old(db.itemTypes)
      ensures db.customers == old(db.customers)
      ensures searchTerm == old(searchTerm) && statusFilter == old(statusFilter) && dateFilter == old(dateFilter)
      ensures selectedOrder == old(selectedOrder) && showReceipt == old(showReceipt)
      ensures notified <==> old(pendingStatusChange).Some?
      ensures old(pendingStatusChange).None? ==>
        && db.orders == old(db.orders) && orders == old(orders)
        && filteredOrders == old(filteredOrders) && crashed == old(crashed)
        && showStatusConfirm == old(showStatusConfirm) && pendingStatusChange.None?
      ensures old(pendingStatusChange).Some? ==>
        && (db.isOpen ==> StatusSet(old(db.orders), db.orders, old(pendingStatusChange).value.orderId,
                                    old(pendingStatusChange).value.newStatus, SqlNow(now)))
        && (!db.isOpen ==> db.orders == old(db.orders) && orders == [])
        && (db.isOpen ==> multiset(orders) == multiset(db.orders) && SortedBy(orders, NewestFirst))
        && !showStatusConfirm && pendingStatusChange.None?
      ensures old(pendingStatusChange).Some? ==>
        var r := TrackingFilter(orders, searchTerm, statusFilter, dateFilter, now, offset);
        && filteredOrders == (if r.Some? then r.value else old(filteredOrders))
        && crashed == (old(crashed) || r.None?)
    {
      if pendingStatusChange.None? {
        return false;
      }
      var change := pendingStatusChange.value;
      var _ := db.UpdateOrderStatus(change.orderId, change.newStatus, now);
      var reply := db.GetOrders();
      LoadOrders(reply, now, offset);
      notified := true;
      showStatusConfirm := false;
      pendingStatusChange := None;
    }

    /** `handleViewReceipt`: opens the receipt of the chosen order. */
    method HandleViewReceipt(order: OrderRow)
      modifies this
      ensures selectedOrder == Some(order) && showReceipt
      ensures orders == old(orders) && filteredOrders == old(filteredOrders)
      ensures searchTerm == old(searchTerm) && statusFilter == old(statusFilter) && dateFilter == old(dateFilter)
      ensures showStatusConfirm == old(showStatusConfirm) && pendingStatusChange == old(pendingStatusChange)
      ensures crashed == old(crashed)
    {
      selectedOrder := Some(order);
      showReceipt := true;
    }
  }

  /** Confirming reports success to the parent even when the store refused the change. */
  method ConfirmIgnoresFailure(page: TrackingPage, db: Database, now: int, offset: int) returns (notified: bool)
    requires db.Valid() && !db.isOpen && page.pendingStatusChange.Some?
    modifies page, db
    ensures notified && db.orders == old(db.orders)
  {
    notified := page.ConfirmStatusUpdate(db, now, offset);
  }
}
