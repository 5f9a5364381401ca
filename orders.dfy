/**
 * The orders list: every order from the store, narrowed by a status filter and a
 * search box, with a button per order that moves it one step along the workflow.
 */
module Orders {
  import opened Common
  import opened Records
  import opened Sorting
  import opened Store
  import opened OrderActions

  const AllStatuses: string := "all"

  /** The status select: `all`, or exactly the chosen status. */
  predicate StatusKept(o: OrderRow, statusFilter: string)
  {
    statusFilter == AllStatuses || o.fields.status == statusFilter
  }

  /**
   * The search test against the lower-cased term: a name, phone or id that
   * contains it once lower-cased. An order without a phone is tested on name and id.
   */
  predicate SearchHit(o: OrderRow, term: string)
  {
    || Contains(ToLower(o.fields.customerName), term)
    || (o.fields.customerPhone.Some? && Contains(ToLower(o.fields.customerPhone.value), term))
    || Contains(ToLower(o.id), term)
  }

  /** Whether the list shows `o`: a search term that is only blanks searches nothing. */
  predicate Shown(o: OrderRow, statusFilter: string, searchTerm: string)
  {
    StatusKept(o, statusFilter) && (IsBlank(searchTerm) || SearchHit(o, ToLower(searchTerm)))
  }

  /**
   * `filterOrders`: the status filter, then the search, each keeping the order of
   * the list. The term is lower-cased as typed, surrounding blanks included.
   */
  function FilterOrders(orders: seq<OrderRow>, statusFilter: string, searchTerm: string): (r: seq<OrderRow>)
    ensures IsSubsequence(r, orders)
    ensures forall o :: o in r <==> o in orders && Shown(o, statusFilter, searchTerm)
    ensures IsBlank(searchTerm) && statusFilter == AllStatuses ==> r == orders
  {
    var byStatus := if statusFilter != AllStatuses
                    then Filter(orders, (o: OrderRow) => o.fields.status == statusFilter)
                    else orders;
    SubsequenceRefl(orders);
    TrimEmptyIffBlank(searchTerm);
    if Trim(searchTerm) != "" then
      var term := ToLower(searchTerm);
      var r := Filter(byStatus, (o: OrderRow) => SearchHit(o, term));
      SubsequenceTrans(r, byStatus, orders);
      r
    else
      byStatus
  }

  /**
   * The term is not trimmed before the search: `Ana ` with a trailing blank
   * misses an order for `Ana` that has no phone and a short id.
   */
  lemma TrailingBlankMisses(o: OrderRow)
    requires o.fields.customerName == "Ana" && o.fields.customerPhone.None? && o.id == "a1"
    ensures FilterOrders([o], AllStatuses, "Ana ") == []
  {
    var term := ToLower("Ana ");
    assert |term| == 4;
    ContainsNoLonger(ToLower(o.fields.customerName), term);
    ContainsNoLonger(ToLower(o.id), term);
    assert !IsBlank("Ana ") by {
      assert !IsJsWhitespace("Ana "[0]);
    }
    assert o !in FilterOrders([o], AllStatuses, "Ana ");
  }

  /** What the preview strip of a listed order shows. */
  datatype Preview = Preview(shown: seq<LineItem>, more: Option<nat>)

  /**
   * The first three lines of the order, and when there are more, how many more:
   * together they account for every line.
   */
  function ItemPreview(items: seq<LineItem>): (r: Preview)
    ensures |r.shown| == if |items| < 3 then |items| else 3
    ensures r.shown <= items
    ensures r.more.Some? <==> |items| > 3
    ensures |r.shown| + (if r.more.Some? then r.more.value else 0) == |items|
  {
    if |items| > 3 then Preview(items[..3], Some(|items| - 3))
    else Preview(items, None)
  }

  class OrdersPage {
    var orders: seq<OrderRow>
    var filteredOrders: seq<OrderRow>
    var isLoading: bool
    var searchTerm: string
    var statusFilter: string
    var selectedOrder: Option<OrderRow>
    var showReceipt: bool

    /** The effect on `[orders, searchTerm, statusFilter]` keeps the shown list current. */
    ghost predicate Valid()
      reads this
    {
      filteredOrders == FilterOrders(orders, statusFilter, searchTerm)
    }

    /** The page as first shown: nothing loaded yet, no filter, no receipt. */
    constructor ()
      ensures Valid()
      ensures orders == [] && filteredOrders == [] && isLoading
      ensures searchTerm == "" && statusFilter == AllStatuses
      ensures selectedOrder.None? && !showReceipt
    {
      orders := [];
      filteredOrders := [];
      isLoading := true;
      searchTerm := "";
      statusFilter := AllStatuses;
      selectedOrder := None;
      showReceipt := false;
    }

    /** `loadOrders`: takes the list on success, keeps the old one otherwise, stops loading. */
    method LoadOrders(reply: Reply<seq<OrderRow>>)
      modifies this
      ensures Valid()
      ensures orders == if reply.Success? then reply.data else old(orders)
      ensures !isLoading
      ensures searchTerm == old(searchTerm) && statusFilter == old(statusFilter)
      ensures selectedOrder == old(selectedOrder) && showReceipt == old(showReceipt)
    {
      if reply.Success? {
        orders := reply.data;
      }
      isLoading := false;
      filteredOrders := FilterOrders(orders, statusFilter, searchTerm);
    }

    /** Typing in the search box; the shown list follows. */
    method SetSearchTerm(term: string)
      modifies this
      ensures Valid()
      ensures searchTerm == term
      ensures orders == old(orders) && statusFilter == old(statusFilter) && isLoading == old(isLoading)
      ensures selectedOrder == old(selectedOrder) && showReceipt == old(showReceipt)
    {
      searchTerm := term;
      filteredOrders := FilterOrders(orders, statusFilter, searchTerm);
    }

    /** Picking a status in the select; the shown list follows. */
    method SetStatusFilter(status: string)
      modifies this
      ensures Valid()
      ensures statusFilter == status
      ensures orders == old(orders) && searchTerm == old(searchTerm) && isLoading == old(isLoading)
      ensures selectedOrder == old(selectedOrder) && showReceipt == old(showReceipt)
    {
      statusFilter := status;
      filteredOrders := FilterOrders(orders, statusFilter, searchTerm);
    }

    /**
     * `handleStatusUpdate`: asks the store to change the status; on success the
     * list is fetched again (newest first) and the parent is notified.
     */
    method HandleStatusUpdate(db: Database, orderId: string, newStatus: string, now: int)
      returns (notified: bool)
      requires Valid() && db.Valid()
      modifies this, db
      ensures db.Valid()
      ensures notified <==> db.isOpen
      ensures db.isOpen == old(db.isOpen)
      ensures db.expenses == old(db.expenses) && db.itemTypes == old(db.itemTypes)
      ensures db.customers == old(db.customers)
      ensures notified ==> StatusSet(old(db.orders), db.orders, orderId, newStatus, SqlNow(now))
      ensures !notified ==> db.orders == old(db.orders)
      ensures Valid()
      ensures notified ==> multiset(orders) == multiset(db.orders) && SortedBy(orders, NewestFirst) && !isLoading
      ensures !notified ==> orders == old(orders) && isLoading == old(isLoading)
      ensures searchTerm == old(searchTerm) && statusFilter == old(statusFilter)
      ensures selectedOrder == old(selectedOrder) && showReceipt == old(showReceipt)
    {
      var result := db.UpdateOrderStatus(orderId, newStatus, now);
      notified := result.Success?;
      if notified {
        var reply := db.GetOrders();
        LoadOrders(reply);
      }
    }

    /** The button on a listed order: present only for the next workflow step. */
    method Advance(db: Database, order: OrderRow, now: int) returns (notified: bool)
      requires Valid() && db.Valid()
      modifies this, db
      ensures db.Valid()
      ensures NextStatus(order.fields.status).None? ==>
        !notified && db.orders == old(db.orders) && orders == old(orders) && isLoading == old(isLoading)
      ensures NextStatus(order.fields.status).Some? ==>
        && (notified <==> db.isOpen)
        && (notified ==> StatusSet(old(db.orders), db.orders, order.id, NextStatus(order.fields.status).value, SqlNow(now)))
      ensures !notified ==> db.orders == old(db.orders) && orders == old(orders) && isLoading == old(isLoading)
      ensures notified ==> multiset(orders) == multiset(db.orders) && SortedBy(orders, NewestFirst) && !isLoading
      ensures db.isOpen == old(db.isOpen)
      ensures db.expenses == old(db.expenses) && db.itemTypes == old(db.itemTypes)
      ensures db.customers == old(db.customers)
      ensures searchTerm == old(searchTerm) && statusFilter == old(statusFilter)
      ensures selectedOrder == old(selectedOrder) && showReceipt == old(showReceipt)
      ensures Valid()
    {
      var next := NextStatus(order.fields.status);
      if next.Some? {
        notified := HandleStatusUpdate(db, order.id, next.value, now);
      } else {
        notified := false;
      }
    }

    /** `handleViewReceipt`: opens the receipt of the chosen order. */
    method HandleViewReceipt(order: OrderRow)
      modifies this
      ensures selectedOrder == Some(order) && showReceipt
      ensures orders == old(orders) && filteredOrders == old(filteredOrders) && isLoading == old(isLoading)
      ensures searchTerm == old(searchTerm) && statusFilter == old(statusFilter)
    {
      selectedOrder := Some(order);
      showReceipt := true;
    }
  }
}
