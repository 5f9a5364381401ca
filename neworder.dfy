/**
 * The new-order form: its state fields and the handlers that change them. The
 * reply of the `createOrder` bridge call is a parameter of the submit handler:
 * the form sends a camelCase payload, and what the store makes of it is the
 * store's business (see `Store.Database.CreateOrder`).
 */
module NewOrder {
  import opened Common
  import opened Records
  import opened Calendar
  import opened Formatters
  import opened Cart

  /** The object handed to `createOrder`. */
  datatype OrderPayload = OrderPayload(
    customerName: string,
    customerPhone: string,
    items: seq<LineItem>,
    totalAmount: int,
    pickupDate: int)

  /** The order kept for the receipt once the store accepts it. */
  datatype ReceiptOrder = ReceiptOrder(
    id: string,
    customerName: string,
    customerPhone: string,
    items: seq<LineItem>,
    totalAmount: int,
    pickupDate: int,
    createdAt: int)

  /** `getPickupDate`: three days after the local date of `now`. */
  function DefaultPickupDate(now: int, offset: int): (r: int)
    ensures r == LocalDay(now + 3 * DayMs, offset)
  {
    LocalDay(now, offset) + 3
  }

  /** The pickup date is the third calendar day after today, across month and year ends. */
  lemma PickupThreeDaysLater(now: int, offset: int)
    ensures DateOfDay(DefaultPickupDate(now, offset)) == NextDay(NextDay(NextDay(DateOfDay(LocalDay(now, offset)))))
  {
    var today := LocalDay(now, offset);
    DateOfDaySucc(today);
    DateOfDaySucc(today + 1);
    DateOfDaySucc(today + 2);
  }

  const NameRequired: string := "Le nom du client est requis"
  const ItemsRequired: string := "Veuillez s\U{00E9}lectionner au moins un article"

  /** The first complaint of the submit handler, if any: a blank name, then an empty cart. */
  function OrderFormError(customerName: string, cart: seq<LineItem>): (r: Option<string>)
    ensures r.None? <==> !IsBlank(customerName) && cart != []
    ensures r == Some(NameRequired) <==> IsBlank(customerName)
  {
    TrimEmptyIffBlank(customerName);
    if Trim(customerName) == "" then Some(NameRequired)
    else if |cart| == 0 then Some(ItemsRequired)
    else None
  }

  class NewOrderPage {
    var itemTypes: seq<ItemTypeRow>
    var selectedItems: seq<LineItem>
    var customerName: string
    var customerPhone: string
    var pickupDate: int
    var isLoading: bool
    var isSubmitting: bool
    var showReceipt: bool
    var createdOrder: Option<ReceiptOrder>

    /** The form as first shown: empty, loading, pickup in three days. */
    constructor (now: int, offset: int)
      ensures itemTypes == [] && selectedItems == [] && customerName == "" && customerPhone == ""
      ensures pickupDate == DefaultPickupDate(now, offset)
      ensures isLoading && !isSubmitting && !showReceipt && createdOrder.None?
    {
      itemTypes := [];
      selectedItems := [];
      customerName := "";
      customerPhone := "";
      pickupDate := DefaultPickupDate(now, offset);
      isLoading := true;
      isSubmitting := false;
      showReceipt := false;
      createdOrder := None;
    }

    /** `loadItemTypes`: takes the price list on success and stops loading either way. */
    method LoadItemTypes(reply: Reply<seq<ItemTypeRow>>)
      modifies this
      ensures itemTypes == if reply.Success? then reply.data else old(itemTypes)
      ensures !isLoading
      ensures selectedItems == old(selectedItems) && customerName == old(customerName)
      ensures customerPhone == old(customerPhone) && pickupDate == old(pickupDate)
      ensures isSubmitting == old(isSubmitting) && showReceipt == old(showReceipt) && createdOrder == old(createdOrder)
    {
      if reply.Success? {
        itemTypes := reply.data;
      }
      isLoading := false;
    }

    method AddItem(t: ItemTypeRow)
      modifies this
      ensures selectedItems == Cart.AddItem(old(selectedItems), t)
      ensures UniqueLines(old(selectedItems)) ==> UniqueLines(selectedItems)
      ensures itemTypes == old(itemTypes) && customerName == old(customerName)
      ensures customerPhone == old(customerPhone) && pickupDate == old(pickupDate)
      ensures isLoading == old(isLoading) && isSubmitting == old(isSubmitting)
      ensures showReceipt == old(showReceipt) && createdOrder == old(createdOrder)
    {
      if UniqueLines(selectedItems) {
        AddKeepsUnique(selectedItems, t);
      }
      selectedItems := Cart.AddItem(selectedItems, t);
    }

    method RemoveItem(id: string)
      modifies this
      ensures selectedItems == Cart.RemoveItem(old(selectedItems), id)
      ensures itemTypes == old(itemTypes) && customerName == old(customerName)
      ensures customerPhone == old(customerPhone) && pickupDate == old(pickupDate)
      ensures isLoading == old(isLoading) && isSubmitting == old(isSubmitting)
      ensures showReceipt == old(showReceipt) && createdOrder == old(createdOrder)
    {
      selectedItems := Cart.RemoveItem(selectedItems, id);
    }

    method UpdateQuantity(id: string, newQuantity: int)
      modifies this
      ensures selectedItems == Cart.UpdateQuantity(old(selectedItems), id, newQuantity)
      ensures itemTypes == old(itemTypes) && customerName == old(customerName)
      ensures customerPhone == old(customerPhone) && pickupDate == old(pickupDate)
      ensures isLoading == old(isLoading) && isSubmitting == old(isSubmitting)
      ensures showReceipt == old(showReceipt) && createdOrder == old(createdOrder)
    {
      selectedItems := Cart.UpdateQuantity(selectedItems, id, newQuantity);
    }

    /**
     * `handleSubmit`. A blank name or an empty cart stops it before any call, with
     * nothing changed. Otherwise it sends the trimmed name and phone, the cart and
     * its total; on success it keeps the order, as typed, for the receipt and
     * calls `onOrderCreated`, which `notified` records.
     */
    method HandleSubmit(reply: Reply<string>, now: int) returns (sent: Option<OrderPayload>, notified: bool)
      modifies this
      ensures itemTypes == old(itemTypes) && selectedItems == old(selectedItems)
      ensures customerName == old(customerName) && customerPhone == old(customerPhone)
      ensures pickupDate == old(pickupDate) && isLoading == old(isLoading)
      ensures sent.None? <==> OrderFormError(old(customerName), old(selectedItems)).Some?
      ensures notified <==> sent.Some? && reply.Success?
      ensures sent.None? ==>
        && showReceipt == old(showReceipt) && createdOrder == old(createdOrder)
        && isSubmitting == old(isSubmitting)
      ensures sent.Some? ==>
        && sent.value == OrderPayload(Trim(customerName), Trim(customerPhone), selectedItems,
                                      CalculateTotal(selectedItems), pickupDate)
        && !isSubmitting
        && showReceipt == (reply.Success? || old(showReceipt))
        && createdOrder == if reply.Success?
                           then Some(ReceiptOrder(reply.data, customerName, customerPhone, selectedItems,
                                                  CalculateTotal(selectedItems), pickupDate, now))
                           else old(createdOrder)
    {
      var error := OrderFormError(customerName, selectedItems);
      if error.Some? {
        return None, false;
      }
      var total := CalculateTotal(selectedItems);
      notified := false;
      sent := Some(OrderPayload(Trim(customerName), Trim(customerPhone), selectedItems, total, pickupDate));
      var receipt := ReceiptOrder(if reply.Success? then reply.data else "", customerName, customerPhone,
                                  selectedItems, total, pickupDate, now);
      isSubmitting := true;
      if reply.Success? {
        createdOrder := Some(receipt);
        showReceipt := true;
        notified := true;
      }
      isSubmitting := false;
    }

    /** `handleNewOrder`: an empty form again, pickup reset, receipt closed. */
    method HandleNewOrder(now: int, offset: int)
      modifies this
      ensures customerName == "" && customerPhone == "" && selectedItems == []
      ensures pickupDate == DefaultPickupDate(now, offset)
      ensures !showReceipt && createdOrder.None?
      ensures itemTypes == old(itemTypes) && isLoading == old(isLoading) && isSubmitting == old(isSubmitting)
    {
      customerName := "";
      customerPhone := "";
      selectedItems := [];
      pickupDate := DefaultPickupDate(now, offset);
      showReceipt := false;
      createdOrder := None;
    }
  }

  /**
   * After the form is reset, submitting is refused until a name and an item are
   * entered, and the parent is not told of any order.
   */
  method ResetThenSubmit(page: NewOrderPage, reply: Reply<string>, now: int, offset: int)
    returns (sent: Option<OrderPayload>, notified: bool)
    modifies page
    ensures sent.None? && !notified
  {
    page.HandleNewOrder(now, offset);
    TrimEmptyIffBlank("");
    sent, notified := page.HandleSubmit(reply, now);
  }
}
