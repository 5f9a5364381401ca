/**
 * The persisted entities of Pressia, one datatype per table of the local store
 * (orders, expenses, item_types, customers). Money is whole XOF; a calendar date
 * (`pickup_date`, an expense `date`) is a day number, the count of days from
 * 1970-01-01 to the date its `YYYY-MM-DD` text names; a timestamp (`created_at`,
 * `updated_at`, "now") is a count of milliseconds since the Unix epoch, in UTC.
 */
module Records {
  import opened Common

  /** A table row: its TEXT primary key and the other columns. */
  datatype Row<D> = Row(id: string, fields: D)

  /** An entry of the price list (`item_types`). */
  datatype ItemType = ItemType(name: string, price: int, category: string, createdAt: int)
  type ItemTypeRow = Row<ItemType>

  /** A line of an order: the item type's columns spread out, plus a quantity. */
  datatype LineItem = LineItem(item: ItemTypeRow, quantity: int)

  datatype Order = Order(
    customerName: string,
    customerPhone: Option<string>,
    items: seq<LineItem>,
    totalAmount: int,
    pickupDate: int,
    status: string,
    createdAt: int,
    updatedAt: int)
  type OrderRow = Row<Order>

  datatype Expense = Expense(description: string, amount: int, category: string, date: int, createdAt: int)
  type ExpenseRow = Row<Expense>

  datatype Customer = Customer(firstName: string, lastName: string, phone: string, createdAt: int)
  type CustomerRow = Row<Customer>

  /** The four status values the application writes; the column itself accepts any text. */
  const Pending: string := "pending"
  const Completed: string := "completed"
  const PickedUp: string := "picked_up"
  const Cancelled: string := "cancelled"
}
