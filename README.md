# Pressia: a verified model of the laundry point of sale

Pressia is a desktop point-of-sale program for a dry-cleaning shop in Togo.
A React renderer talks to an Electron main process that keeps four SQLite
tables: orders, expenses, item types (the price list) and customers. This
project models in Dafny the parts of it that decide something:

- **The store** (`Store`, with `Tables`, `Sorting`, `Sql`, `Calendar`).
  - The `db-*` handlers of the main process are the methods of a `Database` class that holds the four tables as sequences of rows.
  - A handler reached before the database is opened fails, as the original does when its handle is still undefined.
  - `INSERT`, `UPDATE ... WHERE id = ?`, `DELETE ... WHERE id = ?`, `ORDER BY` and `LIKE` are modelled once and proved once.
  - The dashboard figures are sums over the rows that the original's SQL `WHERE` selects.
- **The display helpers** (`Formatters`): the order total, the Togolese phone layout, the status labels and colours, and the order number.
- **The pages.** Each page is a class whose fields are the page's state and whose methods are its handlers. A handler that calls the store takes the `Database` and calls its methods.
  - `NewOrder` and `Cart`: the new-order form and its cart.
  - `Orders`: the order list.
  - `Dashboard`: the dashboard.
  - `Tracking`: the pickup tracking page.
  - `Expenses`: the expense book.
  - `AddressBook`: the address book.
  - `Settings`: the price-list settings.
  - `OrderActions`: the status workflow buttons and badge colours, shared by the order pages.
- **Access control** (`Auth`, `Login`, `ProtectedRoute`): the role table, the signed-in user and its stored copy, the fixed-credential sign-in, and the route guard.

Conventions of the model:
- Money is a whole number of francs CFA.
- Instants are milliseconds since 1970-01-01 UTC.
- A calendar date is a day number: days since 1970-01-01.
- The clock reading `now` and the local zone's lead on UTC, `offset`, are parameters. So are the ids the original draws at random.
- SQLite's `CURRENT_TIMESTAMP` is `now` truncated to the second.
- A `YYYY-MM-DD` text is read by `new Date(...)` as UTC midnight of that day.

## Model

| member | source | states |
|---|---|---|
| Formatters.CalculateTotal | src/utils/formatters.js:105-107 | the total of an empty list is 0; with non-negative prices and quantities the total is non-negative |
| Formatters.TotalAppend | src/utils/formatters.js:106 | the total of two lists laid end to end is the sum of their totals |
| Formatters.TotalSnoc | src/utils/formatters.js:106 | one more line adds exactly its price times its quantity |
| Formatters.FormatPhoneNumber | src/utils/formatters.js:85-102 | an absent or empty number gives ''; any other gives a non-empty text; the output carries exactly the digits of the input, in order |
| Formatters.InternationalShape | src/utils/formatters.js:92-93 | digits starting 228, at least eleven of them, read `+228 DD DDD DDD` followed by the leftover digits, whatever the punctuation typed |
| Formatters.ShortInternationalBare | src/utils/formatters.js:92-93 | a 228 prefix with fewer than eleven digits comes back as the bare digits and never reaches the eight-digit rule |
| Formatters.LocalShape | src/utils/formatters.js:97-98 | eight digits without the 228 prefix read `DD DDD DDD` |
| Formatters.OtherUntouched | src/utils/formatters.js:101 | any other non-empty number is returned exactly as typed |
| Formatters.FormatPhoneIdempotent | src/utils/formatters.js:85-102 | formatting an already formatted number changes nothing |
| Formatters.FormatOrderStatus | src/utils/formatters.js:63-71 | the label equals the raw status exactly when the status is not one of the four known ones |
| Formatters.StatusLabelsDistinct | src/utils/formatters.js:64-69 | two different known statuses get different labels |
| Formatters.GetStatusColor | src/utils/formatters.js:74-82 | the colour is one of five classes, and `secondary` exactly for an unknown status |
| Formatters.Field | src/utils/formatters.js:113-115 | a zero-padded field has exactly its width, only digits, and reads back as the number |
| Formatters.GenerateOrderNumber | src/utils/formatters.js:110-117 | `CMD`, then only digits; year, month, day and draw read back from their places counted from the end |
| Formatters.OrderNumberLength | src/utils/formatters.js:110-117 | in the years 1000 to 9999 an order number has fourteen characters |
| Cart.Requantify | src/pages/NewOrder.js:54-58 | same length; the lines of the chosen item get the new quantity, every other line is unchanged |
| Cart.AddItem | src/pages/NewOrder.js:50-62 | a new item type goes at the end with quantity 1; a known one has its quantity raised by one and nothing else changes |
| Cart.RemoveItem | src/pages/NewOrder.js:64-66 | an order-preserving subsequence holding exactly the lines of the other item types |
| Cart.UpdateQuantity | src/pages/NewOrder.js:68-79 | a quantity of 0 or less removes the item; otherwise only that item's quantity is set |
| Cart.AddKeepsUnique | src/pages/NewOrder.js:50-62 | adding never puts one item type on two lines |
| Cart.AddAllUnique | src/pages/NewOrder.js:50-62 | any run of additions from a cart without duplicates keeps one line per item type |
| Cart.TotalAfterAdd | src/pages/NewOrder.js:50-62 | adding raises the cart total by the item's price |
| Cart.TotalAfterAddExisting | src/pages/NewOrder.js:50-62 | one more of a type already on line `k` adds that line's price to the total |
| Cart.TotalAfterUpdate | src/pages/NewOrder.js:74-78 | setting a positive quantity replaces that line's amount in the total |
| Cart.TotalAfterRemove | src/pages/NewOrder.js:64-66 | removing drops exactly the item's line and subtracts its amount from the total |
| NewOrder.OrderFormError | src/pages/NewOrder.js:84-92 | no complaint iff the name is not blank and the cart is not empty; the name complaint comes first |
| NewOrder.NewOrderPage.constructor | src/pages/NewOrder.js:22-30 | empty form, loading, pickup date three local days after today |
| NewOrder.NewOrderPage.LoadItemTypes | src/pages/NewOrder.js:36-48 | the price list on success, the old one otherwise; loading ends; nothing else changes |
| NewOrder.NewOrderPage.AddItem | src/pages/NewOrder.js:50-62 | the cart becomes `Cart.AddItem` of the old cart and keeps one line per item type |
| NewOrder.NewOrderPage.RemoveItem | src/pages/NewOrder.js:64-66 | the cart becomes `Cart.RemoveItem` of the old cart |
| NewOrder.NewOrderPage.UpdateQuantity | src/pages/NewOrder.js:68-79 | the cart becomes `Cart.UpdateQuantity` of the old cart |
| NewOrder.NewOrderPage.HandleSubmit | src/pages/NewOrder.js:81-131 | nothing is sent iff the form has a complaint; otherwise the trimmed name and phone, the cart and its total are sent; on success the receipt opens; the parent is told (`onOrderCreated`) iff something was sent and the store succeeded |
| NewOrder.DefaultPickupDate | src/utils/formatters.js:45-50 | the local date of the instant three days from now |
| NewOrder.PickupThreeDaysLater | src/utils/formatters.js:45-50 | the pickup date is the third calendar successor of today's local date, across month and year ends |
| NewOrder.NewOrderPage.HandleNewOrder | src/pages/NewOrder.js:148-155 | an empty form, the pickup date reset, the receipt closed |
| NewOrder.ResetThenSubmit | src/pages/NewOrder.js:84-92 | after a reset, a submission is refused before any call and the parent is not told |
| Store.SqlNow | public/electron.js:27-28 | `CURRENT_TIMESTAMP` lies within the second before `now`, on a whole second |
| Store.DefaultItemsWellFormed | public/electron.js:66-78 | the seeded price list has eleven items, each named and positively priced |
| Store.OrderKeysArePreorders | public/electron.js:162 | `created_at DESC` and `date DESC` are total preorders, so the list queries sort |
| Store.TextKeysArePreorders | public/electron.js:277 | `category, name` and `first_name, last_name` are total preorders |
| Store.Matching | public/electron.js:402-406 | a customer is found iff one of the three columns is `LIKE '%term%'` |
| Store.PlainTermMatch | public/electron.js:404-406 | for a term without wildcards, the search is a case-blind (ASCII) substring test on the three columns |
| Store.EmptyTermMatchesAll | public/electron.js:406 | the empty term finds every customer |
| Store.TodayRevenue | public/electron.js:416-423 | 0 when no order was created on today's UTC date; the sum of all totals when all were |
| Store.MonthlyRevenue | public/electron.js:417-429 | 0 when no order was created in this local month; non-negative for non-negative totals |
| Store.MonthlyExpenses | public/electron.js:417-435 | 0 when no expense is dated in this local month; non-negative for non-negative amounts |
| Store.PendingCount | public/electron.js:437-441 | between 0 and the number of orders, and 0 iff no order is pending |
| Store.PendingCountAppend | public/electron.js:437-441 | one more row raises the pending count by one iff that row is pending, and leaves it otherwise |
| Store.TodayRevenueAppend | public/electron.js:416-423 | one more row adds its total to today's revenue iff its `created_at` falls on today's UTC date, and adds nothing otherwise |
| Store.SqlNowSameDay | public/electron.js:27 | `CURRENT_TIMESTAMP` lies on the same UTC date as the clock reading it comes from |
| Store.TodayWithinMonthAtUtc | public/electron.js:416-429 | at UTC, today's revenue never exceeds the month's |
| Store.TodayOutsideMonthAwayFromUtc | public/electron.js:416-429 | one hour east of UTC, at 23:30 UTC on 30 June 2024, a new order counts for today but not for the month |
| Store.ProfitCanBeNegative | public/electron.js:449 | profit has no floor: it is negative when expenses exceed revenue |
| Store.Database.constructor | public/electron.js:13-62 | the tables as found, with unique ids, before the store is opened |
| Store.Database.Initialize | public/electron.js:13-94 | opens the store; seeds the eleven default items with the given ids only when the price list is empty |
| Store.Database.GetOrders | public/electron.js:160-167 | succeeds iff open; the same rows, newest first |
| Store.Database.CreateOrder | public/electron.js:169-199 | succeeds iff open, every NOT NULL column present and the id new; then one pending row is appended with both timestamps from the clock, so the pending count rises by one and today's revenue by the order's total |
| Store.Database.UpdateOrderStatus | public/electron.js:201-209 | succeeds iff open; only the row with that id gets the status and `updated_at`; an unknown id changes nothing |
| Store.Database.GetExpenses | public/electron.js:211-218 | succeeds iff open; the same rows, latest date first |
| Store.Database.CreateExpense | public/electron.js:220-240 | succeeds iff open and the id is new; then exactly one row is appended |
| Store.Database.UpdateExpense | public/electron.js:242-262 | succeeds iff open; only the rows with that id get the four columns |
| Store.Database.DeleteExpense | public/electron.js:264-273 | succeeds iff open; exactly the rows with that id are removed, the rest keep their order |
| Store.Database.GetItemTypes | public/electron.js:275-282 | succeeds iff open; the same rows, by category then name |
| Store.Database.CreateItemType | public/electron.js:284-303 | succeeds iff open and the id is new; then exactly one row is appended |
| Store.Database.UpdateItemType | public/electron.js:305-324 | succeeds iff open; only the rows with that id get name, price and category |
| Store.Database.DeleteItemType | public/electron.js:326-335 | succeeds iff open; exactly the rows with that id are removed |
| Store.Database.GetCustomers | public/electron.js:338-345 | succeeds iff open; the same rows, by first then last name |
| Store.Database.CreateCustomer | public/electron.js:347-366 | succeeds iff open and the id is new; then exactly one row is appended |
| Store.Database.UpdateCustomer | public/electron.js:368-387 | succeeds iff open; only the rows with that id get the three columns; `created_at` is kept |
| Store.Database.DeleteCustomer | public/electron.js:389-398 | succeeds iff open; exactly the rows with that id are removed |
| Store.Database.SearchCustomers | public/electron.js:400-412 | succeeds iff open; exactly the matching customers, by first then last name |
| Store.Database.GetDashboardStats | public/electron.js:414-456 | succeeds iff open; the five figures under the keys the handler returns, profit being revenue minus expenses |
| Store.DeleteCount | public/electron.js:266 | with unique ids a delete removes one row when the id is present and none otherwise |
| Tables.Find | public/electron.js:13-62 | a row is found iff some row has the id, and the row found has it |
| Tables.UpdateWhere | public/electron.js:203 | same length; rows with the id get the new columns, all others are unchanged |
| Tables.DeleteWhere | public/electron.js:266 | an order-preserving subsequence holding exactly the rows with other ids |
| Tables.UpdateMissing | public/electron.js:203 | updating an absent id leaves the table as it was |
| Tables.DeleteMissing | public/electron.js:266 | deleting an absent id leaves the table as it was |
| Tables.InsertKeepsUnique | public/electron.js:22 | inserting a new id keeps the primary key unique |
| Tables.UpdateKeepsUnique | public/electron.js:203 | an update keeps the primary key unique |
| Tables.DeleteKeepsUnique | public/electron.js:266 | a delete keeps the primary key unique |
| Tables.DeleteOne | public/electron.js:266 | with unique ids, deleting the id of row k removes that row and only that row |
| Sorting.InsertionSortCorrect | public/electron.js:162 | the `ORDER BY` result is a permutation of the rows and sorted by the key |
| Sql.LikeAnything | public/electron.js:406 | `%` matches every text |
| Sql.LikePrefix | public/electron.js:404 | for a term without wildcards, `LIKE term%` is a case-blind prefix test |
| Sql.LikeAroundIsContains | public/electron.js:404-406 | for a term without wildcards, `LIKE %term%` is a case-blind substring test |
| Calendar.UtcDayWindow | public/electron.js:416 | an instant has a given UTC date iff it lies in that day's window from UTC midnight |
| Calendar.DateOfDayValid | public/electron.js:428 | every day number has a real Gregorian date: a month from 1 to 12 and a day within that month's length, leap Februaries included |
| Calendar.DateOfDaySucc | public/electron.js:428 | the date of day d + 1 is the calendar successor of the date of day d: the next day of the month, the 1st of the next month, or 1 January of the next year |
| Calendar.DateOfDayAt | public/electron.js:428 | conversely, a date given by its 400-year era, year, month and day is the date of the day number its position in the era gives |
| Calendar.EraLength | public/electron.js:428 | 400 Gregorian years, under the leap-year rule, hold 146097 days |
| Calendar.LeapDayDate | public/electron.js:428 | day 11016 is 29 February 2000, a leap day of a century year |
| OrderActions.NextStatus | src/pages/Orders.js:280-298 | pending offers completed, completed offers picked up, every other status offers nothing |
| OrderActions.NextStatusAdvances | src/pages/Orders.js:280-298 | a button moves an order one step forward, never back to pending and never to cancelled |
| OrderActions.WorkflowEnds | src/pages/Dashboard.js:242-259 | following the buttons ends after at most two presses |
| OrderActions.BadgeColor | src/pages/Dashboard.js:55-63 | the gray badge exactly for an unknown status |
| OrderActions.BadgeColorsDistinct | src/pages/OrderTracking.js:186-194 | the four known statuses get four different badges |
| Orders.FilterOrders | src/pages/Orders.js:49-68 | an order-preserving subsequence; an order is shown iff the status filter and the search term (name, phone or id, each lower-cased) both keep it; a blank term and `all` show every order |
| Orders.TrailingBlankMisses | src/pages/Orders.js:58-64 | a term with a trailing blank is not trimmed and misses the name it ends |
| Orders.ItemPreview | src/pages/Orders.js:304-319 | at most three items shown, as a prefix; `+N` appears iff there are more than three, and shown plus N is all |
| Orders.OrdersPage.constructor | src/pages/Orders.js:19-25 | nothing loaded, no filter, no receipt, the shown list consistent |
| Orders.OrdersPage.LoadOrders | src/pages/Orders.js:35-47 | the list on success, the old one otherwise; loading ends; the shown list is the filter of the new state |
| Orders.OrdersPage.SetSearchTerm | src/pages/Orders.js:31-33 | the shown list follows the new term |
| Orders.OrdersPage.SetStatusFilter | src/pages/Orders.js:31-33 | the shown list follows the new status |
| Orders.OrdersPage.HandleStatusUpdate | src/pages/Orders.js:70-84 | the parent is told iff the store took the change; then only the target row changes and the list is reloaded newest first |
| Orders.OrdersPage.Advance | src/pages/Orders.js:280-298 | an order without a button changes nothing; otherwise it moves to its next status, and when the store takes it the list is reloaded as a newest-first permutation of the store's orders and loading ends; the search, the status filter and the receipt are untouched |
| Orders.OrdersPage.HandleViewReceipt | src/pages/Orders.js:86-89 | the chosen order's receipt opens, nothing else changes |
| Dashboard.RecentOrders | src/pages/Dashboard.js:29 | the first min(5, n) orders, in order |
| Dashboard.RecentWithinOrders | src/pages/Dashboard.js:29 | the orders shown are a sub-multiset of the list they are taken from |
| Dashboard.RecentAreNewest | src/pages/Dashboard.js:29 | from a newest-first list, no order left out is newer than one shown |
| Dashboard.StatsField | src/pages/Dashboard.js:68-91 | a property read on the store's stats is present iff it is one of the five keys the store returns |
| Dashboard.ProfitCardColors | src/pages/Dashboard.js:91-92 | green iff the figure read is present and at least zero, red otherwise |
| Dashboard.ProfitCardIgnoresStats | src/pages/Dashboard.js:89-92 | for any stats the store returns, the card reads `monthProfit`, which the store does not return, so it is red whatever the figures (the initial stats, with a profit of 0, show green until the first load) |
| Dashboard.DashboardPage.constructor | src/pages/Dashboard.js:18-19 | no orders, loading |
| Dashboard.DashboardPage.LoadRecentOrders | src/pages/Dashboard.js:25-37 | the first five of the reply on success, the old list otherwise; loading ends |
| Dashboard.DashboardPage.ReloadRecentOrders | src/pages/Dashboard.js:25-37 | with the store's own list: when it is open, the first five orders (all when fewer) newest first, a sub-multiset of the store, none left out newer than one shown; when closed, the old list; loading ends |
| Dashboard.DashboardPage.HandleStatusUpdate | src/pages/Dashboard.js:39-53 | the parent is told iff the store took the change; then the first five orders of the store (all of them when fewer) are shown, newest first, each at most as often as the store holds it, and no order left out is newer than one shown |
| Dashboard.DashboardPage.Advance | src/pages/Dashboard.js:242-259 | an order without a button changes nothing; otherwise it moves to its next status, and when the store takes it the recent list becomes the store's newest min(5, n) orders, newest first, and loading ends; on failure the list and loading stay |
| Tracking.DaysUntil | src/pages/OrderTracking.js:199 | the ceiling of a span in days: the span lies in the day before the count |
| Tracking.GetOrderPriority | src/pages/OrderTracking.js:196-206 | pending orders only: overdue iff the pickup instant has passed, today iff it is now, tomorrow within a day, urgent within three days; normal otherwise |
| Tracking.DueTodayIsOverdue | src/pages/OrderTracking.js:198-201 | a pending order due on today's UTC date is already overdue once midnight has passed |
| Tracking.PriorityColor | src/pages/OrderTracking.js:208-217 | an unknown key gets the normal colour |
| Tracking.PriorityIcon | src/pages/OrderTracking.js:219-228 | an unknown key gets the calendar; the clock exactly for today, tomorrow and urgent |
| Tracking.PriorityText | src/pages/OrderTracking.js:230-239 | an unknown key gets the literal `Normal` |
| Tracking.PriorityTextColor | src/pages/OrderTracking.js:241-250 | an unknown key gets the normal text colour |
| Tracking.PriorityLookupsTotal | src/pages/OrderTracking.js:196-250 | every priority an order gets has its own entry in the tables, and different priorities get different colours |
| Tracking.SearchOrders | src/pages/OrderTracking.js:48-53 | the search throws iff some order misses on the name and has no phone; otherwise it keeps the hits in order |
| Tracking.TrackingFilter | src/pages/OrderTracking.js:44-96 | fails iff a non-empty term throws; otherwise an order-preserving subsequence holding exactly the orders that search, status and date window keep; no filter keeps all |
| Tracking.WindowsKeepPending | src/pages/OrderTracking.js:66-89 | every pickup window shows pending orders only |
| Tracking.OverdueWindowIsPriority | src/pages/OrderTracking.js:67-70 | the overdue window holds exactly the orders whose priority is overdue |
| Tracking.WindowCount | src/pages/OrderTracking.js:300-352 | a card counts at most all orders, and 0 iff no order is in its window |
| Tracking.CardMatchesFilter | src/pages/OrderTracking.js:300-352 | a card's count is the length of the list its window would show with no search and every status |
| Tracking.TrackingPage.constructor | src/pages/OrderTracking.js:10-18 | nothing loaded, no filter, no dialog |
| Tracking.TrackingPage.FilterOrders | src/pages/OrderTracking.js:24-96 | the shown list becomes the filter result; when the search throws the list is not written and the page is marked crashed (the error escapes the effect, with no error boundary); every other field untouched |
| Tracking.TrackingPage.LoadOrders | src/pages/OrderTracking.js:28-42 | the list on success and an empty list on failure; then the filters run on it: the shown list is their result, or, when the search throws, not written and the page crashed |
| Tracking.TrackingPage.SetFilters | src/pages/OrderTracking.js:24-26 | the filters rerun on the new search, status and window: the shown list is their result, or, when the search throws, not written and the page crashed |
| Tracking.TrackingPage.HandleStatusUpdate | src/pages/OrderTracking.js:98-101 | the change is only recorded and the dialog opened; the store is not called |
| Tracking.TrackingPage.Advance | src/pages/OrderTracking.js:470-490 | asks to confirm the next status, if the order has one; lists, filters and receipt untouched |
| Tracking.TrackingPage.CancelStatusChange | src/pages/OrderTracking.js:516-522 | the change is dropped and the dialog closed; lists, filters and receipt untouched |
| Tracking.TrackingPage.ConfirmStatusUpdate | src/pages/OrderTracking.js:103-118 | the parent is told iff a change was pending, whatever the store answered; the reloaded list is the store's orders, newest first, and the shown list its filter result (or not written, with the page crashed, when the search throws); filters and receipt untouched; the dialog closes |
| Tracking.TrackingPage.HandleViewReceipt | src/pages/OrderTracking.js:120-123 | the chosen order's receipt opens; lists, filters and dialog untouched |
| Tracking.ConfirmIgnoresFailure | src/pages/OrderTracking.js:106-110 | with the store closed, confirming still reports success and changes no order |
| Expenses.FilterExpenses | src/pages/Expenses.js:66-78 | an order-preserving subsequence holding exactly the expenses of the chosen category and date; no filter keeps all |
| Expenses.TotalExpenses | src/pages/Expenses.js:144 | 0 for an empty list, non-negative for non-negative amounts |
| Expenses.FilteredTotalAtMostAll | src/pages/Expenses.js:66-78 | with non-negative amounts, filtering never raises the total |
| Expenses.MonthCard | src/pages/Expenses.js:193-198 | 0 when no expense falls in the card's month; non-negative for non-negative amounts |
| Expenses.MonthCardMatchesStore | src/pages/Expenses.js:193-198 | at UTC, or east of it by less than a day, the card equals the store's monthly expenses |
| Expenses.MonthCardWestOfUtc | src/pages/Expenses.js:193-198 | one hour west of UTC, an expense dated 1 July is on the store's July figure and off the card |
| Expenses.Categories | src/pages/Expenses.js:212 | exactly the categories used, at most one per expense, at least one when there are expenses |
| Expenses.CategoryCount | src/pages/Expenses.js:212 | at most the number of expenses, and 0 iff there are none |
| Expenses.ExpenseFormError | src/pages/Expenses.js:83-96 | no complaint iff the description is not blank, the amount is positive and a category is chosen, checked in that order |
| Expenses.ExpensesPage.constructor | src/pages/Expenses.js:17-30 | nothing loaded, no filter, an empty form dated today (UTC) |
| Expenses.ExpensesPage.LoadExpenses | src/pages/Expenses.js:52-64 | the list on success, the old one otherwise; loading ends; the shown list follows |
| Expenses.ExpensesPage.SetFilters | src/pages/Expenses.js:48-50 | the shown list follows the two selects |
| Expenses.ExpensesPage.ResetForm | src/pages/Expenses.js:122-131 | empty fields dated today, form hidden, nothing edited |
| Expenses.ExpensesPage.HandleEdit | src/pages/Expenses.js:133-142 | the expense's fields in the form, the form shown |
| Expenses.ExpensesPage.HandleSubmit | src/pages/Expenses.js:80-120 | nothing sent iff the form has a complaint; otherwise always a creation, even when editing; the parent is told (`onExpenseCreated`) iff the store took the new expense, and then the list is reloaded, loading ends and the form is reset; otherwise list, form and loading stay |
| AddressBook.FilterCustomers | src/pages/AddressBook.js:45-57 | an order-preserving subsequence; a blank term keeps all; otherwise exactly the customers whose names (ignoring case) or phone hold the term |
| AddressBook.LongTermSearchesPhone | src/pages/AddressBook.js:52-54 | for any customer and any term longer than both names, the customer is hit iff the phone holds the term exactly as typed |
| AddressBook.PhoneSearchIsCaseSensitive | src/pages/AddressBook.js:49-55 | for any customer and any non-blank term longer than both names, the one-customer list is kept iff the phone holds the term as typed, with no case folding |
| AddressBook.LowerCasePhoneMisses | src/pages/AddressBook.js:49-55 | an instance: a customer of phone `AB12` with names under four letters is not listed for `ab12` |
| AddressBook.ExactPhoneFinds | src/pages/AddressBook.js:49-55 | the same customer is listed for `AB12` |
| AddressBook.CustomerFormError | src/pages/AddressBook.js:62-65 | no complaint iff all three fields are non-empty as typed |
| AddressBook.BlankFieldsPass | src/pages/AddressBook.js:62-72 | a form of blanks passes the check and is sent as three empty fields |
| AddressBook.AddressBookPage.constructor | src/pages/AddressBook.js:8-15 | nothing loaded, no search, an empty form |
| AddressBook.AddressBookPage.LoadCustomers | src/pages/AddressBook.js:29-43 | the list on success and an empty list on failure; the shown list follows |
| AddressBook.AddressBookPage.SetSearchTerm | src/pages/AddressBook.js:25-27 | the shown list follows the new term |
| AddressBook.AddressBookPage.ResetForm | src/pages/AddressBook.js:92-100 | empty fields, form hidden, nothing edited |
| AddressBook.AddressBookPage.HandleEdit | src/pages/AddressBook.js:102-110 | the customer's fields in the form, the form shown |
| AddressBook.AddressBookPage.HandleSubmit | src/pages/AddressBook.js:59-90 | nothing sent iff a field is empty; an edit updates only that customer and keeps its creation time, otherwise one customer is created; the form resets and the list reloads whatever the store said, holding the store's customers sorted by first then last name |
| AddressBook.AddressBookPage.HandleDelete | src/pages/AddressBook.js:112-123 | only on confirmation: exactly that customer is removed and the list reloaded with the store's customers sorted by first then last name |
| Settings.ItemFormError | src/pages/Settings.js:61-74 | no complaint iff the name is not blank, the price is positive and a category is chosen, checked in that order |
| Settings.BlankNameRefused | src/pages/Settings.js:61-64 | a name of blanks is refused even with a good price and category |
| Settings.HandleDeleteItem | src/pages/Settings.js:118-128 | a toast iff the user confirms, saying deletion is not implemented; no store is involved |
| Settings.SettingsPage.constructor | src/pages/Settings.js:19-26 | nothing loaded, loading, form hidden and empty |
| Settings.SettingsPage.LoadItemTypes | src/pages/Settings.js:44-56 | the list on success, the old one otherwise; loading ends |
| Settings.SettingsPage.ResetItemForm | src/pages/Settings.js:98-106 | empty fields, form hidden, nothing edited |
| Settings.SettingsPage.HandleEditItem | src/pages/Settings.js:108-116 | the item's fields in the form, the form shown |
| Settings.SettingsPage.HandleItemSubmit | src/pages/Settings.js:58-96 | nothing sent iff the form has a complaint; otherwise always a creation; on success a reload by category and name and a reset, on failure nothing changes |
| Auth.RolePermissions | src/contexts/AuthContext.js:45-71 | a list exactly for admin (14) and cashier (7) |
| Auth.Permitted | src/contexts/AuthContext.js:42-74 | false with no user and for a role the table lacks; anything allowed is an admin permission |
| Auth.CashierWithinAdmin | src/contexts/AuthContext.js:45-71 | every cashier permission is an admin permission |
| Auth.CashierRestricted | src/contexts/AuthContext.js:62-70 | a cashier may not delete orders nor touch expenses or settings, which an admin may |
| Auth.PermissionByRoleOnly | src/contexts/AuthContext.js:73 | only the role decides a permission |
| Auth.AuthProvider.constructor | src/contexts/AuthContext.js:14-15 | nobody signed in, loading |
| Auth.AuthProvider.IsAuthenticated | src/contexts/AuthContext.js:82 | true iff someone is signed in |
| Auth.AuthProvider.HasPermission | src/contexts/AuthContext.js:42-74 | true only when signed in; for admin and cashier, exactly their list |
| Auth.AuthProvider.Restore | src/contexts/AuthContext.js:17-30 | a stored entry that parses becomes the user; one that does not is removed and the user stays; loading ends |
| Auth.AuthProvider.Login | src/contexts/AuthContext.js:32-35 | the user is signed in and stored |
| Auth.AuthProvider.Logout | src/contexts/AuthContext.js:37-40 | nobody signed in, the stored entry removed |
| Auth.LoginSurvivesRestart | src/contexts/AuthContext.js:17-35 | a new window after `login(u)` finds `u` signed in |
| Auth.LogoutSurvivesRestart | src/contexts/AuthContext.js:17-40 | a new window after logout finds nobody and refuses every permission |
| Auth.CorruptEntryDiscarded | src/contexts/AuthContext.js:19-28 | an entry that does not parse leaves nobody signed in and is removed |
| Login.ValidCredentials | src/pages/Login.js:37-40 | a pair exactly for admin and cashier |
| Login.CheckCredentials | src/pages/Login.js:37-45 | fails for an unknown role; succeeds iff the name and password are the selected role's pair |
| Login.AdminPairFailsAsCashier | src/pages/Login.js:42-45 | the admin's pair is refused under the cashier role and accepted under admin |
| Login.InitialFormPasses | src/pages/Login.js:12-16 | the form as it opens passes the check |
| Login.LoginPage.constructor | src/pages/Login.js:12-18 | the cashier's pair filled in, password hidden, not loading |
| Login.LoginPage.HandleInputChange | src/pages/Login.js:20-26 | only the named field takes the value |
| Login.LoginPage.TogglePassword | src/pages/Login.js:132 | the password is shown or hidden in turn |
| Login.LoginPage.HandleSubmit | src/pages/Login.js:28-66 | signs in iff the check succeeds, with the typed name, the chosen role and the time; otherwise the provider is untouched; loading ends |
| Login.AdminSignIn | src/pages/Login.js:28-66 | typing the admin pair under admin signs in with every admin permission |
| ProtectedRoute.Guard | src/components/ProtectedRoute.js:5-24 | spinner while loading; sign-in iff not loading and nobody; dashboard iff a non-empty required permission is refused; the page iff none is required or it is granted |
| ProtectedRoute.GuardFor | src/components/ProtectedRoute.js:5-24 | a signed-in user with no requirement gets the page; only a signed-in user ever does |
| ProtectedRoute.AdminPassesWhereCashierDoes | src/components/ProtectedRoute.js:20-24 | a page a cashier may open an admin may open too |
| ProtectedRoute.CashierSentToDashboard | src/components/ProtectedRoute.js:20-22 | the expenses and settings permissions send a cashier to the dashboard |
| ProtectedRoute.NobodyGoesToLogin | src/components/ProtectedRoute.js:16-18 | with nobody signed in, every page leads to sign-in |
| ProtectedRoute.CorruptEntryGuard | src/components/ProtectedRoute.js:16-18 | after a restart on a corrupt entry, every page leads to sign-in |

## Left out

- Rendering, toasts, printing, the clipboard and the receipt's HTML (`Receipt.js`, `handlePrintReceipt`) are not modelled. They show values and decide nothing.
- The SQLite engine, the table schema and text storage are not modelled. Dates are day numbers, timestamps are integers, and the `items` column holds a typed sequence of line items in place of the text the caller passes (see the `Store.Database.CreateOrder` line below).
- `export-database` and `import-database` are left out. They copy a file chosen in a dialog.
- The preload bridges are not modelled. The model treats every store handler as reachable from the pages.
- `Intl` and `date-fns` formatting, and the French date texts, are left out.
- Floating point and `parseFloat` are not modelled. Amounts are whole francs, and an amount field is an optional whole number, so text that does not parse is not modelled.
- The local zone is a fixed offset. Daylight-saving changes between two instants are not modelled.
- `crypto.randomUUID`, `Math.random`, `new Date()` and the one-second delay of the sign-in page are parameters or dropped.
- Store.Database.Initialize: requires the eleven given ids to be distinct, standing in for fresh UUIDs.
- The JSON text of `userInfo` is modelled as an abstract value that parses or does not.
- Store.Database.CreateOrder: the handler binds `items` exactly as the caller passes it and serializes nothing. The model's success case stands for a caller that passes the items already as text, which the renderer later parses back. Binding an array of line items, as the new-order form sends it, is not modelled; the SQLite driver's binding rules decide that case and are not part of this model.
- Lookups by JavaScript prototype keys such as `constructor` are not modelled. A role or priority named after an `Object.prototype` member resolves as an unknown key in the model, while the original would read the inherited member.
- The renderer and the store disagree on key names, and each side is modelled as written.
  - The new-order form sends camelCase keys, which the store does not read.
  - The dashboard reads `monthRevenue`/`monthProfit`, which the store returns as `monthlyRevenue`/`monthlyProfit`.
- The difference between `undefined` and `null` is not modelled. Both are "absent".
- Creating a customer as a side effect of an order is not modelled, since no code in the source does it.
- Translation of the i18n keys is not modelled. Keys are kept as strings.
- Formatters.GenerateOrderNumber: requires a year of 0 or more; negative years are not modelled.
- Concurrency is not modelled. Each handler runs to completion before the next, although the original awaits its calls and a second click could interleave.
- The dashboard's figures shown through `formatCurrency(undefined)` are not modelled.
- Common.ToLower: case folding covers ASCII, Latin-1, Latin Extended-A and the Ewe and Kabiye capitals of Latin Extended-B; Greek, Cyrillic, the rest of Latin Extended-B and the dotted capital I (U+0130, two characters in JavaScript) are kept as they are, so Orders.FilterOrders, Tracking.SearchOrders, Tracking.TrackingFilter and AddressBook.FilterCustomers miss names that differ from the term only in the case of those letters.
- Tracking.TrackingPage.FilterOrders: a throwing search sets `crashed`, but the model's page still accepts calls afterwards, while the original app is unmounted and shows nothing until it is restarted.
- LoadOrders (Tracking.TrackingPage.LoadOrders): the same — after a throwing filter run, `crashed` records the unmount, but the model does not stop later calls.
- SetFilters (Tracking.TrackingPage.SetFilters): the same as FilterOrders.
- Login.LoginPage.HandleSubmit: `loginTime` is the instant in milliseconds rather than its ISO text.
- The `useAuth` guard that throws outside a provider, the sidebar, `App.js` routing and the translation tables are left out. They hold no decisions.
