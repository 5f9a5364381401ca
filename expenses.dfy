/**
 * The expenses page: the list from the store narrowed by category and date, the
 * three cards above it (total of the shown list, this month's total, number of
 * categories) and the add form. A date filter is a day number or nothing (the
 * empty date input); an amount typed in the form is a whole number or nothing.
 */
module Expenses {
  import opened Common
  import opened Records
  import opened Calendar
  import opened Sorting
  import opened Tables
  import opened Store

  const AllCategories: string := "all"

  // ---- filterExpenses and the cards ----------------------------------------

  predicate ExpenseShown(e: ExpenseRow, categoryFilter: string, dateFilter: Option<int>)
  {
    && (categoryFilter == AllCategories || e.fields.category == categoryFilter)
    && (dateFilter.None? || e.fields.date == dateFilter.value)
  }

  /** `filterExpenses`: by category unless `all`, then by exact date when one is set. */
  function FilterExpenses(expenses: seq<ExpenseRow>, categoryFilter: string, dateFilter: Option<int>)
    : (r: seq<ExpenseRow>)
    ensures IsSubsequence(r, expenses)
    ensures forall e :: e in r <==> e in expenses && ExpenseShown(e, categoryFilter, dateFilter)
    ensures categoryFilter == AllCategories && dateFilter.None? ==> r == expenses
  {
    SubsequenceRefl(expenses);
    var byCategory := if categoryFilter != AllCategories
                      then Filter(expenses, (e: ExpenseRow) => e.fields.category == categoryFilter)
                      else expenses;
    SubsequenceRefl(byCategory);
    if dateFilter.Some? then
      var r := Filter(byCategory, (e: ExpenseRow) => e.fields.date == dateFilter.value);
      SubsequenceTrans(r, byCategory, expenses);
      r
    else
      byCategory
  }

  /** `totalExpenses`: the amounts of the shown list added up, 0 when it is empty. */
  function TotalExpenses(shown: seq<ExpenseRow>): (r: int)
    ensures shown == [] ==> r == 0
    ensures (forall e :: e in shown ==> e.fields.amount >= 0) ==> r >= 0
  {
    assert (forall e :: e in shown ==> e.fields.amount >= 0) ==> SumOf(shown, ExpenseAmount) >= 0 by {
      if forall e :: e in shown ==> e.fields.amount >= 0 {
        SumOfNonNegative(shown, ExpenseAmount);
      }
    }
    SumOf(shown, ExpenseAmount)
  }

  /** With non-negative amounts, narrowing the list never raises the total card. */
  lemma FilteredTotalAtMostAll(expenses: seq<ExpenseRow>, categoryFilter: string, dateFilter: Option<int>)
    requires forall e :: e in expenses ==> e.fields.amount >= 0
    ensures TotalExpenses(FilterExpenses(expenses, categoryFilter, dateFilter)) <= TotalExpenses(expenses)
  {
    SumOfSubsequence(FilterExpenses(expenses, categoryFilter, dateFilter), expenses, ExpenseAmount);
  }

  /**
   * The month card's test: the date parsed as UTC midnight, then read back with the
   * local `getMonth`/`getFullYear`, against the local month of now.
   */
  predicate InCardMonth(e: ExpenseRow, now: int, offset: int)
  {
    YearMonthOfDay(LocalDay(MidnightUtc(e.fields.date), offset)) == YearMonthOfDay(LocalDay(now, offset))
  }

  /** The "this month" card: all loaded expenses, whatever the filters. */
  function MonthCard(expenses: seq<ExpenseRow>, now: int, offset: int): (r: int)
    ensures (forall e :: e in expenses ==> !InCardMonth(e, now, offset)) ==> r == 0
    ensures (forall e :: e in expenses ==> e.fields.amount >= 0) ==> r >= 0
  {
    var p := (e: ExpenseRow) => InCardMonth(e, now, offset);
    var months := Filter(expenses, p);
    assert (forall e :: e in expenses ==> !InCardMonth(e, now, offset)) ==> months == [] by {
      if forall e :: e in expenses ==> !InCardMonth(e, now, offset) {
        FilterKeepsNone(expenses, p);
      }
    }
    assert (forall e :: e in expenses ==> e.fields.amount >= 0) ==> SumOf(months, ExpenseAmount) >= 0 by {
      if forall e :: e in expenses ==> e.fields.amount >= 0 {
        SumOfNonNegative(months, ExpenseAmount);
      }
    }
    SumOf(months, ExpenseAmount)
  }

  /** At UTC or east of it (by less than a day) the card agrees with the store's monthly figure. */
  lemma MonthCardMatchesStore(expenses: seq<ExpenseRow>, now: int, offset: int)
    requires 0 <= offset < DayMs
    ensures MonthCard(expenses, now, offset) == MonthlyExpenses(expenses, now, offset)
  {
    forall e | e in expenses
      ensures InCardMonth(e, now, offset) == DatedThisMonth(e, now, offset)
    {
      assert LocalDay(MidnightUtc(e.fields.date), offset) == e.fields.date;
    }
    FilterCongruent(expenses, (e: ExpenseRow) => InCardMonth(e, now, offset),
                              (e: ExpenseRow) => DatedThisMonth(e, now, offset));
  }

  /**
   * West of UTC they part: one hour behind UTC at noon on 1 July 2024, an expense
   * dated that day reads back as 30 June and is missing from the card, while the
   * store counts it for July.
   */
  lemma MonthCardWestOfUtc()
    ensures var now := 19905 * DayMs + 43200000;
            var e := Row("e1", Expense("Savon", 500, "Autres", 19905, now));
            MonthCard([e], now, -3600000) == 0 && MonthlyExpenses([e], now, -3600000) == 500
  {
    var now := 19905 * DayMs + 43200000;
    var e := Row("e1", Expense("Savon", 500, "Autres", 19905, now));
    JuneLastDate();
    JulyFirstDate();
    assert LocalDay(now, -3600000) == 19905;
    assert LocalDay(MidnightUtc(19905), -3600000) == 19904;
    assert !InCardMonth(e, now, -3600000);
    assert DatedThisMonth(e, now, -3600000);
    assert SumOf([e], ExpenseAmount) == 500;
  }

  /** `new Set(expenses.map(e => e.category))`. */
  function Categories(expenses: seq<ExpenseRow>): (r: set<string>)
    ensures forall c :: c in r <==> exists e :: e in expenses && e.fields.category == c
    ensures |r| <= |expenses|
    ensures expenses != [] ==> |r| >= 1
  {
    if expenses == [] then {}
    else
      var rest := Categories(expenses[1..]);
      assert forall e :: e in expenses <==> e == expenses[0] || e in expenses[1..];
      assert expenses[0].fields.category in {expenses[0].fields.category} + rest;
      {expenses[0].fields.category} + rest
  }

  /** The category card: how many distinct categories the loaded expenses use. */
  function CategoryCount(expenses: seq<ExpenseRow>): (r: nat)
    ensures r <= |expenses|
    ensures r == 0 <==> expenses == []
  {
    |Categories(expenses)|
  }

  // ---- the form ------------------------------------------------------------

  datatype ExpenseForm = ExpenseForm(description: string, amount: Option<int>, category: string, date: int)

  /** An empty form dated today, `toISOString().split('T')[0]` being the UTC date. */
  function EmptyExpenseForm(now: int): ExpenseForm
  {
    ExpenseForm("", None, "", UtcDay(now))
  }

  const DescriptionRequired: string := "La description est requise"
  const AmountMustBePositive: string := "Le montant doit \U{00EA}tre sup\U{00E9}rieur \U{00E0} 0"
  const CategoryRequired: string := "Veuillez s\U{00E9}lectionner une cat\U{00E9}gorie"

  /** The first complaint of `handleSubmit`: blank description, then amount, then category. */
  function ExpenseFormError(form: ExpenseForm): (r: Option<string>)
    ensures r.None? <==> !IsBlank(form.description) && form.amount.Some? && form.amount.value > 0 && form.category != ""
    ensures r == Some(DescriptionRequired) <==> IsBlank(form.description)
    ensures r == Some(AmountMustBePositive) <==>
      !IsBlank(form.description) && (form.amount.None? || form.amount.value <= 0)
  {
    TrimEmptyIffBlank(form.description);
    if Trim(form.description) == "" then Some(DescriptionRequired)
    else if form.amount.None? || form.amount.value <= 0 then Some(AmountMustBePositive)
    else if form.category == "" then Some(CategoryRequired)
    else None
  }

  /** The object handed to `createExpense`: the description trimmed, the rest as entered. */
  function ExpensePayload(form: ExpenseForm): ExpenseData
    requires form.amount.Some?
  {
    ExpenseData(Trim(form.description), form.amount.value, form.category, form.date)
  }

  class ExpensesPage {
    var expenses: seq<ExpenseRow>
    var filteredExpenses: seq<ExpenseRow>
    var isLoading: bool
    var showForm: bool
    var editingExpense: Option<ExpenseRow>
    var categoryFilter: string
    var dateFilter: Option<int>
    var form: ExpenseForm

    /** The effect on `[expenses, categoryFilter, dateFilter]` keeps the shown list current. */
    ghost predicate Valid()
      reads this
    {
      filteredExpenses == FilterExpenses(expenses, categoryFilter, dateFilter)
    }

    constructor (now: int)
      ensures Valid()
      ensures expenses == [] && isLoading && !showForm && editingExpense.None?
      ensures categoryFilter == AllCategories && dateFilter.None? && form == EmptyExpenseForm(now)
    {
      expenses := [];
      filteredExpenses := [];
      isLoading := true;
      showForm := false;
      editingExpense := None;
      categoryFilter := AllCategories;
      dateFilter := None;
      form := EmptyExpenseForm(now);
    }

    /** `loadExpenses`: takes the list on success, keeps the old one otherwise, stops loading. */
    method LoadExpenses(reply: Reply<seq<ExpenseRow>>)
      modifies this
      ensures Valid()
      ensures expenses == if reply.Success? then reply.data else old(expenses)
      ensures !isLoading
      ensures showForm == old(showForm) && editingExpense == old(editingExpense) && form == old(form)
      ensures categoryFilter == old(categoryFilter) && dateFilter == old(dateFilter)
    {
      if reply.Success? {
        expenses := reply.data;
      }
      isLoading := false;
      filteredExpenses := FilterExpenses(expenses, categoryFilter, dateFilter);
    }

    /** The two selects above the list; the shown list follows. */
    method SetFilters(category: string, date: Option<int>)
      modifies this
      ensures Valid()
      ensures categoryFilter == category && dateFilter == date
      ensures expenses == old(expenses) && isLoading == old(isLoading)
      ensures showForm == old(showForm) && editingExpense == old(editingExpense) && form == old(form)
    {
      categoryFilter, dateFilter := category, date;
      filteredExpenses := FilterExpenses(expenses, categoryFilter, dateFilter);
    }

    /** `resetForm`: empty fields dated today, form hidden, nothing being edited. */
    method ResetForm(now: int)
      modifies this
      ensures form == EmptyExpenseForm(now) && !showForm && editingExpense.None?
      ensures expenses == old(expenses) && filteredExpenses == old(filteredExpenses) && isLoading == old(isLoading)
      ensures categoryFilter == old(categoryFilter) && dateFilter == old(dateFilter)
    {
      form := EmptyExpenseForm(now);
      showForm := false;
      editingExpense := None;
    }

    /** `handleEdit`: the expense's fields in the form, the form shown. */
    method HandleEdit(expense: ExpenseRow)
      modifies this
      ensures editingExpense == Some(expense) && showForm
      ensures form == ExpenseForm(expense.fields.description, Some(expense.fields.amount),
                                  expense.fields.category, expense.fields.date)
      ensures expenses == old(expenses) && filteredExpenses == old(filteredExpenses) && isLoading == old(isLoading)
      ensures categoryFilter == old(categoryFilter) && dateFilter == old(dateFilter)
    {
      editingExpense := Some(expense);
      form := ExpenseForm(expense.fields.description, Some(expense.fields.amount),
                          expense.fields.category, expense.fields.date);
      showForm := true;
    }

    /**
     * `handleSubmit`: a form with a complaint sends nothing and changes nothing.
     * Otherwise it always creates a new expense, even while one is being edited;
     * when the store accepts it the list is reloaded, `onExpenseCreated` is called,
     * which `notified` records, and the form is reset; when it refuses, the form
     * stays as it was.
     */
    method HandleSubmit(db: Database, id: string, now: int) returns (sent: Option<ExpenseData>, notified: bool)
      requires Valid() && db.Valid()
      modifies this, db
      ensures db.Valid() && Valid()
      ensures sent.None? <==> ExpenseFormError(old(form)).Some?
      ensures sent.Some? ==> sent.value == ExpensePayload(old(form))
      ensures notified <==> sent.Some? && old(db.isOpen) && !HasId(old(db.expenses), id)
      ensures notified ==>
        db.expenses == old(db.expenses) + [Row(id, Expense(sent.value.description, sent.value.amount,
                                                          sent.value.category, sent.value.date, SqlNow(now)))]
      ensures !notified ==> db.expenses == old(db.expenses)
      ensures db.isOpen == old(db.isOpen) && db.orders == old(db.orders)
      ensures db.itemTypes == old(db.itemTypes) && db.customers == old(db.customers)
      ensures notified ==>
        && multiset(expenses) == multiset(db.expenses) && SortedBy(expenses, LatestDateFirst)
        && form == EmptyExpenseForm(now) && !showForm && editingExpense.None? && !isLoading
      ensures !notified ==>
        && expenses == old(expenses) && form == old(form) && isLoading == old(isLoading)
        && showForm == old(showForm) && editingExpense == old(editingExpense)
      ensures categoryFilter == old(categoryFilter) && dateFilter == old(dateFilter)
    {
      notified := false;
      if ExpenseFormError(form).Some? {
        return None, false;
      }
      var data := ExpensePayload(form);
      sent := Some(data);
      var result := db.CreateExpense(id, data, now);
      if result.Success? {
        notified := true;
        var reply := db.GetExpenses();
        LoadExpenses(reply);
        ResetForm(now);
      }
    }
  }
}
