/**
 * The address book: the customer list narrowed by a search box, and the form that
 * adds a customer or edits the one chosen. The page does not look at the store's
 * answers: whatever they say, the form is reset and the list fetched again.
 */
module AddressBook {
  import opened Common
  import opened Records
  import opened Tables
  import opened Store
  import opened Sorting

  /** The search test: first or last name ignoring case, the phone as typed, with the untrimmed term. */
  predicate CustomerHit(c: CustomerRow, term: string)
  {
    || Contains(ToLower(c.fields.firstName), ToLower(term))
    || Contains(ToLower(c.fields.lastName), ToLower(term))
    || Contains(c.fields.phone, term)
  }

  /** `filterCustomers`: every customer for a blank term, otherwise those the term hits, in order. */
  function FilterCustomers(customers: seq<CustomerRow>, searchTerm: string): (r: seq<CustomerRow>)
    ensures IsSubsequence(r, customers)
    ensures IsBlank(searchTerm) ==> r == customers
    ensures !IsBlank(searchTerm) ==> forall c :: c in r <==> c in customers && CustomerHit(c, searchTerm)
  {
    TrimEmptyIffBlank(searchTerm);
    SubsequenceRefl(customers);
    if Trim(searchTerm) == "" then customers
    else Filter(customers, (c: CustomerRow) => CustomerHit(c, searchTerm))
  }

  /**
   * A term longer than both names can only hit through the phone, and the phone is
   * compared as typed: the customer is hit iff the phone holds the term exactly.
   */
  lemma LongTermSearchesPhone(c: CustomerRow, term: string)
    requires |term| > |c.fields.firstName| && |term| > |c.fields.lastName|
    ensures CustomerHit(c, term) <==> Contains(c.fields.phone, term)
  {
    ContainsNoLonger(ToLower(c.fields.firstName), ToLower(term));
    ContainsNoLonger(ToLower(c.fields.lastName), ToLower(term));
  }

  /**
   * The phone is searched case-sensitively: for a non-blank term longer than both
   * names, the customer is listed iff the phone holds the term as typed.
   */
  lemma PhoneSearchIsCaseSensitive(c: CustomerRow, term: string)
    requires !IsBlank(term)
    requires |term| > |c.fields.firstName| && |term| > |c.fields.lastName|
    ensures FilterCustomers([c], term) == if Contains(c.fields.phone, term) then [c] else []
  {
    LongTermSearchesPhone(c, term);
    assert [c][1..] == [];
  }

  /**
   * An example of `PhoneSearchIsCaseSensitive`: for a customer of phone `AB12` whose
   * names are shorter than four letters (Al Bo, say), the lower-case term `ab12`
   * lists nothing.
   */
  lemma LowerCasePhoneMisses(c: CustomerRow)
    requires |c.fields.firstName| < 4 && |c.fields.lastName| < 4 && c.fields.phone == "AB12"
    ensures FilterCustomers([c], "ab12") == []
  {
    assert !IsBlank("ab12") by { assert !IsJsWhitespace("ab12"[0]); }
    PhoneSearchIsCaseSensitive(c, "ab12");
    assert !Contains("AB12", "ab12") by {
      assert !IsPrefix("ab12", "AB12");
      assert "AB12"[1..] == "B12";
      ContainsNoLonger("B12", "ab12");
    }
  }

  /** The companion example: the same customer is listed for the term typed as the phone is written, `AB12`. */
  lemma ExactPhoneFinds(c: CustomerRow)
    requires |c.fields.firstName| < 4 && |c.fields.lastName| < 4 && c.fields.phone == "AB12"
    ensures FilterCustomers([c], "AB12") == [c]
  {
    assert !IsBlank("AB12") by { assert !IsJsWhitespace("AB12"[0]); }
    PhoneSearchIsCaseSensitive(c, "AB12");
    assert Contains("AB12", "AB12") by {
      assert IsPrefix("AB12", "AB12");
    }
  }

  datatype CustomerForm = CustomerForm(firstName: string, lastName: string, phone: string)

  const EmptyCustomerForm: CustomerForm := CustomerForm("", "", "")

  const FillRequiredFields: string := "addressBook.fillRequiredFields"

  /** The check of `handleSubmit`: a field left empty; blanks alone count as filled in. */
  function CustomerFormError(form: CustomerForm): (r: Option<string>)
    ensures r.None? <==> form.firstName != "" && form.lastName != "" && form.phone != ""
  {
    if form.firstName == "" || form.lastName == "" || form.phone == "" then Some(FillRequiredFields)
    else None
  }

  /** What `handleSubmit` sends: each field trimmed. */
  function CustomerPayload(form: CustomerForm): CustomerData
  {
    CustomerData(Trim(form.firstName), Trim(form.lastName), Trim(form.phone))
  }

  /** A form of blanks passes the check, and the customer is sent with three empty fields. */
  lemma BlankFieldsPass()
    ensures CustomerFormError(CustomerForm(" ", " ", " ")).None?
    ensures CustomerPayload(CustomerForm(" ", " ", " ")) == CustomerData("", "", "")
  {
    TrimEmptyIffBlank(" ");
  }

  /** The columns an edit writes: the form's fields, the creation time kept. */
  function Overwrite(data: CustomerData): Customer -> Customer
  {
    (c: Customer) => Customer(data.firstName, data.lastName, data.phone, c.createdAt)
  }

  class AddressBookPage {
    var customers: seq<CustomerRow>
    var filteredCustomers: seq<CustomerRow>
    var showForm: bool
    var editingCustomer: Option<CustomerRow>
    var searchTerm: string
    var form: CustomerForm

    /** The effect on `[customers, searchTerm]` keeps the shown list current. */
    ghost predicate Valid()
      reads this
    {
      filteredCustomers == FilterCustomers(customers, searchTerm)
    }

    constructor ()
      ensures Valid()
      ensures customers == [] && !showForm && editingCustomer.None? && searchTerm == "" && form == EmptyCustomerForm
    {
      customers := [];
      filteredCustomers := [];
      showForm := false;
      editingCustomer := None;
      searchTerm := "";
      form := EmptyCustomerForm;
    }

    /** `loadCustomers`: the list on success, an empty list otherwise. */
    method LoadCustomers(reply: Reply<seq<CustomerRow>>)
      modifies this
      ensures Valid()
      ensures customers == if reply.Success? then reply.data else []
      ensures showForm == old(showForm) && editingCustomer == old(editingCustomer)
      ensures searchTerm == old(searchTerm) && form == old(form)
    {
      customers := if reply.Success? then reply.data else [];
      filteredCustomers := FilterCustomers(customers, searchTerm);
    }

    /** Typing in the search box; the shown list follows. */
    method SetSearchTerm(term: string)
      modifies this
      ensures Valid()
      ensures searchTerm == term
      ensures customers == old(customers) && showForm == old(showForm)
      ensures editingCustomer == old(editingCustomer) && form == old(form)
    {
      searchTerm := term;
      filteredCustomers := FilterCustomers(customers, searchTerm);
    }

    /** `resetForm`: empty fields, form hidden, nothing being edited. */
    method ResetForm()
      modifies this
      ensures form == EmptyCustomerForm && !showForm && editingCustomer.None?
      ensures customers == old(customers) && filteredCustomers == old(filteredCustomers)
      ensures searchTerm == old(searchTerm)
    {
      form := EmptyCustomerForm;
      showForm := false;
      editingCustomer := None;
    }

    /** `handleEdit`: the customer's three fields in the form, the form shown. */
    method HandleEdit(customer: CustomerRow)
      modifies this
      ensures editingCustomer == Some(customer) && showForm
      ensures form == CustomerForm(customer.fields.firstName, customer.fields.lastName, customer.fields.phone)
      ensures customers == old(customers) && filteredCustomers == old(filteredCustomers)
      ensures searchTerm == old(searchTerm)
    {
      editingCustomer := Some(customer);
      form := CustomerForm(customer.fields.firstName, customer.fields.lastName, customer.fields.phone);
      showForm := true;
    }

    /**
     * `handleSubmit`: a form with an empty field sends nothing and changes nothing.
     * Otherwise the trimmed fields go to `updateCustomer` for the customer being
     * edited, or to `createCustomer` under the fresh `id`; then, whatever the store
     * answered, the form is reset and the list fetched again.
     */
    method HandleSubmit(db: Database, id: string, now: int) returns (sent: Option<CustomerData>)
      requires Valid() && db.Valid()
      modifies this, db
      ensures db.Valid() && Valid()
      ensures db.isOpen == old(db.isOpen) && db.orders == old(db.orders)
      ensures db.expenses == old(db.expenses) && db.itemTypes == old(db.itemTypes)
      ensures searchTerm == old(searchTerm)
      ensures sent.None? <==> CustomerFormError(old(form)).Some?
      ensures sent.Some? ==> sent.value == CustomerPayload(old(form))
      ensures sent.None? ==>
        && db.customers == old(db.customers) && customers == old(customers)
        && form == old(form) && editingCustomer == old(editingCustomer) && showForm == old(showForm)
      ensures sent.Some? && old(editingCustomer).Some? && db.isOpen ==>
        db.customers == UpdateWhere(old(db.customers), old(editingCustomer).value.id, Overwrite(sent.value))
      ensures sent.Some? && old(editingCustomer).None? ==>
        db.customers == if db.isOpen && !HasId(old(db.customers), id)
                        then old(db.customers) + [Row(id, Customer(sent.value.firstName, sent.value.lastName,
                                                                  sent.value.phone, SqlNow(now)))]
                        else old(db.customers)
      ensures sent.Some? ==>
        && form == EmptyCustomerForm && !showForm && editingCustomer.None?
        && (db.isOpen ==> multiset(customers) == multiset(db.customers) && SortedBy(customers, ByFirstThenLastName))
        && (!db.isOpen ==> customers == [] && db.customers == old(db.customers))
    {
      if CustomerFormError(form).Some? {
        return None;
      }
      var data := CustomerPayload(form);
      sent := Some(data);
      if editingCustomer.Some? {
        var editId := editingCustomer.value.id;
        var _ := db.UpdateCustomer(editId, data);
      } else {
        var _ := db.CreateCustomer(id, data, now);
      }
      ResetForm();
      var reply := db.GetCustomers();
      LoadCustomers(reply);
    }

    /** `handleDelete`: only when the user confirms, the customer is deleted and the list fetched again. */
    method HandleDelete(db: Database, customerId: string, confirmed: bool)
      requires Valid() && db.Valid()
      modifies this, db
      ensures db.Valid() && Valid()
      ensures !confirmed ==> db.customers == old(db.customers) && customers == old(customers)
      ensures confirmed && db.isOpen ==>
        && (forall c :: c in db.customers <==> c in old(db.customers) && c.id != customerId)
        && multiset(customers) == multiset(db.customers)
        && SortedBy(customers, ByFirstThenLastName)
      ensures confirmed && !db.isOpen ==> db.customers == old(db.customers) && customers == []
      ensures db.isOpen == old(db.isOpen) && db.orders == old(db.orders)
      ensures db.expenses == old(db.expenses) && db.itemTypes == old(db.itemTypes)
      ensures form == old(form) && editingCustomer == old(editingCustomer) && showForm == old(showForm)
      ensures searchTerm == old(searchTerm)
    {
      if confirmed {
        var _ := db.DeleteCustomer(customerId);
        if db.isOpen {
          SubsequenceMembers(db.customers, old(db.customers));
        }
        var reply := db.GetCustomers();
        LoadCustomers(reply);
      }
    }
  }
}
