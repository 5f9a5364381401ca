/**
 * The price-list part of the settings page: the list of item types, the form that
 * adds one, and the delete button, which the page does not implement. A price
 * typed in the form is a whole number or nothing.
 */
module Settings {
  import opened Common
  import opened Records
  import opened Sorting
  import opened Tables
  import opened Store

  datatype ItemForm = ItemForm(name: string, price: Option<int>, category: string)

  const EmptyItemForm: ItemForm := ItemForm("", None, "")

  const NameRequired: string := "Le nom de l'article est requis"
  const PriceMustBePositive: string := "Le prix doit \U{00EA}tre sup\U{00E9}rieur \U{00E0} 0"
  const CategoryRequired: string := "Veuillez s\U{00E9}lectionner une cat\U{00E9}gorie"
  const DeleteNotImplemented: string := "Fonctionnalit\U{00E9} de suppression non impl\U{00E9}ment\U{00E9}e"

  /** The first complaint of `handleItemSubmit`: blank name, then price, then category. */
  function ItemFormError(form: ItemForm): (r: Option<string>)
    ensures r.None? <==> !IsBlank(form.name) && form.price.Some? && form.price.value > 0 && form.category != ""
    ensures r == Some(NameRequired) <==> IsBlank(form.name)
    ensures r == Some(PriceMustBePositive) <==> !IsBlank(form.name) && (form.price.None? || form.price.value <= 0)
  {
    TrimEmptyIffBlank(form.name);
    if Trim(form.name) == "" then Some(NameRequired)
    else if form.price.None? || form.price.value <= 0 then Some(PriceMustBePositive)
    else if form.category == "" then Some(CategoryRequired)
    else None
  }

  /** The object handed to `createItemType`: the name trimmed, price and category as entered. */
  function ItemPayload(form: ItemForm): ItemData
    requires form.price.Some?
  {
    ItemData(Trim(form.name), form.price.value, form.category)
  }

  /** A name of blanks is refused even with a good price and category. */
  lemma BlankNameRefused(price: int, category: string)
    requires price > 0 && category != ""
    ensures ItemFormError(ItemForm("  ", Some(price), category)) == Some(NameRequired)
  {
  }

  /**
   * `handleDeleteItem`: after the user confirms, only a toast saying deletion is not
   * implemented; it has no store to call.
   */
  method HandleDeleteItem(itemId: string, confirmed: bool) returns (toast: Option<string>)
    ensures toast.Some? <==> confirmed
    ensures toast.Some? ==> toast.value == DeleteNotImplemented
  {
    if confirmed {
      toast := Some(DeleteNotImplemented);
    } else {
      toast := None;
    }
  }

  class SettingsPage {
    var itemTypes: seq<ItemTypeRow>
    var isLoading: bool
    var showItemForm: bool
    var editingItem: Option<ItemTypeRow>
    var itemForm: ItemForm

    constructor ()
      ensures itemTypes == [] && isLoading && !showItemForm && editingItem.None? && itemForm == EmptyItemForm
    {
      itemTypes := [];
      isLoading := true;
      showItemForm := false;
      editingItem := None;
      itemForm := EmptyItemForm;
    }

    /** `loadItemTypes`: the price list on success, the old one otherwise; loading ends. */
    method LoadItemTypes(reply: Reply<seq<ItemTypeRow>>)
      modifies this
      ensures itemTypes == if reply.Success? then reply.data else old(itemTypes)
      ensures !isLoading
      ensures showItemForm == old(showItemForm) && editingItem == old(editingItem) && itemForm == old(itemForm)
    {
      if reply.Success? {
        itemTypes := reply.data;
      }
      isLoading := false;
    }

    /** `resetItemForm`: empty fields, form hidden, nothing being edited. */
    method ResetItemForm()
      modifies this
      ensures itemForm == EmptyItemForm && !showItemForm && editingItem.None?
      ensures itemTypes == old(itemTypes) && isLoading == old(isLoading)
    {
      itemForm := EmptyItemForm;
      showItemForm := false;
      editingItem := None;
    }

    /** `handleEditItem`: the item's fields in the form, the form shown. */
    method HandleEditItem(item: ItemTypeRow)
      modifies this
      ensures editingItem == Some(item) && showItemForm
      ensures itemForm == ItemForm(item.fields.name, Some(item.fields.price), item.fields.category)
      ensures itemTypes == old(itemTypes) && isLoading == old(isLoading)
    {
      editingItem := Some(item);
      itemForm := ItemForm(item.fields.name, Some(item.fields.price), item.fields.category);
      showItemForm := true;
    }

    /**
     * `handleItemSubmit`: a form with a complaint sends nothing and changes nothing.
     * Otherwise it always creates a new item type, even while one is being edited;
     * when the store accepts it the list is reloaded and the form reset, and when
     * it refuses, the form stays as it was.
     */
    method HandleItemSubmit(db: Database, id: string, now: int) returns (sent: Option<ItemData>, created: bool)
      requires db.Valid()
      modifies this, db
      ensures db.Valid()
      ensures sent.None? <==> ItemFormError(old(itemForm)).Some?
      ensures sent.Some? ==> sent.value == ItemPayload(old(itemForm))
      ensures created <==> sent.Some? && old(db.isOpen) && !HasId(old(db.itemTypes), id)
      ensures created ==> db.itemTypes == old(db.itemTypes) + [SeedRow(id, sent.value, SqlNow(now))]
      ensures !created ==> db.itemTypes == old(db.itemTypes)
      ensures db.isOpen == old(db.isOpen) && db.orders == old(db.orders)
      ensures db.expenses == old(db.expenses) && db.customers == old(db.customers)
      ensures created ==>
        && multiset(itemTypes) == multiset(db.itemTypes) && SortedBy(itemTypes, ByCategoryThenName)
        && itemForm == EmptyItemForm && !showItemForm && editingItem.None? && !isLoading
      ensures !created ==>
        && itemTypes == old(itemTypes) && itemForm == old(itemForm) && isLoading == old(isLoading)
        && showItemForm == old(showItemForm) && editingItem == old(editingItem)
    {
      created := false;
      if ItemFormError(itemForm).Some? {
        return None, false;
      }
      var data := ItemPayload(itemForm);
      sent := Some(data);
      var result := db.CreateItemType(id, data, now);
      if result.Success? {
        created := true;
        var reply := db.GetItemTypes();
        LoadItemTypes(reply);
        ResetItemForm();
      }
    }
  }
}
