/**
 * The cart of the new-order form: a sequence of lines, each an item type of the
 * price list with a quantity. `addItem`, `removeItem` and `updateQuantity` are
 * the `find`/`map`/`filter` expressions the form applies to its cart.
 */
module Cart {
  import opened Common
  import opened Records
  import opened Formatters

  predicate HasLine(cart: seq<LineItem>, id: string)
  {
    exists i :: 0 <= i < |cart| && cart[i].item.id == id
  }

  /** No item type appears on two lines. */
  predicate UniqueLines(cart: seq<LineItem>)
  {
    forall i, j :: 0 <= i < j < |cart| ==> cart[i].item.id != cart[j].item.id
  }

  /** `cart.map(item => item.id === id ? { ...item, quantity: f(item.quantity) } : item)`. */
  function Requantify(cart: seq<LineItem>, id: string, f: int -> int): (r: seq<LineItem>)
    ensures |r| == |cart|
    ensures forall i :: 0 <= i < |cart| ==>
      r[i] == if cart[i].item.id == id then cart[i].(quantity := f(cart[i].quantity)) else cart[i]
  {
    if cart == [] then []
    else [if cart[0].item.id == id then cart[0].(quantity := f(cart[0].quantity)) else cart[0]]
         + Requantify(cart[1..], id, f)
  }

  /**
   * `addItem`: one more of an item type already in the cart raises that line's
   * quantity by one; a new item type goes at the end with quantity 1.
   */
  function AddItem(cart: seq<LineItem>, t: ItemTypeRow): (r: seq<LineItem>)
    ensures !HasLine(cart, t.id) ==> r == cart + [LineItem(t, 1)]
    ensures HasLine(cart, t.id) ==>
      && |r| == |cart|
      && forall i :: 0 <= i < |cart| ==>
           r[i] == if cart[i].item.id == t.id then cart[i].(quantity := cart[i].quantity + 1) else cart[i]
  {
    if HasLine(cart, t.id) then Requantify(cart, t.id, q => q + 1)
    else cart + [LineItem(t, 1)]
  }

  /** `removeItem`: the lines of every other item type, in order. */
  function RemoveItem(cart: seq<LineItem>, id: string): (r: seq<LineItem>)
    ensures IsSubsequence(r, cart)
    ensures forall l :: l in r <==> l in cart && l.item.id != id
  {
    Filter(cart, (l: LineItem) => l.item.id != id)
  }

  /** `updateQuantity`: a quantity of zero or less removes the line, any other sets it. */
  function UpdateQuantity(cart: seq<LineItem>, id: string, newQuantity: int): (r: seq<LineItem>)
    ensures newQuantity <= 0 ==> r == RemoveItem(cart, id)
    ensures newQuantity > 0 ==>
      && |r| == |cart|
      && forall i :: 0 <= i < |cart| ==>
           r[i] == if cart[i].item.id == id then cart[i].(quantity := newQuantity) else cart[i]
  {
    if newQuantity <= 0 then RemoveItem(cart, id)
    else Requantify(cart, id, _ => newQuantity)
  }

  /** Adding keeps each item type on one line at most. */
  lemma AddKeepsUnique(cart: seq<LineItem>, t: ItemTypeRow)
    requires UniqueLines(cart)
    ensures UniqueLines(AddItem(cart, t))
  {
  }

  /** The cart built by any run of `addItem` from the empty cart. */
  function AddAll(cart: seq<LineItem>, ts: seq<ItemTypeRow>): seq<LineItem>
    decreases |ts|
  {
    if ts == [] then cart else AddAll(AddItem(cart, ts[0]), ts[1..])
  }

  /** Starting from an empty cart, clicks on item types never produce two lines for one type. */
  lemma {:induction false} AddAllUnique(cart: seq<LineItem>, ts: seq<ItemTypeRow>)
    requires UniqueLines(cart)
    ensures UniqueLines(AddAll(cart, ts))
    decreases |ts|
  {
    if ts != [] {
      AddKeepsUnique(cart, ts[0]);
      AddAllUnique(AddItem(cart, ts[0]), ts[1..]);
    }
  }

  /** Changing one element of a sequence changes its sum by the difference at that element. */
  lemma SumOfPointChange<T>(s: seq<T>, r: seq<T>, k: int, v: T -> int)
    requires |r| == |s| && 0 <= k < |s|
    requires forall i :: 0 <= i < |s| && i != k ==> r[i] == s[i]
    ensures SumOf(r, v) == SumOf(s, v) - v(s[k]) + v(r[k])
  {
    assert s == s[..k] + [s[k]] + s[k + 1..];
    assert r == r[..k] + [r[k]] + r[k + 1..];
    assert r[..k] == s[..k] && r[k + 1..] == s[k + 1..];
    SumOfAppend(s[..k] + [s[k]], s[k + 1..], v);
    SumOfAppend(s[..k], [s[k]], v);
    SumOfAppend(r[..k] + [r[k]], r[k + 1..], v);
    SumOfAppend(r[..k], [r[k]], v);
    assert [s[k]][..0] == [] && [r[k]][..0] == [];
  }

  /** One more of the type on line `k` adds that line's price, and changes no other line. */
  lemma TotalAfterAddExisting(cart: seq<LineItem>, t: ItemTypeRow, k: int)
    requires UniqueLines(cart) && 0 <= k < |cart| && cart[k].item.id == t.id
    ensures CalculateTotal(AddItem(cart, t)) == CalculateTotal(cart) + cart[k].item.fields.price
  {
    var r := AddItem(cart, t);
    assert HasLine(cart, t.id);
    forall i | 0 <= i < |cart| && i != k ensures r[i] == cart[i] {
      assert cart[i].item.id != cart[k].item.id;
    }
    var price, q := cart[k].item.fields.price, cart[k].quantity;
    assert r[k] == cart[k].(quantity := q + 1);
    assert LineAmount(r[k]) == price * (q + 1) == price * q + price;
    SumOfPointChange(cart, r, k, LineAmount);
  }

  /** With one line per type, a new type adds its price and a known type adds its line's price. */
  lemma TotalAfterAdd(cart: seq<LineItem>, t: ItemTypeRow)
    requires UniqueLines(cart)
    ensures !HasLine(cart, t.id) ==> CalculateTotal(AddItem(cart, t)) == CalculateTotal(cart) + t.fields.price
    ensures forall k :: 0 <= k < |cart| && cart[k].item.id == t.id ==>
      CalculateTotal(AddItem(cart, t)) == CalculateTotal(cart) + cart[k].item.fields.price
  {
    if !HasLine(cart, t.id) {
      TotalSnoc(cart, LineItem(t, 1));
    }
    forall k | 0 <= k < |cart| && cart[k].item.id == t.id
      ensures CalculateTotal(AddItem(cart, t)) == CalculateTotal(cart) + cart[k].item.fields.price
    {
      TotalAfterAddExisting(cart, t, k);
    }
  }

  /** With one line per type, setting a positive quantity replaces that line's amount. */
  lemma TotalAfterUpdate(cart: seq<LineItem>, k: int, newQuantity: int)
    requires UniqueLines(cart) && 0 <= k < |cart| && newQuantity > 0
    ensures CalculateTotal(UpdateQuantity(cart, cart[k].item.id, newQuantity))
         == CalculateTotal(cart) - LineAmount(cart[k]) + cart[k].item.fields.price * newQuantity
  {
    SumOfPointChange(cart, UpdateQuantity(cart, cart[k].item.id, newQuantity), k, LineAmount);
  }

  /** With one line per type, removing a type drops exactly its line, and its amount from the total. */
  lemma TotalAfterRemove(cart: seq<LineItem>, k: int)
    requires UniqueLines(cart) && 0 <= k < |cart|
    ensures RemoveItem(cart, cart[k].item.id) == cart[..k] + cart[k + 1..]
    ensures CalculateTotal(RemoveItem(cart, cart[k].item.id)) == CalculateTotal(cart) - LineAmount(cart[k])
  {
    var id := cart[k].item.id;
    var p := (l: LineItem) => l.item.id != id;
    var before, after := cart[..k], cart[k + 1..];
    forall i | 0 <= i < |before| ensures p(before[i]) {
      assert before[i] == cart[i];
    }
    forall i | 0 <= i < |after| ensures p(after[i]) {
      assert after[i] == cart[k + 1 + i];
    }
    assert cart == before + [cart[k]] + after;
    FilterDropsOne(before, cart[k], after, p);
    TotalAppend(before, after);
    TotalAppend(before + [cart[k]], after);
    TotalSnoc(before, cart[k]);
  }
}
