/** The line-item editor of the new-offer page
    (ui/app/dashboard/offers/new/page.tsx): rows can be added, removed
    (never the last one) and edited; picking a catalogue product copies its
    name and price. Every row's total stays quantity × unit price, so the
    total the page shows is the total the server will compute for the
    submitted items. */
module OfferEditor {
  import opened Common
  import opened OfferModel
  import opened ClientModel
  import opened OfferService
  import opened ProductStore

  /** One editor row; `productId` links the row to a catalogue product. */
  datatype EditorItem = EditorItem(
    productId: Option<int>,
    description: string,
    quantity: int,
    unitPrice: int,
    totalPrice: int)

  /** An edit made in a row's description, quantity or unit-price input. */
  datatype ItemEdit = EditDescription(text: string) | EditQuantity(quantity: int) | EditUnitPrice(unitPrice: int)

  /** The row the page starts with and `addItem` appends. */
  function BlankItem(): (item: EditorItem)
    ensures item.productId.None? && item.description == ""
    ensures item.quantity == 1 && item.unitPrice == 0 && item.totalPrice == 0
  {
    EditorItem(None, "", 1, 0, 0)
  }

  /** A row whose total is its quantity times its unit price. */
  predicate LineConsistent(item: EditorItem)
  {
    item.totalPrice == item.quantity * item.unitPrice
  }

  function LineTotal(item: EditorItem): int
  {
    item.totalPrice
  }

  /** `getTotalAmount`: the rows' totals added up; nothing for no rows, and
      never negative when no row is. */
  function TotalAmount(items: seq<EditorItem>): (t: int)
    ensures items == [] ==> t == 0
    ensures (forall i :: 0 <= i < |items| ==> items[i].totalPrice >= 0) ==> t >= 0
  {
    assert (forall i :: 0 <= i < |items| ==> items[i].totalPrice >= 0) ==> Sum(items, LineTotal) >= 0 by {
      if forall i :: 0 <= i < |items| ==> items[i].totalPrice >= 0 {
        SumNonNegative(items, LineTotal);
      }
    }
    Sum(items, LineTotal)
  }

  /** `handleItemChange` on one row: the edited field takes the value and,
      for quantity or unit price only, the total is recomputed. */
  function ApplyEdit(item: EditorItem, edit: ItemEdit): (r: EditorItem)
    ensures r.productId == item.productId
    ensures edit.EditDescription? ==> r == item.(description := edit.text)
    ensures edit.EditQuantity? ==>
      r == item.(quantity := edit.quantity, totalPrice := edit.quantity * item.unitPrice)
    ensures edit.EditUnitPrice? ==>
      r == item.(unitPrice := edit.unitPrice, totalPrice := item.quantity * edit.unitPrice)
    ensures LineConsistent(item) ==> LineConsistent(r)
  {
    match edit
    case EditDescription(text) => item.(description := text)
    case EditQuantity(q) => item.(quantity := q, totalPrice := q * item.unitPrice)
    case EditUnitPrice(p) => item.(unitPrice := p, totalPrice := item.quantity * p)
  }

  /** `products.find(p => p.name === name)`: the first product with
      exactly that name. */
  function FindByName(products: seq<ClientProduct>, name: string): (r: Option<ClientProduct>)
    ensures r.Some? ==> r.value in products && r.value.name == name
    ensures r.None? <==> forall i :: 0 <= i < |products| ==> products[i].name != name
    ensures r.Some? ==> exists i :: 0 <= i < |products| && products[i] == r.value &&
                                    (forall j :: 0 <= j < i ==> products[j].name != name)
  {
    if products == [] then None
    else if products[0].name == name then Some(products[0])
    else
      var r := FindByName(products[1..], name);
      if r.Some? then
        ghost var i :| 0 <= i < |products[1..]| && products[1..][i] == r.value &&
                       (forall j :: 0 <= j < i ==> products[1..][j].name != name);
        assert products[i + 1] == r.value;
        r
      else r
  }

  /** `handleProductSelect` on one row: a product with that name fills in
      the row's link, description and price and recomputes its total;
      without one only the link is cleared. */
  function SelectProduct(item: EditorItem, products: seq<ClientProduct>, name: string): (r: EditorItem)
    ensures FindByName(products, name).Some? ==>
      var p := FindByName(products, name).value;
      r == item.(productId := Some(p.id), description := p.name, unitPrice := p.price,
                 totalPrice := item.quantity * p.price)
    ensures FindByName(products, name).None? ==> r == item.(productId := None)
    ensures r.quantity == item.quantity
    ensures LineConsistent(item) ==> LineConsistent(r)
  {
    var found := FindByName(products, name);
    if found.Some? then
      item.(productId := Some(found.value.id), description := found.value.name,
            unitPrice := found.value.price, totalPrice := item.quantity * found.value.price)
    else item.(productId := None)
  }

  /** `items.filter((_, i) => i !== index)`: drops the row at `index`, or
      nothing when there is no such row. */
  function WithoutRow(items: seq<EditorItem>, index: int): (r: seq<EditorItem>)
    ensures 0 <= index < |items| ==> |r| == |items| - 1
    ensures 0 <= index < |items| ==> forall i :: 0 <= i < |r| ==> r[i] == items[if i < index then i else i + 1]
    ensures !(0 <= index < |items|) ==> r == items
  {
    if 0 <= index < |items| then items[..index] + items[index + 1..] else items
  }

  /** The submitted rows: description, quantity and unit price only, in
      the editor's order. */
  function Payload(items: seq<EditorItem>): (r: seq<ItemRequest>)
    ensures |r| == |items|
    ensures forall i :: 0 <= i < |items| ==>
      r[i] == ItemRequest(items[i].description, items[i].quantity, items[i].unitPrice)
  {
    seq(|items|, i requires 0 <= i < |items| => ItemRequest(items[i].description, items[i].quantity, items[i].unitPrice))
  }

  /** `!item.productId`: no product linked, or the falsy id 0. */
  function NeedsProduct(item: EditorItem): (b: bool)
    ensures item.productId.None? || item.productId == Some(0) ==> b
    ensures !b ==> item.productId.Some? && item.productId.value != 0
  {
    item.productId.None? || item.productId.value == 0
  }

  /** The products the submit loop adds to the product store: one for
      each row that needs a product and whose request succeeded, in row
      order. */
  function CreatedProducts(items: seq<EditorItem>, replies: seq<Reply<ClientProduct>>): (r: seq<ClientProduct>)
    requires |replies| == |items|
    ensures |r| <= |items|
  {
    if items == [] then []
    else (if NeedsProduct(items[0]) && replies[0].Ok? then [replies[0].data] else [])
         + CreatedProducts(items[1..], replies[1..])
  }

  /** Every product the loop adds came back from a successful request, and
      when every row is already linked nothing is added. */
  lemma {:induction false} CreatedProductsFromReplies(items: seq<EditorItem>, replies: seq<Reply<ClientProduct>>)
    requires |replies| == |items|
    ensures forall p :: p in CreatedProducts(items, replies) ==> Ok(p) in replies
    ensures (forall i :: 0 <= i < |items| ==> !NeedsProduct(items[i])) ==> CreatedProducts(items, replies) == []
  {
    if items != [] {
      CreatedProductsFromReplies(items[1..], replies[1..]);
    }
  }

  /** Extending the rows by one extends the created products by at most
      that row's product. */
  lemma {:induction false} CreatedProductsSnoc(items: seq<EditorItem>, replies: seq<Reply<ClientProduct>>, n: nat)
    requires |replies| == |items| && n < |items|
    ensures CreatedProducts(items[..n + 1], replies[..n + 1]) ==
      CreatedProducts(items[..n], replies[..n])
      + (if NeedsProduct(items[n]) && replies[n].Ok? then [replies[n].data] else [])
  {
    if n > 0 {
      assert items[..n + 1][1..] == items[1..][..n];
      assert replies[..n + 1][1..] == replies[1..][..n];
      assert items[..n][1..] == items[1..][..n - 1];
      assert replies[..n][1..] == replies[1..][..n - 1];
      CreatedProductsSnoc(items[1..], replies[1..], n - 1);
    }
  }

  /** The row after the submit loop visited it. */
  function Linked(item: EditorItem, reply: Reply<ClientProduct>): (r: EditorItem)
    ensures NeedsProduct(item) && reply.Ok? ==> r == item.(productId := Some(reply.data.id))
    ensures !(NeedsProduct(item) && reply.Ok?) ==> r == item
  {
    if NeedsProduct(item) && reply.Ok? then item.(productId := Some(reply.data.id)) else item
  }

  class ItemEditor {
    var items: seq<EditorItem>

    /** At least one row, and every row's total is its quantity times its
        unit price. */
    ghost predicate Valid()
      reads this
    {
      |items| >= 1 && forall i :: 0 <= i < |items| ==> LineConsistent(items[i])
    }

    /** The page opens with one blank row. */
    constructor()
      ensures Valid()
      ensures items == [BlankItem()]
    {
      items := [BlankItem()];
    }

    /** `handleItemChange`: only the row at `index` changes. */
    method HandleItemChange(index: int, edit: ItemEdit)
      requires Valid() && 0 <= index < |items|
      modifies this
      ensures Valid()
      ensures items == old(items)[index := ApplyEdit(old(items)[index], edit)]
    {
      items := items[index := ApplyEdit(items[index], edit)];
    }

    /** `handleProductSelect`: only the row at `index` changes. */
    method HandleProductSelect(index: int, name: string, products: seq<ClientProduct>)
      requires Valid() && 0 <= index < |items|
      modifies this
      ensures Valid()
      ensures items == old(items)[index := SelectProduct(old(items)[index], products, name)]
    {
      items := items[index := SelectProduct(items[index], products, name)];
    }

    /** `addItem`: a blank row goes last. */
    method AddItem()
      requires Valid()
      modifies this
      ensures Valid()
      ensures items == old(items) + [BlankItem()]
    {
      items := items + [BlankItem()];
    }

    /** `removeItem`: the last remaining row stays; otherwise the row at
      `index` (if any) goes. */
    method RemoveItem(index: int)
      requires Valid()
      modifies this
      ensures Valid()
      ensures items == if |old(items)| > 1 then WithoutRow(old(items), index) else old(items)
    {
      if |items| > 1 {
        items := WithoutRow(items, index);
      }
    }

    /** `getTotalAmount`. */
    method GetTotalAmount() returns (total: int)
      requires Valid()
      ensures total == TotalAmount(items)
      ensures total == Sum(Payload(items), RequestedTotal)
    {
      ShownTotalIsServerTotal(items);
      total := TotalAmount(items);
    }

    /** The product-creating loop of `handleSubmit`: each row without a
      linked product asks the product store to create one named after the
      row, at the row's unit price (`replies[i]` is that request's
      outcome); a created product's id is linked to the row and a failure
      is ignored. */
    method CreateMissingProducts(store: ProductStore, replies: seq<Reply<ClientProduct>>)
      requires Valid() && |replies| == |items|
      modifies this, store`products
      ensures Valid()
      ensures |items| == |old(items)|
      ensures forall i :: 0 <= i < |items| ==> items[i] == Linked(old(items)[i], replies[i])
      ensures store.products == old(store.products) + CreatedProducts(old(items), replies)
    {
      var i := 0;
      while i < |items|
        invariant 0 <= i <= |items| == |old(items)|
        invariant forall j :: 0 <= j < i ==> items[j] == Linked(old(items)[j], replies[j])
        invariant forall j :: i <= j < |items| ==> items[j] == old(items)[j]
        invariant store.products == old(store.products) + CreatedProducts(old(items)[..i], replies[..i])
        invariant Valid()
      {
        CreatedProductsSnoc(old(items), replies, i);
        if NeedsProduct(items[i]) {
          var outcome := store.CreateProduct(replies[i]);
          if outcome.Returned? {
            items := items[i := items[i].(productId := Some(outcome.value.id))];
          }
        }
        i := i + 1;
      }
      assert old(items)[..i] == old(items) && replies[..i] == replies;
    }
  }

  /** The shown total of consistent rows is what the server charges for
      the submitted rows: the sum of quantity × unit price over the
      payload, which `PricedTotal` equates with the priced offer's total. */
  lemma {:induction false} ShownTotalIsServerTotal(items: seq<EditorItem>)
    requires forall i :: 0 <= i < |items| ==> LineConsistent(items[i])
    ensures TotalAmount(items) == Sum(Payload(items), RequestedTotal)
    ensures TotalAmount(items) == TotalOf(PriceItems(Payload(items)))
  {
    if items != [] {
      ShownTotalIsServerTotal(items[1..]);
      assert Payload(items)[1..] == Payload(items[1..]);
    }
    PricedTotal(Payload(items));
  }

  /** The editor never runs out of rows, however many are removed. */
  lemma RemovingKeepsARow(items: seq<EditorItem>, index: int)
    requires |items| >= 1
    ensures |if |items| > 1 then WithoutRow(items, index) else items| >= 1
  {
  }
}
