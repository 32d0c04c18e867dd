/** The offer record and its line items (api/Models/Offer.cs), their
    defaults, and the pricing rule every stored offer follows: a line total
    is quantity × unit price and the offer total is the sum of the line
    totals. Money is an exact integer amount (C# `decimal` without
    rounding). */
module OfferModel {
  import opened Common
  import opened Calendar

  datatype Currency = TRY | USD | EUR

  datatype OfferStatus = Draft | Sent | Viewed | Accepted | Rejected | Expired | Cancelled

  /** The integer each status is stored as. */
  function StatusCode(s: OfferStatus): (c: int)
    ensures 0 <= c <= 6
  {
    match s
    case Draft => 0
    case Sent => 1
    case Viewed => 2
    case Accepted => 3
    case Rejected => 4
    case Expired => 5
    case Cancelled => 6
  }

  /** Reading a stored integer back; codes outside 0..6 name no status. */
  function StatusFromCode(c: int): (s: Option<OfferStatus>)
    ensures s.Some? <==> 0 <= c <= 6
  {
    if c == 0 then Some(Draft)
    else if c == 1 then Some(Sent)
    else if c == 2 then Some(Viewed)
    else if c == 3 then Some(Accepted)
    else if c == 4 then Some(Rejected)
    else if c == 5 then Some(Expired)
    else if c == 6 then Some(Cancelled)
    else None
  }

  /** The seven statuses and the seven codes are in one-to-one
      correspondence. */
  lemma StatusCodesRoundTrip(s: OfferStatus, c: int)
    ensures StatusFromCode(StatusCode(s)) == Some(s)
    ensures 0 <= c <= 6 ==> StatusFromCode(c).Some? && StatusCode(StatusFromCode(c).value) == c
  {
  }

  datatype OfferItem = OfferItem(
    description: string,
    quantity: int,
    unitPrice: int,
    discount: int,   // a percentage, e.g. 5 for 5 %
    vatRate: int,    // a percentage, e.g. 20 for 20 %
    totalPrice: int)

  /** `new OfferItem()`: one unit, no discount, no VAT. */
  function NewOfferItem(): (item: OfferItem)
    ensures item.quantity == 1 && item.discount == 0 && item.vatRate == 0
    ensures item.description == "" && item.unitPrice == 0 && item.totalPrice == 0
  {
    OfferItem("", 1, 0, 0, 0, 0)
  }

  datatype Offer = Offer(
    id: int,
    offerNumber: string,
    customerName: string,
    customerEmail: string,
    customerPhone: Option<string>,
    customerAddress: string,
    offerDate: DateTime,
    dueDate: Option<DateTime>,
    currency: Currency,
    notes: Option<string>,
    totalAmount: int,
    status: OfferStatus,
    publicToken: string,
    tokenExpiresAt: Option<DateTime>,
    createdAt: DateTime,
    userId: string,
    companyId: int,
    items: seq<OfferItem>)

  /** `new Offer()` at `utcNow`, with `publicToken` the freshly generated
      GUID text: a draft in Turkish lira with no items, no due date and a
      token that never expires. */
  function NewOffer(publicToken: string, utcNow: DateTime): (o: Offer)
    ensures o.status == Draft && o.currency == TRY
    ensures o.dueDate.None? && o.tokenExpiresAt.None? && o.publicToken == publicToken
    ensures o.items == [] && o.totalAmount == 0
    ensures o.offerDate == utcNow && o.createdAt == utcNow
  {
    Offer(0, "", "", "", None, "", utcNow, None, TRY, None, 0, Draft, publicToken, None, utcNow, "", 0, [])
  }

  // ---------------------------------------------------------------------
  // Pricing

  /** The amount a line adds to the offer's total: quantity × unit price
      on a priced line. */
  function ItemTotal(item: OfferItem): (t: int)
    ensures LinePriced(item) ==> t == item.quantity * item.unitPrice
  {
    item.totalPrice
  }

  /** `Items.Sum(i => i.TotalPrice)`: nothing for no lines, and never
      negative when no line is. */
  function TotalOf(items: seq<OfferItem>): (t: int)
    ensures items == [] ==> t == 0
    ensures (forall i :: 0 <= i < |items| ==> items[i].totalPrice >= 0) ==> t >= 0
  {
    assert (forall i :: 0 <= i < |items| ==> items[i].totalPrice >= 0) ==> Sum(items, ItemTotal) >= 0 by {
      if forall i :: 0 <= i < |items| ==> items[i].totalPrice >= 0 {
        SumNonNegative(items, ItemTotal);
      }
    }
    Sum(items, ItemTotal)
  }

  /** A line whose stored total is quantity × unit price (discount and VAT
      are not part of it). */
  predicate LinePriced(item: OfferItem)
  {
    item.totalPrice == item.quantity * item.unitPrice
  }

  /** The pricing invariant of a stored offer. */
  predicate Priced(o: Offer)
  {
    (forall i :: 0 <= i < |o.items| ==> LinePriced(o.items[i]))
    && o.totalAmount == TotalOf(o.items)
  }

  /** The pricing invariant of a whole offer table. */
  predicate AllPriced(offers: map<int, Offer>)
  {
    forall k :: k in offers ==> Priced(offers[k])
  }

  /** Adding a line adds its total to the offer total. */
  lemma {:induction false} TotalOfAppend(items: seq<OfferItem>, item: OfferItem)
    ensures TotalOf(items + [item]) == TotalOf(items) + item.totalPrice
  {
    SumAppend(items, [item], ItemTotal);
  }
}
