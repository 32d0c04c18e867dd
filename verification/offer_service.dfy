/** The write side of api/Services/OfferService.cs: creating an offer
    under the subscription rules (a lapsed subscription deactivates the
    company, the Free plan allows three offers), replacing an offer's
    customer data and lines, deleting it, and marking it sent. The clock,
    the generated token and the outcome of the e-mail service are
    parameters. */
module OfferService {
  import opened Common
  import opened Calendar
  import opened OfferModel
  import opened CompanyModel
  import opened Database
  import opened OfferNumbering
  import opened OfferQueries

  /** The number of offers a company on the Free plan may create. */
  const FreeOfferLimit := 3

  /** One requested line: what the client sends for an item. */
  datatype ItemRequest = ItemRequest(description: string, quantity: int, unitPrice: int)

  /** The fields of a create or update request. */
  datatype OfferRequest = OfferRequest(
    customerName: string,
    customerEmail: string,
    customerPhone: Option<string>,
    customerAddress: string,
    offerDate: DateTime,
    dueDate: Option<DateTime>,
    currency: Currency,
    notes: Option<string>,
    items: seq<ItemRequest>)

  // ---------------------------------------------------------------------
  // Pricing a request

  /** `new OfferItem { Description, Quantity, UnitPrice, TotalPrice =
      Quantity * UnitPrice }`; discount and VAT keep their defaults. */
  function PriceItem(r: ItemRequest): (item: OfferItem)
    ensures LinePriced(item)
    ensures item.description == r.description && item.quantity == r.quantity && item.unitPrice == r.unitPrice
    ensures item.discount == 0 && item.vatRate == 0
  {
    NewOfferItem().(description := r.description, quantity := r.quantity, unitPrice := r.unitPrice,
                    totalPrice := r.quantity * r.unitPrice)
  }

  /** `request.Items.Select(...)`: one priced line per requested line, in
      order. */
  function PriceItems(requests: seq<ItemRequest>): (items: seq<OfferItem>)
    ensures |items| == |requests|
    ensures forall i :: 0 <= i < |items| ==> items[i] == PriceItem(requests[i])
  {
    seq(|requests|, i requires 0 <= i < |requests| => PriceItem(requests[i]))
  }

  function RequestedTotal(r: ItemRequest): int
  {
    r.quantity * r.unitPrice
  }

  /** The total of the priced lines is the sum of quantity × unit price
      over the requested lines. */
  lemma {:induction false} PricedTotal(requests: seq<ItemRequest>)
    ensures TotalOf(PriceItems(requests)) == Sum(requests, RequestedTotal)
  {
    if requests != [] {
      var last := |requests| - 1;
      var front := requests[..last];
      PricedTotal(front);
      assert PriceItems(requests) == PriceItems(front) + [PriceItem(requests[last])];
      TotalOfAppend(PriceItems(front), PriceItem(requests[last]));
      assert requests == front + [requests[last]];
      SumAppend(front, [requests[last]], RequestedTotal);
    }
  }

  /** The assignments shared by creation and update: the customer fields,
      dates, currency and notes of the request, and its priced lines with
      their total. Everything else of the offer is kept. */
  function ApplyRequest(o: Offer, request: OfferRequest): (r: Offer)
    ensures Priced(r)
    ensures r.items == PriceItems(request.items)
    ensures |r.items| == |request.items| && r.totalAmount == Sum(request.items, RequestedTotal)
    ensures r.customerName == request.customerName && r.customerEmail == request.customerEmail
    ensures r.customerPhone == request.customerPhone && r.customerAddress == request.customerAddress
    ensures r.offerDate == request.offerDate && r.dueDate == request.dueDate
    ensures r.currency == request.currency && r.notes == request.notes
    ensures r.id == o.id && r.offerNumber == o.offerNumber && r.status == o.status
    ensures r.publicToken == o.publicToken && r.tokenExpiresAt == o.tokenExpiresAt
    ensures r.createdAt == o.createdAt && r.userId == o.userId && r.companyId == o.companyId
  {
    var items := PriceItems(request.items);
    PricedTotal(request.items);
    o.(customerName := request.customerName, customerEmail := request.customerEmail,
       customerPhone := request.customerPhone, customerAddress := request.customerAddress,
       offerDate := request.offerDate, dueDate := request.dueDate,
       currency := request.currency, notes := request.notes,
       items := items, totalAmount := TotalOf(items))
  }

  // ---------------------------------------------------------------------
  // Admission of a new offer

  datatype Refusal = InvalidUser | CompanyNotFound | SubscriptionLapsed | FreePlanLimitReached

  /** The message each refusal carries; no refusal is silent. */
  function RefusalMessage(r: Refusal): (m: string)
    ensures m != ""
  {
    match r
    case InvalidUser => "Invalid user"
    case CompanyNotFound => "Company not found"
    case SubscriptionLapsed => "Subscription expired. Please renew to continue."
    case FreePlanLimitReached => "Free plan limit reached. Please upgrade your plan."
  }

  /** Each refusal reads differently, so the caller can tell them apart
      by message alone. */
  lemma RefusalMessagesDistinct(a: Refusal, b: Refusal)
    ensures a != b ==> RefusalMessage(a) != RefusalMessage(b)
  {
  }

  /** The company a user belongs to, when the user exists and has one. */
  function CompanyOf(users: map<string, User>, userId: string): (r: Option<int>)
    ensures r.Some? <==> userId in users && users[userId].companyId.Some?
    ensures r.Some? ==> r == users[userId].companyId
  {
    if userId in users then users[userId].companyId else None
  }

  /** The Free-plan cap: a Free company that is not at it has room for at
      least one more offer, and a paid plan is never capped. */
  function AtFreeLimit(c: Company): (b: bool)
    ensures !b && c.plan == Free ==> c.offersUsed + 1 <= FreeOfferLimit
    ensures c.plan != Free ==> !b
  {
    c.plan == Free && c.offersUsed >= FreeOfferLimit
  }

  datatype Admission = Admitted(companyId: int) | Denied(reason: Refusal)

  /** The checks `CreateOfferAsync` makes before it builds the offer, in
      their order. */
  function Admit(users: map<string, User>, companies: map<int, Company>, userId: string, utcNow: DateTime): (a: Admission)
    ensures a.Admitted? <==>
      && CompanyOf(users, userId).Some?
      && CompanyOf(users, userId).value in companies
      && !SubscriptionExpired(companies[CompanyOf(users, userId).value], utcNow)
      && !AtFreeLimit(companies[CompanyOf(users, userId).value])
    ensures a.Admitted? ==> Some(a.companyId) == CompanyOf(users, userId)
    ensures a == Denied(InvalidUser) <==> CompanyOf(users, userId).None?
    ensures a == Denied(CompanyNotFound) <==> CompanyOf(users, userId).Some? && CompanyOf(users, userId).value !in companies
    ensures a == Denied(SubscriptionLapsed) <==>
      && CompanyOf(users, userId).Some? && CompanyOf(users, userId).value in companies
      && SubscriptionExpired(companies[CompanyOf(users, userId).value], utcNow)
  {
    var cid := CompanyOf(users, userId);
    if cid.None? then Denied(InvalidUser)
    else if cid.value !in companies then Denied(CompanyNotFound)
    else if SubscriptionExpired(companies[cid.value], utcNow) then Denied(SubscriptionLapsed)
    else if AtFreeLimit(companies[cid.value]) then Denied(FreePlanLimitReached)
    else Admitted(cid.value)
  }

  /** Every company on the Free plan is within its offer allowance. */
  ghost predicate FreePlansWithinLimit(companies: map<int, Company>)
  {
    forall k :: k in companies && companies[k].plan == Free ==> companies[k].offersUsed <= FreeOfferLimit
  }

  datatype CreateOutcome = Created(offer: Offer) | NotCreated(reason: Refusal)

  function OutcomeMessage(outcome: CreateOutcome): string
  {
    match outcome
    case Created(_) => "Offer created"
    case NotCreated(r) => RefusalMessage(r)
  }

  // ---------------------------------------------------------------------
  // Commands

  /** The offer `CreateOfferAsync` builds for an admitted request: the
      request applied to a fresh row that takes the next identity value,
      the next offer number after `previous`, and the caller as owner. */
  function BuildOffer(request: OfferRequest, id: int, previous: Option<string>, userId: string, companyId: int,
                      utcNow: DateTime, localNow: DateTime, publicToken: string): (o: Offer)
    ensures Priced(o) && o.status == Draft && o.id == id && o.userId == userId && o.companyId == companyId
    ensures o.offerNumber == GenerateOfferNumber(previous, localNow)
    ensures o.items == PriceItems(request.items) && o.totalAmount == Sum(request.items, RequestedTotal)
    ensures o.createdAt == utcNow && o.publicToken == publicToken && o.tokenExpiresAt.None?
  {
    ApplyRequest(NewOffer(publicToken, utcNow), request).(
      id := id, offerNumber := GenerateOfferNumber(previous, localNow), userId := userId, companyId := companyId)
  }

  /** `CreateOfferAsync`. `utcNow` is the clock the expiry check and the
      row defaults read, `localNow` the one the offer number's month comes
      from, and `publicToken` the GUID text the new row receives. */
  method CreateOffer(db: Db, request: OfferRequest, userId: string,
                     utcNow: DateTime, localNow: DateTime, publicToken: string)
    returns (outcome: CreateOutcome)
    requires db.Valid()
    modifies db`companies, db`offers, db`nextOfferId
    ensures db.Valid()
    ensures var a := Admit(old(db.users), old(db.companies), userId, utcNow);
      a.Denied? ==> outcome == NotCreated(a.reason) && db.offers == old(db.offers) && db.nextOfferId == old(db.nextOfferId)
    ensures var a := Admit(old(db.users), old(db.companies), userId, utcNow);
      a.Denied? && a.reason != SubscriptionLapsed ==> db.companies == old(db.companies)
    ensures var a := Admit(old(db.users), old(db.companies), userId, utcNow);
      a == Denied(SubscriptionLapsed) ==>
        var cid := CompanyOf(old(db.users), userId).value;
        db.companies == old(db.companies)[cid := old(db.companies)[cid].(isActive := false)]
    ensures var a := Admit(old(db.users), old(db.companies), userId, utcNow);
      a.Admitted? ==>
        && outcome == Created(BuildOffer(request, old(db.nextOfferId), LatestNumber(old(db.offers), a.companyId),
                                         userId, a.companyId, utcNow, localNow, publicToken))
        && db.offers == old(db.offers)[old(db.nextOfferId) := outcome.offer]
        && db.nextOfferId == old(db.nextOfferId) + 1
        && db.companies == old(db.companies)[a.companyId :=
             old(db.companies)[a.companyId].(offersUsed := old(db.companies)[a.companyId].offersUsed + 1)]
    ensures outcome.Created? ==> outcome.offer.id !in old(db.offers)
    ensures AllPriced(old(db.offers)) ==> AllPriced(db.offers)
    ensures FreePlansWithinLimit(old(db.companies)) ==> FreePlansWithinLimit(db.companies)
  {
    ghost var a := Admit(db.users, db.companies, userId, utcNow);
    var user := if userId in db.users then Some(db.users[userId]) else None;
    if user.None? || user.value.companyId.None? {
      assert a == Denied(InvalidUser);
      return NotCreated(InvalidUser);
    }
    var cid := user.value.companyId.value;
    if cid !in db.companies {
      assert a == Denied(CompanyNotFound);
      return NotCreated(CompanyNotFound);
    }
    var company := db.companies[cid];
    if SubscriptionExpired(company, utcNow) {
      assert a == Denied(SubscriptionLapsed);
      Deactivate(db, cid);
      return NotCreated(SubscriptionLapsed);
    }
    if company.plan == Free && company.offersUsed >= FreeOfferLimit {
      assert a == Denied(FreePlanLimitReached);
      return NotCreated(FreePlanLimitReached);
    }
    assert a == Admitted(cid);
    var offer := AddOffer(db, request, userId, cid, utcNow, localNow, publicToken);
    outcome := Created(offer);
  }

  /** A lapsed subscription switches the company off. */
  method Deactivate(db: Db, cid: int)
    requires db.Valid() && cid in db.companies
    modifies db`companies
    ensures db.Valid()
    ensures db.companies == old(db.companies)[cid := old(db.companies)[cid].(isActive := false)]
    ensures FreePlansWithinLimit(old(db.companies)) ==> FreePlansWithinLimit(db.companies)
  {
    SaveCompany(db, db.companies[cid].(isActive := false));
  }

  /** The admitted part of `CreateOfferAsync`: build the offer after the
      company's latest one, store it, and count it against the company. */
  method AddOffer(db: Db, request: OfferRequest, userId: string, cid: int,
                  utcNow: DateTime, localNow: DateTime, publicToken: string)
    returns (offer: Offer)
    requires db.Valid() && cid in db.companies && !AtFreeLimit(db.companies[cid])
    modifies db`companies, db`offers, db`nextOfferId
    ensures db.Valid()
    ensures offer == BuildOffer(request, old(db.nextOfferId), LatestNumber(old(db.offers), cid),
                                userId, cid, utcNow, localNow, publicToken)
    ensures offer.id !in old(db.offers)
    ensures db.offers == old(db.offers)[old(db.nextOfferId) := offer]
    ensures db.nextOfferId == old(db.nextOfferId) + 1
    ensures db.companies == old(db.companies)[cid := old(db.companies)[cid].(offersUsed := old(db.companies)[cid].offersUsed + 1)]
    ensures AllPriced(old(db.offers)) ==> AllPriced(db.offers)
    ensures FreePlansWithinLimit(old(db.companies)) ==> FreePlansWithinLimit(db.companies)
  {
    assert KeyedById(db.offers);
    var lastOffer := LatestOfferOf(db.offers, cid);
    var previous := if lastOffer.Some? then Some(lastOffer.value.offerNumber) else None;
    assert previous == LatestNumber(db.offers, cid);
    offer := BuildOffer(request, db.nextOfferId, previous, userId, cid, utcNow, localNow, publicToken);
    InsertOffer(db, offer);
    var company := db.companies[cid];
    SaveCompany(db, company.(offersUsed := company.offersUsed + 1));
  }

  /** `_context.Offers.Add(offer)`: the row takes the next identity value. */
  method InsertOffer(db: Db, offer: Offer)
    requires db.Valid() && offer.id == db.nextOfferId
    modifies db`offers, db`nextOfferId
    ensures db.Valid()
    ensures db.offers == old(db.offers)[offer.id := offer] && db.nextOfferId == old(db.nextOfferId) + 1
    ensures offer.id !in old(db.offers)
    ensures AllPriced(old(db.offers)) && Priced(offer) ==> AllPriced(db.offers)
  {
    db.offers := db.offers[offer.id := offer];
    db.nextOfferId := db.nextOfferId + 1;
  }

  /** `UpdateOfferAsync`: the offer with this id, whoever owns it, gets the
      request's customer fields, dates, currency, notes and freshly priced
      lines (so any discount or VAT on the old lines is gone). */
  method UpdateOffer(db: Db, id: int, request: OfferRequest) returns (updated: Option<Offer>)
    requires db.Valid()
    modifies db`offers
    ensures db.Valid()
    ensures updated.None? <==> id !in old(db.offers)
    ensures updated.None? ==> db.offers == old(db.offers)
    ensures updated.Some? ==>
      && updated.value == ApplyRequest(old(db.offers)[id], request)
      && db.offers == old(db.offers)[id := updated.value]
    ensures AllPriced(old(db.offers)) ==> AllPriced(db.offers)
  {
    if id !in db.offers {
      return None;
    }
    var offer := ApplyRequest(db.offers[id], request);
    db.offers := db.offers[id := offer];
    updated := FindOwned(db.offers, OfferCompany, offer.id, offer.companyId);
  }

  /** `DeleteOfferAsync`: only the offer's own user may delete it. */
  method DeleteOffer(db: Db, id: int, userId: string) returns (deleted: bool)
    requires db.Valid()
    modifies db`offers
    ensures db.Valid()
    ensures deleted <==> id in old(db.offers) && old(db.offers)[id].userId == userId
    ensures db.offers == if deleted then old(db.offers) - {id} else old(db.offers)
    ensures AllPriced(old(db.offers)) ==> AllPriced(db.offers)
  {
    if id in db.offers && db.offers[id].userId == userId {
      db.offers := db.offers - {id};
      return true;
    }
    return false;
  }

  /** `SendOfferAsync`: when the offer belongs to the user, it is handed to
      the e-mail service, whose answer is `emailSent`; only a delivered
      offer becomes Sent, whatever its status was. */
  method SendOffer(db: Db, id: int, userId: string, emailSent: bool) returns (sent: bool)
    requires db.Valid()
    modifies db`offers
    ensures db.Valid()
    ensures sent <==> id in old(db.offers) && old(db.offers)[id].userId == userId && emailSent
    ensures db.offers == if sent then old(db.offers)[id := old(db.offers)[id].(status := Sent)] else old(db.offers)
    ensures AllPriced(old(db.offers)) ==> AllPriced(db.offers)
  {
    if !(id in db.offers && db.offers[id].userId == userId) {
      return false;
    }
    if emailSent {
      db.offers := db.offers[id := db.offers[id].(status := Sent)];
    }
    return emailSent;
  }

  // ---------------------------------------------------------------------
  // Properties

  /** A company on the Free plan that has used its three offers is refused
      every further offer until its plan changes, and a lapsed subscription
      is refused before the allowance is looked at. */
  lemma FreePlanCapIsFinal(users: map<string, User>, companies: map<int, Company>, userId: string, utcNow: DateTime)
    requires CompanyOf(users, userId).Some? && CompanyOf(users, userId).value in companies
    requires AtFreeLimit(companies[CompanyOf(users, userId).value])
    ensures Admit(users, companies, userId, utcNow).Denied?
    ensures !SubscriptionExpired(companies[CompanyOf(users, userId).value], utcNow)
            ==> Admit(users, companies, userId, utcNow) == Denied(FreePlanLimitReached)
  {
  }

  /** Admission consumes one unit of the allowance: a Free company that is
      admitted ends up with at most three offers used. */
  lemma AdmissionStaysWithinLimit(users: map<string, User>, companies: map<int, Company>, userId: string, utcNow: DateTime)
    requires Admit(users, companies, userId, utcNow).Admitted?
    ensures var c := companies[Admit(users, companies, userId, utcNow).companyId];
      c.plan == Free ==> c.offersUsed + 1 <= FreeOfferLimit
  {
  }
}
