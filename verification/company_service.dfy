/** The subscription side of api/Services/CompanyService.cs: editing the
    company profile, paying for a plan (which records a payment and renews
    the subscription for one month from the payment moment), and listing a
    company's payments, latest first. The payment moment is the clock
    reading `utcNow` the new payment row takes as `PaidAt`. */
module CompanyService {
  import opened Common
  import opened Calendar
  import opened CompanyModel
  import opened Database
  import opened Ordering

  /** The editable profile fields of a company. */
  datatype ProfileRequest = ProfileRequest(
    name: string,
    address: string,
    phone: string,
    email: string,
    taxNumber: Option<string>,
    iban: Option<string>,
    website: Option<string>)

  datatype PaymentRequest = PaymentRequest(amount: int, transactionId: Option<string>)

  datatype UpgradeRequest = UpgradeRequest(plan: SubscriptionPlan, amount: int, transactionId: Option<string>)

  /** The seven profile assignments of `UpdateCompanyAsync`; the plan, the
      counter, the subscription dates, the activity flag and the logo stay. */
  function ApplyProfile(c: Company, request: ProfileRequest): (r: Company)
    ensures r.name == request.name && r.address == request.address && r.phone == request.phone
    ensures r.email == request.email && r.taxNumber == request.taxNumber
    ensures r.iban == request.iban && r.website == request.website
    ensures r.(name := c.name, address := c.address, phone := c.phone, email := c.email,
               taxNumber := c.taxNumber, iban := c.iban, website := c.website) == c
  {
    c.(name := request.name, address := request.address, phone := request.phone, email := request.email,
       taxNumber := request.taxNumber, iban := request.iban, website := request.website)
  }

  /** The renewal both payment operations apply: the subscription runs for
      one month from `paidAt` and the company is active again. Nothing else
      changes. */
  function Renew(c: Company, paidAt: DateTime): (r: Company)
    ensures r.subscriptionStartDate == paidAt && r.isActive
    ensures r.subscriptionEndDate == Some(AddMonths(paidAt, 1))
    ensures r.(subscriptionStartDate := c.subscriptionStartDate, subscriptionEndDate := c.subscriptionEndDate,
               isActive := c.isActive) == c
  {
    c.(subscriptionStartDate := paidAt, subscriptionEndDate := Some(AddMonths(paidAt, 1)), isActive := true)
  }

  /** A renewed subscription ends strictly after it starts, and it does not
      count as expired at any moment up to its end date. */
  lemma RenewalRunsOneMonth(c: Company, paidAt: DateTime, later: DateTime)
    ensures Before(Renew(c, paidAt).subscriptionStartDate, Renew(c, paidAt).subscriptionEndDate.value)
    ensures !Before(AddMonths(paidAt, 1), later) ==> !SubscriptionExpired(Renew(c, paidAt), later)
    ensures !SubscriptionExpired(Renew(c, paidAt), paidAt)
  {
    OneMonthLater(paidAt);
  }

  // ---------------------------------------------------------------------
  // Commands

  /** `UpdateCompanyAsync`. */
  method UpdateCompany(db: Db, id: int, request: ProfileRequest) returns (updated: Option<Company>)
    requires db.Valid()
    modifies db`companies
    ensures db.Valid()
    ensures updated.None? <==> id !in old(db.companies)
    ensures updated.None? ==> db.companies == old(db.companies)
    ensures updated.Some? ==>
      && updated.value == ApplyProfile(old(db.companies)[id], request)
      && db.companies == old(db.companies)[id := updated.value]
  {
    if id !in db.companies {
      return None;
    }
    var company := ApplyProfile(db.companies[id], request);
    SaveCompany(db, company);
    updated := Some(company);
  }

  /** `_context.Payments.Add(new Payment { ... })`: the row takes the next
      identity value and `utcNow` as its payment moment. */
  method AddPayment(db: Db, companyId: int, amount: int, transactionId: Option<string>, utcNow: DateTime)
    returns (payment: Payment)
    requires db.Valid()
    modifies db`payments, db`nextPaymentId
    ensures db.Valid()
    ensures payment == Payment(old(db.nextPaymentId), companyId, amount, utcNow, transactionId)
    ensures payment.id !in old(db.payments)
    ensures db.payments == old(db.payments)[payment.id := payment]
    ensures db.nextPaymentId == old(db.nextPaymentId) + 1
  {
    payment := Payment(db.nextPaymentId, companyId, amount, utcNow, transactionId);
    db.payments := db.payments[payment.id := payment];
    db.nextPaymentId := db.nextPaymentId + 1;
  }

  /** `UpgradePlanAsync`: an unknown company gets nothing and pays
      nothing; otherwise one payment is recorded and the company moves to
      the requested plan with a renewed subscription. */
  method UpgradePlan(db: Db, id: int, request: UpgradeRequest, utcNow: DateTime) returns (updated: Option<Company>)
    requires db.Valid()
    modifies db`companies, db`payments, db`nextPaymentId
    ensures db.Valid()
    ensures updated.None? <==> id !in old(db.companies)
    ensures updated.None? ==>
      db.companies == old(db.companies) && db.payments == old(db.payments) && db.nextPaymentId == old(db.nextPaymentId)
    ensures updated.Some? ==>
      && db.payments == old(db.payments)[old(db.nextPaymentId) :=
           Payment(old(db.nextPaymentId), id, request.amount, utcNow, request.transactionId)]
      && db.nextPaymentId == old(db.nextPaymentId) + 1
      && updated.value == Renew(old(db.companies)[id], utcNow).(plan := request.plan)
      && db.companies == old(db.companies)[id := updated.value]
  {
    if id !in db.companies {
      return None;
    }
    var payment := AddPayment(db, id, request.amount, request.transactionId, utcNow);
    var company := Renew(db.companies[id], payment.paidAt).(plan := request.plan);
    SaveCompany(db, company);
    updated := Some(company);
  }

  /** `RecordPaymentAsync`: the same payment and renewal as an upgrade,
      with the plan left as it is. */
  method RecordPayment(db: Db, id: int, request: PaymentRequest, utcNow: DateTime) returns (recorded: Option<Payment>)
    requires db.Valid()
    modifies db`companies, db`payments, db`nextPaymentId
    ensures db.Valid()
    ensures recorded.None? <==> id !in old(db.companies)
    ensures recorded.None? ==>
      db.companies == old(db.companies) && db.payments == old(db.payments) && db.nextPaymentId == old(db.nextPaymentId)
    ensures recorded.Some? ==>
      && recorded.value == Payment(old(db.nextPaymentId), id, request.amount, utcNow, request.transactionId)
      && db.payments == old(db.payments)[recorded.value.id := recorded.value]
      && db.nextPaymentId == old(db.nextPaymentId) + 1
      && db.companies == old(db.companies)[id := Renew(old(db.companies)[id], utcNow)]
  {
    if id !in db.companies {
      return None;
    }
    var payment := AddPayment(db, id, request.amount, request.transactionId, utcNow);
    SaveCompany(db, Renew(db.companies[id], payment.paidAt));
    recorded := Some(payment);
  }

  // ---------------------------------------------------------------------
  // Queries

  function PaidAt(p: Payment): DateTime
  {
    p.paidAt
  }

  /** `GetPaymentHistoryAsync`: exactly the company's payments, latest
      first. */
  method GetPaymentHistory(db: Db, companyId: int) returns (history: seq<Payment>)
    ensures LatestFirst(history, PaidAt)
    ensures forall p :: p in history <==> p in db.payments.Values && p.companyId == companyId
    ensures |history| == |KeysWhere(db.payments, (p: Payment) => p.companyId == companyId)|
  {
    var rows := SelectWhere(db.payments, (p: Payment) => p.companyId == companyId);
    history := SortLatestFirst(rows, PaidAt);
    SortIsLatestFirst(rows, PaidAt);
    SortKeepsRows(rows, PaidAt);
  }
}
