/** The tenant record (api/Models/Company.cs) with its subscription
    fields, and the other rows the services store: payments, customers,
    products and users. */
module CompanyModel {
  import opened Common
  import opened Calendar

  datatype SubscriptionPlan = Free | Pro | Enterprise

  datatype Company = Company(
    id: int,
    name: string,
    logo: Option<string>,
    address: string,
    phone: string,
    email: string,
    taxNumber: Option<string>,
    iban: Option<string>,
    website: Option<string>,
    plan: SubscriptionPlan,
    offersUsed: int,
    subscriptionStartDate: DateTime,
    subscriptionEndDate: Option<DateTime>,
    isActive: bool,
    createdAt: DateTime)

  /** `new Company()` at `utcNow`: on the Free plan, no offers used, active,
      with a subscription that starts now and has no end date. */
  function NewCompany(utcNow: DateTime): (c: Company)
    ensures c.plan == Free && c.offersUsed == 0 && c.isActive
    ensures c.subscriptionStartDate == utcNow && c.subscriptionEndDate.None?
  {
    Company(0, "", None, "", "", "", None, None, None, Free, 0, utcNow, None, true, utcNow)
  }

  /** `SubscriptionEndDate.HasValue && SubscriptionEndDate.Value < UtcNow`:
      a subscription without an end date never lapses, and the comparison
      is strict, so one that ends at this very moment is still running. */
  function SubscriptionExpired(c: Company, utcNow: DateTime): (b: bool)
    ensures c.subscriptionEndDate.None? ==> !b
    ensures c.subscriptionEndDate == Some(utcNow) ==> !b
  {
    c.subscriptionEndDate.Some? && Before(c.subscriptionEndDate.value, utcNow)
  }

  /** A company without an end date never counts as expired, and one whose
      end date is not yet past does not either. */
  lemma ExpiryNeedsPastEndDate(c: Company, utcNow: DateTime)
    ensures c.subscriptionEndDate.None? ==> !SubscriptionExpired(c, utcNow)
    ensures c.subscriptionEndDate.Some? && !Before(c.subscriptionEndDate.value, utcNow)
            ==> !SubscriptionExpired(c, utcNow)
  {
  }

  /** A payment row (api/Models/Payment.cs). */
  datatype Payment = Payment(
    id: int,
    companyId: int,
    amount: int,
    paidAt: DateTime,
    transactionId: Option<string>)

  /** A customer row (api/Models/Customer.cs). */
  datatype Customer = Customer(
    id: int,
    name: string,
    email: string,
    phone: Option<string>,
    address: Option<string>,
    companyId: int)

  /** A catalog product row (api/Models/Product.cs). */
  datatype Product = Product(
    id: int,
    name: string,
    description: Option<string>,
    category: Option<string>,
    price: int,
    companyId: int)

  /** An account: the fields of the Identity user the services read and
      write, with the roles it was added to. */
  datatype User = User(
    id: string,
    firstName: string,
    lastName: string,
    email: string,
    userName: string,
    companyId: Option<int>,
    isActive: bool,
    createdAt: DateTime,
    roles: set<string>)
}
