/** The customer book of api/Services/CustomerService.cs. Every operation
    is scoped to the caller's company: a customer of another company can be
    neither seen, changed nor removed, and creating one never touches the
    rows of other companies. */
module CustomerService {
  import opened Common
  import opened CompanyModel
  import opened Database

  /** A create or update request; phone and address are optional. */
  datatype CustomerRequest = CustomerRequest(
    name: string,
    email: string,
    phone: Option<string>,
    address: Option<string>)

  function CustomerCompany(c: Customer): int
  {
    c.companyId
  }

  /** The four assignments of `UpdateCustomerAsync`: a missing phone or
      address in the request clears the stored one. */
  function ApplyCustomerRequest(c: Customer, request: CustomerRequest): (r: Customer)
    ensures r.name == request.name && r.email == request.email
    ensures r.phone == request.phone && r.address == request.address
    ensures r.id == c.id && r.companyId == c.companyId
  {
    c.(name := request.name, email := request.email, phone := request.phone, address := request.address)
  }

  // ---------------------------------------------------------------------
  // Queries

  /** `GetCustomersByCompanyAsync`: exactly the company's customers. */
  method GetCustomersByCompany(db: Db, companyId: int) returns (customers: seq<Customer>)
    ensures forall c :: c in customers <==> c in db.customers.Values && c.companyId == companyId
    ensures |customers| == |KeysWhere(db.customers, (c: Customer) => c.companyId == companyId)|
  {
    customers := SelectWhere(db.customers, (c: Customer) => c.companyId == companyId);
  }

  /** `GetCustomerByIdAsync`. */
  method GetCustomerById(db: Db, id: int, companyId: int) returns (r: Option<Customer>)
    requires db.Valid()
    ensures r == FindOwned(db.customers, CustomerCompany, id, companyId)
    ensures r.Some? ==> r.value in db.customers.Values && r.value.id == id && r.value.companyId == companyId
  {
    r := FindOwned(db.customers, CustomerCompany, id, companyId);
  }

  // ---------------------------------------------------------------------
  // Commands

  /** `CreateCustomerAsync`: always succeeds; the request is stored as it
      comes, under the caller's company. */
  method CreateCustomer(db: Db, request: CustomerRequest, companyId: int) returns (created: Customer)
    requires db.Valid()
    modifies db`customers, db`nextCustomerId
    ensures db.Valid()
    ensures created == Customer(old(db.nextCustomerId), request.name, request.email, request.phone,
                                request.address, companyId)
    ensures created.id !in old(db.customers)
    ensures db.customers == old(db.customers)[created.id := created]
    ensures db.nextCustomerId == old(db.nextCustomerId) + 1
    ensures OthersUntouched(old(db.customers), db.customers, CustomerCompany, companyId)
  {
    created := Customer(db.nextCustomerId, request.name, request.email, request.phone, request.address, companyId);
    db.customers := db.customers[created.id := created];
    db.nextCustomerId := db.nextCustomerId + 1;
  }

  /** `UpdateCustomerAsync`: only a customer of the caller's company. */
  method UpdateCustomer(db: Db, id: int, request: CustomerRequest, companyId: int) returns (updated: Option<Customer>)
    requires db.Valid()
    modifies db`customers
    ensures db.Valid()
    ensures updated.Some? <==> FindOwned(old(db.customers), CustomerCompany, id, companyId).Some?
    ensures updated.None? ==> db.customers == old(db.customers)
    ensures updated.Some? ==>
      && updated.value == ApplyCustomerRequest(old(db.customers)[id], request)
      && db.customers == old(db.customers)[id := updated.value]
    ensures OthersUntouched(old(db.customers), db.customers, CustomerCompany, companyId)
  {
    var customer := FindOwned(db.customers, CustomerCompany, id, companyId);
    if customer.None? {
      return None;
    }
    var changed := ApplyCustomerRequest(customer.value, request);
    db.customers := db.customers[id := changed];
    updated := Some(changed);
  }

  /** `DeleteCustomerAsync`: only a customer of the caller's company. */
  method DeleteCustomer(db: Db, id: int, companyId: int) returns (deleted: bool)
    requires db.Valid()
    modifies db`customers
    ensures db.Valid()
    ensures deleted <==> FindOwned(old(db.customers), CustomerCompany, id, companyId).Some?
    ensures db.customers == if deleted then old(db.customers) - {id} else old(db.customers)
    ensures OthersUntouched(old(db.customers), db.customers, CustomerCompany, companyId)
  {
    if FindOwned(db.customers, CustomerCompany, id, companyId).None? {
      return false;
    }
    db.customers := db.customers - {id};
    return true;
  }
}
