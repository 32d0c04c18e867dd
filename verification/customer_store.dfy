/** ui/store/customerStore.ts: the company's customer list with a loading
    flag and error text. A customer is appended when created, replaced when
    updated and removed when deleted, each only after the request
    succeeded; a failed request leaves the list as it was. */
module CustomerStore {
  import opened Common
  import opened KeyedLists
  import opened ClientModel

  function CustomerHasId(id: int): ClientCustomer -> bool
  {
    (c: ClientCustomer) => c.id == id
  }

  class CustomerStore {
    var customers: seq<ClientCustomer>
    var loading: bool
    var error: Option<string>

    constructor()
      ensures customers == [] && !loading && error == None
    {
      customers := [];
      loading := false;
      error := None;
    }

    /** `fetchCustomers`: a failure keeps the list and records the error. */
    method FetchCustomers(reply: Reply<seq<ClientCustomer>>)
      modifies this
      ensures !loading
      ensures reply.Ok? ==> customers == reply.data && error == None
      ensures reply.Err? ==> customers == old(customers) && error == Some(MessageOr(reply.error, "Müşteriler yüklenemedi"))
    {
      loading := true;
      error := None;
      match reply {
        case Ok(data) =>
          customers := data;
          loading := false;
        case Err(e) =>
          error := Some(MessageOr(e, "Müşteriler yüklenemedi"));
          loading := false;
      }
    }

    /** `createCustomer`: the returned customer goes last. */
    method CreateCustomer(reply: Reply<ClientCustomer>) returns (outcome: Outcome<ClientCustomer>)
      modifies this`customers
      ensures reply.Ok? ==> outcome == Returned(reply.data) && customers == old(customers) + [reply.data]
      ensures reply.Err? ==> outcome == Threw(MessageOr(reply.error, "Müşteri oluşturulamadı")) && customers == old(customers)
    {
      match reply {
        case Ok(created) =>
          customers := customers + [created];
          outcome := Returned(created);
        case Err(e) =>
          outcome := Threw(MessageOr(e, "Müşteri oluşturulamadı"));
      }
    }

    /** `updateCustomer`: the entries with the id become the returned
      customer. */
    method UpdateCustomer(id: int, reply: Reply<ClientCustomer>) returns (outcome: Outcome<ClientCustomer>)
      modifies this`customers
      ensures reply.Ok? ==>
        outcome == Returned(reply.data)
        && customers == ReplaceWhere(old(customers), CustomerHasId(id), (c: ClientCustomer) => reply.data)
      ensures reply.Err? ==> outcome == Threw(MessageOr(reply.error, "Müşteri güncellenemedi")) && customers == old(customers)
    {
      match reply {
        case Ok(updated) =>
          customers := ReplaceWhere(customers, CustomerHasId(id), (c: ClientCustomer) => updated);
          outcome := Returned(updated);
        case Err(e) =>
          outcome := Threw(MessageOr(e, "Müşteri güncellenemedi"));
      }
    }

    /** `deleteCustomer`: the entries with the id go, the rest keep their
      order. */
    method DeleteCustomer(id: int, reply: Reply<()>) returns (outcome: Outcome<()>)
      modifies this`customers
      ensures reply.Ok? ==> outcome == Returned(()) && customers == RemoveWhere(old(customers), CustomerHasId(id))
      ensures reply.Err? ==> outcome == Threw(MessageOr(reply.error, "Müşteri silinemedi")) && customers == old(customers)
    {
      match reply {
        case Ok(_) =>
          customers := RemoveWhere(customers, CustomerHasId(id));
          outcome := Returned(());
        case Err(e) =>
          outcome := Threw(MessageOr(e, "Müşteri silinemedi"));
      }
    }
  }
}
