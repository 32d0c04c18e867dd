/** ui/store/productStore.ts: the company's product list with a loading
    flag and error text. A product is appended when created, replaced when
    updated and removed when deleted, each only after the request
    succeeded; a failed request leaves the list as it was. */
module ProductStore {
  import opened Common
  import opened KeyedLists
  import opened ClientModel

  function ProductHasId(id: int): ClientProduct -> bool
  {
    (p: ClientProduct) => p.id == id
  }

  class ProductStore {
    var products: seq<ClientProduct>
    var loading: bool
    var error: Option<string>

    constructor()
      ensures products == [] && !loading && error == None
    {
      products := [];
      loading := false;
      error := None;
    }

    /** `fetchProducts`: a failure keeps the list and records the error. */
    method FetchProducts(reply: Reply<seq<ClientProduct>>)
      modifies this
      ensures !loading
      ensures reply.Ok? ==> products == reply.data && error == None
      ensures reply.Err? ==> products == old(products) && error == Some(MessageOr(reply.error, "Ürünler yüklenemedi"))
    {
      loading := true;
      error := None;
      match reply {
        case Ok(data) =>
          products := data;
          loading := false;
        case Err(e) =>
          error := Some(MessageOr(e, "Ürünler yüklenemedi"));
          loading := false;
      }
    }

    /** `createProduct`: the returned product goes last. */
    method CreateProduct(reply: Reply<ClientProduct>) returns (outcome: Outcome<ClientProduct>)
      modifies this`products
      ensures reply.Ok? ==> outcome == Returned(reply.data) && products == old(products) + [reply.data]
      ensures reply.Err? ==> outcome == Threw(MessageOr(reply.error, "Ürün oluşturulamadı")) && products == old(products)
    {
      match reply {
        case Ok(created) =>
          products := products + [created];
          outcome := Returned(created);
        case Err(e) =>
          outcome := Threw(MessageOr(e, "Ürün oluşturulamadı"));
      }
    }

    /** `updateProduct`: the entries with the id become the returned
      product. */
    method UpdateProduct(id: int, reply: Reply<ClientProduct>) returns (outcome: Outcome<ClientProduct>)
      modifies this`products
      ensures reply.Ok? ==>
        outcome == Returned(reply.data)
        && products == ReplaceWhere(old(products), ProductHasId(id), (p: ClientProduct) => reply.data)
      ensures reply.Err? ==> outcome == Threw(MessageOr(reply.error, "Ürün güncellenemedi")) && products == old(products)
    {
      match reply {
        case Ok(updated) =>
          products := ReplaceWhere(products, ProductHasId(id), (p: ClientProduct) => updated);
          outcome := Returned(updated);
        case Err(e) =>
          outcome := Threw(MessageOr(e, "Ürün güncellenemedi"));
      }
    }

    /** `deleteProduct`: the entries with the id go, the rest keep their
      order. */
    method DeleteProduct(id: int, reply: Reply<()>) returns (outcome: Outcome<()>)
      modifies this`products
      ensures reply.Ok? ==> outcome == Returned(()) && products == RemoveWhere(old(products), ProductHasId(id))
      ensures reply.Err? ==> outcome == Threw(MessageOr(reply.error, "Ürün silinemedi")) && products == old(products)
    {
      match reply {
        case Ok(_) =>
          products := RemoveWhere(products, ProductHasId(id));
          outcome := Returned(());
        case Err(e) =>
          outcome := Threw(MessageOr(e, "Ürün silinemedi"));
      }
    }
  }
}
