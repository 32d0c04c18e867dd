/** The product catalogue of api/Services/ProductService.cs: each company
    keeps its own list of products, every product name is non-blank, and no
    two products of one company share a name (compared exactly, case
    included). Creation and renaming refuse anything that would break this. */
module ProductService {
  import opened Common
  import opened CompanyModel
  import opened Database

  /** A create or update request; the name may arrive as null. */
  datatype ProductRequest = ProductRequest(
    name: Option<string>,
    description: Option<string>,
    category: Option<string>,
    price: int)

  /** Some product of the company other than `exceptId` already has the
      name. */
  function NameInUse(products: map<int, Product>, companyId: int, name: string, exceptId: Option<int>): (b: bool)
    ensures !b ==> (forall k :: k in products && products[k].companyId == companyId && products[k].name == name
                      ==> exceptId == Some(products[k].id))
  {
    exists k | k in products ::
      && products[k].companyId == companyId
      && products[k].name == name
      && (exceptId.None? || products[k].id != exceptId.value)
  }

  /** The catalogue invariant: names are non-blank and unique within each
      company. */
  ghost predicate CatalogueValid(products: map<int, Product>)
  {
    && (forall k :: k in products ==> !IsNullOrWhiteSpace(Some(products[k].name)))
    && (forall j, k :: j in products && k in products && j != k && products[j].companyId == products[k].companyId
          ==> products[j].name != products[k].name)
  }

  function ProductCompany(p: Product): int
  {
    p.companyId
  }

  /** The four assignments of `UpdateProductAsync`; id and company stay. */
  function ApplyProductRequest(p: Product, name: string, request: ProductRequest): (r: Product)
    ensures r.name == name && r.description == request.description
    ensures r.category == request.category && r.price == request.price
    ensures r.id == p.id && r.companyId == p.companyId
  {
    p.(name := name, description := request.description, category := request.category, price := request.price)
  }

  // ---------------------------------------------------------------------
  // Queries

  /** `GetProductsByCompanyAsync`: exactly the company's products. */
  method GetProductsByCompany(db: Db, companyId: int) returns (products: seq<Product>)
    ensures forall p :: p in products <==> p in db.products.Values && p.companyId == companyId
    ensures |products| == |KeysWhere(db.products, (p: Product) => p.companyId == companyId)|
  {
    products := SelectWhere(db.products, (p: Product) => p.companyId == companyId);
  }

  /** `GetProductByIdAsync`. */
  method GetProductById(db: Db, id: int, companyId: int) returns (r: Option<Product>)
    requires db.Valid()
    ensures r == FindOwned(db.products, ProductCompany, id, companyId)
    ensures r.Some? ==> r.value in db.products.Values && r.value.id == id && r.value.companyId == companyId
  {
    r := FindOwned(db.products, ProductCompany, id, companyId);
  }

  // ---------------------------------------------------------------------
  // Commands

  /** `CreateProductAsync`: a blank name or one the company already uses
      is refused; otherwise the product is added under the company. */
  method CreateProduct(db: Db, request: ProductRequest, companyId: int) returns (created: Option<Product>)
    requires db.Valid()
    modifies db`products, db`nextProductId
    ensures db.Valid()
    ensures created.Some? <==>
      !IsNullOrWhiteSpace(request.name) && !NameInUse(old(db.products), companyId, request.name.value, None)
    ensures created.None? ==> db.products == old(db.products) && db.nextProductId == old(db.nextProductId)
    ensures created.Some? ==>
      && created.value == Product(old(db.nextProductId), request.name.value, request.description,
                                  request.category, request.price, companyId)
      && created.value.id !in old(db.products)
      && db.products == old(db.products)[created.value.id := created.value]
      && db.nextProductId == old(db.nextProductId) + 1
    ensures CatalogueValid(old(db.products)) ==> CatalogueValid(db.products)
    ensures OthersUntouched(old(db.products), db.products, ProductCompany, companyId)
  {
    if IsNullOrWhiteSpace(request.name) {
      return None;
    }
    var name := request.name.value;
    if NameInUse(db.products, companyId, name, None) {
      return None;
    }
    var product := Product(db.nextProductId, name, request.description, request.category, request.price, companyId);
    db.products := db.products[product.id := product];
    db.nextProductId := db.nextProductId + 1;
    created := Some(product);
  }

  /** `UpdateProductAsync`: a blank name, a product of another company or
      an unknown id, and a name another product of the company uses are all
      refused; keeping the product's own name is fine. */
  method UpdateProduct(db: Db, id: int, request: ProductRequest, companyId: int) returns (updated: Option<Product>)
    requires db.Valid()
    modifies db`products
    ensures db.Valid()
    ensures updated.Some? <==>
      && !IsNullOrWhiteSpace(request.name)
      && FindOwned(old(db.products), ProductCompany, id, companyId).Some?
      && !NameInUse(old(db.products), companyId, request.name.value, Some(id))
    ensures updated.None? ==> db.products == old(db.products)
    ensures updated.Some? ==>
      && updated.value == ApplyProductRequest(old(db.products)[id], request.name.value, request)
      && db.products == old(db.products)[id := updated.value]
    ensures CatalogueValid(old(db.products)) ==> CatalogueValid(db.products)
    ensures OthersUntouched(old(db.products), db.products, ProductCompany, companyId)
  {
    if IsNullOrWhiteSpace(request.name) {
      return None;
    }
    var name := request.name.value;
    var product := FindOwned(db.products, ProductCompany, id, companyId);
    if product.None? {
      return None;
    }
    if NameInUse(db.products, companyId, name, Some(id)) {
      return None;
    }
    var changed := ApplyProductRequest(product.value, name, request);
    db.products := db.products[id := changed];
    updated := Some(changed);
  }

  /** `DeleteProductAsync`: only a product of the company is removed. */
  method DeleteProduct(db: Db, id: int, companyId: int) returns (deleted: bool)
    requires db.Valid()
    modifies db`products
    ensures db.Valid()
    ensures deleted <==> FindOwned(old(db.products), ProductCompany, id, companyId).Some?
    ensures db.products == if deleted then old(db.products) - {id} else old(db.products)
    ensures CatalogueValid(old(db.products)) ==> CatalogueValid(db.products)
    ensures OthersUntouched(old(db.products), db.products, ProductCompany, companyId)
  {
    if FindOwned(db.products, ProductCompany, id, companyId).None? {
      return false;
    }
    db.products := db.products - {id};
    return true;
  }
}
