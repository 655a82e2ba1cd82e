/** The products the storefront holds for a session. */
module Catalog {
  import opened Wrappers
  import opened Seqs
  import Cart

  /**
   * A product as the storefront holds it. Every field but `stock` is fixed
   * once loaded; `checkout` lowers `stock` in place, and every list that holds
   * the product (the catalog, the current search results) sees the change.
   */
  class Product {
    const id: string
    const name: string
    const code: string
    const description: string
    const fullDescription: string
    const price: string
    const category: string
    const images: seq<string>
    var stock: int

    constructor (id: string, name: string, code: string, description: string, fullDescription: string,
                 price: string, category: string, images: seq<string>, stock: int)
      ensures this.id == id && this.name == name && this.code == code
      ensures this.description == description && this.fullDescription == fullDescription
      ensures this.price == price && this.category == category && this.images == images
      ensures this.stock == stock
    {
      this.id := id;
      this.name := name;
      this.code := code;
      this.description := description;
      this.fullDescription := fullDescription;
      this.price := price;
      this.category := category;
      this.images := images;
      this.stock := stock;
    }

    /** The fields the cart operations read, including the live stock. */
    function View(): (v: Cart.ProductView)
      reads this
      ensures v.id == id && v.price == price && v.stock == stock
    {
      Cart.ProductView(id, name, price, images, category, stock)
    }
  }

  /** The ids of `products`, index by index. */
  function Ids(products: seq<Product>): (ids: seq<string>)
    ensures |ids| == |products| && forall i :: 0 <= i < |products| ==> ids[i] == products[i].id
  {
    seq(|products|, i requires 0 <= i < |products| => products[i].id)
  }

  /** The live stocks of `products`, index by index. */
  ghost function StocksOf(products: seq<Product>): (stocks: seq<int>)
    reads products
    ensures |stocks| == |products| && forall i :: 0 <= i < |products| ==> stocks[i] == products[i].stock
  {
    seq(|products|, i reads products requires 0 <= i < |products| => products[i].stock)
  }

  /** No product object appears twice in the list. */
  predicate DistinctObjects(products: seq<Product>) {
    forall i, j :: 0 <= i < j < |products| ==> products[i] != products[j]
  }

  /** `products.find(product => product.id === id)`: the product at the first index that holds the id. */
  function Find(products: seq<Product>, id: string): (r: Option<Product>)
    ensures r.Some? <==> FirstIndex(Ids(products), id).Some?
    ensures r.Some? ==> r.value == products[FirstIndex(Ids(products), id).value] && r.value.id == id
  {
    match FirstIndex(Ids(products), id)
    case Some(k) => Some(products[k])
    case None => None
  }

  /** `find` returns the first product with the id, and nothing exactly when no product has it. */
  lemma FindSpec(products: seq<Product>, id: string)
    ensures Find(products, id).Some? ==> exists k ::
      && 0 <= k < |products|
      && products[k] == Find(products, id).value
      && forall j :: 0 <= j < k ==> products[j].id != id
    ensures Find(products, id).None? <==> forall j :: 0 <= j < |products| ==> products[j].id != id
  {
    if Find(products, id).None? {
      assert forall j :: 0 <= j < |products| ==> Ids(products)[j] != id;
    }
  }
}
