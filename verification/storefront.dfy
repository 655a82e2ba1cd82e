/**
 * The in-browser storefront state `ProductDB`: the catalog, the cart, the
 * current search and page, and the bill flow of `showBill` that checks the
 * stock before it commits the sale.
 */
module Storefront {
  import opened Wrappers
  import opened Seqs
  import opened Catalog
  import opened Cart
  import opened Checkout
  import opened Paging
  import opened Search
  import opened Billing
  import Prices
  import CategoryGlyphs

  /** The label `extractCategories` puts first, standing for every category. */
  const AllCategoriesLabel: string := "همه"

  /** `p.category || 'عمومی'`: an empty category reads as the general one. */
  function CategoryOrGeneral(p: Product): string {
    if p.category == "" then CategoryGlyphs.GeneralCategory else p.category
  }

  /** The category of each product, in catalog order, with an empty one read as the general category. */
  function CategoryNames(products: seq<Product>): (names: seq<string>)
    ensures |names| == |products| && forall i :: 0 <= i < |products| ==> names[i] == CategoryOrGeneral(products[i])
  {
    seq(|products|, i requires 0 <= i < |products| => CategoryOrGeneral(products[i]))
  }

  /** `['همه', ...new Set(products.map(p => p.category || 'عمومی'))]`. */
  function CategoryList(products: seq<Product>): (categories: seq<string>)
    ensures |categories| >= 1 && categories[0] == AllCategoriesLabel
  {
    [AllCategoriesLabel] + Dedup(CategoryNames(products))
  }

  /**
   * The category list starts with the "all" label, then names every
   * product's category once, in the order the catalog first shows them,
   * and nothing else.
   */
  lemma CategoryListSpec(products: seq<Product>)
    ensures |CategoryList(products)| >= 1 && CategoryList(products)[0] == AllCategoriesLabel
    ensures NoDups(CategoryList(products)[1..])
    ensures IsSubsequence(CategoryList(products)[1..], CategoryNames(products))
    ensures forall i :: 0 <= i < |products| ==> CategoryOrGeneral(products[i]) in CategoryList(products)[1..]
    ensures forall j :: 1 <= j < |CategoryList(products)| ==>
      exists i :: 0 <= i < |products| && CategoryList(products)[j] == CategoryOrGeneral(products[i])
  {
    var names := CategoryNames(products);
    var d := Dedup(names);
    var r := CategoryList(products);
    assert r[1..] == d;
    DedupSubsequence(names);
    forall i | 0 <= i < |products|
      ensures CategoryOrGeneral(products[i]) in r[1..]
    {
      assert names[i] in d;
    }
    forall j | 1 <= j < |r|
      ensures exists i :: 0 <= i < |products| && r[j] == CategoryOrGeneral(products[i])
    {
      assert r[j] == d[j - 1];
      assert d[j - 1] in names;
      var i :| 0 <= i < |names| && names[i] == d[j - 1];
      assert r[j] == CategoryOrGeneral(products[i]);
    }
  }

  /** A line is covered exactly when `getProductById` finds its product with at least its quantity in stock. */
  lemma CoveredByFind(products: seq<Product>, line: CartLine)
    ensures Find(products, line.id).Some? ==>
      FirstIndex(Ids(products), line.id).Some? &&
      Find(products, line.id).value == products[FirstIndex(Ids(products), line.id).value]
    ensures LineCovered(Ids(products), StocksOf(products), line) <==>
      Find(products, line.id).Some? && Find(products, line.id).value.stock >= line.quantity
  {
  }

  /** How a run of `showBill` ends. */
  datatype BillOutcome =
    | Cancelled                                         // the customer dismissed a prompt
    | EmptyCart                                         // "the cart is empty"
    | OutOfStock(names: seq<string>)                    // the alert naming the lines stock cannot cover
    | Issued(serial: string, total: int, committed: bool) // the bill, and what `checkout()` returned

  class ProductDB {
    var products: seq<Product>
    var categories: seq<string>
    var cart: seq<CartLine>
    var currentPage: int
    var currentSearchResults: seq<Product>
    var currentCategory: string
    var billSerial: Option<string>

    /** Pages count from 1, one line per product id, and each product object is listed once. */
    ghost predicate Valid()
      reads this
    {
      currentPage >= 1 && DistinctIds(cart) && DistinctObjects(products)
    }

    /** A fresh session: no products yet, nothing in the cart, page 1 of every category. */
    constructor ()
      ensures Valid()
      ensures products == [] && categories == [] && cart == [] && currentSearchResults == []
      ensures currentPage == 1 && currentCategory == "all" && billSerial == None
    {
      products := [];
      categories := [];
      cart := [];
      currentPage := 1;
      currentSearchResults := [];
      currentCategory := "all";
      billSerial := None;
    }

    /**
     * The assignments `loadProductsFromAirtable` makes once the products have
     * arrived: the catalog, and the search results as a copy of it (an empty
     * or missing list gives an empty catalog). Decoded JSON objects are
     * distinct, which is what `fetched` promises.
     */
    method LoadProducts(fetched: seq<Product>)
      requires Valid() && DistinctObjects(fetched)
      modifies this`products, this`currentSearchResults
      ensures Valid()
      ensures products == fetched && currentSearchResults == fetched
    {
      if |fetched| == 0 {
        products := [];
        currentSearchResults := [];
      } else {
        products := fetched;
        currentSearchResults := products;
      }
    }

    function ProductIds(): seq<string>
      reads this
    {
      Ids(products)
    }

    /** The live stock of every product, in catalog order. */
    ghost function Stocks(): seq<int>
      reads this, products
    {
      StocksOf(products)
    }

    /** `getProductById(id)`, as the cart operations see it. */
    function FoundView(id: string): (r: Option<ProductView>)
      reads this, products
      ensures r.Some? ==> r.value.id == id
    {
      match Find(products, id)
      case Some(p) => Some(p.View())
      case None => None
    }

    /** The live stock of the product `getProductById(id)` finds. */
    function FoundStock(id: string): Option<int>
      reads this, products
    {
      match Find(products, id)
      case Some(p) => Some(p.stock)
      case None => None
    }

    /** `extractCategories`. */
    method ExtractCategories()
      modifies this`categories
      ensures categories == CategoryList(products)
    {
      categories := CategoryList(products);
    }

    /**
     * `searchProducts(query, category)`: filters by category, then by query,
     * stores the result and the category, and returns the current page of the
     * new result. The page number is left as it was. Callers that want the
     * default category pass `currentCategory`.
     */
    method SearchProducts(query: string, category: string) returns (page: seq<Product>)
      modifies this`currentSearchResults, this`currentCategory
      ensures currentSearchResults == SearchResults(products, query, category)
      ensures currentCategory == category
      ensures currentPage == old(currentPage)
      ensures page == Page(currentSearchResults, currentPage)
    {
      var filtered := products;
      filtered := ByCategory(filtered, category);
      filtered := ByQuery(filtered, query);
      currentSearchResults := filtered;
      currentCategory := category;
      page := Page(currentSearchResults, currentPage);
    }

    /**
     * `addToCart(productId, quantity)`: merges into the product's line or
     * appends a new line, within the product's live stock.
     */
    method AddToCart(productId: string, quantity: int) returns (ok: bool)
      requires Valid()
      modifies this`cart
      ensures Valid()
      ensures (ok, cart) == Cart.AddToCart(old(cart), productId, quantity, FoundView(productId))
    {
      ghost var expected := Cart.AddToCart(cart, productId, quantity, FoundView(productId));
      assert DistinctIds(expected.1) by {
        AddToCartKeepsDistinct(cart, productId, quantity, FoundView(productId));
      }
      var product := Find(products, productId);
      if product.None? {
        return false;
      }
      var p := product.value;
      assert FoundView(productId) == Some(p.View());
      var existing := FindLine(cart, productId);
      if existing.Some? {
        var i := existing.value;
        var newQuantity := cart[i].quantity + quantity;
        if newQuantity <= p.stock {
          cart := cart[i := cart[i].(quantity := newQuantity)];
          ok := true;
        } else {
          ok := false;
        }
      } else if quantity <= p.stock {
        cart := cart + [CartLine(p.id, p.name, p.price, quantity, p.images, p.category)];
        ok := true;
      } else {
        ok := false;
      }
    }

    /** `updateCartQuantity(productId, quantity)`: removes the line at 0 or below, else sets its quantity within stock. */
    method UpdateCartQuantity(productId: string, quantity: int) returns (ok: bool)
      requires Valid()
      modifies this`cart
      ensures Valid()
      ensures (ok, cart) == Cart.UpdateCartQuantity(old(cart), productId, quantity, FoundStock(productId))
    {
      ghost var stock := FoundStock(productId);
      var items := cart;
      ghost var expected := Cart.UpdateCartQuantity(items, productId, quantity, stock);
      UpdateCartQuantityEffect(items, productId, quantity, stock);
      var product := Find(products, productId);
      if product.None? {
        assert expected == (false, items);
        return false;
      }
      assert stock == Some(product.value.stock);
      var cartItemIndex := FindLine(items, productId);
      if cartItemIndex.Some? {
        var i := cartItemIndex.value;
        if quantity <= 0 {
          assert expected == (true, RemoveAt(items, i));
          cart := items[..i] + items[i + 1..];
        } else if quantity <= product.value.stock {
          assert expected == (true, items[i := items[i].(quantity := quantity)]);
          cart := items[i := items[i].(quantity := quantity)];
        } else {
          assert expected == (false, items);
          return false;
        }
        return true;
      }
      assert expected == (false, items);
      return false;
    }

    /** `removeFromCart(productId)`. */
    method RemoveFromCart(productId: string) returns (ok: bool)
      requires Valid()
      modifies this`cart
      ensures Valid()
      ensures (ok, cart) == Cart.RemoveFromCart(old(cart), productId)
    {
      RemoveFromCartEffect(cart, productId);
      var index := FindLine(cart, productId);
      if index.Some? {
        cart := cart[..index.value] + cart[index.value + 1..];
        return true;
      }
      return false;
    }

    /** `clearCart`. */
    method ClearCart()
      requires Valid()
      modifies this`cart
      ensures Valid()
      ensures cart == [] && ItemCount(cart) == 0 && CartTotal(cart) == 0
    {
      cart := [];
    }

    /**
     * `checkout()`: walks the cart lowering each line's product stock, and at
     * the first line whose product is missing or short returns false, keeping
     * the decrements already made. The cart is not touched.
     */
    method Checkout() returns (success: bool)
      requires Valid()
      modifies products
      ensures (success, Stocks()) == Commit(ProductIds(), old(Stocks()), cart)
    {
      ghost var ids := ProductIds();
      ghost var start := Stocks();
      var items := cart;
      success := true;
      var i := 0;
      while i < |items|
        invariant 0 <= i <= |items|
        invariant Commit(ids, start, items) == Commit(ids, Stocks(), items[i..])
      {
        CommitFrom(ids, Stocks(), items, i);
        var covered := CommitItem(items[i]);
        if !covered {
          success := false;
          break;
        }
        i := i + 1;
      }
    }

    /** One pass of the loop in `checkout`: find the line's product and, if it covers the line, lower its stock. */
    method CommitItem(line: CartLine) returns (covered: bool)
      requires DistinctObjects(products)
      modifies products
      ensures (covered, Stocks()) == CommitLine(ProductIds(), old(Stocks()), line)
    {
      ghost var ids, before := ProductIds(), Stocks();
      var product := Find(products, line.id);
      covered := product.Some? && product.value.stock >= line.quantity;
      if product.Some? {
        ghost var k := FirstIndex(ids, line.id).value;
        assert before[k] == product.value.stock;
        if covered {
          assert CommitLine(ids, before, line) == (true, before[k := before[k] - line.quantity]);
          Lower(product.value, line.quantity, k);
        } else {
          assert CommitLine(ids, before, line) == (false, before);
        }
      } else {
        assert CommitLine(ids, before, line) == (false, before);
      }
    }

    /** `product.stock -= item.quantity` on the product at index `k` of the list. */
    method Lower(p: Product, quantity: int, ghost k: nat)
      requires DistinctObjects(products) && k < |products| && products[k] == p
      modifies p
      ensures Stocks() == old(Stocks())[k := old(Stocks())[k] - quantity]
    {
      p.stock := p.stock - quantity;
    }

    /**
     * The stock check at the top of `showBill`: looks at every line and
     * collects the name of each one whose product is missing or short.
     */
    method ValidateStock() returns (stockValid: bool, outOfStockItems: seq<string>)
      ensures outOfStockItems == ShortLines(ProductIds(), Stocks(), cart)
      ensures stockValid <==> outOfStockItems == []
    {
      ghost var ids, stocks := ProductIds(), Stocks();
      var items := cart;
      stockValid := true;
      outOfStockItems := [];
      var i := 0;
      while i < |items|
        invariant 0 <= i <= |items|
        invariant outOfStockItems == ShortLines(ids, stocks, items[..i])
        invariant stockValid <==> outOfStockItems == []
      {
        var line := items[i];
        var product := Find(products, line.id);
        CoveredByFind(products, line);
        ShortLinesThrough(ids, stocks, items, i);
        if product.None? || product.value.stock < line.quantity {
          stockValid := false;
          outOfStockItems := outOfStockItems + [line.name];
        }
        i := i + 1;
      }
      assert items[..|items|] == items;
    }

    /**
     * The previous-page button: steps back unless already on page 1, so it
     * never goes below page 1; from a page within the page count it lands on
     * a page that holds results. `moved` says whether it re-rendered.
     */
    method PrevPage() returns (moved: bool)
      requires Valid()
      modifies this`currentPage
      ensures Valid()
      ensures moved <==> old(currentPage) > 1
      ensures currentPage == if moved then old(currentPage) - 1 else old(currentPage)
      ensures currentPage >= 1
      ensures moved && old(currentPage) <= TotalPages(|currentSearchResults|) ==> Page(currentSearchResults, currentPage) != []
    {
      moved := currentPage > 1;
      if moved {
        currentPage := currentPage - 1;
        PageNonEmptyIff(currentSearchResults, currentPage);
      }
    }

    /**
     * The next-page button: steps forward only while below `getTotalPages()`,
     * so it never leaves the last page and every page it lands on holds results.
     */
    method NextPage() returns (moved: bool)
      requires Valid()
      modifies this`currentPage
      ensures Valid()
      ensures moved <==> old(currentPage) < TotalPages(|currentSearchResults|)
      ensures currentPage == if moved then old(currentPage) + 1 else old(currentPage)
      ensures old(currentPage) <= TotalPages(|currentSearchResults|) ==> currentPage <= TotalPages(|currentSearchResults|)
      ensures moved ==> Page(currentSearchResults, currentPage) != []
    {
      moved := currentPage < TotalPages(|currentSearchResults|);
      if moved {
        currentPage := currentPage + 1;
        PageNonEmptyIff(currentSearchResults, currentPage);
      }
    }

    /** `generateBillSerial`: builds the serial from the date and random value it is given, and stores it. */
    method GenerateBillSerial(month: nat, day: nat, random: nat) returns (serial: string)
      modifies this`billSerial
      ensures serial == BillSerial(month, day, random) && billSerial == Some(serial)
    {
      serial := BillSerial(month, day, random);
      billSerial := Some(serial);
    }

    /** The running total `showBill` adds up line by line: each price copy, parsed, times its quantity. */
    method BillTotal() returns (total: int)
      ensures total == CartTotal(cart)
    {
      var items := cart;
      total := 0;
      var i := 0;
      while i < |items|
        invariant 0 <= i <= |items|
        invariant total == CartTotal(items[..i])
      {
        var price := Prices.ParsePrice(items[i].price);
        var itemTotal := price * items[i].quantity;
        total := total + itemTotal;
        CartTotalThrough(items, i);
        i := i + 1;
      }
      assert items[..|items|] == items;
    }

    /**
     * The second half of `showBill`, reached once the stock check reported
     * nothing: it issues a serial, totals the cart from the lines' price
     * copies and calls `checkout()`, which then always succeeds and lowers
     * each product's stock by what the cart asks of it.
     */
    method IssueBill(month: nat, day: nat, random: nat) returns (serial: string, total: int, committed: bool)
      requires Valid() && ShortLines(ProductIds(), Stocks(), cart) == []
      modifies products, this`billSerial
      ensures Valid()
      ensures serial == BillSerial(month, day, random) && billSerial == Some(serial)
      ensures total == CartTotal(cart) && committed
      ensures Stocks() == SoldOff(ProductIds(), old(Stocks()), cart)
    {
      ghost var ids, before, items := ProductIds(), Stocks(), cart;
      CheckedCommit(ids, before, items);
      serial := GenerateBillSerial(month, day, random);
      assert Stocks() == before && ProductIds() == ids && cart == items;
      total := BillTotal();
      committed := Checkout();
      assert (committed, Stocks()) == (true, SoldOff(ids, before, items));
    }

    /**
     * `showBill` without the page: `infoConfirmed` is whether the customer
     * answered every prompt. A dismissed prompt, an empty cart or a failed
     * stock check ends it with nothing changed; otherwise the bill is issued
     * and the sale committed in full.
     */
    method ShowBill(infoConfirmed: bool, month: nat, day: nat, random: nat) returns (outcome: BillOutcome)
      requires Valid()
      modifies products, this`billSerial
      ensures Valid()
      ensures outcome.Cancelled? <==> !infoConfirmed
      ensures outcome.EmptyCart? <==> infoConfirmed && |cart| == 0
      ensures outcome.OutOfStock? <==> infoConfirmed && |cart| > 0 && ShortLines(ProductIds(), old(Stocks()), cart) != []
      ensures outcome.OutOfStock? ==> outcome.names == ShortLines(ProductIds(), old(Stocks()), cart)
      ensures !outcome.Issued? ==> Stocks() == old(Stocks()) && billSerial == old(billSerial)
      ensures outcome.Issued? ==> outcome.serial == BillSerial(month, day, random) && billSerial == Some(outcome.serial)
      ensures outcome.Issued? ==> outcome.total == CartTotal(cart) && outcome.committed
      ensures outcome.Issued? ==> Stocks() == SoldOff(ProductIds(), old(Stocks()), cart)
    {
      if !infoConfirmed {
        return Cancelled;
      }
      if |cart| == 0 {
        return EmptyCart;
      }
      ghost var before := Stocks();
      var stockValid, outOfStockItems := ValidateStock();
      assert Stocks() == before;
      if !stockValid {
        return OutOfStock(outOfStockItems);
      }
      var serial, total, committed := IssueBill(month, day, random);
      return Issued(serial, total, committed);
    }
  }
}
