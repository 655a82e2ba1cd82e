/**
 * The cart ledger of `ProductDB` on values: the lines, and what `addToCart`,
 * `updateCartQuantity`, `removeFromCart`, `getCartItemCount` and
 * `getCartTotal` make of them given the live product they look up.
 */
module Cart {
  import opened Wrappers
  import opened Seqs
  import Prices

  /**
   * One cart line: the product's id, a copy of its name, price, images and
   * category taken when the line was created, and the quantity.
   */
  datatype CartLine = CartLine(
    id: string, name: string, price: string, quantity: int, images: seq<string>, category: string)

  /** What the cart operations read from the live product that `getProductById` found. */
  datatype ProductView = ProductView(
    id: string, name: string, price: string, images: seq<string>, category: string, stock: int)

  function LineIds(cart: seq<CartLine>): (ids: seq<string>)
    ensures |ids| == |cart| && forall i :: 0 <= i < |cart| ==> ids[i] == cart[i].id
  {
    seq(|cart|, i requires 0 <= i < |cart| => cart[i].id)
  }

  /** `cart.findIndex(item => item.id === id)`: the first line with that id. */
  function FindLine(cart: seq<CartLine>, id: string): (r: Option<nat>)
    ensures r.Some? ==> r.value < |cart| && cart[r.value].id == id
    ensures r.Some? ==> forall j :: 0 <= j < r.value ==> cart[j].id != id
    ensures r.None? ==> forall j :: 0 <= j < |cart| ==> cart[j].id != id
  {
    var r := FirstIndex(LineIds(cart), id);
    assert r.None? ==> forall j :: 0 <= j < |cart| ==> LineIds(cart)[j] != id;
    r
  }

  /** A line with the id and none before it is the one `FindLine` finds. */
  lemma FindLineAt(cart: seq<CartLine>, id: string, i: nat)
    requires i < |cart| && cart[i].id == id
    requires forall j :: 0 <= j < i ==> cart[j].id != id
    ensures FindLine(cart, id) == Some(i)
  {
  }

  /** Changing anything but the ids leaves every lookup as it was. */
  lemma FindLineSameIds(a: seq<CartLine>, b: seq<CartLine>, id: string)
    requires LineIds(a) == LineIds(b)
    ensures FindLine(a, id) == FindLine(b, id)
  {
  }

  /** No two lines share a product id (every operation below keeps this). */
  predicate DistinctIds(cart: seq<CartLine>) {
    forall i, j :: 0 <= i < j < |cart| ==> cart[i].id != cart[j].id
  }

  /** The quantity on the line for `id`, or 0 when there is none. */
  function QuantityOf(cart: seq<CartLine>, id: string): int {
    match FindLine(cart, id)
    case Some(i) => cart[i].quantity
    case None => 0
  }

  /** `cart.splice(i, 1)`. */
  function RemoveAt(cart: seq<CartLine>, i: nat): seq<CartLine>
    requires i < |cart|
  {
    cart[..i] + cart[i + 1..]
  }

  /** The line `addToCart` pushes for a product that has none yet. */
  function NewLine(p: ProductView, quantity: int): CartLine {
    CartLine(p.id, p.name, p.price, quantity, p.images, p.category)
  }

  /**
   * `addToCart(id, quantity)`, where `found` is what `getProductById(id)`
   * returned. It succeeds exactly when the product exists and the quantity
   * already in the cart plus `quantity` is within its live stock; then exactly
   * one line changes (the existing one, or a new one at the end) and nothing
   * else does: an existing line changes only its quantity, keeping its name
   * and price copy, and a new line copies the product's id, name, price,
   * images and category. On failure the cart is unchanged.
   */
  function AddToCart(cart: seq<CartLine>, id: string, quantity: int, found: Option<ProductView>)
    : (r: (bool, seq<CartLine>))
    requires found.Some? ==> found.value.id == id
    ensures r.0 <==> found.Some? && QuantityOf(cart, id) + quantity <= found.value.stock
    ensures !r.0 ==> r.1 == cart
    ensures r.0 ==> QuantityOf(r.1, id) == QuantityOf(cart, id) + quantity
    ensures r.0 ==> |r.1| == |cart| + (if FindLine(cart, id).None? then 1 else 0)
    ensures r.0 ==> forall i :: 0 <= i < |cart| && cart[i].id != id ==> r.1[i] == cart[i]
    ensures r.0 ==> forall i :: 0 <= i < |cart| ==> r.1[i].(quantity := cart[i].quantity) == cart[i]
    ensures r.0 && FindLine(cart, id).None? ==> r.1[|cart|] == NewLine(found.value, quantity)
  {
    match found
    case None => (false, cart)
    case Some(p) =>
      match FindLine(cart, id)
      case Some(i) =>
        var q := cart[i].quantity + quantity;
        if q <= p.stock then
          var c := cart[i := cart[i].(quantity := q)];
          assert LineIds(c) == LineIds(cart);
          FindLineSameIds(c, cart, id);
          (true, c)
        else (false, cart)
      case None =>
        if quantity <= p.stock then
          var c := cart + [NewLine(p, quantity)];
          FindLineAt(c, id, |cart|);
          (true, c)
        else (false, cart)
  }

  /**
   * `updateCartQuantity(id, quantity)`, where `stock` is the live stock of the
   * product `getProductById(id)` found. It fails, changing nothing, when the
   * product is unknown, when no line has the id, or when `quantity` exceeds
   * the stock; a quantity of 0 or less removes the line; otherwise the line's
   * quantity becomes exactly `quantity` and its other fields, the price copy
   * among them, stay as they were.
   */
  function UpdateCartQuantity(cart: seq<CartLine>, id: string, quantity: int, stock: Option<int>)
    : (r: (bool, seq<CartLine>))
    ensures r.0 <==> stock.Some? && FindLine(cart, id).Some? && (quantity <= 0 || quantity <= stock.value)
    ensures !r.0 ==> r.1 == cart
    ensures r.0 && quantity <= 0 ==> r.1 == RemoveAt(cart, FindLine(cart, id).value)
    ensures r.0 && quantity > 0 ==> |r.1| == |cart| && QuantityOf(r.1, id) == quantity
    ensures r.0 && quantity > 0 ==> forall i :: 0 <= i < |cart| && cart[i].id != id ==> r.1[i] == cart[i]
    ensures r.0 && quantity > 0 ==> forall i :: 0 <= i < |cart| ==> r.1[i].(quantity := cart[i].quantity) == cart[i]
  {
    match stock
    case None => (false, cart)
    case Some(s) =>
      match FindLine(cart, id)
      case None => (false, cart)
      case Some(i) =>
        if quantity <= 0 then (true, RemoveAt(cart, i))
        else if quantity <= s then
          var c := cart[i := cart[i].(quantity := quantity)];
          assert LineIds(c) == LineIds(cart);
          FindLineSameIds(c, cart, id);
          (true, c)
        else (false, cart)
  }

  /**
   * `removeFromCart(id)`: true exactly when a line has the id; then the first
   * such line is removed and the other lines keep their order.
   */
  function RemoveFromCart(cart: seq<CartLine>, id: string): (r: (bool, seq<CartLine>))
    ensures r.0 <==> exists i :: 0 <= i < |cart| && cart[i].id == id
    ensures !r.0 ==> r.1 == cart
    ensures r.0 ==> |r.1| == |cart| - 1 && r.1 == RemoveAt(cart, FindLine(cart, id).value)
  {
    match FindLine(cart, id)
    case Some(i) => (true, RemoveAt(cart, i))
    case None => (false, cart)
  }

  /** The left fold `cart.reduce((total, item) => total + f(item), 0)`. */
  function Sum(cart: seq<CartLine>, f: CartLine -> int): (r: int)
    ensures (forall i :: 0 <= i < |cart| ==> f(cart[i]) >= 0) ==> r >= 0
  {
    if cart == [] then 0 else Sum(cart[..|cart| - 1], f) + f(cart[|cart| - 1])
  }

  lemma {:induction false} SumConcat(a: seq<CartLine>, b: seq<CartLine>, f: CartLine -> int)
    ensures Sum(a + b, f) == Sum(a, f) + Sum(b, f)
    decreases |b|
  {
    if b == [] {
      assert a + b == a;
    } else {
      assert (a + b)[..|a + b| - 1] == a + b[..|b| - 1];
      SumConcat(a, b[..|b| - 1], f);
    }
  }

  /** Splitting the cart around line `i`. */
  lemma SumAround(cart: seq<CartLine>, i: nat, f: CartLine -> int)
    requires i < |cart|
    ensures Sum(cart, f) == Sum(cart[..i], f) + f(cart[i]) + Sum(cart[i + 1..], f)
  {
    var before, line, after := cart[..i], [cart[i]], cart[i + 1..];
    assert cart == before + line + after;
    SumConcat(before + line, after, f);
    SumConcat(before, line, f);
    assert Sum(line, f) == f(cart[i]) by {
      assert line[..0] == [];
    }
  }

  /** `getCartItemCount`: the sum of the line quantities. */
  function ItemCount(cart: seq<CartLine>): (count: int)
    ensures (forall i :: 0 <= i < |cart| ==> cart[i].quantity >= 0) ==> count >= 0
  {
    Sum(cart, (line: CartLine) => line.quantity)
  }

  /** What one line adds to the total: its stored price copy, parsed, times its quantity. */
  function LineTotal(line: CartLine): int {
    Prices.ParsePrice(line.price) * line.quantity
  }

  /** `getCartTotal`: priced from each line's own price copy, not from the live product. */
  function CartTotal(cart: seq<CartLine>): (total: int)
    ensures (forall i :: 0 <= i < |cart| ==> cart[i].quantity >= 0) ==> total >= 0
  {
    LineTotalsNonNegative(cart);
    Sum(cart, LineTotal)
  }

  /** A parsed price is never negative, so a line with a non-negative quantity adds nothing negative. */
  lemma LineTotalsNonNegative(cart: seq<CartLine>)
    ensures (forall i :: 0 <= i < |cart| ==> cart[i].quantity >= 0) ==> forall i :: 0 <= i < |cart| ==> LineTotal(cart[i]) >= 0
  {
    forall i | 0 <= i < |cart| && cart[i].quantity >= 0
      ensures LineTotal(cart[i]) >= 0
    {
      var price: nat := Prices.ParsePrice(cart[i].price);
      assert LineTotal(cart[i]) == price * cart[i].quantity;
    }
  }

  /** The total of the first `i + 1` lines: the total of the first `i` plus line `i`'s. */
  lemma CartTotalThrough(cart: seq<CartLine>, i: nat)
    requires i < |cart|
    ensures CartTotal(cart[..i + 1]) == CartTotal(cart[..i]) + LineTotal(cart[i])
  {
    assert cart[..i + 1][..i] == cart[..i];
  }

  /** Nothing but `quantity` differs between a line and the line with a new quantity. */
  lemma SumSetQuantity(cart: seq<CartLine>, i: nat, q: int, f: CartLine -> int)
    requires i < |cart|
    ensures Sum(cart[i := cart[i].(quantity := q)], f) ==
      Sum(cart, f) - f(cart[i]) + f(cart[i].(quantity := q))
  {
    var c := cart[i := cart[i].(quantity := q)];
    SumAround(cart, i, f);
    SumAround(c, i, f);
    assert c[..i] == cart[..i] && c[i + 1..] == cart[i + 1..];
  }

  /** The price copy a successful `addToCart` charges for: the existing line's, or the product's for a new line. */
  function PriceCopy(cart: seq<CartLine>, id: string, p: ProductView): string {
    match FindLine(cart, id)
    case Some(i) => cart[i].price
    case None => p.price
  }

  /** `addToCart` never gives two lines the same id. */
  lemma AddToCartKeepsDistinct(cart: seq<CartLine>, id: string, quantity: int, found: Option<ProductView>)
    requires found.Some? ==> found.value.id == id
    requires DistinctIds(cart)
    ensures DistinctIds(AddToCart(cart, id, quantity, found).1)
  {
    var r := AddToCart(cart, id, quantity, found);
    if r.0 {
      match FindLine(cart, id)
      case Some(i) =>
        var c := cart[i := cart[i].(quantity := cart[i].quantity + quantity)];
        assert r.1 == c;
        assert forall j :: 0 <= j < |c| ==> c[j].id == cart[j].id;
      case None =>
        var c := cart + [NewLine(found.value, quantity)];
        assert r.1 == c;
        assert forall j :: 0 <= j < |cart| ==> c[j] == cart[j] && c[j].id != id;
    }
  }

  /** A successful `addToCart` adds exactly `quantity` items. */
  lemma AddToCartItems(cart: seq<CartLine>, id: string, quantity: int, found: Option<ProductView>)
    requires found.Some? ==> found.value.id == id
    ensures AddToCart(cart, id, quantity, found).0 ==>
      ItemCount(AddToCart(cart, id, quantity, found).1) == ItemCount(cart) + quantity
  {
    var r := AddToCart(cart, id, quantity, found);
    if r.0 {
      match FindLine(cart, id)
      case Some(i) =>
        var q := cart[i].quantity + quantity;
        assert r.1 == cart[i := cart[i].(quantity := q)];
        ItemCountSetQuantity(cart, i, q);
      case None =>
        var line := NewLine(found.value, quantity);
        assert r.1 == cart + [line];
        ItemCountAppend(cart, line);
    }
  }

  /** Setting line `i`'s quantity to `q` changes the item count by the difference. */
  lemma ItemCountSetQuantity(cart: seq<CartLine>, i: nat, q: int)
    requires i < |cart|
    ensures ItemCount(cart[i := cart[i].(quantity := q)]) == ItemCount(cart) - cart[i].quantity + q
  {
    SumSetQuantity(cart, i, q, (line: CartLine) => line.quantity);
  }

  /** Appending a line adds its quantity to the item count. */
  lemma ItemCountAppend(cart: seq<CartLine>, line: CartLine)
    ensures ItemCount(cart + [line]) == ItemCount(cart) + line.quantity
  {
    SumConcat(cart, [line], (l: CartLine) => l.quantity);
    assert [line][..0] == [];
  }

  /** Adding `extra` items to a line adds `extra` times its price copy to the line's total. */
  lemma LineTotalGrows(line: CartLine, extra: int)
    ensures LineTotal(line.(quantity := line.quantity + extra)) ==
      LineTotal(line) + Prices.ParsePrice(line.price) * extra
  {
    var price := Prices.ParsePrice(line.price);
    assert price * (line.quantity + extra) == price * line.quantity + price * extra;
  }

  /** A successful `addToCart` raises the total by `quantity` units at the line's price copy. */
  lemma AddToCartTotal(cart: seq<CartLine>, id: string, quantity: int, found: Option<ProductView>)
    requires found.Some? ==> found.value.id == id
    requires AddToCart(cart, id, quantity, found).0
    ensures CartTotal(AddToCart(cart, id, quantity, found).1) ==
      CartTotal(cart) + Prices.ParsePrice(PriceCopy(cart, id, found.value)) * quantity
  {
    var r := AddToCart(cart, id, quantity, found);
    match FindLine(cart, id)
    case Some(i) =>
      var q := cart[i].quantity + quantity;
      assert r.1 == cart[i := cart[i].(quantity := q)];
      SumSetQuantity(cart, i, q, LineTotal);
      LineTotalGrows(cart[i], quantity);
    case None =>
      var line := NewLine(found.value, quantity);
      assert r.1 == cart + [line];
      SumConcat(cart, [line], LineTotal);
      assert Sum([line], LineTotal) == LineTotal(line) by {
        assert [line][..0] == [];
      }
      assert PriceCopy(cart, id, found.value) == line.price;
      assert CartTotal(r.1) == CartTotal(cart) + LineTotal(line);
  }

  /** Removing line `i` keeps the ids distinct and takes away exactly that line's items. */
  lemma RemoveAtEffect(cart: seq<CartLine>, i: nat)
    requires i < |cart|
    ensures IsSubsequence(RemoveAt(cart, i), cart)
    ensures ItemCount(RemoveAt(cart, i)) == ItemCount(cart) - cart[i].quantity
    ensures DistinctIds(cart) ==> DistinctIds(RemoveAt(cart, i))
    ensures DistinctIds(cart) ==> forall j :: 0 <= j < |RemoveAt(cart, i)| ==> RemoveAt(cart, i)[j].id != cart[i].id
  {
    var f := (line: CartLine) => line.quantity;
    SumAround(cart, i, f);
    SumConcat(cart[..i], cart[i + 1..], f);
    RemoveAtSubsequence(cart, i);
  }

  lemma {:induction false} RemoveAtSubsequence(cart: seq<CartLine>, i: nat)
    requires i < |cart|
    ensures IsSubsequence(RemoveAt(cart, i), cart)
    decreases |cart|
  {
    var r := RemoveAt(cart, i);
    if i == |cart| - 1 {
      assert r == cart[..|cart| - 1];
      SubsequenceReflexive(r);
    } else {
      RemoveAtSubsequence(cart[..|cart| - 1], i);
      assert RemoveAt(cart[..|cart| - 1], i) == r[..|r| - 1];
      assert r[|r| - 1] == cart[|cart| - 1];
    }
  }

  /** A successful `updateCartQuantity` keeps the ids distinct and sets the item count accordingly. */
  lemma UpdateCartQuantityEffect(cart: seq<CartLine>, id: string, quantity: int, stock: Option<int>)
    requires DistinctIds(cart)
    ensures DistinctIds(UpdateCartQuantity(cart, id, quantity, stock).1)
    ensures UpdateCartQuantity(cart, id, quantity, stock).0 ==>
      ItemCount(UpdateCartQuantity(cart, id, quantity, stock).1) ==
        ItemCount(cart) - QuantityOf(cart, id) + (if quantity <= 0 then 0 else quantity)
    ensures UpdateCartQuantity(cart, id, quantity, stock).0 && quantity <= 0 ==>
      forall j :: 0 <= j < |UpdateCartQuantity(cart, id, quantity, stock).1| ==>
        UpdateCartQuantity(cart, id, quantity, stock).1[j].id != id
  {
    var r := UpdateCartQuantity(cart, id, quantity, stock);
    if r.0 {
      var i := FindLine(cart, id).value;
      if quantity <= 0 {
        RemoveAtEffect(cart, i);
      } else {
        assert r.1 == cart[i := cart[i].(quantity := quantity)];
        SumSetQuantity(cart, i, quantity, (line: CartLine) => line.quantity);
      }
    }
  }

  /** A successful `removeFromCart` leaves no line for the id when ids were distinct, and keeps the rest in order. */
  lemma RemoveFromCartEffect(cart: seq<CartLine>, id: string)
    requires DistinctIds(cart)
    ensures DistinctIds(RemoveFromCart(cart, id).1)
    ensures IsSubsequence(RemoveFromCart(cart, id).1, cart)
    ensures forall j :: 0 <= j < |RemoveFromCart(cart, id).1| ==> RemoveFromCart(cart, id).1[j].id != id
  {
    var r := RemoveFromCart(cart, id);
    if r.0 {
      RemoveAtEffect(cart, FindLine(cart, id).value);
    } else {
      SubsequenceReflexive(cart);
    }
  }
}
