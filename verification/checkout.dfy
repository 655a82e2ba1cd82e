/**
 * The checkout path on values: `checkout`, which decrements the stock line by
 * line and stops at the first line it cannot cover (keeping what it already
 * decremented), and the stock check in `showBill`, which looks at every line
 * first and names each one it cannot cover.
 *
 * `ids` and `stocks` are the product list's ids and live stocks, index by index.
 */
module Checkout {
  import opened Wrappers
  import opened Seqs
  import opened Cart

  /** The product `getProductById(line.id)` finds exists and has at least `line.quantity` in stock. */
  predicate LineCovered(ids: seq<string>, stocks: seq<int>, line: CartLine) {
    match FirstIndex(ids, line.id)
    case None => false
    case Some(k) => k < |stocks| && stocks[k] >= line.quantity
  }

  /**
   * `checkout()`: the verdict and the stocks afterwards. A covered line
   * decrements its product's stock and the loop goes on; the first uncovered
   * line ends it with `false`, and the decrements already made stay.
   */
  function Commit(ids: seq<string>, stocks: seq<int>, cart: seq<CartLine>): (r: (bool, seq<int>))
    requires |ids| == |stocks|
    ensures |r.1| == |stocks|
    decreases |cart|
  {
    if cart == [] then (true, stocks)
    else match FirstIndex(ids, cart[0].id)
      case None => (false, stocks)
      case Some(k) =>
        if stocks[k] >= cart[0].quantity then
          Commit(ids, stocks[k := stocks[k] - cart[0].quantity], cart[1..])
        else (false, stocks)
  }

  /** One pass of the loop in `checkout`: a covered line lowers its product's stock, an uncovered one changes nothing. */
  function CommitLine(ids: seq<string>, stocks: seq<int>, line: CartLine): (r: (bool, seq<int>))
    requires |ids| == |stocks|
    ensures r.0 <==> LineCovered(ids, stocks, line)
    ensures |r.1| == |stocks|
    ensures !r.0 ==> r.1 == stocks
  {
    match FirstIndex(ids, line.id)
    case None => (false, stocks)
    case Some(k) =>
      if stocks[k] >= line.quantity then (true, stocks[k := stocks[k] - line.quantity]) else (false, stocks)
  }

  /** `checkout` from line `i` on is one pass of its loop followed by the rest, unless that pass fails. */
  lemma CommitFrom(ids: seq<string>, stocks: seq<int>, cart: seq<CartLine>, i: nat)
    requires |ids| == |stocks| && i < |cart|
    ensures Commit(ids, stocks, cart[i..]) ==
      var (ok, after) := CommitLine(ids, stocks, cart[i]);
      if ok then Commit(ids, after, cart[i + 1..]) else (false, stocks)
  {
    assert cart[i..][0] == cart[i] && cart[i..][1..] == cart[i + 1..];
  }

  /** The names `showBill` collects in `outOfStockItems`: one per uncovered line, in cart order. */
  function ShortLines(ids: seq<string>, stocks: seq<int>, cart: seq<CartLine>): (names: seq<string>)
    ensures |names| <= |cart|
  {
    if cart == [] then []
    else
      var last := cart[|cart| - 1];
      ShortLines(ids, stocks, cart[..|cart| - 1]) +
        (if LineCovered(ids, stocks, last) then [] else [last.name])
  }

  /** The check in `showBill` up to line `i` inclusive: up to `i`, then `i`'s name if it is not covered. */
  lemma ShortLinesThrough(ids: seq<string>, stocks: seq<int>, cart: seq<CartLine>, i: nat)
    requires i < |cart|
    ensures ShortLines(ids, stocks, cart[..i + 1]) ==
      ShortLines(ids, stocks, cart[..i]) + (if LineCovered(ids, stocks, cart[i]) then [] else [cart[i].name])
  {
    assert cart[..i + 1][..i] == cart[..i];
  }

  function Names(lines: seq<CartLine>): (names: seq<string>)
    ensures |names| == |lines| && forall i :: 0 <= i < |lines| ==> names[i] == lines[i].name
  {
    seq(|lines|, i requires 0 <= i < |lines| => lines[i].name)
  }

  /** The reported names are exactly the names of the uncovered lines, in cart order. */
  lemma {:induction false} ShortLinesAreUncoveredLines(ids: seq<string>, stocks: seq<int>, cart: seq<CartLine>)
    ensures ShortLines(ids, stocks, cart) ==
      Names(Filter(cart, (line: CartLine) => !LineCovered(ids, stocks, line)))
    decreases |cart|
  {
    if cart != [] {
      var init := cart[..|cart| - 1];
      ShortLinesAreUncoveredLines(ids, stocks, init);
      var keep := (line: CartLine) => !LineCovered(ids, stocks, line);
      assert Filter(cart, keep) == Filter(init, keep) + (if keep(cart[|cart| - 1]) then [cart[|cart| - 1]] else []);
    }
  }

  /** The check in `showBill` passes, reporting nothing, exactly when every line is covered. */
  lemma {:induction false} ShortLinesEmptyIff(ids: seq<string>, stocks: seq<int>, cart: seq<CartLine>)
    ensures ShortLines(ids, stocks, cart) == [] <==> forall i :: 0 <= i < |cart| ==> LineCovered(ids, stocks, cart[i])
    decreases |cart|
  {
    if cart != [] {
      var init := cart[..|cart| - 1];
      ShortLinesEmptyIff(ids, stocks, init);
      assert forall i :: 0 <= i < |init| ==> init[i] == cart[i];
    }
  }

  /** Decrementing one product's stock does not change whether a line for another product is covered. */
  lemma CoveredElsewhere(ids: seq<string>, stocks: seq<int>, k: nat, q: int, line: CartLine)
    requires |ids| == |stocks| && k < |stocks| && ids[k] != line.id
    ensures LineCovered(ids, stocks[k := stocks[k] - q], line) == LineCovered(ids, stocks, line)
  {
  }

  /**
   * With one line per product, `checkout` succeeds exactly when every line is
   * covered by the stock it started with.
   */
  lemma {:induction false} CommitOkIffAllCovered(ids: seq<string>, stocks: seq<int>, cart: seq<CartLine>)
    requires |ids| == |stocks| && DistinctIds(cart)
    ensures Commit(ids, stocks, cart).0 <==> forall i :: 0 <= i < |cart| ==> LineCovered(ids, stocks, cart[i])
    decreases |cart|
  {
    if cart != [] && LineCovered(ids, stocks, cart[0]) {
      var k := FirstIndex(ids, cart[0].id).value;
      var s' := stocks[k := stocks[k] - cart[0].quantity];
      var rest := cart[1..];
      CommitOkIffAllCovered(ids, s', rest);
      forall i | 0 <= i < |rest|
        ensures LineCovered(ids, s', rest[i]) == LineCovered(ids, stocks, rest[i])
      {
        assert rest[i] == cart[i + 1];
        CoveredElsewhere(ids, stocks, k, cart[0].quantity, rest[i]);
      }
      assert forall i :: 0 <= i < |cart| ==>
        (LineCovered(ids, stocks, cart[i]) <==> (i == 0 || LineCovered(ids, stocks, rest[i - 1])));
    }
  }

  /**
   * With one line per product, the check in `showBill` predicts `checkout`
   * exactly: it reports nothing if and only if `checkout` returns true, so
   * after a passing check `checkout` never stops half-way.
   */
  lemma ValidationPredictsCommit(ids: seq<string>, stocks: seq<int>, cart: seq<CartLine>)
    requires |ids| == |stocks| && DistinctIds(cart)
    ensures Commit(ids, stocks, cart).0 <==> ShortLines(ids, stocks, cart) == []
  {
    CommitOkIffAllCovered(ids, stocks, cart);
    ShortLinesEmptyIff(ids, stocks, cart);
  }

  /** How much the cart asks of product `k`: the quantities of the lines whose id finds it. */
  function Demand(ids: seq<string>, cart: seq<CartLine>, k: nat): int {
    if cart == [] then 0
    else (if FirstIndex(ids, cart[0].id) == Some(k) then cart[0].quantity else 0) + Demand(ids, cart[1..], k)
  }

  /** Every product's stock lowered by what the cart asks of it. */
  function SoldOff(ids: seq<string>, stocks: seq<int>, cart: seq<CartLine>): (after: seq<int>)
    ensures |after| == |stocks|
    ensures forall k :: 0 <= k < |stocks| ==> after[k] == stocks[k] - Demand(ids, cart, k)
  {
    seq(|stocks|, k requires 0 <= k < |stocks| => stocks[k] - Demand(ids, cart, k))
  }

  /** A successful `checkout` lowers each product's stock by what the cart asks of it, and nothing else. */
  lemma {:induction false} CommitDecrements(ids: seq<string>, stocks: seq<int>, cart: seq<CartLine>)
    requires |ids| == |stocks| && Commit(ids, stocks, cart).0
    ensures Commit(ids, stocks, cart).1 == SoldOff(ids, stocks, cart)
    decreases |cart|
  {
    if cart != [] {
      var k0 := FirstIndex(ids, cart[0].id).value;
      var s' := stocks[k0 := stocks[k0] - cart[0].quantity];
      CommitDecrements(ids, s', cart[1..]);
    }
  }

  /**
   * With one line per product, after a check in `showBill` that reports
   * nothing, `checkout` succeeds and lowers each stock by what the cart asks.
   */
  lemma CheckedCommit(ids: seq<string>, stocks: seq<int>, cart: seq<CartLine>)
    requires |ids| == |stocks| && DistinctIds(cart) && ShortLines(ids, stocks, cart) == []
    ensures Commit(ids, stocks, cart) == (true, SoldOff(ids, stocks, cart))
  {
    ValidationPredictsCommit(ids, stocks, cart);
    CommitDecrements(ids, stocks, cart);
  }

  /** With one line per product, a line's product is asked for exactly that line's quantity. */
  lemma {:induction false} DemandOfLine(ids: seq<string>, cart: seq<CartLine>, i: nat, k: nat)
    requires DistinctIds(cart) && i < |cart| && FirstIndex(ids, cart[i].id) == Some(k)
    ensures Demand(ids, cart, k) == cart[i].quantity
    decreases |cart|
  {
    if i == 0 {
      DemandOfOthers(ids, cart[1..], cart[0].id, k);
    } else {
      assert cart[0].id != cart[i].id;
      DemandOfLine(ids, cart[1..], i - 1, k);
    }
  }

  lemma {:induction false} DemandOfOthers(ids: seq<string>, cart: seq<CartLine>, id: string, k: nat)
    requires FirstIndex(ids, id) == Some(k)
    requires forall j :: 0 <= j < |cart| ==> cart[j].id != id
    ensures Demand(ids, cart, k) == 0
    decreases |cart|
  {
    if cart != [] {
      DemandOfOthers(ids, cart[1..], id, k);
    }
  }

  /**
   * When `checkout` returns false, it stopped at some line `f`: the lines
   * before `f` were all committed (their decrements stay), and line `f` is not
   * covered by the stock left at that point.
   */
  lemma {:induction false} CommitStopsAtFirstShortLine(ids: seq<string>, stocks: seq<int>, cart: seq<CartLine>)
    requires |ids| == |stocks| && !Commit(ids, stocks, cart).0
    ensures exists f ::
      && 0 <= f < |cart|
      && Commit(ids, stocks, cart[..f]) == (true, Commit(ids, stocks, cart).1)
      && !LineCovered(ids, Commit(ids, stocks, cart).1, cart[f])
    decreases |cart|
  {
    var r := Commit(ids, stocks, cart);
    if !LineCovered(ids, stocks, cart[0]) {
      assert cart[..0] == [];
      assert Commit(ids, stocks, cart[..0]) == (true, r.1);
    } else {
      var k := FirstIndex(ids, cart[0].id).value;
      var s' := stocks[k := stocks[k] - cart[0].quantity];
      var rest := cart[1..];
      CommitStopsAtFirstShortLine(ids, s', rest);
      var f :| 0 <= f < |rest| && Commit(ids, s', rest[..f]) == (true, r.1) && !LineCovered(ids, r.1, rest[f]);
      var done := cart[..f + 1];
      assert done[0] == cart[0] && done[1..] == rest[..f];
      assert Commit(ids, stocks, done) == (true, r.1);
      assert cart[f + 1] == rest[f];
    }
  }

  /**
   * `checkout` on its own commits part of the cart: the first line is covered
   * and decremented, the second is not, and the result is false with the first
   * product's stock already down from 5 to 0.
   */
  lemma PartialCommitExample()
    ensures Commit(["a", "b"], [5, 2], [CartLine("a", "A", "10", 5, [], ""), CartLine("b", "B", "20", 3, [], "")])
      == (false, [0, 2])
  {
    var cart := [CartLine("a", "A", "10", 5, [], ""), CartLine("b", "B", "20", 3, [], "")];
    assert FirstIndex(["a", "b"], "a") == Some(0);
    assert FirstIndex(["a", "b"], "b") == Some(1);
    assert [5, 2][0 := 5 - 5] == [0, 2];
    assert Commit(["a", "b"], [5, 2], cart) == Commit(["a", "b"], [0, 2], cart[1..]);
    assert cart[1..][0].quantity == 3;
    assert Commit(["a", "b"], [0, 2], cart[1..]) == (false, [0, 2]);
  }

  /**
   * Checking out the same cart again, after a commit that left some line's
   * product with less than that line's quantity, returns false.
   */
  lemma SecondCommitFails(ids: seq<string>, stocks: seq<int>, cart: seq<CartLine>, i: nat)
    requires |ids| == |stocks| && DistinctIds(cart) && Commit(ids, stocks, cart).0
    requires i < |cart| && FirstIndex(ids, cart[i].id).Some?
    requires stocks[FirstIndex(ids, cart[i].id).value] < 2 * cart[i].quantity
    ensures !Commit(ids, Commit(ids, stocks, cart).1, cart).0
  {
    var k := FirstIndex(ids, cart[i].id).value;
    var after := Commit(ids, stocks, cart).1;
    CommitDecrements(ids, stocks, cart);
    DemandOfLine(ids, cart, i, k);
    assert !LineCovered(ids, after, cart[i]);
    CommitOkIffAllCovered(ids, after, cart);
  }
}
