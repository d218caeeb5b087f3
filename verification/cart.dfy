/**
 The shopping cart: an ordered list of lines (a product with a quantity),
 its three mutators and the two figures derived from it.
 */
module CartStore {
  import Seqs
  import opened Catalog

  datatype CartItem = CartItem(product: Product, quantity: int)

  type Cart = seq<CartItem>

  /** Some line of the cart holds product `id`. */
  predicate HasId(cart: Cart, id: int)
  {
    exists i :: 0 <= i < |cart| && cart[i].product.id == id
  }

  /** No two lines hold the same product id. */
  predicate DistinctIds(cart: Cart)
  {
    forall i, j :: 0 <= i < j < |cart| ==> cart[i].product.id != cart[j].product.id
  }

  /** The cart invariant: one line per product, and every quantity at least 1. */
  predicate Valid(cart: Cart)
  {
    DistinctIds(cart) && forall i :: 0 <= i < |cart| ==> cart[i].quantity >= 1
  }

  function Max(a: int, b: int): (m: int)
    ensures m >= a && m >= b && (m == a || m == b)
  {
    if a >= b then a else b
  }

  /** The line for `item`'s product with one more unit. */
  function Incremented(item: CartItem): CartItem
  {
    item.(quantity := item.quantity + 1)
  }

  /**
   Add one unit of `p`: every line with `p`'s id gains one unit; when there
   is none, a line with quantity 1 is appended.
   */
  function AddToCart(cart: Cart, p: Product): (r: Cart)
    ensures Valid(cart) ==> Valid(r)
    ensures HasId(r, p.id)
    ensures HasId(cart, p.id) ==> |r| == |cart|
    ensures !HasId(cart, p.id) ==> r == cart + [CartItem(p, 1)]
    ensures forall i :: 0 <= i < |cart| ==> r[i].product == cart[i].product
    ensures forall i :: 0 <= i < |cart| && cart[i].product.id != p.id ==> r[i] == cart[i]
    ensures forall i :: 0 <= i < |cart| && cart[i].product.id == p.id ==>
      r[i].quantity == cart[i].quantity + 1
  {
    if HasId(cart, p.id) then
      var r := seq(|cart|, i requires 0 <= i < |cart| =>
        if cart[i].product.id == p.id then Incremented(cart[i]) else cart[i]);
      assert HasId(r, p.id) by {
        var k :| 0 <= k < |cart| && cart[k].product.id == p.id;
        assert r[k].product.id == p.id;
      }
      r
    else
      var r := cart + [CartItem(p, 1)];
      assert r[|cart|].product.id == p.id;
      r
  }

  /**
   Change the quantity of every line with product `id` by `change`, never
   letting it fall below 1. Lines are never removed this way.
   */
  function UpdateQuantity(cart: Cart, id: int, change: int): (r: Cart)
    ensures |r| == |cart|
    ensures Valid(cart) ==> Valid(r)
    ensures !HasId(cart, id) ==> r == cart
    ensures forall i :: 0 <= i < |cart| ==> r[i].product == cart[i].product
    ensures forall i :: 0 <= i < |cart| && cart[i].product.id != id ==> r[i] == cart[i]
    ensures forall i :: 0 <= i < |cart| && cart[i].product.id == id ==>
      r[i].quantity >= 1 && (cart[i].quantity + change >= 1 ==> r[i].quantity == cart[i].quantity + change)
    ensures forall i :: 0 <= i < |cart| && cart[i].product.id == id && cart[i].quantity + change < 1 ==>
      r[i].quantity == 1
  {
    seq(|cart|, i requires 0 <= i < |cart| =>
      if cart[i].product.id == id then cart[i].(quantity := Max(1, cart[i].quantity + change)) else cart[i])
  }

  /** Lines whose product is not `id`. */
  function Other(id: int): CartItem -> bool
  {
    (item: CartItem) => item.product.id != id
  }

  /** Drop every line with product `id`; the rest keep their order. */
  function RemoveFromCart(cart: Cart, id: int): (r: Cart)
    ensures !HasId(r, id)
    ensures !HasId(cart, id) ==> r == cart
    ensures forall item :: item in r <==> item in cart && item.product.id != id
    ensures Seqs.IsSubsequence(r, cart)
  {
    var r := Seqs.Filter(cart, Other(id));
    assert !HasId(cart, id) ==> r == cart by {
      if !HasId(cart, id) {
        Seqs.FilterAllKept(cart, Other(id));
      }
    }
    Seqs.FilterIsSubsequence(cart, Other(id));
    r
  }

  /**
   Removal is exact on every cart: each line without the id keeps its
   multiplicity, and lines with the id are gone.
   */
  lemma RemoveFromCartMultiset(cart: Cart, id: int)
    ensures forall item :: multiset(RemoveFromCart(cart, id))[item] ==
                           (if item.product.id != id then multiset(cart)[item] else 0)
  {
    forall item {
      Seqs.FilterMultiset(cart, Other(id), item);
    }
  }

  /** Removing a product keeps the cart invariant. */
  lemma {:induction false} RemoveFromCartValid(cart: Cart, id: int)
    requires Valid(cart)
    ensures Valid(RemoveFromCart(cart, id))
  {
    if cart != [] {
      RemoveFromCartValid(cart[1..], id);
      var rest := RemoveFromCart(cart[1..], id);
      var r := RemoveFromCart(cart, id);
      if cart[0].product.id != id {
        assert r == [cart[0]] + rest;
        forall j | 0 <= j < |rest|
          ensures rest[j].product.id != cart[0].product.id
        {
          assert rest[j] in cart[1..];
        }
      } else {
        assert r == rest;
      }
    }
  }

  /** With the invariant, removal deletes exactly the one line for `id`. */
  lemma RemoveLine(cart: Cart, id: int, k: int)
    requires Valid(cart)
    requires 0 <= k < |cart| && cart[k].product.id == id
    ensures RemoveFromCart(cart, id) == cart[..k] + cart[k + 1..]
  {
    assert cart == cart[..k] + ([cart[k]] + cart[k + 1..]);
    Seqs.FilterConcat(cart[..k], [cart[k]] + cart[k + 1..], Other(id));
    Seqs.FilterConcat([cart[k]], cart[k + 1..], Other(id));
    Seqs.FilterAllKept(cart[..k], Other(id));
    Seqs.FilterAllKept(cart[k + 1..], Other(id));
    assert Seqs.Filter([cart[k]], Other(id)) == [];
  }

  /** With the invariant, adding a present product bumps exactly its line. */
  lemma AddToCartExisting(cart: Cart, p: Product, k: int)
    requires Valid(cart)
    requires 0 <= k < |cart| && cart[k].product.id == p.id
    ensures AddToCart(cart, p) == cart[k := Incremented(cart[k])]
  {
  }

  /** With the invariant, updating a present product changes exactly its line. */
  lemma UpdateQuantityExisting(cart: Cart, id: int, change: int, k: int)
    requires Valid(cart)
    requires 0 <= k < |cart| && cart[k].product.id == id
    ensures UpdateQuantity(cart, id, change) ==
      cart[k := cart[k].(quantity := Max(1, cart[k].quantity + change))]
  {
  }

  // ---------------------------------------------------------------------
  // Derived figures

  function Quantity(item: CartItem): int { item.quantity }

  function LineTotal(item: CartItem): int { item.product.price * item.quantity }

  /** The sum of `f` over the lines (what `reduce` with a running sum computes). */
  function Sum(cart: Cart, f: CartItem -> int): int
  {
    if cart == [] then 0 else f(cart[0]) + Sum(cart[1..], f)
  }

  /** Number of units in the cart (the badge on the cart button). */
  function CartCount(cart: Cart): int
  {
    Sum(cart, Quantity)
  }

  /** Price of the cart in cents. */
  function CartTotal(cart: Cart): int
  {
    Sum(cart, LineTotal)
  }

  lemma {:induction false} SumConcat(a: Cart, b: Cart, f: CartItem -> int)
    ensures Sum(a + b, f) == Sum(a, f) + Sum(b, f)
  {
    if a == [] {
      assert a + b == b;
    } else {
      assert (a + b)[1..] == a[1..] + b;
      SumConcat(a[1..], b, f);
    }
  }

  /** A sum splits around any one line. */
  lemma SumAround(cart: Cart, k: int, f: CartItem -> int)
    requires 0 <= k < |cart|
    ensures Sum(cart, f) == Sum(cart[..k], f) + f(cart[k]) + Sum(cart[k + 1..], f)
  {
    assert cart == cart[..k] + ([cart[k]] + cart[k + 1..]);
    SumConcat(cart[..k], [cart[k]] + cart[k + 1..], f);
    SumConcat([cart[k]], cart[k + 1..], f);
  }

  /** Replacing one line changes a sum by the difference of that line. */
  lemma SumReplace(cart: Cart, k: int, x: CartItem, f: CartItem -> int)
    requires 0 <= k < |cart|
    ensures Sum(cart[k := x], f) == Sum(cart, f) - f(cart[k]) + f(x)
  {
    var c := cart[k := x];
    assert c[..k] == cart[..k] && c[k + 1..] == cart[k + 1..];
    SumAround(cart, k, f);
    SumAround(c, k, f);
  }

  /** An empty cart counts nothing and costs nothing. */
  lemma EmptyCartFigures()
    ensures CartCount([]) == 0 && CartTotal([]) == 0
  {
  }

  /** A valid cart holds at least one unit per line and never costs less than 0. */
  lemma {:induction false} FiguresOfValid(cart: Cart)
    requires Valid(cart)
    ensures CartCount(cart) >= |cart|
    ensures CartTotal(cart) >= 0
    ensures CartCount(cart) == 0 <==> cart == []
  {
    if cart != [] {
      FiguresOfValid(cart[1..]);
    }
  }

  /** Adding a product adds one unit and that product's price. */
  lemma AddToCartFigures(cart: Cart, p: Product)
    requires Valid(cart)
    ensures CartCount(AddToCart(cart, p)) == CartCount(cart) + 1
    ensures !HasId(cart, p.id) ==> CartTotal(AddToCart(cart, p)) == CartTotal(cart) + p.price
  {
    if HasId(cart, p.id) {
      var k :| 0 <= k < |cart| && cart[k].product.id == p.id;
      AddExistingFigures(cart, p, k);
    } else {
      SumConcat(cart, [CartItem(p, 1)], Quantity);
      SumConcat(cart, [CartItem(p, 1)], LineTotal);
    }
  }

  /** Adding a product already in the cart adds one unit at the price of its line. */
  lemma AddExistingFigures(cart: Cart, p: Product, k: int)
    requires Valid(cart)
    requires 0 <= k < |cart| && cart[k].product.id == p.id
    ensures CartCount(AddToCart(cart, p)) == CartCount(cart) + 1
    ensures CartTotal(AddToCart(cart, p)) == CartTotal(cart) + cart[k].product.price
  {
    AddToCartExisting(cart, p, k);
    SumReplace(cart, k, Incremented(cart[k]), Quantity);
    SumReplace(cart, k, Incremented(cart[k]), LineTotal);
  }

  /** Changing a line's quantity moves the figures by exactly the clamped difference. */
  lemma UpdateQuantityFigures(cart: Cart, id: int, change: int, k: int)
    requires Valid(cart)
    requires 0 <= k < |cart| && cart[k].product.id == id
    ensures CartCount(UpdateQuantity(cart, id, change)) ==
      CartCount(cart) - cart[k].quantity + Max(1, cart[k].quantity + change)
    ensures CartTotal(UpdateQuantity(cart, id, change)) ==
      CartTotal(cart) - LineTotal(cart[k]) + cart[k].product.price * Max(1, cart[k].quantity + change)
  {
    var x := cart[k].(quantity := Max(1, cart[k].quantity + change));
    UpdateQuantityExisting(cart, id, change, k);
    SumReplace(cart, k, x, Quantity);
    SumReplace(cart, k, x, LineTotal);
  }

  /** Removing a line takes its units and its cost out of the figures. */
  lemma RemoveFromCartFigures(cart: Cart, id: int, k: int)
    requires Valid(cart)
    requires 0 <= k < |cart| && cart[k].product.id == id
    ensures CartCount(RemoveFromCart(cart, id)) == CartCount(cart) - cart[k].quantity
    ensures CartTotal(RemoveFromCart(cart, id)) == CartTotal(cart) - LineTotal(cart[k])
  {
    RemoveLine(cart, id, k);
    SumAround(cart, k, Quantity);
    SumAround(cart, k, LineTotal);
    SumConcat(cart[..k], cart[k + 1..], Quantity);
    SumConcat(cart[..k], cart[k + 1..], LineTotal);
  }

  /** Adding the same product twice yields one line with quantity 2. */
  lemma AddTwiceOneLine(cart: Cart, p: Product)
    requires Valid(cart) && !HasId(cart, p.id)
    ensures AddToCart(AddToCart(cart, p), p) == cart + [CartItem(p, 2)]
  {
    var once := AddToCart(cart, p);
    AddToCartExisting(once, p, |cart|);
  }

  /** Two units of one product and one of another: three units, priced line by line. */
  lemma TwoPlusOne(p1: Product, p2: Product)
    requires p1.id != p2.id
    ensures var c := AddToCart(AddToCart(AddToCart([], p1), p1), p2);
      CartCount(c) == 3 && CartTotal(c) == 2 * p1.price + p2.price
  {
    var c2 := [CartItem(p1, 2)];
    AddTwiceOneLine([], p1);
    assert [] + [CartItem(p1, 2)] == c2;
    AddBesidePair(c2, p2);
  }

  /**
   A new product added beside a single line of two units. Kept apart from
   `TwoPlusOne`: unfolding the sums there, next to the two earlier additions,
   is more than the solver manages in one proof.
   */
  lemma AddBesidePair(c2: Cart, p2: Product)
    requires |c2| == 1 && c2[0].quantity == 2 && c2[0].product.id != p2.id
    ensures CartCount(AddToCart(c2, p2)) == 3 && CartTotal(AddToCart(c2, p2)) == 2 * c2[0].product.price + p2.price
  {
    assert !HasId(c2, p2.id);
    assert c2[1..] == [];
    assert Sum(c2, Quantity) == Quantity(c2[0]) + Sum(c2[1..], Quantity);
    assert Sum(c2, LineTotal) == LineTotal(c2[0]) + Sum(c2[1..], LineTotal);
    AddToCartFigures(c2, p2);
  }

  /** Two units of product 1 and one of product 2: three units, 359.97. */
  lemma MockCartFigures()
    ensures var c := AddToCart(AddToCart(AddToCart([], MockProducts[0]), MockProducts[0]), MockProducts[1]);
      CartCount(c) == 3 && CartTotal(c) == 35997
  {
    var p1, p2 := MockProducts[0], MockProducts[1];
    assert p1.id == 1 && p1.price == 7999 && p2.id == 2 && p2.price == 19999;
    TwoPlusOne(p1, p2);
  }

  /** The minus button on a line of 2 with change -5 leaves 1, not 0 or less. */
  lemma QuantityFloor(p: Product)
    ensures UpdateQuantity([CartItem(p, 2)], p.id, -5) == [CartItem(p, 1)]
  {
  }
}
