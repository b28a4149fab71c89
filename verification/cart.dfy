/** The shopping-cart store: an ordered sequence of line items keyed by a
    numeric product id, with the add / remove / update / clear operations and
    the two aggregates the cart sheet displays. Each operation is the pure
    state update the store hands to its state setter; the localStorage copy
    and the toast notifications are side effects outside the model. */
module CartStore {
  import opened Wrappers
  import Seqs
  import Price

  /** What the product grid passes to `addToCart`: a cart line without a quantity. */
  datatype Product = Product(id: int, name: string, price: string, image: string, vendor: string, category: string)

  /** One line of the cart. `price` is the display string, e.g. "$24.99". */
  datatype CartItem = CartItem(id: int, name: string, price: string, image: string, vendor: string, quantity: int, category: string)

  type Cart = seq<CartItem>

  /** `{ ...product, quantity: 1 }` */
  function NewLine(p: Product): CartItem {
    CartItem(p.id, p.name, p.price, p.image, p.vendor, 1, p.category)
  }

  /** The product a line was made from. */
  function ProductOf(it: CartItem): Product {
    Product(it.id, it.name, it.price, it.image, it.vendor, it.category)
  }

  /** `items.find(item => item.id === id)` finds something. */
  predicate HasId(c: Cart, id: int) {
    exists i :: 0 <= i < |c| && c[i].id == id
  }

  /** The store's key invariant: at most one line per product id. */
  predicate DistinctIds(c: Cart) {
    forall i, j :: 0 <= i < j < |c| ==> c[i].id != c[j].id
  }

  /** Distinct ids and every quantity at least 1: what every reachable cart satisfies. */
  predicate WellFormed(c: Cart) {
    DistinctIds(c) && forall i :: 0 <= i < |c| ==> c[i].quantity >= 1
  }

  // ---------------------------------------------------------------- operations

  /** `addToCart`: a product already in the cart gets one more unit on its
      line (every line with its id, as `map` does); a new product is
      appended with quantity 1. */
  function AddToCart(c: Cart, p: Product): (r: Cart)
    ensures HasId(r, p.id)
    ensures HasId(c, p.id) ==> |r| == |c|
    ensures HasId(c, p.id) ==> forall i :: 0 <= i < |c| && c[i].id == p.id ==>
              r[i] == c[i].(quantity := c[i].quantity + 1)
    ensures HasId(c, p.id) ==> forall i :: 0 <= i < |c| && c[i].id != p.id ==> r[i] == c[i]
    ensures !HasId(c, p.id) ==> |r| == |c| + 1 && r[..|c|] == c && r[|c|] == NewLine(p)
  {
    if HasId(c, p.id) then
      var r := seq(|c|, i requires 0 <= i < |c| =>
                 if c[i].id == p.id then c[i].(quantity := c[i].quantity + 1) else c[i]);
      assert HasId(r, p.id) by {
        var k :| 0 <= k < |c| && c[k].id == p.id;
        assert r[k].id == p.id;
      }
      r
    else
      var r := c + [NewLine(p)];
      assert r[|c|].id == p.id;
      r
  }

  /** `removeFromCart`: every line with the id goes, the rest keep their order. */
  function RemoveFromCart(c: Cart, id: int): (r: Cart)
    ensures !HasId(r, id)
    ensures forall i :: 0 <= i < |c| && c[i].id != id ==> c[i] in r
    ensures forall i :: 0 <= i < |r| ==> r[i] in c
    ensures Seqs.IsSubsequence(r, c)
    ensures !HasId(c, id) ==> r == c
  {
    Seqs.Filter(c, OtherThan(id))
  }

  /** The `filter` callback of `removeFromCart`. */
  function OtherThan(id: int): CartItem -> bool {
    (it: CartItem) => it.id != id
  }

  /** `updateQuantity`: a non-positive quantity removes the product; any other
      quantity is written onto its line(s) in place. */
  function UpdateQuantity(c: Cart, id: int, quantity: int): (r: Cart)
    ensures quantity <= 0 ==> r == RemoveFromCart(c, id)
    ensures quantity > 0 ==> |r| == |c|
    ensures quantity > 0 ==> forall i :: 0 <= i < |c| && c[i].id == id ==>
              r[i] == c[i].(quantity := quantity)
    ensures quantity > 0 ==> forall i :: 0 <= i < |c| && c[i].id != id ==> r[i] == c[i]
    ensures !HasId(c, id) ==> r == c
  {
    if quantity <= 0 then RemoveFromCart(c, id)
    else seq(|c|, i requires 0 <= i < |c| => if c[i].id == id then c[i].(quantity := quantity) else c[i])
  }

  /** `clearCart` */
  function ClearCart(): (r: Cart)
    ensures |r| == 0 && TotalItems(r) == 0 && TotalPrice(r) == Some(0.0)
  {
    []
  }

  // ---------------------------------------------------------------- aggregates

  /** `getTotalItems`: the sum of the quantities (a left fold, as `reduce`). */
  function TotalItems(c: Cart): (n: int)
    ensures |c| == 0 ==> n == 0
    ensures |c| == 1 ==> n == c[0].quantity
    decreases |c|
  {
    if |c| == 0 then 0 else TotalItems(c[..|c| - 1]) + c[|c| - 1].quantity
  }

  /** The numeric value of one line, given how a price string is read:
      price times quantity, NaN (`None`) when the price reads as NaN. */
  function LineValue(it: CartItem, read: string -> Option<real>): Option<real> {
    match read(it.price)
    case None => None
    case Some(u) => Some(u * it.quantity as real)
  }

  /** Addition in which NaN absorbs everything. */
  function AddOpt(a: Option<real>, b: Option<real>): (r: Option<real>)
    ensures r.Some? <==> a.Some? && b.Some?
  {
    if a.Some? && b.Some? then Some(a.value + b.value) else None
  }

  /** The `reduce` of `getTotalPrice` for a given price reading: the left-to-right
      sum of the line values; one NaN line makes the whole sum NaN. */
  function SumLines(c: Cart, read: string -> Option<real>): (r: Option<real>)
    ensures r.Some? <==> forall i :: 0 <= i < |c| ==> read(c[i].price).Some?
    decreases |c|
  {
    if |c| == 0 then Some(0.0)
    else
      var front := c[..|c| - 1];
      var r := AddOpt(SumLines(front, read), LineValue(c[|c| - 1], read));
      assert r.Some? ==> forall i :: 0 <= i < |c| ==> read(c[i].price).Some? by {
        if r.Some? {
          forall i | 0 <= i < |c| ensures read(c[i].price).Some? {
            if i < |c| - 1 { assert c[i] == front[i]; }
          }
        }
      }
      assert (forall i :: 0 <= i < |c| ==> read(c[i].price).Some?) ==> r.Some? by {
        if forall i :: 0 <= i < |c| ==> read(c[i].price).Some? {
          forall i | 0 <= i < |front| ensures read(front[i].price).Some? {
            assert front[i] == c[i];
          }
        }
      }
      r
  }

  /** `getTotalPrice`: each price string stripped to `0-9 . -` and read by
      `parseFloat`, times the quantity, summed; NaN as soon as one price has
      no numeric part. */
  function TotalPrice(c: Cart): (r: Option<real>)
    ensures r.Some? <==> forall i :: 0 <= i < |c| ==> Price.UnitPrice(c[i].price).Some?
  {
    SumLines(c, Price.UnitPrice)
  }
}
