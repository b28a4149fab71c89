/** Properties of the cart store that relate several operations or hold
    across a whole sequence of lines: the distinct-id invariant, the effect
    of each operation on the two totals, and the exact shape of a removal. */
module CartLaws {
  import opened Wrappers
  import opened CartStore
  import Seqs
  import Price

  // ---------------------------------------------------------------- invariant

  /** Adding keeps ids distinct and quantities positive. */
  lemma AddToCartPreservesWellFormed(c: Cart, p: Product)
    requires WellFormed(c)
    ensures WellFormed(AddToCart(c, p))
  {
    var r := AddToCart(c, p);
    if !HasId(c, p.id) {
      forall i, j | 0 <= i < j < |r| ensures r[i].id != r[j].id {
        if j == |c| {
          assert r[i] == c[i];
        } else {
          assert r[i] == c[i] && r[j] == c[j];
        }
      }
    } else {
      forall i | 0 <= i < |r| ensures r[i].id == c[i].id && r[i].quantity >= c[i].quantity { }
    }
  }

  /** Removing keeps ids distinct and quantities positive. */
  lemma RemoveFromCartPreservesWellFormed(c: Cart, id: int)
    requires WellFormed(c)
    ensures WellFormed(RemoveFromCart(c, id))
  {
    var r := RemoveFromCart(c, id);
    SubsequenceKeepsDistinct(r, c);
    forall i | 0 <= i < |r| ensures r[i].quantity >= 1 {
      assert r[i] in c;
    }
  }

  lemma {:induction false} SubsequenceKeepsDistinct(sub: Cart, c: Cart)
    requires DistinctIds(c) && Seqs.IsSubsequence(sub, c)
    ensures DistinctIds(sub)
    ensures forall i :: 0 <= i < |sub| ==> sub[i] in c
    decreases |c|
  {
    if |sub| == 0 {
    } else if sub[0] == c[0] {
      SubsequenceKeepsDistinct(sub[1..], c[1..]);
      forall j | 0 < j < |sub| ensures sub[0].id != sub[j].id {
        assert sub[j] == sub[1..][j - 1];
        var k :| 0 <= k < |c[1..]| && c[1..][k] == sub[j];
        assert c[k + 1] == sub[j];
      }
      forall i, j | 0 <= i < j < |sub| ensures sub[i].id != sub[j].id {
        if i > 0 {
          assert sub[i] == sub[1..][i - 1] && sub[j] == sub[1..][j - 1];
        }
      }
      forall i | 0 <= i < |sub| ensures sub[i] in c {
        if i > 0 {
          assert sub[i] == sub[1..][i - 1];
          assert sub[i] in c[1..];
        }
      }
    } else {
      SubsequenceKeepsDistinct(sub, c[1..]);
      forall i | 0 <= i < |sub| ensures sub[i] in c {
        assert sub[i] in c[1..];
      }
    }
  }

  /** Changing quantities keeps the invariant; non-positive quantities remove. */
  lemma UpdateQuantityPreservesWellFormed(c: Cart, id: int, quantity: int)
    requires WellFormed(c)
    ensures WellFormed(UpdateQuantity(c, id, quantity))
  {
    if quantity <= 0 {
      RemoveFromCartPreservesWellFormed(c, id);
    } else {
      var r := UpdateQuantity(c, id, quantity);
      forall i | 0 <= i < |r| ensures r[i].id == c[i].id && r[i].quantity >= 1 { }
    }
  }

  // ---------------------------------------------------------------- removal

  /** In a cart with distinct ids, removing the id of line `k` cuts out
      exactly that line. */
  lemma RemoveOneLine(c: Cart, k: int)
    requires DistinctIds(c) && 0 <= k < |c|
    ensures RemoveFromCart(c, c[k].id) == c[..k] + c[k + 1..]
  {
    Seqs.FilterDropsOne(c, k, OtherThan(c[k].id));
  }

  // ---------------------------------------------------------------- item count

  lemma {:induction false} TotalItemsAppend(a: Cart, b: Cart)
    ensures TotalItems(a + b) == TotalItems(a) + TotalItems(b)
    decreases |b|
  {
    if |b| == 0 {
      assert a + b == a;
    } else {
      var b' := b[..|b| - 1];
      assert (a + b)[..|a + b| - 1] == a + b';
      TotalItemsAppend(a, b');
    }
  }

  /** In a well-formed cart every line holds at least one unit, so the count
      is at least the number of lines, and positive when the cart is not empty. */
  lemma {:induction false} TotalItemsAtLeastLines(c: Cart)
    requires WellFormed(c)
    ensures TotalItems(c) >= |c|
    decreases |c|
  {
    if |c| > 0 {
      var front := c[..|c| - 1];
      assert WellFormed(front) by {
        assert forall i :: 0 <= i < |front| ==> front[i] == c[i];
      }
      TotalItemsAtLeastLines(front);
    }
  }

  /** A cart's count is the count before line `k`, line `k`, and the count after. */
  lemma TotalItemsSplit(c: Cart, k: int)
    requires 0 <= k < |c|
    ensures TotalItems(c) == TotalItems(c[..k]) + c[k].quantity + TotalItems(c[k + 1..])
  {
    var front, back := c[..k], c[k + 1..];
    var rest := [c[k]] + back;
    Seqs.SplitAt(c, k);
    TotalItemsAppend(front, rest);
    TotalItemsAppend([c[k]], back);
    assert [c[k]][..0] == [];
    assert TotalItems([c[k]]) == c[k].quantity;
  }

  /** In a cart with distinct ids, the line holding an id present in it. */
  lemma LineOf(c: Cart, id: int) returns (k: int)
    requires DistinctIds(c) && HasId(c, id)
    ensures 0 <= k < |c| && c[k].id == id
    ensures forall i :: 0 <= i < |c| && i != k ==> c[i].id != id
  {
    k :| 0 <= k < |c| && c[k].id == id;
  }

  /** On a cart with distinct ids, `addToCart` of a present product is the
      update of that product's single line. */
  lemma AddToCartExisting(c: Cart, p: Product) returns (k: int)
    requires DistinctIds(c) && HasId(c, p.id)
    ensures 0 <= k < |c| && c[k].id == p.id
    ensures AddToCart(c, p) == c[k := c[k].(quantity := c[k].quantity + 1)]
  {
    k := LineOf(c, p.id);
  }

  /** On a cart with distinct ids, a positive `updateQuantity` of line `k`'s id
      rewrites that line only. */
  lemma UpdateQuantityExisting(c: Cart, k: int, quantity: int)
    requires DistinctIds(c) && 0 <= k < |c| && quantity > 0
    ensures UpdateQuantity(c, c[k].id, quantity) == c[k := c[k].(quantity := quantity)]
  {
  }

  lemma UpdateAtSlices(c: Cart, k: int, it: CartItem)
    requires 0 <= k < |c|
    ensures c[k := it][..k] == c[..k] && c[k := it][k + 1..] == c[k + 1..] && c[k := it][k] == it
  {
  }

  /** Replacing one line changes the count by the difference of the quantities. */
  lemma TotalItemsUpdate(c: Cart, k: int, it: CartItem)
    requires 0 <= k < |c|
    ensures TotalItems(c[k := it]) == TotalItems(c) - c[k].quantity + it.quantity
  {
    TotalItemsSplit(c, k);
    TotalItemsSplit(c[k := it], k);
    UpdateAtSlices(c, k, it);
  }

  /** Every `addToCart` raises the item count by exactly one. */
  lemma AddToCartTotalItems(c: Cart, p: Product)
    requires DistinctIds(c)
    ensures TotalItems(AddToCart(c, p)) == TotalItems(c) + 1
  {
    if HasId(c, p.id) {
      var k := AddToCartExisting(c, p);
      TotalItemsUpdate(c, k, c[k].(quantity := c[k].quantity + 1));
    } else {
      TotalItemsAppend(c, [NewLine(p)]);
      assert TotalItems([NewLine(p)]) == TotalItems([]) + 1;
    }
  }

  /** Setting a present line's quantity to `q > 0` changes the count by the difference. */
  lemma UpdateQuantityTotalItems(c: Cart, k: int, quantity: int)
    requires DistinctIds(c) && 0 <= k < |c| && quantity > 0
    ensures TotalItems(UpdateQuantity(c, c[k].id, quantity)) == TotalItems(c) - c[k].quantity + quantity
  {
    UpdateQuantityExisting(c, k, quantity);
    TotalItemsUpdate(c, k, c[k].(quantity := quantity));
  }

  /** Removing a present line lowers the count by that line's quantity. */
  lemma RemoveFromCartTotalItems(c: Cart, k: int)
    requires DistinctIds(c) && 0 <= k < |c|
    ensures TotalItems(RemoveFromCart(c, c[k].id)) == TotalItems(c) - c[k].quantity
  {
    RemoveOneLine(c, k);
    TotalItemsSplit(c, k);
    TotalItemsAppend(c[..k], c[k + 1..]);
  }

  // ---------------------------------------------------------------- price

  lemma {:induction false} SumLinesAppend(a: Cart, b: Cart, read: string -> Option<real>)
    ensures SumLines(a + b, read) == AddOpt(SumLines(a, read), SumLines(b, read))
    decreases |b|
  {
    if |b| == 0 {
      assert a + b == a;
    } else {
      var b' := b[..|b| - 1];
      assert (a + b)[..|a + b| - 1] == a + b';
      assert (a + b)[|a + b| - 1] == b[|b| - 1];
      SumLinesAppend(a, b', read);
    }
  }

  lemma SumLinesSplit(c: Cart, k: int, read: string -> Option<real>)
    requires 0 <= k < |c|
    ensures SumLines(c, read)
         == AddOpt(AddOpt(SumLines(c[..k], read), LineValue(c[k], read)), SumLines(c[k + 1..], read))
  {
    var front, line, back := c[..k], [c[k]], c[k + 1..];
    assert SumLines(c, read) == AddOpt(SumLines(front + line, read), SumLines(back, read)) by {
      Seqs.SplitAt(c, k);
      assert c == (front + line) + back;
      SumLinesAppend(front + line, back, read);
    }
    assert SumLines(front + line, read) == AddOpt(SumLines(front, read), LineValue(c[k], read)) by {
      SumLinesAppend(front, line, read);
      SumLinesSingle(c[k], read);
    }
  }

  /** A one-line cart is worth its line. */
  lemma SumLinesSingle(it: CartItem, read: string -> Option<real>)
    ensures SumLines([it], read) == LineValue(it, read)
  {
    assert [it][..0] == [];
  }

  lemma Distribute(u: real, q: int)
    ensures u * (q + 1) as real == u * q as real + u
  {
  }

  /** One more unit of a line adds its unit price once. */
  lemma LineValueIncrement(it: CartItem, read: string -> Option<real>)
    ensures LineValue(it.(quantity := it.quantity + 1), read) == AddOpt(LineValue(it, read), read(it.price))
  {
    var next := it.(quantity := it.quantity + 1);
    assert next.price == it.price;
    var u := read(it.price);
    if u.Some? {
      Distribute(u.value, it.quantity);
      assert LineValue(next, read).value == LineValue(it, read).value + u.value;
    }
  }

  /** Replacing one line replaces its value in the sum. */
  lemma SumLinesUpdate(c: Cart, k: int, it: CartItem, read: string -> Option<real>)
    requires 0 <= k < |c|
    ensures SumLines(c[k := it], read)
         == AddOpt(AddOpt(SumLines(c[..k], read), LineValue(it, read)), SumLines(c[k + 1..], read))
  {
    SumLinesSplit(c[k := it], k, read);
    UpdateAtSlices(c, k, it);
  }

  /** Adding a product already in the cart raises the sum by its line's
      price as read, for any reading of prices. */
  lemma AddToCartSumLinesExisting(c: Cart, p: Product, read: string -> Option<real>) returns (k: int)
    requires DistinctIds(c) && HasId(c, p.id)
    ensures 0 <= k < |c| && c[k].id == p.id
    ensures SumLines(AddToCart(c, p), read) == AddOpt(SumLines(c, read), read(c[k].price))
  {
    k := AddToCartExisting(c, p);
    var it := c[k].(quantity := c[k].quantity + 1);
    var a, m, b := SumLines(c[..k], read), LineValue(c[k], read), SumLines(c[k + 1..], read);
    SumLinesSplit(c, k, read);
    SumLinesUpdate(c, k, it, read);
    LineValueIncrement(c[k], read);
    AddOptIncrement(a, m, b, read(c[k].price));
  }

  /** Adding a new product raises the sum by its price as read. */
  lemma AddToCartSumLinesNew(c: Cart, p: Product, read: string -> Option<real>)
    requires !HasId(c, p.id)
    ensures SumLines(AddToCart(c, p), read) == AddOpt(SumLines(c, read), read(p.price))
  {
    SumLinesAppend(c, [NewLine(p)], read);
    assert [NewLine(p)][..0] == [];
  }

  /** Adding `d` to the middle term of a NaN-absorbing sum adds it to the whole. */
  lemma AddOptIncrement(a: Option<real>, m: Option<real>, b: Option<real>, d: Option<real>)
    ensures AddOpt(AddOpt(a, AddOpt(m, d)), b) == AddOpt(AddOpt(AddOpt(a, m), b), d)
  {
    if a.Some? && m.Some? && b.Some? && d.Some? {
      assert AddOpt(AddOpt(a, AddOpt(m, d)), b).value == AddOpt(AddOpt(AddOpt(a, m), b), d).value;
    }
  }

  /** Every `addToCart` raises `getTotalPrice` by one unit price (NaN stays
      NaN): the product's own price for a new line, the existing line's price
      when the id is already in the cart. */
  lemma AddToCartTotalPrice(c: Cart, p: Product)
    requires DistinctIds(c)
    ensures HasId(c, p.id) ==>
              exists k :: (0 <= k < |c| && c[k].id == p.id &&
                           TotalPrice(AddToCart(c, p)) == AddOpt(TotalPrice(c), Price.UnitPrice(c[k].price)))
    ensures !HasId(c, p.id) ==> TotalPrice(AddToCart(c, p)) == AddOpt(TotalPrice(c), Price.UnitPrice(p.price))
  {
    if HasId(c, p.id) {
      var k := AddToCartSumLinesExisting(c, p, Price.UnitPrice);
    } else {
      AddToCartSumLinesNew(c, p, Price.UnitPrice);
    }
  }

  // ---------------------------------------------------------------- examples

  /** Adding the same product twice to a cart without it gives one line of quantity 2. */
  lemma AddSameProductTwice(c: Cart, p: Product)
    requires !HasId(c, p.id)
    ensures AddToCart(AddToCart(c, p), p) == c + [NewLine(p).(quantity := 2)]
  {
    var once := AddToCart(c, p);
    var twice := AddToCart(once, p);
    assert |twice| == |c| + 1;
    forall i | 0 <= i < |c| ensures twice[i] == c[i] {
      assert once[i] == c[i];
      assert c[i].id != p.id;
    }
  }

  /** Two units at "$24.99" and one at "XAF 1,500": three items, 1549.98 in
      total, sent to the payment function as 1550. */
  lemma TotalsExample(c: Cart)
    requires |c| == 2
    requires c[0].price == "$24.99" && c[0].quantity == 2
    requires c[1].price == "XAF 1,500" && c[1].quantity == 1
    ensures TotalItems(c) == 3
    ensures TotalPrice(c) == Some(1549.98)
    ensures Price.RoundAmount(TotalPrice(c)) == Some(1550)
  {
    var front := c[..1];
    assert |front| == 1 && front[0] == c[0];
    assert TotalItems(c) == TotalItems(front) + c[1].quantity;
    assert LineValue(c[0], Price.UnitPrice) == Some(49.98) by {
      Price.UnitPriceDollars(c[0].price);
    }
    assert LineValue(c[1], Price.UnitPrice) == Some(1500.0) by {
      Price.UnitPriceThousands(c[1].price);
    }
    assert SumLines(front, Price.UnitPrice) == Some(49.98) by {
      assert front == [c[0]];
      SumLinesSingle(c[0], Price.UnitPrice);
    }
    assert SumLines(c, Price.UnitPrice)
        == AddOpt(SumLines(front, Price.UnitPrice), LineValue(c[1], Price.UnitPrice));
    RoundsUp(1549.98, 1550);
  }

  /** `Math.round` of a total whose fraction is at least one half. */
  lemma RoundsUp(x: real, n: int)
    requires n as real - 0.5 <= x < n as real
    ensures Price.RoundAmount(Some(x)) == Some(n)
  {
  }
}
