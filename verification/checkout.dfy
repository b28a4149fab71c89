/** The cart sheet: the quantity buttons on each line, the "Proceed to
    Payment" button (`handleInitiateCheckout`) and what happens when the
    payment dialog is confirmed (`handlePaymentConfirm`). The call to the
    payment function is a parameter: the sheet sees only whether the
    invocation failed and, if not, the `url` of its answer. */
module Checkout {
  import opened Wrappers
  import opened CartStore
  import Price
  import PaymentDialog
  import CartLaws
  import Seqs

  /** The sheet's state: the cart, whether the payment dialog is shown and
      whether a payment is being processed. */
  datatype Sheet = Sheet(items: Cart, dialogOpen: bool, processing: bool)

  /** The toasts the checkout raises. */
  datatype Notice = AuthenticationRequired | EmptyCart | OrderPlaced | CartCleared | CheckoutFailed

  function Title(n: Notice): string {
    match n
    case AuthenticationRequired => "Authentication Required"
    case EmptyCart => "Empty Cart"
    case OrderPlaced => "Order Placed"
    case CartCleared => "Cart Cleared"
    case CheckoutFailed => "Checkout Failed"
  }

  /** Only the two failed pre-checks and a failed payment are shown as destructive. */
  predicate Destructive(n: Notice) {
    n == AuthenticationRequired || n == EmptyCart || n == CheckoutFailed
  }

  /** `handleInitiateCheckout`: a signed-out user is stopped first, then an
      empty cart; otherwise the payment dialog opens. */
  function InitiateCheckout(signedIn: bool, s: Sheet): (r: (Sheet, seq<Notice>))
    ensures r.0.items == s.items && r.0.processing == s.processing
    ensures r.0.dialogOpen <==> s.dialogOpen || (signedIn && |s.items| > 0)
    ensures |r.1| <= 1 && (|r.1| == 0 <==> signedIn && |s.items| > 0)
    ensures !signedIn ==> r.1 == [AuthenticationRequired]
    ensures signedIn && |s.items| == 0 ==> r.1 == [EmptyCart]
  {
    if !signedIn then (s, [AuthenticationRequired])
    else if |s.items| == 0 then (s, [EmptyCart])
    else (s.(dialogOpen := true), [])
  }

  /** The body sent to `create-payment`. `totalAmount` is `Math.round` of the
      cart total (`None` for NaN, which JSON sends as `null`); pay on
      delivery sends no `paymentDetails`. */
  datatype PaymentRequest = PaymentRequest(items: Cart, totalAmount: Option<int>, currency: string,
                                           paymentMethod: string, paymentDetails: Option<string>)

  function BuildRequest(items: Cart, m: PaymentDialog.Method, details: string): (req: PaymentRequest)
    ensures req.items == items && req.currency == "XAF"
    ensures req.totalAmount.Some? <==> TotalPrice(items).Some?
    ensures req.totalAmount.Some? ==>
              TotalPrice(items).value - 0.5 < req.totalAmount.value as real <= TotalPrice(items).value + 0.5
    ensures req.paymentDetails.None? <==> m == PaymentDialog.Delivery
    ensures req.paymentDetails.Some? ==> req.paymentDetails.value == details
  {
    PaymentRequest(items, Price.RoundAmount(TotalPrice(items)), "XAF", PaymentDialog.MethodName(m),
                   if m == PaymentDialog.Delivery then None else Some(details))
  }

  /** How `supabase.functions.invoke` came back: with an error, or with the
      answer's `url` field (`None` when absent). */
  datatype InvokeReply = InvokeFailed | InvokeOk(url: Option<string>)

  /** Everything a confirmation produces: the new sheet, the toasts in
      order, the page opened in a new tab (if any) and the request sent. */
  datatype Confirmation = Confirmation(sheet: Sheet, notices: seq<Notice>, newTab: Option<string>,
                                       request: PaymentRequest)

  /** `data?.url` is truthy. */
  predicate HasUrl(reply: InvokeReply) {
    reply.InvokeOk? && reply.url.Some? && |reply.url.value| > 0
  }

  /** `handlePaymentConfirm`, from `setIsProcessingPayment(true)` to the
      `finally`. Pay on delivery clears the cart and closes the dialog once
      the invocation succeeds; an online payment opens the returned page and
      closes the dialog only when the answer has a url; any error is caught
      and shown, leaving cart and dialog as they were. */
  function ConfirmPayment(s: Sheet, m: PaymentDialog.Method, details: string, reply: InvokeReply): (c: Confirmation)
    ensures !c.sheet.processing
    ensures c.request == BuildRequest(s.items, m, details)
    ensures c.newTab.Some? <==> m != PaymentDialog.Delivery && HasUrl(reply)
    ensures reply.InvokeFailed? ==> c.sheet.items == s.items && c.notices == [CheckoutFailed]
    ensures c.sheet.dialogOpen <==> s.dialogOpen && (reply.InvokeFailed? || (m != PaymentDialog.Delivery && !HasUrl(reply)))
  {
    var request := BuildRequest(s.items, m, details);
    var busy := s.(processing := true);
    var (after, notices, newTab) :=
      if reply.InvokeFailed? then
        (busy, [CheckoutFailed], None)
      else if m == PaymentDialog.Delivery then
        (busy.(items := ClearCart(), dialogOpen := false), [OrderPlaced, CartCleared], None)
      else if HasUrl(reply) then
        (busy.(dialogOpen := false), [], reply.url)
      else
        (busy, [], None);
    Confirmation(after.(processing := false), notices, newTab, request)
  }

  /** The minus button of line `k`: `updateQuantity(id, quantity - 1)`. */
  function Decrement(c: Cart, k: int): (r: Cart)
    requires 0 <= k < |c|
    ensures c[k].quantity > 1 ==> |r| == |c| && r[k] == c[k].(quantity := c[k].quantity - 1)
    ensures c[k].quantity > 1 ==> forall i :: 0 <= i < |c| && c[i].id != c[k].id ==> r[i] == c[i]
    ensures c[k].quantity <= 1 ==> !HasId(r, c[k].id) && Seqs.IsSubsequence(r, c)
  {
    UpdateQuantity(c, c[k].id, c[k].quantity - 1)
  }

  /** The plus button of line `k`: `updateQuantity(id, quantity + 1)`. */
  function Increment(c: Cart, k: int): (r: Cart)
    requires 0 <= k < |c|
    ensures c[k].quantity >= 0 ==> |r| == |c| && r[k] == c[k].(quantity := c[k].quantity + 1)
    ensures c[k].quantity >= 0 ==> forall i :: 0 <= i < |c| && c[i].id != c[k].id ==> r[i] == c[i]
  {
    UpdateQuantity(c, c[k].id, c[k].quantity + 1)
  }

  // ---------------------------------------------------------------- properties

  /** The cart changes on confirmation only through a successful pay-on-delivery
      order of a non-empty cart, and then it is emptied. */
  lemma CartChangesOnlyOnDelivery(s: Sheet, m: PaymentDialog.Method, details: string, reply: InvokeReply)
    ensures var c := ConfirmPayment(s, m, details, reply);
            && (c.sheet.items != s.items <==> m == PaymentDialog.Delivery && reply.InvokeOk? && |s.items| > 0)
            && (c.sheet.items != s.items ==> c.sheet.items == [])
  {
  }

  /** A delivery order that went through raises "Order Placed" and then the
      store's "Cart Cleared"; no page is opened. */
  lemma DeliverySuccess(s: Sheet, details: string, url: Option<string>)
    ensures var c := ConfirmPayment(s, PaymentDialog.Delivery, details, InvokeOk(url));
            && c.notices == [OrderPlaced, CartCleared] && c.sheet.items == []
            && !c.sheet.dialogOpen && c.newTab == None
            && c.request.paymentMethod == "delivery" && c.request.paymentDetails == None
  {
  }

  /** Every confirmation keeps the cart well formed. */
  lemma ConfirmPreservesWellFormed(s: Sheet, m: PaymentDialog.Method, details: string, reply: InvokeReply)
    requires WellFormed(s.items)
    ensures WellFormed(ConfirmPayment(s, m, details, reply).sheet.items)
  {
  }

  /** The minus button on a line holding one unit removes the line. */
  lemma DecrementLastUnit(c: Cart, k: int)
    requires DistinctIds(c) && 0 <= k < |c| && c[k].quantity == 1
    ensures Decrement(c, k) == c[..k] + c[k + 1..]
  {
    CartLaws.RemoveOneLine(c, k);
  }

  /** The plus button does exactly what adding the same product from the grid does. */
  lemma IncrementIsAdd(c: Cart, k: int)
    requires WellFormed(c) && 0 <= k < |c|
    ensures Increment(c, k) == AddToCart(c, ProductOf(c[k]))
  {
    var p := ProductOf(c[k]);
    assert c[k].id == p.id;
    var j := CartLaws.AddToCartExisting(c, p);
    CartLaws.UpdateQuantityExisting(c, k, c[k].quantity + 1);
  }

  /** On a line with more than one unit, minus then plus restores the cart. */
  lemma DecrementThenIncrement(c: Cart, k: int)
    requires DistinctIds(c) && 0 <= k < |c| && c[k].quantity > 1
    ensures |Decrement(c, k)| == |c| && Increment(Decrement(c, k), k) == c
  {
    var d := Decrement(c, k);
    CartLaws.UpdateQuantityExisting(c, k, c[k].quantity - 1);
    assert d == c[k := c[k].(quantity := c[k].quantity - 1)];
    assert forall i :: 0 <= i < |d| ==> d[i].id == c[i].id;
    CartLaws.UpdateQuantityExisting(d, k, c[k].quantity);
  }
}
