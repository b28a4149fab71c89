/** The checkout end to end: the request the cart sheet builds goes over the
    wire to the `create-payment` handler, and the handler's response comes
    back as the sheet's `InvokeReply`. */
module Flow {
  import opened Wrappers
  import CartStore
  import Checkout
  import CreatePayment
  import PaymentDialog

  /** What the handler parses out of the JSON the sheet sends. */
  function WireBody(r: Checkout.PaymentRequest): (b: CreatePayment.Body)
    ensures b.items == r.items && b.totalAmount == r.totalAmount && b.currency == r.currency
    ensures b.paymentMethod == r.paymentMethod && b.paymentDetails == r.paymentDetails
  {
    CreatePayment.Body(r.items, r.totalAmount, r.currency, r.paymentMethod, r.paymentDetails)
  }

  /** The POST `supabase.functions.invoke` makes for a signed-in session with token `jwt`. */
  function WireRequest(r: Checkout.PaymentRequest, jwt: string, origin: Option<string>): CreatePayment.Request {
    CreatePayment.Request(false, Some("Bearer " + jwt), origin, Ok(WireBody(r)))
  }

  /** `invoke` reports an error for any non-2xx status; otherwise `data` is the JSON answer. */
  function Reply(resp: CreatePayment.Response): (reply: Checkout.InvokeReply)
    ensures reply.InvokeOk? <==> 200 <= resp.status < 300
  {
    if 200 <= resp.status < 300 then
      Checkout.InvokeOk(if resp.body.LinkJson? then resp.body.url else None)
    else
      Checkout.InvokeFailed
  }

  /** Confirming the dialog: the sheet's request is handled and its answer fed back. */
  function Confirm(s: Checkout.Sheet, m: PaymentDialog.Method, details: string, jwt: string,
                   origin: Option<string>, env: CreatePayment.Env, be: CreatePayment.Backend)
    : (r: (Checkout.Confirmation, CreatePayment.Run))
    ensures r.1 == CreatePayment.Handle(WireRequest(Checkout.BuildRequest(s.items, m, details), jwt, origin), env, be)
    ensures r.0 == Checkout.ConfirmPayment(s, m, details, Reply(r.1.response))
  {
    var request := Checkout.BuildRequest(s.items, m, details);
    var run := CreatePayment.Handle(WireRequest(request, jwt, origin), env, be);
    (Checkout.ConfirmPayment(s, m, details, Reply(run.response)), run)
  }

  // ---------------------------------------------------------------- properties

  /** The outside world answers every call favourably. */
  predicate AllServicesUp(env: CreatePayment.Env, be: CreatePayment.Backend) {
    be.user.Some? && CreatePayment.Configured(env) && be.token.Fine? && be.collect.Fine?
  }

  /** Pay on delivery is not a separate path on the server: a delivery order
      still fetches a Campay token and asks Campay to collect the amount, and
      only then does the sheet report "Order Placed" and clear the cart. */
  lemma DeliveryStillCollects(s: Checkout.Sheet, details: string, jwt: string, origin: Option<string>,
                              env: CreatePayment.Env, be: CreatePayment.Backend)
    requires AllServicesUp(env, be)
    requires CartStore.TotalPrice(s.items).Some?
    ensures var (c, run) := Confirm(s, PaymentDialog.Delivery, details, jwt, origin, env, be);
            && |run.calls| == 4 && run.calls[2].Collect?
            && c.notices == [Checkout.OrderPlaced, Checkout.CartCleared]
            && c.sheet.items == []
  {
    var request := Checkout.BuildRequest(s.items, PaymentDialog.Delivery, details);
    CreatePayment.SuccessIff(WireRequest(request, jwt, origin), env, be);
    CreatePayment.SuccessShape(WireRequest(request, jwt, origin), env, be);
  }

  /** When the handler is unavailable for delivery (say Campay rejects the
      credentials), the order is not placed and the cart stays. */
  lemma DeliveryNeedsCampay(s: Checkout.Sheet, details: string, jwt: string, origin: Option<string>,
                            env: CreatePayment.Env, be: CreatePayment.Backend)
    requires be.token.NotOk?
    ensures var (c, run) := Confirm(s, PaymentDialog.Delivery, details, jwt, origin, env, be);
            && c.notices == [Checkout.CheckoutFailed] && c.sheet.items == s.items
  {
    var request := Checkout.BuildRequest(s.items, PaymentDialog.Delivery, details);
    CreatePayment.SuccessIff(WireRequest(request, jwt, origin), env, be);
  }

  /** A price without any number in it makes the total NaN: the handler still
      fetches a Campay token, fails on the `null` amount before collecting,
      and the sheet reports "Checkout Failed" with the cart unchanged. */
  lemma UnreadablePriceFails(s: Checkout.Sheet, m: PaymentDialog.Method, details: string, jwt: string,
                             origin: Option<string>, env: CreatePayment.Env, be: CreatePayment.Backend)
    requires AllServicesUp(env, be)
    requires CartStore.TotalPrice(s.items).None?
    ensures var (c, run) := Confirm(s, m, details, jwt, origin, env, be);
            && |run.calls| == 2 && run.calls[1].FetchToken? && run.response.status == 500
            && c.notices == [Checkout.CheckoutFailed] && c.sheet.items == s.items
  {
    var request := Checkout.BuildRequest(s.items, m, details);
    CreatePayment.NullTotalFailsAfterToken(WireRequest(request, jwt, origin), env, be);
  }

  /** An online payment that goes through opens Campay's link in a new tab and
      closes the dialog, leaving the cart as it was. */
  lemma OnlinePaymentOpensLink(s: Checkout.Sheet, m: PaymentDialog.Method, details: string, jwt: string,
                               origin: Option<string>, env: CreatePayment.Env, be: CreatePayment.Backend)
    requires m != PaymentDialog.Delivery
    requires AllServicesUp(env, be) && CartStore.TotalPrice(s.items).Some?
    requires be.collect.value.Some? && |be.collect.value.value| > 0
    ensures var (c, run) := Confirm(s, m, details, jwt, origin, env, be);
            && c.newTab == be.collect.value && !c.sheet.dialogOpen && c.sheet.items == s.items
  {
    var request := Checkout.BuildRequest(s.items, m, details);
    CreatePayment.SuccessIff(WireRequest(request, jwt, origin), env, be);
    CreatePayment.SuccessShape(WireRequest(request, jwt, origin), env, be);
  }
}
