/** The `create-payment` edge function as a control skeleton: every outside
    effect (the auth lookup, the two Campay calls, the order insert) is a
    `Call` appended to a trace, and what it answered is read from a
    `Backend` record supplied by the caller. The function's steps, the
    order of those steps, the exact failure responses and the payloads it
    builds are modelled; the network, the clock and the logs are not. */
module CreatePayment {
  import opened Wrappers
  import Text
  import CartStore
  import Price

  /** The parsed request body. `totalAmount` is `None` when the client sent
      JSON `null` (its `Math.round` produced NaN). `paymentMethod` and
      `paymentDetails` travel in the body but the handler never reads them. */
  datatype Body = Body(items: seq<CartStore.CartItem>, totalAmount: Option<int>, currency: string,
                       paymentMethod: string, paymentDetails: Option<string>)

  /** What the handler reads from the incoming request. `body` is `Err` when
      `req.json()` throws, with the error's message. */
  datatype Request = Request(preflight: bool, authorization: Option<string>, origin: Option<string>,
                             body: Result<Body>)

  /** The three Campay secrets; `None` when unset. */
  datatype Env = Env(username: Option<string>, password: Option<string>, appId: Option<string>)

  /** How an outgoing `fetch` ended: it threw (with a message), answered with
      a non-2xx status, or answered 2xx with a payload. */
  datatype Fetched<T> = Threw(message: string) | NotOk | Fine(value: T)

  /** The answers of the outside world, one per call the handler may make,
      and the clock (`Date.now()`). */
  datatype Backend = Backend(user: Option<string>, token: Fetched<string>,
                             collect: Fetched<Option<string>>, insertOk: bool, now: nat)

  /** The JSON sent to Campay's collect endpoint. */
  datatype CollectBody = CollectBody(amount: string, currency: string, externalReference: string,
                                     phoneNumber: string, description: string,
                                     redirectUrl: string, webhookUrl: string)

  /** The row inserted into `orders`. */
  datatype OrderRow = OrderRow(userId: string, campayReference: string, campayPaymentUrl: Option<string>,
                               amount: int, currency: string, status: string,
                               items: seq<CartStore.CartItem>)

  /** One outside effect of the handler. */
  datatype Call =
    | GetUser(jwt: string)
    | FetchToken(username: string, password: string)
    | Collect(authorization: string, request: CollectBody)
    | InsertOrder(row: OrderRow)

  datatype ResponseBody = NoBody | ErrorJson(error: string) | LinkJson(url: Option<string>, reference: string)

  /** Every response carries the CORS headers; `json` says whether
      `Content-Type: application/json` is added. */
  datatype Response = Response(status: int, json: bool, body: ResponseBody)

  /** What the handler returns and the calls it made on the way, in order. */
  datatype Run = Run(response: Response, calls: seq<Call>)

  /** A secret counts as set when it is neither unset nor empty (`!value` is false). */
  predicate Present(v: Option<string>) { v.Some? && |v.value| > 0 }

  predicate Configured(env: Env) {
    Present(env.username) && Present(env.password) && Present(env.appId)
  }

  /** The text a template literal prints for `req.headers.get('origin')`. */
  function OriginText(origin: Option<string>): string {
    if origin.Some? then origin.value else "null"
  }

  /** `order_${user.id}_${Date.now()}` */
  function Reference(userId: string, now: nat): (r: string)
    ensures |r| > |userId| + 7
    ensures r[..6] == "order_" && r[6..6 + |userId|] == userId && r[6 + |userId|] == '_'
    ensures r[7 + |userId|..] == Text.NatToString(now)
  {
    "order_" + userId + "_" + Text.NatToString(now)
  }

  /** The payment request for Campay, built from the body, the origin and the reference. */
  function CollectRequest(b: Body, total: int, origin: Option<string>, reference: string): (c: CollectBody)
    ensures c.amount == Text.IntToString(total) && c.currency == b.currency
    ensures c.externalReference == reference
    ensures c.phoneNumber == "237000000000"
    ensures c.description == "AfriMarket Order - " + Text.NatToString(|b.items|) + " items"
    ensures c.redirectUrl == OriginText(origin) + "/payment-success"
    ensures c.webhookUrl == OriginText(origin) + "/api/webhooks/campay"
  {
    CollectBody(
      Text.IntToString(total), b.currency, reference, "237000000000",
      "AfriMarket Order - " + Text.NatToString(|b.items|) + " items",
      OriginText(origin) + "/payment-success",
      OriginText(origin) + "/api/webhooks/campay")
  }

  function Failure(status: int, message: string): Response {
    Response(status, true, ErrorJson(message))
  }

  /** The handler, step by step in source order. A `throw` inside the `try`
      and a `TypeError` from touching `null` both end in the `catch`, which
      answers 500 with the error's message. */
  function Handle(req: Request, env: Env, be: Backend): (run: Run)
    ensures run.response.status in {200, 401, 500}
    ensures |run.calls| <= 4
    ensures !req.preflight && req.authorization.Some? ==>
              |run.calls| > 0 && run.calls[0] == GetUser(Text.ReplaceFirst(req.authorization.value, "Bearer ", ""))
    ensures |run.calls| > 1 ==> run.calls[1].FetchToken?
    ensures |run.calls| > 2 ==> run.calls[2].Collect?
    ensures |run.calls| > 3 ==> run.calls[3].InsertOrder?
    ensures run.response.status == 401 <==>
              !req.preflight && req.authorization.Some? && be.user.None?
    ensures |run.calls| > 2 ==>
              && !req.preflight && be.user.Some? && req.body.Ok? && Configured(env)
              && be.token.Fine? && req.body.value.totalAmount.Some?
              && run.calls[2].request.amount == Text.IntToString(req.body.value.totalAmount.value)
  {
    if req.preflight then
      Run(Response(200, false, NoBody), [])
    else if req.authorization.None? then
      Run(Failure(500, "Cannot read properties of null (reading 'replace')"), [])
    else
      var jwt := Text.ReplaceFirst(req.authorization.value, "Bearer ", "");
      var calls := [GetUser(jwt)];
      if be.user.None? then
        Run(Failure(401, "User not authenticated"), calls)
      else if req.body.Err? then
        Run(Failure(500, req.body.message), calls)
      else if !Configured(env) then
        Run(Failure(500, "Payment service configuration error"), calls)
      else
        var calls := calls + [FetchToken(env.username.value, env.password.value)];
        match be.token
        case Threw(m) => Run(Failure(500, m), calls)
        case NotOk => Run(Failure(500, "Failed to authenticate with payment service"), calls)
        case Fine(accessToken) =>
          var rest := Charge(req.body.value, req.origin, be.user.value, accessToken, be);
          Run(rest.response, calls + rest.calls)
  }

  /** The steps after the Campay token was obtained: read the amount,
      request the collection, record the order. Only the calls made here are
      in the trace. */
  function Charge(b: Body, origin: Option<string>, userId: string, accessToken: string, be: Backend): (run: Run)
    ensures run.response.status in {200, 500}
    ensures run.response.status == 200 <==> b.totalAmount.Some? && be.collect.Fine?
    ensures |run.calls| <= 2
    ensures |run.calls| > 0 ==>
              && b.totalAmount.Some? && run.calls[0].Collect?
              && run.calls[0].request.amount == Text.IntToString(b.totalAmount.value)
    ensures |run.calls| > 1 ==> be.collect.Fine? && run.calls[1].InsertOrder?
    ensures |run.calls| > 1 ==>
              && run.calls[1].row.amount == b.totalAmount.value && run.calls[1].row.items == b.items
              && run.calls[1].row.campayReference == run.calls[0].request.externalReference
  {
    var reference := Reference(userId, be.now);
    if b.totalAmount.None? then
      Run(Failure(500, "Cannot read properties of null (reading 'toString')"), [])
    else
      var collect := CollectRequest(b, b.totalAmount.value, origin, reference);
      var calls := [Collect("Token " + accessToken, collect)];
      match be.collect
      case Threw(m) => Run(Failure(500, m), calls)
      case NotOk => Run(Failure(500, "Failed to create payment"), calls)
      case Fine(link) =>
        var row := OrderRow(userId, reference, link, b.totalAmount.value, b.currency, "pending", b.items);
        Run(Response(200, true, LinkJson(link, reference)), calls + [InsertOrder(row)])
  }

  // ---------------------------------------------------------------- properties

  /** Everything the handler needs for a payment link. */
  predicate Payable(req: Request, env: Env, be: Backend) {
    && req.authorization.Some? && be.user.Some? && req.body.Ok? && Configured(env)
    && be.token.Fine? && req.body.value.totalAmount.Some? && be.collect.Fine?
  }

  /** A non-preflight request is answered 200 exactly when every step succeeds. */
  lemma SuccessIff(req: Request, env: Env, be: Backend)
    requires !req.preflight
    ensures Handle(req, env, be).response.status == 200 <==> Payable(req, env, be)
  {
    var status := Handle(req, env, be).response.status;
    if req.authorization.None? || be.user.None? || req.body.Err? || !Configured(env) {
      assert status != 200;
    } else if !be.token.Fine? {
      assert status == 500;
    } else {
      var rest := Charge(req.body.value, req.origin, be.user.value, be.token.value, be);
      assert Handle(req, env, be).response == rest.response;
    }
  }

  /** A successful request made all four calls; the answer carries Campay's
      link and the reference under which the order was recorded as pending. */
  lemma SuccessShape(req: Request, env: Env, be: Backend)
    requires !req.preflight && Payable(req, env, be)
    ensures var run := Handle(req, env, be);
            && |run.calls| == 4
            && run.response.body == LinkJson(be.collect.value, Reference(be.user.value, be.now))
            && run.calls[3].row.campayReference == Reference(be.user.value, be.now)
            && run.calls[3].row.status == "pending"
            && run.calls[2].request.externalReference == Reference(be.user.value, be.now)
            && run.calls[3].row.userId == be.user.value
            && run.calls[3].row.campayPaymentUrl == be.collect.value
            && run.calls[3].row.amount == req.body.value.totalAmount.value
            && run.calls[3].row.currency == req.body.value.currency
            && run.calls[3].row.items == req.body.value.items
  {
  }

  /** A CORS preflight is answered 200 with no body and no JSON header, and nothing is called. */
  lemma PreflightAnswersEmpty(req: Request, env: Env, be: Backend)
    requires req.preflight
    ensures Handle(req, env, be) == Run(Response(200, false, NoBody), [])
  {
  }

  /** Without an `Authorization` header, `null.replace` throws before any call is made. */
  lemma MissingHeaderFails(req: Request, env: Env, be: Backend)
    requires !req.preflight && req.authorization.None?
    ensures Handle(req, env, be).response.status == 500
    ensures Handle(req, env, be).calls == []
  {
  }

  /** A body that cannot be parsed fails with the parser's message after the user lookup alone. */
  lemma UnreadableBodyFails(req: Request, env: Env, be: Backend)
    requires !req.preflight && req.authorization.Some? && be.user.Some? && req.body.Err?
    ensures Handle(req, env, be).response == Failure(500, req.body.message)
    ensures |Handle(req, env, be).calls| == 1
  {
  }

  /** Missing Campay secrets are reported before Campay is contacted: only the
      user lookup was made. */
  lemma UnconfiguredStopsBeforeToken(req: Request, env: Env, be: Backend)
    requires !req.preflight && req.authorization.Some? && be.user.Some? && req.body.Ok?
    requires !Configured(env)
    ensures Handle(req, env, be).response == Failure(500, "Payment service configuration error")
    ensures |Handle(req, env, be).calls| == 1 && Handle(req, env, be).calls[0].GetUser?
  {
  }

  /** A refused token request fails with the fixed message after two calls, the
      second of which sends the configured credentials. */
  lemma TokenRefusedFails(req: Request, env: Env, be: Backend)
    requires !req.preflight && req.authorization.Some? && be.user.Some? && req.body.Ok?
    requires Configured(env) && be.token.NotOk?
    ensures Handle(req, env, be).response == Failure(500, "Failed to authenticate with payment service")
    ensures Handle(req, env, be).calls[1..] == [FetchToken(env.username.value, env.password.value)]
  {
  }

  /** A refused collection fails with the fixed message, and no order is recorded. */
  lemma CollectRefusedFails(req: Request, env: Env, be: Backend)
    requires !req.preflight && req.authorization.Some? && be.user.Some? && req.body.Ok?
    requires Configured(env) && be.token.Fine? && req.body.value.totalAmount.Some?
    requires be.collect.NotOk?
    ensures Handle(req, env, be).response == Failure(500, "Failed to create payment")
    ensures |Handle(req, env, be).calls| == 3
  {
  }

  /** An order is recorded only after Campay accepted the collection. */
  lemma InsertOnlyAfterCollect(req: Request, env: Env, be: Backend)
    requires |Handle(req, env, be).calls| > 3
    ensures be.collect.Fine? && Handle(req, env, be).response.status == 200
  {
    var rest := Charge(req.body.value, req.origin, be.user.value, be.token.value, be);
    assert Handle(req, env, be).response == rest.response && |rest.calls| > 1;
  }

  /** An unknown user is answered 401 before the body is read and before Campay is contacted. */
  lemma UnauthenticatedStopsEarly(req: Request, env: Env, be: Backend)
    requires !req.preflight && req.authorization.Some? && be.user.None?
    ensures Handle(req, env, be).response == Failure(401, "User not authenticated")
    ensures |Handle(req, env, be).calls| == 1
  {
  }

  /** A NaN total (sent as `null`) fails only after the token request: the
      payment service is contacted, but nothing is collected. */
  lemma NullTotalFailsAfterToken(req: Request, env: Env, be: Backend)
    requires !req.preflight && req.authorization.Some? && be.user.Some?
    requires req.body.Ok? && req.body.value.totalAmount.None?
    requires Configured(env) && be.token.Fine?
    ensures Handle(req, env, be).response.status == 500
    ensures |Handle(req, env, be).calls| == 2
  {
  }

  /** The handler never looks at the payment method or its details: the
      response and the calls are the same whatever they are. */
  lemma IgnoresPaymentMethod(req: Request, env: Env, be: Backend, pm: string, details: Option<string>)
    requires req.body.Ok?
    ensures var other := req.(body := Ok(req.body.value.(paymentMethod := pm, paymentDetails := details)));
            Handle(other, env, be) == Handle(req, env, be)
  {
  }

  /** A failed order insert is only logged: the response does not depend on it. */
  lemma IgnoresInsertResult(req: Request, env: Env, be: Backend, ok: bool)
    ensures Handle(req, env, be.(insertOk := ok)) == Handle(req, env, be)
  {
  }

  /** The amount sent to Campay is the decimal text of the total, and it reads back as the total. */
  lemma CollectAmountReadsBack(req: Request, env: Env, be: Backend)
    requires |Handle(req, env, be).calls| > 2
    ensures var c := Handle(req, env, be).calls[2].request;
            && Price.AllPriceChars(c.amount)
            && Price.ParseNumber(c.amount) == Some(req.body.value.totalAmount.value as real)
  {
    Price.ParsePrintedInteger(req.body.value.totalAmount.value);
  }

  /** For one user, two requests made at different milliseconds get different references. */
  lemma ReferencesDiffer(userId: string, now1: nat, now2: nat)
    requires now1 != now2
    ensures Reference(userId, now1) != Reference(userId, now2)
  {
    var p := "order_" + userId + "_";
    if Reference(userId, now1) == Reference(userId, now2) {
      assert Reference(userId, now1) == p + Text.NatToString(now1);
      assert Reference(userId, now2) == p + Text.NatToString(now2);
      assert Text.NatToString(now1) == Reference(userId, now1)[|p|..];
      assert Text.NatToString(now2) == Reference(userId, now2)[|p|..];
      Text.NatToStringInjective(now1, now2);
    }
  }

  /** The Bearer prefix is cut off once, at the front, when it is there. */
  lemma BearerToken(req: Request, env: Env, be: Backend, jwt: string)
    requires !req.preflight && req.authorization == Some("Bearer " + jwt)
    ensures |Handle(req, env, be).calls| > 0 && Handle(req, env, be).calls[0] == GetUser(jwt)
  {
    Text.ReplaceFirstAtFront(req.authorization.value, "Bearer ", "", jwt);
  }
}
