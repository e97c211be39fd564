/**
 * The PayPal checkout edge function. One request is dispatched on its HTTP
 * method: OPTIONS is answered at once; every other method first needs the
 * PayPal credentials and an access token; POST creates an order and records a
 * pending payment; GET captures an order and marks its payments completed; any
 * other method gets 405. An exception anywhere after the preflight becomes a
 * 500 response carrying its message.
 *
 * The store and PayPal are not called: what they answer is an `Upstream`
 * value given to the handler, and the clock is the `now` parameter.
 */
module Checkout {
  import opened Wrappers
  import opened Strings
  import opened Schema

  /** A link of a PayPal order (`rel`, `href`). */
  datatype Link = Link(rel: string, href: string)

  /** The JSON of a created PayPal order. */
  datatype Order = Order(id: string, links: seq<Link>)

  /** The POST body: `{ sessionId, amount, currency? }`. */
  datatype OrderRequest = OrderRequest(sessionId: Uuid, amount: real, currency: Option<string>)

  /** The request: its method, its JSON body and the `orderId` / `paymentId` query parameters. */
  datatype Request = Request(
    httpMethod: string,
    body: OrderRequest,
    orderId: Option<string>,
    paymentId: Option<string>)

  /** The two PayPal secrets from the environment; an unset variable is `None`. */
  datatype Env = Env(clientId: Option<string>, clientSecret: Option<string>)

  /**
   * What the outside world answers, one field per call the handler may make:
   * the token exchange succeeds or not; the session lookup finds a row or not
   * (a lookup error is `None` too); the order creation returns an order or is
   * rejected; the insert succeeds or not; the capture returns its id or is
   * rejected; the update succeeds or not.
   */
  datatype Upstream = Upstream(
    tokenOk: bool,
    session: Option<SessionRow>,
    order: Option<Order>,
    insertOk: bool,
    capture: Option<string>,
    updateOk: bool)

  /** A response body. */
  datatype Body =
    | NoBody
    | OrderCreated(orderId: string, approvalUrl: Option<string>)
    | Captured(success: bool, captureId: string)
    | Text(text: string)
    | Error(message: string)

  /** A response; every one of them carries the CORS headers. */
  datatype Response = Response(status: int, body: Body)

  const CredentialsMissing := "PayPal credentials not configured"
  const TokenFailed := "Failed to get PayPal access token"
  const SessionNotFound := "Session not found"
  const OrderFailed := "Failed to create PayPal order"
  const StoreFailed := "Failed to store payment record"
  const OrderIdRequired := "Order ID is required for capture"
  const CaptureFailed := "Failed to capture PayPal payment"

  /** The catch block: status 500 and `{ error: message }`. */
  function ServerError(message: string): Response {
    Response(500, Error(message))
  }

  /** Both secrets are set and non-empty. */
  predicate Configured(env: Env) {
    Truthy(env.clientId) && Truthy(env.clientSecret)
  }

  /** A non-OPTIONS request that got past the credential check and the token exchange. */
  predicate Authorised(req: Request, env: Env, up: Upstream) {
    req.httpMethod != "OPTIONS" && Configured(env) && up.tokenOk
  }

  /** `links[i]` is the first link whose rel is `approve`. */
  predicate FirstApprove(links: seq<Link>, i: int) {
    0 <= i < |links| && links[i].rel == "approve" && forall j :: 0 <= j < i ==> links[j].rel != "approve"
  }

  /**
   * `order.links.find(link => link.rel === 'approve')?.href`: the href of the
   * first approve link, absent when there is none.
   */
  function ApprovalUrl(links: seq<Link>): (r: Option<string>)
    ensures r.None? <==> forall j :: 0 <= j < |links| ==> links[j].rel != "approve"
    ensures r.Some? ==> exists i :: FirstApprove(links, i) && r.value == links[i].href
  {
    if links == [] then None
    else if links[0].rel == "approve" then
      assert FirstApprove(links, 0);
      Some(links[0].href)
    else
      var r := ApprovalUrl(links[1..]);
      if r.Some? then
        var i :| FirstApprove(links[1..], i) && r.value == links[1..][i].href;
        assert FirstApprove(links, i + 1);
        r
      else
        r
  }

  /** The payments row a successful POST stores for `session` and the PayPal order `orderId`. */
  predicate RecordsOrder(p: PaymentRow, body: OrderRequest, session: SessionRow, orderId: string, id: Uuid, now: Timestamp) {
    && p.id == id
    && p.createdAt == now
    && p.sessionId == body.sessionId
    && p.payerId == session.learnerId
    && p.payeeId == session.tutorId
    && p.amount == body.amount
    && p.currency == body.currency.GetOr("USD")
    && p.status == PaymentStatus.Pending
    && p.paypalOrderId == Some(orderId)
    && p.paypalPaymentId == None
    && p.processedAt == None
  }

  /** The row after the capture update: completed, with the payment id and the processing time. */
  function MarkCompleted(p: PaymentRow, paymentId: Option<string>, now: Timestamp): (r: PaymentRow)
    ensures r.status == PaymentStatus.Completed && r.paypalPaymentId == paymentId && r.processedAt == Some(now)
    ensures r.(status := p.status, paypalPaymentId := p.paypalPaymentId, processedAt := p.processedAt) == p
  {
    p.(status := PaymentStatus.Completed, paypalPaymentId := paymentId, processedAt := Some(now))
  }

  /**
   * `update({ status: 'completed', paypal_payment_id, processed_at }).eq('paypal_order_id', orderId)`:
   * every row of that order is marked completed; every other row is left as it was.
   */
  function Capture(rows: seq<PaymentRow>, orderId: string, paymentId: Option<string>, now: Timestamp): (r: seq<PaymentRow>)
    ensures |r| == |rows|
    ensures forall i :: 0 <= i < |rows| && rows[i].paypalOrderId == Some(orderId) ==>
              r[i] == MarkCompleted(rows[i], paymentId, now)
    ensures forall i :: 0 <= i < |rows| && rows[i].paypalOrderId != Some(orderId) ==> r[i] == rows[i]
  {
    if rows == [] then []
    else
      var head := if rows[0].paypalOrderId == Some(orderId) then MarkCompleted(rows[0], paymentId, now) else rows[0];
      [head] + Capture(rows[1..], orderId, paymentId, now)
  }

  /** Capturing the same order twice leaves the table as capturing it once. */
  lemma CaptureIdempotent(rows: seq<PaymentRow>, orderId: string, paymentId: Option<string>, now: Timestamp)
    ensures Capture(Capture(rows, orderId, paymentId, now), orderId, paymentId, now) == Capture(rows, orderId, paymentId, now)
  {
    var once := Capture(rows, orderId, paymentId, now);
    var twice := Capture(once, orderId, paymentId, now);
    forall i | 0 <= i < |rows| ensures twice[i] == once[i] {
      if rows[i].paypalOrderId == Some(orderId) {
        assert once[i].paypalOrderId == Some(orderId);
      }
    }
  }

  /** A capture keeps every row's identity, session, parties and amount. */
  lemma CaptureKeepsIdentity(rows: seq<PaymentRow>, orderId: string, paymentId: Option<string>, now: Timestamp)
    ensures var r := Capture(rows, orderId, paymentId, now);
            forall i :: 0 <= i < |rows| ==>
              r[i].id == rows[i].id && r[i].sessionId == rows[i].sessionId && r[i].payerId == rows[i].payerId &&
              r[i].payeeId == rows[i].payeeId && r[i].amount == rows[i].amount && r[i].paypalOrderId == rows[i].paypalOrderId
  {
  }

  /** A capture of an order no row refers to changes nothing. */
  lemma CaptureUnknownOrder(rows: seq<PaymentRow>, orderId: string, paymentId: Option<string>, now: Timestamp)
    requires forall i :: 0 <= i < |rows| ==> rows[i].paypalOrderId != Some(orderId)
    ensures Capture(rows, orderId, paymentId, now) == rows
  {
  }

  /** The `payments` table as the handler sees it: its rows, in insertion order. */
  class PaymentsTable {
    var rows: seq<PaymentRow>

    constructor (initial: seq<PaymentRow>)
      ensures rows == initial
    {
      rows := initial;
    }

    /**
     * The `serve` handler for one request. `now` is the current time and
     * `newId` the id the store gives a new row.
     */
    method Serve(req: Request, env: Env, up: Upstream, now: Timestamp, newId: Uuid) returns (resp: Response)
      modifies this
      // The preflight is answered before anything else is looked at.
      ensures req.httpMethod == "OPTIONS" ==> resp == Response(200, NoBody) && rows == old(rows)
      // Missing credentials or a failed token exchange fail every other method, 405 included.
      ensures req.httpMethod != "OPTIONS" && !Configured(env) ==>
                resp == ServerError(CredentialsMissing) && rows == old(rows)
      ensures req.httpMethod != "OPTIONS" && Configured(env) && !up.tokenOk ==>
                resp == ServerError(TokenFailed) && rows == old(rows)
      // POST: an unknown session, a rejected order or a failed insert store nothing and answer 500.
      ensures Authorised(req, env, up) && req.httpMethod == "POST" && up.session.None? ==>
                resp == ServerError(SessionNotFound) && rows == old(rows)
      ensures Authorised(req, env, up) && req.httpMethod == "POST" && up.session.Some? && up.order.None? ==>
                resp == ServerError(OrderFailed) && rows == old(rows)
      ensures Authorised(req, env, up) && req.httpMethod == "POST" && up.session.Some? && up.order.Some? && !up.insertOk ==>
                resp == ServerError(StoreFailed) && rows == old(rows)
      // A successful POST appends exactly one pending row and returns the order id and approval link.
      ensures Authorised(req, env, up) && req.httpMethod == "POST" && up.session.Some? && up.order.Some? && up.insertOk ==>
                && |rows| == |old(rows)| + 1
                && rows[..|old(rows)|] == old(rows)
                && RecordsOrder(rows[|old(rows)|], req.body, up.session.value, up.order.value.id, newId, now)
                && resp == Response(200, OrderCreated(up.order.value.id, ApprovalUrl(up.order.value.links)))
      // GET: no order id fails before any capture; a rejected capture changes nothing.
      ensures Authorised(req, env, up) && req.httpMethod == "GET" && !Truthy(req.orderId) ==>
                resp == ServerError(OrderIdRequired) && rows == old(rows)
      ensures Authorised(req, env, up) && req.httpMethod == "GET" && Truthy(req.orderId) && up.capture.None? ==>
                resp == ServerError(CaptureFailed) && rows == old(rows)
      // A successful capture marks the order's rows completed; a failed update is only logged.
      ensures Authorised(req, env, up) && req.httpMethod == "GET" && Truthy(req.orderId) && up.capture.Some? ==>
                && rows == (if up.updateOk then Capture(old(rows), req.orderId.value, req.paymentId, now) else old(rows))
                && resp == Response(200, Captured(true, up.capture.value))
      ensures Authorised(req, env, up) && req.httpMethod != "POST" && req.httpMethod != "GET" ==>
                resp == Response(405, Text("Method not allowed")) && rows == old(rows)
    {
      if req.httpMethod == "OPTIONS" {
        return Response(200, NoBody);
      }
      if !Truthy(env.clientId) || !Truthy(env.clientSecret) {
        return ServerError(CredentialsMissing);
      }
      if !up.tokenOk {
        return ServerError(TokenFailed);
      }

      if req.httpMethod == "POST" {
        var currency := req.body.currency.GetOr("USD");
        if up.session.None? {
          return ServerError(SessionNotFound);
        }
        var session := up.session.value;
        if up.order.None? {
          return ServerError(OrderFailed);
        }
        var order := up.order.value;
        if !up.insertOk {
          return ServerError(StoreFailed);
        }
        var payment := PaymentRow(
          id := newId,
          amount := req.body.amount,
          createdAt := now,
          currency := currency,
          payeeId := session.tutorId,
          payerId := session.learnerId,
          paypalOrderId := Some(order.id),
          paypalPaymentId := None,
          processedAt := None,
          sessionId := req.body.sessionId,
          status := PaymentStatus.Pending);
        rows := rows + [payment];
        return Response(200, OrderCreated(order.id, ApprovalUrl(order.links)));
      }

      if req.httpMethod == "GET" {
        if !Truthy(req.orderId) {
          return ServerError(OrderIdRequired);
        }
        var orderId := req.orderId.value;
        if up.capture.None? {
          return ServerError(CaptureFailed);
        }
        if up.updateOk {
          rows := Capture(rows, orderId, req.paymentId, now);
        }
        return Response(200, Captured(true, up.capture.value));
      }

      return Response(405, Text("Method not allowed"));
    }
  }
}
