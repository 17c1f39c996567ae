/**
 * What the browser client sees of the checkout backend and of the payment
 * provider's client library. A JSON field that is absent, null or the empty
 * string is falsy in the client's tests, and is written "" here.
 */
module Http {

  /** The fields of a JSON response body that the client reads. */
  datatype Payload = Payload(id: string, url: string, error: string)

  /** A response body: JSON text, or text that `response.json()` rejects. */
  datatype Body = Malformed(reason: string) | Json(payload: Payload)

  datatype Response = Response(status: nat, body: Body)

  /** One call of `fetch`: it rejects with a transport error, or yields a response. */
  datatype FetchOutcome = NetworkError(reason: string) | Received(response: Response)

  /** `response.ok` */
  predicate IsOk(status: nat) {
    200 <= status <= 299
  }

  /** What `stripe.redirectToCheckout` reports back when it does not navigate away. */
  datatype RedirectOutcome = Redirected | RedirectFailed(message: string)
}
