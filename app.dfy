/**
 * The payment form page (`App`): the message chosen from the query string on
 * return from the hosted checkout, the amount field that only ever holds a
 * well-formed amount, and the checkout handler that sends one request for a
 * single custom item and then navigates, hands over to the payment provider,
 * or alerts.
 */
module AppPage {
  import opened Common
  import opened Http
  import opened AmountInput
  import Payment

  const SuccessMessage := "Payment successful! You will receive an email confirmation."
  const CanceledMessage := "Payment canceled -- you can try again when you're ready."
  const InvalidAmountMessage := "Please enter a valid amount greater than 0"
  const AuthErrorMessage := "Authentication error: Please check your Stripe API keys"
  const CheckoutFailedMessage := "Something went wrong with the checkout process"
  const MissingSessionMessage := "Failed to get valid session ID from the server"
  const RedirectFailedMessage := "Failed to redirect to checkout"

  // ---- The query string ----

  /** `URLSearchParams.get(name)` over the decoded name/value pairs: the value of the first pair named `name`. */
  function QueryGet(query: seq<(string, string)>, name: string): (r: Option<string>)
    ensures r.None? <==> forall i :: 0 <= i < |query| ==> query[i].0 != name
    ensures r.Some? ==> exists i :: 0 <= i < |query| && query[i] == (name, r.value)
                                   && forall j :: 0 <= j < i ==> query[j].0 != name
  {
    if query == [] then None
    else if query[0].0 == name then Some(query[0].1)
    else
      var r := QueryGet(query[1..], name);
      if r.Some? then
        var i :| 0 <= i < |query[1..]| && query[1..][i] == (name, r.value)
                 && forall j :: 0 <= j < i ==> query[1..][j].0 != name;
        assert query[i + 1] == (name, r.value);
        assert forall j :: 0 <= j < i + 1 ==> query[j].0 != name by {
          forall j | 0 <= j < i + 1 ensures query[j].0 != name {
            if j > 0 {
              assert query[j] == query[1..][j - 1];
            }
          }
        }
        r
      else
        assert forall i :: 1 <= i < |query| ==> query[i] == query[1..][i - 1];
        r
  }

  /** A query value is truthy when the parameter is present with a non-empty value. */
  predicate Truthy(v: Option<string>) {
    v.Some? && v.value != ""
  }

  /** The message the page starts with: the later `canceled` test overrides the `success` one. */
  function QueryMessage(query: seq<(string, string)>): string {
    if Truthy(QueryGet(query, "canceled")) then CanceledMessage
    else if Truthy(QueryGet(query, "success")) then SuccessMessage
    else ""
  }

  /** The first pair named `name` has a non-empty value. */
  ghost predicate FirstPairSet(query: seq<(string, string)>, name: string) {
    exists i :: 0 <= i < |query| && query[i].0 == name && query[i].1 != ""
                && forall j :: 0 <= j < i ==> query[j].0 != name
  }

  /** `get(name)` is truthy exactly when the first pair named `name` has a non-empty value. */
  lemma FirstPairTruthy(query: seq<(string, string)>, name: string)
    ensures Truthy(QueryGet(query, name)) <==> FirstPairSet(query, name)
  {
    var r := QueryGet(query, name);
    if exists i :: 0 <= i < |query| && query[i].0 == name && query[i].1 != ""
                   && forall j :: 0 <= j < i ==> query[j].0 != name {
      var i :| 0 <= i < |query| && query[i].0 == name && query[i].1 != ""
               && forall j :: 0 <= j < i ==> query[j].0 != name;
      var k :| 0 <= k < |query| && query[k] == (name, r.value)
               && forall j :: 0 <= j < k ==> query[j].0 != name;
      assert !(k < i) && !(i < k);
    }
  }

  /**
   * The page shows a message exactly when one of the two parameters has a
   * non-empty value: the cancellation text when `canceled` has one, whatever
   * `success` holds, and otherwise the success text.
   */
  lemma QueryMessageCases(query: seq<(string, string)>)
    ensures QueryMessage(query) != "" <==> FirstPairSet(query, "canceled") || FirstPairSet(query, "success")
    ensures QueryMessage(query) in {"", SuccessMessage, CanceledMessage}
    ensures FirstPairSet(query, "canceled") ==> QueryMessage(query) == CanceledMessage
    ensures !FirstPairSet(query, "canceled") && FirstPairSet(query, "success") ==> QueryMessage(query) == SuccessMessage
    ensures Truthy(QueryGet(query, "canceled")) ==> QueryMessage(query) == CanceledMessage
    ensures !Truthy(QueryGet(query, "canceled")) && Truthy(QueryGet(query, "success")) ==>
      QueryMessage(query) == SuccessMessage
  {
    FirstPairTruthy(query, "canceled");
    FirstPairTruthy(query, "success");
  }

  // ---- The amount ----

  /**
   * `!amount || parseFloat(amount) <= 0` for a field that is empty or well
   * formed: the handler refuses it and the pay button is disabled.
   */
  predicate CheckoutBlocked(amount: string)
    requires amount == "" || IsAmount(amount)
  {
    amount == "" || Cents(amount) == 0
  }

  /** The test is decided on the text: blocked exactly when the field is empty or all its digits are '0'. */
  lemma CheckoutBlockedIffZeros(amount: string)
    requires amount == "" || IsAmount(amount)
    ensures CheckoutBlocked(amount) <==> amount == "" || ZeroDigits(amount)
    ensures !CheckoutBlocked(amount) ==> Cents(amount) >= 1
  {
    if amount != "" {
      CentsZeroIffAllZeros(amount);
    }
  }

  // ---- The checkout response ----

  /**
   * The part of the checkout handler's `try` block that reads the response:
   * the session JSON, or the message of the error it throws. A 401 is refused
   * before its body is read; another non-ok status surfaces the body's `error`
   * field; a body that is not JSON surfaces the parser's message.
   */
  function ReadSession(o: FetchOutcome): (r: Result<Payload, string>)
    ensures o.Received? && o.response.status == 401 ==> r == Err(AuthErrorMessage)
    ensures o.NetworkError? ==> r == Err(o.reason)
    ensures o.Received? && o.response.status != 401 && !IsOk(o.response.status) && o.response.body.Json? ==>
      r == Err(OrDefault(o.response.body.payload.error, CheckoutFailedMessage))
    ensures o.Received? && o.response.status != 401 && o.response.body.Malformed? ==>
      r == Err(o.response.body.reason)
    ensures r.Ok? <==> o.Received? && IsOk(o.response.status) && o.response.body.Json?
    ensures r.Ok? ==> r.value == o.response.body.payload
    ensures r.Err? ==> r.error != "" || (o.NetworkError? && o.reason == "")
                       || (o.Received? && o.response.body.Malformed? && o.response.body.reason == "")
  {
    match o
    case NetworkError(reason) => Err(reason)
    case Received(Response(status, body)) =>
      if status == 401 then Err(AuthErrorMessage)
      else if !IsOk(status) then
        match body
        case Malformed(reason) => Err(reason)
        case Json(payload) => Err(OrDefault(payload.error, CheckoutFailedMessage))
      else
        match body
        case Malformed(reason) => Err(reason)
        case Json(payload) => Ok(payload)
  }

  /** The page and the retry loop of the shared client accept exactly the same responses, with the same JSON. */
  lemma ReadSessionAgreesWithAttempt(o: FetchOutcome)
    ensures ReadSession(o).Ok? <==> Payment.AttemptResult(o).Ok?
    ensures ReadSession(o).Ok? ==> ReadSession(o).value == Payment.AttemptResult(o).value
  {
  }

  /** Where an accepted session sends the user. */
  datatype Route = Navigate(url: string) | RedirectWithId(id: string) | Fail(message: string)

  /** A session `url` wins; otherwise the session `id` goes to the payment provider's redirect. */
  function Dispatch(session: Payload): (r: Route)
    ensures r.Navigate? <==> session.url != ""
    ensures r.RedirectWithId? <==> session.url == "" && session.id != ""
    ensures r.Navigate? ==> r.url == session.url
    ensures r.RedirectWithId? ==> r.id == session.id
    ensures r.Fail? ==> r.message == MissingSessionMessage
  {
    if session.url != "" then Navigate(session.url)
    else if session.id == "" then Fail(MissingSessionMessage)
    else RedirectWithId(session.id)
  }

  /**
   * A session carrying both a url and an id sends the page to the url; the
   * same session without the url hands the id to the payment provider.
   */
  lemma DispatchPrefersUrl(session: Payload)
    requires session.url != "" && session.id != ""
    ensures Dispatch(session) == Navigate(session.url)
    ensures Dispatch(session.(url := "")) == RedirectWithId(session.id)
  {
  }

  // ---- The component ----

  /** What one call of the checkout handler did besides updating the component's state. */
  datatype CheckoutEffects = CheckoutEffects(
    sentCents: Option<nat>,         // the price of the single item in the request, if one was sent
    loading: seq<bool>,             // the values passed to setIsLoading, in order
    alerts: seq<string>,
    navigatedTo: Option<string>,    // the url assigned to window.location.href
    redirectedWith: Option<string>) // the session id passed to redirectToCheckout

  /** The state of the page component. */
  class App {
    var message: string
    var isLoading: bool
    var amount: string

    /** The amount field only ever holds a text the input rule accepts. */
    ghost predicate Valid()
      reads this
    {
      amount == "" || IsAmount(amount)
    }

    /** Mounting the page with the decoded query string of its url. */
    constructor (query: seq<(string, string)>)
      ensures Valid()
      ensures message == QueryMessage(query)
      ensures !isLoading && amount == ""
    {
      message := "";
      isLoading := false;
      amount := "";
      new;
      if Truthy(QueryGet(query, "success")) {
        message := SuccessMessage;
      }
      if Truthy(QueryGet(query, "canceled")) {
        message := CanceledMessage;
      }
    }

    /** A keystroke in the amount field is kept only when the result is empty or matches the pattern. */
    method HandleAmountChange(value: string)
      requires Valid()
      modifies this
      ensures Valid()
      ensures amount == if value == "" || IsAmount(value) then value else old(amount)
      ensures message == old(message) && isLoading == old(isLoading)
    {
      MatchesIffAmount(value);
      if value == "" || Matches(value) {
        amount := value;
      }
    }

    /**
     * The pay button's handler. `outcome` is what the single `fetch` yields
     * and `redirect` is what `redirectToCheckout` reports if it is called.
     */
    method HandleCheckout(outcome: FetchOutcome, redirect: RedirectOutcome) returns (effects: CheckoutEffects)
      requires Valid()
      modifies this
      ensures Valid() && amount == old(amount) && message == old(message)
      ensures CheckoutBlocked(old(amount)) ==>
        effects == CheckoutEffects(None, [], [InvalidAmountMessage], None, None) && isLoading == old(isLoading)
      ensures !CheckoutBlocked(old(amount)) ==>
        && effects.sentCents == Some(Cents(amount))
        && effects.sentCents.value >= 1
        && effects.loading == [true, false]
        && !isLoading
      ensures !CheckoutBlocked(old(amount)) && ReadSession(outcome).Err? ==>
        effects.alerts == [ReadSession(outcome).error] && effects.navigatedTo == None && effects.redirectedWith == None
      ensures !CheckoutBlocked(old(amount)) && ReadSession(outcome).Ok? ==>
        var route := Dispatch(ReadSession(outcome).value);
        && (effects.navigatedTo.Some? <==> route.Navigate?)
        && (route.Navigate? ==> effects.navigatedTo.value == route.url && effects.alerts == [])
        && (effects.redirectedWith.Some? <==> route.RedirectWithId?)
        && (route.RedirectWithId? ==> effects.redirectedWith.value == route.id)
        && (route.RedirectWithId? && redirect.Redirected? ==> effects.alerts == [])
        && (route.RedirectWithId? && redirect.RedirectFailed? ==>
              effects.alerts == [OrDefault(redirect.message, RedirectFailedMessage)])
        && (route.Fail? ==> effects.alerts == [route.message])
    {
      if CheckoutBlocked(amount) {
        effects := CheckoutEffects(None, [], [InvalidAmountMessage], None, None);
        return;
      }
      CheckoutBlockedIffZeros(amount);
      var loading: seq<bool> := [];
      var alerts: seq<string> := [];
      var navigatedTo: Option<string> := None;
      var redirectedWith: Option<string> := None;
      isLoading := true;
      loading := loading + [true];
      var cents := Cents(amount);
      match ReadSession(outcome) {
        case Err(m) =>
          alerts := alerts + [m];
        case Ok(session) =>
          match Dispatch(session) {
            case Navigate(url) =>
              navigatedTo := Some(url);
            case Fail(m) =>
              alerts := alerts + [m];
            case RedirectWithId(id) =>
              redirectedWith := Some(id);
              if redirect.RedirectFailed? {
                alerts := alerts + [OrDefault(redirect.message, RedirectFailedMessage)];
              }
          }
      }
      isLoading := false;
      loading := loading + [false];
      effects := CheckoutEffects(Some(cents), loading, alerts, navigatedTo, redirectedWith);
    }
  }
}
