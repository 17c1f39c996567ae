# stripe_checkout browser client — a Dafny model

This project models the three pieces of sequential logic in the storefront's browser client:

- **`makePayment`** (`stripe.js`). It has an up-front connectivity check. Its retry loop `fetchWithRetry` makes at most `retries` attempts and doubles the delay after each online failure. An offline failure gets a fixed 3000 ms pause. The session id is then handed to the payment provider's `redirectToCheckout`, and every error ends in one `alert`.
- **The product picker** (`ProductList.jsx`). Clicking a card toggles the product in the selection list. The quantity field follows `parseInt(q) || 1`. The total is summed in minor currency units. The checkout button appears only for a non-empty selection.
- **The payment form page** (`App.jsx`).
  - The amount field accepts a keystroke only when the result is empty or matches `^\d+(\.\d{0,2})?$`.
  - The checkout handler has a guard, classifies the response (401 first), and chooses between url and id.
  - The loading flag is set before the request and cleared in `finally`.
  - The message shown on return from the hosted checkout is chosen from the query string.

Modules:

| file | module | models |
|---|---|---|
| `common.dfy` | `Common` | `Option`, `Result`, and `s \|\| fallback` on strings |
| `http.dfy` | `Http` | the response fields the client reads, what one `fetch` yields, what `redirectToCheckout` reports |
| `js_numbers.dfy` | `JsNumbers` | decimal rendering of a non-negative integer; the global `parseInt` with no radix |
| `amount.dfy` | `AmountInput` | the amount pattern as a predicate and as a left-to-right matcher; the exact value in pence of an accepted text |
| `selection.dfy` | `Selection` | the selection list updaters and the total |
| `payment.dfy` | `Payment` | `fetchWithRetry` as a loop proved against the function `Retry`, and `makePayment` |
| `app.dfy` | `AppPage` | the page: query message, amount field, response reading, url/id dispatch, and the class `App` with its state and handlers |

Environment oracles:

- `fetch` and `navigator.onLine` are functions of the attempt number. `fetch(k)` is what the k-th call yields. `online(k)` is the flag when the failure of attempt k is caught.
- `redirectToCheckout` is a parameter of type `RedirectOutcome`.
- Each `setTimeout` pause is recorded as its duration.
- `alert` calls, `setIsLoading` calls and navigations are returned as logs.

A JSON string field that is absent, `null` or empty is falsy in the client's tests. It is written `""`.

An offline failure uses up an attempt: the loop's `continue` moves on to the next `attempt` (`stripe.js:32-35`). Two consequences follow:

- When the last attempt fails offline, the loop runs off its end and returns `undefined`. The user then sees "No session ID received", not the last error.
- The delay doubles only after online failures. So the n-th pause is `delay * 2^(n-1)` only when every failure happened online. `Payment.OnlineBackoff` proves that case, and `Payment.OfflineKeepsDelay` proves the other.

## Model

| member | source | states |
|---|---|---|
| Common.OrDefault | frontend/stripe-frontend/src/stripe.js:58 | `s \|\| fallback`: `s` when it is non-empty, otherwise the fallback; the result is never empty when the fallback is not |
| Http.IsOk | frontend/stripe-frontend/src/stripe.js:24 | `response.ok`: a status from 200 to 299; `Payment.AttemptResult` and `AppPage.ReadSession` accept a JSON body exactly under it |
| JsNumbers.NatToString | frontend/stripe-frontend/src/stripe.js:27 | the text of a status in a template literal has at least one digit, only digits, and no leading zero: it starts with '0' only when it is "0" and `n` is 0 |
| JsNumbers.DigitsValueOfNatToString | frontend/stripe-frontend/src/stripe.js:27 | reading the decimal text of `n` back gives `n` |
| JsNumbers.TrimStart | frontend/stripe-frontend/src/components/ProductList.jsx:51 | `parseInt` skips exactly the leading white space: what is removed is all white space, and what remains does not start with any |
| JsNumbers.DigitPrefixLength | frontend/stripe-frontend/src/components/ProductList.jsx:51 | the digit run `parseInt` reads is the longest prefix made of digits of the radix |
| JsNumbers.ParseDigits | frontend/stripe-frontend/src/components/ProductList.jsx:51 | the result is NaN exactly when no digit of the radix starts the text |
| JsNumbers.ParseUnsigned | frontend/stripe-frontend/src/components/ProductList.jsx:51 | after the sign, "0x"/"0X" switches `parseInt` to radix 16 and anything else is read in radix 10; `JsNumbers.ParseIntOfNatToString` shows that the decimal text of `n` reads back as `n`, also when followed by anything that neither extends the digit run nor switches to hexadecimal |
| JsNumbers.ParseInt | frontend/stripe-frontend/src/components/ProductList.jsx:51 | a blank or white-space-only text parses to NaN |
| JsNumbers.ParseIntOfNatToString | frontend/stripe-frontend/src/components/ProductList.jsx:51 | the decimal text of `n` parses to `n`, also when followed by anything that neither extends the digit run nor switches to hexadecimal |
| JsNumbers.ParseIntOfNegated | frontend/stripe-frontend/src/components/ProductList.jsx:51 | "-" followed by the decimal text of `n` parses to `-n` |
| AmountInput.IsAmount | frontend/stripe-frontend/src/App.jsx:45 | the pattern `^\d+(\.\d{0,2})?$` as a predicate: all digits, or digits, one point and at most two digits; `AmountInput.MatchesIffAmount` ties it to the matcher, and the example lemmas accept "12.34", "12." and "0" and reject "12.345", ".5" and "1.2.3" |
| AmountInput.Matches | frontend/stripe-frontend/src/App.jsx:45 | the regular expression run left to right, accepting when it ends in a digits or fraction state; `AmountInput.MatchesIffAmount` proves it accepts exactly the texts of `IsAmount` |
| AmountInput.MatchesIffAmount | frontend/stripe-frontend/src/App.jsx:45 | the left-to-right matcher accepts exactly the texts of the pattern `^\d+(\.\d{0,2})?$` |
| AmountInput.ScanMeaning | frontend/stripe-frontend/src/App.jsx:45 | each matcher state describes the text read so far: empty, all digits, or a well-formed fraction part with that many digits; every text with a fraction part lands in a fraction state |
| AmountInput.FractionAtUnique | frontend/stripe-frontend/src/App.jsx:45 | an accepted amount has at most one position for its point |
| AmountInput.PointIndexOfAmount | frontend/stripe-frontend/src/App.jsx:45 | the first point of an accepted amount is its only point, or there is none |
| AmountInput.Cents | frontend/stripe-frontend/src/App.jsx:61 | the exact value in pence of an accepted amount; `AmountInput.CentsOfWhole` and `AmountInput.CentsOfFraction` fix it as the whole part times 100 plus the fraction digits as pence, and `AmountInput.CentsZeroIffAllZeros` says it is 0 exactly when every digit is '0' |
| AmountInput.CentsOfWhole | frontend/stripe-frontend/src/App.jsx:61 | a digits-only amount is its digits read in pounds, times 100 pence |
| AmountInput.CentsOfFraction | frontend/stripe-frontend/src/App.jsx:61 | an amount with a point is its whole part times 100 plus its fraction digits as pence |
| AmountInput.DigitsValueZero | frontend/stripe-frontend/src/App.jsx:51 | a digit string reads as 0 exactly when every digit is '0' |
| AmountInput.CentsZeroIffAllZeros | frontend/stripe-frontend/src/App.jsx:51 | for an accepted amount, `parseFloat(amount) <= 0` holds exactly when every digit is '0' |
| AmountInput.AmountWithPence | frontend/stripe-frontend/src/App.jsx:45 | "12.34" is accepted and is 1234 pence |
| AmountInput.AmountWithBarePoint | frontend/stripe-frontend/src/App.jsx:45 | "12." is accepted and is 1200 pence |
| AmountInput.AmountZero | frontend/stripe-frontend/src/App.jsx:45 | "0" is accepted and is worth 0 |
| AmountInput.RejectsThreeFractionDigits | frontend/stripe-frontend/src/App.jsx:45 | "12.345" is rejected |
| AmountInput.RejectsMissingWholePart | frontend/stripe-frontend/src/App.jsx:45 | ".5" is rejected |
| AmountInput.RejectsSecondPoint | frontend/stripe-frontend/src/App.jsx:45 | "1.2.3" is rejected |
| Selection.IsSelected | frontend/stripe-frontend/src/components/ProductList.jsx:36 | `some(item => item.id === product.id)`; `Selection.CountIdPositiveIffSelected` ties it to the number of rows with the id, and `Selection.Toggle` flips it |
| Selection.CountId | frontend/stripe-frontend/src/components/ProductList.jsx:36 | the number of rows with an id is at most the number of rows |
| Selection.CountIdPositiveIffSelected | frontend/stripe-frontend/src/components/ProductList.jsx:36 | some row carries the id exactly when the number of rows with the id is positive |
| Selection.Without | frontend/stripe-frontend/src/components/ProductList.jsx:40 | the filter shortens the list by exactly the number of rows carrying the id |
| Selection.WithoutMembers | frontend/stripe-frontend/src/components/ProductList.jsx:40 | the filter keeps exactly the rows with another id |
| Selection.WithoutIsSubsequence | frontend/stripe-frontend/src/components/ProductList.jsx:40 | the filter keeps the surviving rows in their original order |
| Selection.WithoutAbsent | frontend/stripe-frontend/src/components/ProductList.jsx:40 | filtering out an id that is not selected changes nothing |
| Selection.WithoutAppend | frontend/stripe-frontend/src/components/ProductList.jsx:40 | the filter works row by row: filtering a concatenation concatenates the filtered parts |
| Selection.Toggle | frontend/stripe-frontend/src/components/ProductList.jsx:33-46 | after a click the product is selected exactly when it was not before; an unselected product is appended with quantity 1 after the unchanged earlier rows |
| Selection.ToggleRemoves | frontend/stripe-frontend/src/components/ProductList.jsx:36-40 | deselecting removes every row with the id, keeps every other row, and keeps the survivors in order |
| Selection.SubsequenceKeepsUnique | frontend/stripe-frontend/src/components/ProductList.jsx:40 | deleting rows from a list with unique ids keeps the ids unique |
| Selection.SubsequenceMembers | frontend/stripe-frontend/src/components/ProductList.jsx:40 | every row kept by a deletion was a row of the original list |
| Selection.ToggleKeepsUnique | frontend/stripe-frontend/src/components/ProductList.jsx:33-46 | toggling never creates two rows for one product |
| Selection.ToggleTwiceRestores | frontend/stripe-frontend/src/components/ProductList.jsx:33-46 | selecting an unselected product and then deselecting it gives back the original list |
| Selection.Quantity | frontend/stripe-frontend/src/components/ProductList.jsx:51 | `parseInt(q) \|\| 1`: a non-zero parse is kept, negatives included; NaN and 0 become 1; the result is never 0 |
| Selection.QuantityOfTypedNumber | frontend/stripe-frontend/src/components/ProductList.jsx:51 | a typed decimal number `n` or `-n` becomes that number, except that 0 becomes 1 |
| Selection.QuantityExamples | frontend/stripe-frontend/src/components/ProductList.jsx:51 | "" and "0" give 1; "-2" gives -2, so it is not clamped |
| Selection.QuantityTruncates | frontend/stripe-frontend/src/components/ProductList.jsx:51 | "2.5" gives 2 |
| Selection.SetQuantity | frontend/stripe-frontend/src/components/ProductList.jsx:48-53 | same length and products in the same order; rows with another id are unchanged; rows with the id get the parsed quantity |
| Selection.SetQuantityKeepsSelection | frontend/stripe-frontend/src/components/ProductList.jsx:48-53 | editing a quantity changes neither which products are selected nor whether ids are unique |
| Selection.SetQuantityIdempotent | frontend/stripe-frontend/src/components/ProductList.jsx:48-53 | entering the same text twice has the effect of entering it once |
| Selection.SetQuantityOutsideRow | frontend/stripe-frontend/src/components/ProductList.jsx:48-53 | with unique ids, the rows before and after the edited row are unchanged |
| Selection.Total | frontend/stripe-frontend/src/components/ProductList.jsx:56-59 | the `reduce` of price times quantity over the rows, in minor units; `Selection.TotalAppend` and `Selection.TotalFromFront` make it the sum of the line subtotals (0 for no rows), and the select, deselect and edit lemmas say exactly how each update moves it |
| Selection.TotalAppend | frontend/stripe-frontend/src/components/ProductList.jsx:56-59 | the total of a concatenation is the sum of the totals, so it is the sum of the line subtotals, 0 for no rows |
| Selection.TotalFromFront | frontend/stripe-frontend/src/components/ProductList.jsx:56-59 | the left-to-right `reduce` and summing from the front agree: the first subtotal plus the total of the rest |
| Selection.TotalNonNegative | frontend/stripe-frontend/src/components/ProductList.jsx:56-59 | with non-negative prices and positive quantities the total is not negative |
| Selection.TotalAround | frontend/stripe-frontend/src/components/ProductList.jsx:56-59 | the total splits around any row |
| Selection.OnlyRowWithId | frontend/stripe-frontend/src/components/ProductList.jsx:36 | with unique ids, no other row carries the id of a given row |
| Selection.WithoutSingleRow | frontend/stripe-frontend/src/components/ProductList.jsx:40 | dropping the only row with an id leaves the rows before and after it |
| Selection.WithoutUniqueRow | frontend/stripe-frontend/src/components/ProductList.jsx:40 | with unique ids, deselecting row k leaves exactly the rows before and after it |
| Selection.TotalAfterSelect | frontend/stripe-frontend/src/components/ProductList.jsx:42-43 | selecting a product adds its price (quantity 1) to the total |
| Selection.TotalAfterDeselect | frontend/stripe-frontend/src/components/ProductList.jsx:38-40 | with unique ids, deselecting row k subtracts exactly that row's subtotal |
| Selection.TotalReplaceRow | frontend/stripe-frontend/src/components/ProductList.jsx:56-59 | replacing one row changes the total by the difference of the two subtotals |
| Selection.TotalAfterSetQuantity | frontend/stripe-frontend/src/components/ProductList.jsx:48-59 | with unique ids, editing row k's quantity replaces its subtotal in the total and changes nothing else |
| Selection.CheckoutRequest | frontend/stripe-frontend/src/components/ProductList.jsx:121-124 | checkout is offered exactly for a non-empty selection and hands over the selection unchanged |
| Payment.ApiStatusMessage | frontend/stripe-frontend/src/stripe.js:27 | the message thrown for a non-ok status; `Payment.ApiStatusMessageNamesStatus` shows it starts "API Error (" and gives back the status, and `Payment.ApiStatusMessageInjective` that different statuses give different messages |
| Payment.FailureMessage | frontend/stripe-frontend/src/stripe.js:64 | the `error.message` that `makePayment` alerts; `Payment.MakePayment` ensures that when the loop throws, the single alert is this message of the last attempt's failure |
| Payment.AttemptResult | frontend/stripe-frontend/src/stripe.js:22-30 | an attempt succeeds exactly on an ok status with a JSON body, and yields that JSON; a non-ok status fails with that status; a rejected `fetch` fails with its reason as a transport error; an ok status whose body is not JSON fails with the parser's reason |
| Payment.ApiStatusMessageNamesStatus | frontend/stripe-frontend/src/stripe.js:27 | the message of a non-ok response starts "API Error (", and `parseInt` of the rest gives back the status |
| Payment.ApiStatusMessageInjective | frontend/stripe-frontend/src/stripe.js:27 | different statuses give different messages |
| Payment.OfflineFlags | frontend/stripe-frontend/src/stripe.js:32 | one offline flag per failed attempt |
| Payment.OnlineFailures | frontend/stripe-frontend/src/stripe.js:39-41 | the delay has been doubled at most once per failure |
| Payment.Pauses | frontend/stripe-frontend/src/stripe.js:32-41 | one pause per failure that the loop does not rethrow |
| Payment.PausesSnoc | frontend/stripe-frontend/src/stripe.js:32-41 | one more failure adds one pause: 3000 ms if offline, otherwise the current delay, which only an online failure bumps |
| Payment.BackoffIsPow2 | frontend/stripe-frontend/src/stripe.js:41 | after k doublings the delay is `delay * 2^k` |
| Payment.ScheduleStep | frontend/stripe-frontend/src/stripe.js:32-41 | a failed attempt pauses 3000 ms when offline and keeps the delay; online it pauses for the delay and doubles it |
| Payment.Retry | frontend/stripe-frontend/src/stripe.js:19-43 | the loop as a function of the attempt, the delay and the pauses so far; `Payment.RetryMeaning` states what a run from attempt 1 does, and `Payment.FetchWithRetry` is proved to compute it |
| Payment.RetryEndsFrom | frontend/stripe-frontend/src/stripe.js:19-43 | from any reachable point of the loop, the rest of the run ends as `RunEnds` says |
| Payment.RetryPausesFrom | frontend/stripe-frontend/src/stripe.js:32-41 | from any point where the pauses follow the schedule, the whole run's pauses do |
| Payment.RetryMeaning | frontend/stripe-frontend/src/stripe.js:18-43 | the loop calls `fetch` at most `retries` times; every attempt but the last failed; it returns the JSON of the first success; it rethrows the last attempt's error exactly when that attempt failed online; otherwise it uses up all `retries` attempts and returns `undefined`; its pauses are `Pauses` of the offline flags of the failures it did not rethrow |
| Payment.FetchWithRetry | frontend/stripe-frontend/src/stripe.js:18-44 | the loop, with its mutable attempt and delay, `continue` and early return/throw, computes exactly `Retry` from attempt 1 with the initial delay and no pauses |
| Payment.PauseAt | frontend/stripe-frontend/src/stripe.js:32-41 | the i-th pause is 3000 ms if that failure was offline, otherwise the initial delay doubled once per earlier online failure |
| Payment.OnlineFailuresAllOnline | frontend/stripe-frontend/src/stripe.js:39-41 | when every failure is online, every failure doubles the delay |
| Payment.OnlineBackoff | frontend/stripe-frontend/src/stripe.js:39-41 | when every failure is online the pauses are delay, 2·delay, 4·delay, … |
| Payment.OfflineKeepsDelay | frontend/stripe-frontend/src/stripe.js:32-35 | an offline failure leaves the next online pause where it was |
| Payment.MakePayment | frontend/stripe-frontend/src/stripe.js:6-66 | offline at call: no request and the single alert "No internet connection…"; otherwise 1 to 3 requests, each with the selection as its items; the session id and only the id goes to `redirectToCheckout`, exactly when the final attempt returned JSON with an id; a redirect error is alerted with its message or the default; a missing id or a loop that ran off its end alerts "No session ID received"; a rethrown error alerts its message; at most one alert, none exactly when the redirect went through |
| Payment.DefaultBackoff | frontend/stripe-frontend/src/stripe.js:18 | with the default delay, two online failures pause 1000 and then 2000 ms |
| Payment.TwoTransientFailures | frontend/stripe-frontend/src/stripe.js:18-43 | two failed attempts and then a success, all online: three calls, the session returned, pauses of 1000 and 2000 ms |
| AppPage.QueryGet | frontend/stripe-frontend/src/App.jsx:29-35 | `get(name)` is absent exactly when no pair has the name, and otherwise gives the value of the first such pair |
| AppPage.FirstPairTruthy | frontend/stripe-frontend/src/App.jsx:31 | `get(name)` is truthy exactly when the first pair with the name has a non-empty value |
| AppPage.QueryMessage | frontend/stripe-frontend/src/App.jsx:31-39 | the message set on return from the hosted checkout, the later `canceled` test winning over `success`; `AppPage.QueryMessageCases` states which query strings give which text |
| AppPage.QueryMessageCases | frontend/stripe-frontend/src/App.jsx:27-40 | a message is shown exactly when `success` or `canceled` has a non-empty value in its first pair; it is one of the two texts; a truthy `canceled` gives the cancel text whatever `success` holds; a truthy `success` without a truthy `canceled` gives the success text |
| AppPage.CheckoutBlocked | frontend/stripe-frontend/src/App.jsx:51 | the guard `!amount \|\| parseFloat(amount) <= 0`, also the button's `disabled` at line 150; `AppPage.CheckoutBlockedIffZeros` proves it holds exactly for an empty field or one whose digits are all '0', and that otherwise the amount is at least one penny |
| AppPage.CheckoutBlockedIffZeros | frontend/stripe-frontend/src/App.jsx:51 | the guard (and the disabled state of the button at line 150) holds exactly when the field is empty or all its digits are '0'; otherwise the amount is at least 1 penny |
| AppPage.ReadSession | frontend/stripe-frontend/src/App.jsx:84-92 | a 401 gives the API-key message whatever the body; success exactly on an ok status with a JSON body, yielding it; a network error gives its own message; another non-ok status with a JSON body gives its `error` field, or "Something went wrong with the checkout process" when that is empty; a body that is not JSON gives the parser's message whatever the status (401 aside); an error message is empty only when the underlying reason is |
| AppPage.ReadSessionAgreesWithAttempt | frontend/stripe-frontend/src/App.jsx:84-92 | the page and the shared client accept exactly the same responses, with the same JSON |
| AppPage.Dispatch | frontend/stripe-frontend/src/App.jsx:96-107 | a `url` wins; without one, an `id` goes to the redirect; with neither, the "Failed to get valid session ID" error |
| AppPage.DispatchPrefersUrl | frontend/stripe-frontend/src/App.jsx:96-100 | an instance of `AppPage.Dispatch`'s contract, kept as an illustration: a session with both a url and an id navigates to the url, and the same session without the url goes to the redirect with the id |
| AppPage.App.constructor | frontend/stripe-frontend/src/App.jsx:21-40 | the page starts with an empty amount, not loading, and the message of its query string |
| AppPage.App.HandleAmountChange | frontend/stripe-frontend/src/App.jsx:42-48 | the amount becomes the new text when it is empty or matches the pattern, and stays otherwise; the field always holds an empty or accepted text; nothing else changes |
| AppPage.App.HandleCheckout | frontend/stripe-frontend/src/App.jsx:50-123 | when blocked: the invalid-amount alert only, with no request and no loading change. Otherwise one request for the amount in pence, at least 1. Loading goes true then false. A read error is alerted; a url is navigated to with no alert; with no url, an id goes to the redirect and its error is alerted with its message or the default; with neither, the missing-id error is alerted. Amount and message are unchanged |

## Left out

- Each async handler is modelled as running to completion. In the source, `handleCheckout` and `makePayment` suspend at every `await`. The Pay button (`App.jsx:150`) is not disabled by `isLoading`, so a second click can start a second request while the first is in flight, and the first request's `finally` (`App.jsx:121`) then clears `isLoading` during the second. That interleaving is not modelled.
- Floating point: `Math.round(parseFloat(amount) * 100)` (`App.jsx:61`) is modelled as the exact value in pence of the accepted text. For very large amounts a double loses precision, and the model does not capture that.
- The `/ 100` and `toFixed(2)` formatting in the picker are left out. Only the integer total in minor units is modelled.
- Selection.Total is computed with unbounded integers. JavaScript numbers are doubles, so totals beyond 2^53 would be rounded; the model does not capture that.
- JsNumbers.ParseInt reads an unbounded integer. JavaScript's `parseInt` rounds digit runs beyond 2^53 to a double.
- `loadStripe` is assumed to resolve. A rejection of the publishable-key load is not modelled, in either file.
- A rejection of `redirectToCheckout` itself is not modelled. Only a returned `error` is.
- `response.text()` in the non-ok branch of `fetchWithRetry` (`stripe.js:25`) is assumed to resolve. It only feeds a console message.
- `console.*` output is left out.
- Real timers: each `setTimeout` pause is recorded as its duration, and no time passes.
- The request itself is left out: URL, headers and `JSON.stringify` of the body. The model records the items sent, or the pence sent.
- JSON fields that hold non-string values (numbers, objects, `true`) are not modelled. Each field the client reads is a string, and `""` stands for every falsy value.
- `URLSearchParams` decoding of the raw query string is left out. The page receives the decoded name/value pairs.
- The product-catalog fetch effect (`ProductList.jsx:10-31`) is left out, as network plumbing with no logic beyond setting an error text.
- The rendered markup is left out: the `Message` component, `ProductCard`, and the success and cancel pages.
- The backend (`backend/server.py`) is not part of this model.
