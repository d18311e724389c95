# Stripe subscription demo: verified model of the server routes and the log viewer

This project models the decision logic of a small Next.js application that sells
subscriptions through Stripe. It proves properties of that model in Dafny.

- **Webhook receiver** (`POST /api/stripe-webhook`, module `StripeWebhook`). It
  verifies the signature, makes sure the logs directory exists, and appends one line
  `<timestamp> - Event: <type> - ID: <id> - Customer ID: <cid>`. It then runs at most
  one of six handlers, chosen by the event type, and acknowledges. The
  checkout-completed handler grants access under a few conditions.
  - The pure function `PostEffects` states everything one request does.
  - The class `WebhookReceiver` holds the directory flag and, as ghost state, the
    appended lines, the handlers run and the grants made. Its `Post` method is proved
    to do exactly what `PostEffects` states.
- **Log viewer** (`Logs.tsx`, module `LogsView`). It splits the log text on newlines,
  drops empty lines, orders the entries newest first by the text before the first
  `" - "`, and shows numbered rows of four fields.
  - Together with the receiver this is a writer/reader pair, for a transport that
    hands the viewer the file text as `data.logs`. The proofs show that a log
    written line by line reads back as exactly those lines, and that a receiver
    line reads back as its four fields. When the fetch or the JSON decoding throws,
    the viewer keeps its empty list and shows "No logs available".
  - `Text` models `split` and `join` with a non-empty separator. It proves that
    joining the pieces of a split gives the text back, and the condition under
    which splitting a joined string gives the parts back.
- **Customer listing** (`GET /api/customers/list`, module `CustomersList`). The
  `getAllStripeCustomers` loop asks for pages of 100 customers, each page after the
  last id received, until the provider has no more, a page is empty, or
  `maxCustomers` is reached.
- **Subscription creation** (`POST /api/create-subscription`, module
  `CreateSubscription`). The handler validates the input and resolves the coupon.
  `createSubscription` builds the parameters from defaults and optional fields.
- **Get-or-create customer** (`POST /api/customers/create`, module
  `CustomersCreate`). A stored customer id is reused. Otherwise a customer is created
  from the user's fields and its id is recorded on the user.
- **Checkout session** (`POST /api/create-checkout-session`, module
  `CheckoutSession`). The handler validates the input, then reuses or creates the
  customer and updates the store. It then requests a subscription-mode session with
  one line item and two return URLs.

Every call into the Stripe SDK except the signature check is a function parameter
returning `Call<T> = Returned(value) | Threw(message)`. These are
`subscriptions.retrieve` and `subscriptions.create`, `customers.retrieve`,
`customers.create` and `customers.list`, `coupons.retrieve`, and
`checkout.sessions.create`. The
outcome of `webhooks.constructEvent` is the receiver's input
`Inbound = Unreadable | Rejected(message) | Verified(event)`; `Unreadable` also covers a
request whose body or signature header cannot be read. The clock reading is an input string. The `DOMAIN` environment variable is
an `Option<string>`. Whether `mkdirSync` and `appendFileSync` succeed are boolean
inputs. The routes ship placeholder user stores; `UserDb.UserStore` stands for them
as a map from user id to user, updated in place.

The code is followed where it differs from what its documentation suggests:

- A failing `mkdirSync` in the webhook is outside the inner `try`. It escapes to the
  outer `catch`, so the answer is 500 and nothing is logged or run. Only a failing
  append is swallowed.
- The pagination loop does not cut the result to `maxCustomers`. The last page is
  kept whole, so up to `maxCustomers + 99` customers are returned.
- An unset `DOMAIN` is not detected. The URLs then begin with the text `undefined`.
- In `customers/create` and `create-checkout-session`, `req.json()` runs before the
  `try`. A body that is not JSON therefore escapes the handler, and the framework
  answers 500. In `create-subscription` the parse is inside the `try`, so that route
  answers its own 500.

## Model

| member | source | states |
|---|---|---|
| StripeWebhook.Classify | src/app/api/stripe-webhook/route.ts:56-89 | a known event type selects the handler registered under it; no handler runs exactly when no handler has that type |
| StripeWebhook.ClassifyEventType | src/app/api/stripe-webhook/route.ts:56-89 | each handler is selected by its own event type and by no other |
| StripeWebhook.CustomerIdText | src/app/api/stripe-webhook/route.ts:43 | the customer-id column is the object's id when truthy and "N/A" otherwise, never empty |
| StripeWebhook.LogEntry | src/app/api/stripe-webhook/route.ts:44 | the appended text is the four-field line followed by one newline, with no other newline when the fields have none |
| StripeWebhook.CheckoutCompletedGrant | src/app/api/stripe-webhook/route.ts:110-158 | a grant happens iff the session has a subscription, its retrieval succeeds, metadata names a user, the status is active or trialing and there is a first item; the grant is that user with the first item's price |
| StripeWebhook.PostEffects | src/app/api/stripe-webhook/route.ts:16-100 | a rejected signature gives 400 with the error and does nothing; a verified event creates a missing directory, appends exactly its line (if the append succeeds), runs its handler and gives 200; a failed mkdir gives 500 with nothing done; 200 iff verified and the directory is usable |
| StripeWebhook.AppendOutcomeIsInvisible | src/app/api/stripe-webhook/route.ts:46-54 | whether the append succeeds changes neither the response, nor the handler run, nor the grant |
| StripeWebhook.UnknownTypeAcknowledged | src/app/api/stripe-webhook/route.ts:87-92 | an event of unknown type is logged, runs no handler and is acknowledged with 200 |
| StripeWebhook.WebhookReceiver.Dispatch | src/app/api/stripe-webhook/route.ts:56-89 | the handlers run grow by the classified handler only, and the grants only by the checkout handler's grant |
| StripeWebhook.WebhookReceiver.Post | src/app/api/stripe-webhook/route.ts:16-100 | the response, the directory flag, the log lines, the handlers run and the grants are exactly those of `PostEffects` |
| Text.FindFrom | src/app/components/Logs.tsx:12 | the index found is an occurrence of the pattern at or after the start |
| Text.FindFromFirst | src/app/components/Logs.tsx:12 | no occurrence lies between the start and the index found, nor anywhere from the start when nothing is found |
| Text.Split | src/app/components/Logs.tsx:12 | there is always at least one piece |
| Text.SplitPieces | src/app/components/Logs.tsx:12 | no piece contains the separator, and every piece but the last can stand before it |
| Text.JoinSplit | src/app/components/Logs.tsx:12 | joining the pieces of a split with the separator gives the text back |
| Text.SplitFirst | src/app/components/Logs.tsx:51 | a part that can stand before the separator comes off as the first piece of itself, the separator and any rest |
| Text.SplitJoin | src/app/components/Logs.tsx:51 | splitting the join of parts gives the parts back when no part but the last holds an occurrence of the separator that starts inside it, even one running into the separator after it (for `" - "`: no `" - "` inside and no trailing `" -"`), and the last part has no separator |
| Text.SplitAtSeparator | src/app/components/Logs.tsx:12 | splitting on one character distributes over an occurrence of that character |
| LogsView.NonEmpty | src/app/components/Logs.tsx:12 | `filter(Boolean)` keeps no empty string and keeps exactly the non-empty lines, with their multiplicities |
| LogsView.NonEmptyConcat | src/app/components/Logs.tsx:12 | filtering distributes over concatenation |
| LogsView.Entries | src/app/components/Logs.tsx:12 | the entries are non-empty and contain no newline |
| LogsView.AppendReadBack | src/app/components/Logs.tsx:12 | appending a non-empty line without newlines, and a newline, to a log that is empty or ends in a newline adds exactly that entry |
| LogsView.LogFileReadBack | src/app/components/Logs.tsx:12 | a log written as a sequence of complete lines reads back as exactly those lines, in order |
| LogsView.LexLeqTotal | src/app/components/Logs.tsx:13-17 | any two timestamps are comparable |
| LogsView.LexLeqTransitive | src/app/components/Logs.tsx:13-17 | the timestamp order is transitive |
| LogsView.Insert | src/app/components/Logs.tsx:13-17 | inserting into a newest-first sequence keeps it newest first and adds exactly the new entry |
| LogsView.SortDescending | src/app/components/Logs.tsx:13-17 | the result is ordered by non-increasing key and is a permutation of the input |
| LogsView.SortNewestFirst | src/app/components/Logs.tsx:13-17 | the sorted entries are a permutation, newest timestamp first |
| LogsView.FetchLogs | src/app/components/Logs.tsx:9-19 | the logs held are newest first, non-empty, newline-free, and are exactly the non-empty lines of the text |
| LogsView.LoadedLogs | src/app/components/Logs.tsx:9-19 | a fetch or JSON decoding that throws leaves the list empty, so the view shows 0 entries and "No logs available"; a body that arrives gives the non-empty lines of `data.logs`, newest first |
| LogsView.TimestampOf | src/app/components/Logs.tsx:14-15 | the sort key is the prefix of the line that ends at its first `" - "` (no occurrence starts inside the key), or the whole line when there is none; it holds no separator |
| LogsView.RowOf | src/app/components/Logs.tsx:51-55 | a row is numbered index + 1 and shows the text before the first separator as its timestamp; later fields hold no separator and exist only in order; a line without separator gives a row with only a timestamp |
| LogsView.Nth | src/app/components/Logs.tsx:51 | destructuring gives the k-th field when it exists and undefined otherwise |
| LogsView.Render | src/app/components/Logs.tsx:24-76 | the header counts the entries; "No logs available" iff there are none; rows are numbered 1..n in order, show their own timestamps, and row i holds the five cells `RowOf` gives line i |
| LogsView.RenderedWebhookRow | src/app/components/Logs.tsx:50-69 | for an entry the receiver wrote with a space-free timestamp and a type, id and customer id without '-', the rendered row shows number i + 1, the timestamp, "Event: <type>", "ID: <id>" and "Customer ID: <cid>" |
| LogsView.LogLineFields | src/app/components/Logs.tsx:51 | a receiver line splits into the timestamp, "Event: <type>", "ID: <id>", "Customer ID: <cid>" when the first three of these fields have no `" - "` inside and no trailing `" -"`, and the customer-id field has no `" - "` |
| LogsView.PlainFieldsDelimit | src/app/components/Logs.tsx:51 | a space-free timestamp and dash-free type, id and customer id are separator-free |
| LogsView.WebhookEntryReadBack | src/app/api/stripe-webhook/route.ts:42-47 | for a timestamp without spaces and a type, id and customer id without '-', and none of them holding a newline, appending the receiver's entry to a log that is empty or ends in a newline adds exactly one entry, whose row shows the four fields written |
| CustomersList.CursorAfter | src/app/api/customers/list/route.ts:21-24 | `starting_after` is present iff the last id is truthy, and is that id |
| CustomersList.Request | src/app/api/customers/list/route.ts:20-24 | issuing the next request with limit 100 and the last id as cursor, below the maximum, keeps the request/page relation |
| CustomersList.Receive | src/app/api/customers/list/route.ts:26-27 | recording the page returned keeps the relation and appends the page's customers whole |
| CustomersList.GetAllStripeCustomers | src/app/api/customers/list/route.ts:13-45 | requests and pages satisfy `Requested` (limit 100, cursor rule, requests only below the maximum); the result is the pages in order; the loop stopped on no more, an empty page or the maximum; a thrown request gives the wrapped error |
| CustomersList.NoRoomNoRequest | src/app/api/customers/list/route.ts:20 | with `maxCustomers <= 0` or NaN no request is made and the result is empty |
| CustomersList.Overshoot | src/app/api/customers/list/route.ts:18-27 | for `maxCustomers > 0` and pages of at most 100, fewer than `maxCustomers + 100` customers are returned |
| CustomersList.RequestCount | src/app/api/customers/list/route.ts:18-34 | for `maxCustomers > 0`, when every page is full and the customers fetched reach `maxCustomers` (the provider does not run out first), exactly ceil(maxCustomers / 100) requests are made |
| CustomersList.ParseInt | src/app/api/customers/list/route.ts:49 | `parseInt(…, 10)` gives NaN exactly when no digit follows the skipped white space and an optional sign; its value otherwise is stated by `ParseIntValue` |
| CustomersList.ParseDecimal | src/app/api/customers/list/route.ts:49 | `parseInt` reads back the decimal text of every natural number |
| CustomersList.ParseIntNaN | src/app/api/customers/list/route.ts:49 | `parseInt` gives NaN exactly when, after leading white space, no digit follows an optional sign |
| CustomersList.ParseIntValue | src/app/api/customers/list/route.ts:49 | after leading white space and an optional sign, `parseInt` gives the sign times the value of the leading digit run |
| CustomersList.AfterSpace | src/app/api/customers/list/route.ts:49 | leading white space does not change the result of `parseInt` |
| CustomersList.RunValue | src/app/api/customers/list/route.ts:49 | a digit run followed by text that does not start with a digit reads as the value of the digits; the rest is ignored |
| CustomersList.MaxCustomersOf | src/app/api/customers/list/route.ts:49 | a missing or empty query gives 1000; a decimal numeral gives its value |
| CustomersList.Get | src/app/api/customers/list/route.ts:47-60 | 200 with the customers fetched and `totalCount` equal to their number, only once the loop's stop rule held (last page without more, an empty page, or the count reaching the maximum; no page only when the maximum leaves no room); or 500 "Failed to fetch all customers" exactly when the last request issued threw |
| CreateSubscription.ParamsFor | src/app/api/create-subscription/route.ts:27-48 | one item with the price, the fixed expand list, payment behaviour defaulting to default_incomplete, metadata defaulting to {}; trial iff non-zero; proration iff anchor, defaulting to create_prorations; tax rates iff given |
| CreateSubscription.CouponIgnored | src/app/api/create-subscription/route.ts:21-48 | the coupon and promotion code options do not reach the parameters |
| CreateSubscription.Create | src/app/api/create-subscription/route.ts:15-59 | the parameters submitted are `ParamsFor` the inputs; the result is the subscription or the error wrapped "Could not create subscription: " |
| CreateSubscription.PostOptions | src/app/api/create-subscription/route.ts:99-104 | POST passes default_incomplete, the body's trial and metadata, and the resolved coupon's id |
| CreateSubscription.PostParamsShape | src/app/api/create-subscription/route.ts:99-104 | the parameters POST submits use default_incomplete and set no anchor, proration or tax rates |
| CreateSubscription.Post | src/app/api/create-subscription/route.ts:62-120 | missing ids give 400 before any call; a coupon that fails to resolve gives 400 and nothing is created; otherwise `ParamsFor` is submitted and the id, status, client secret and invoice URL are answered; creation failure or no latest invoice gives 500 |
| UserDb.WithCustomerId | src/app/api/customers/create/route.ts:78 | the user gets the customer id and keeps every other field; other users and the set of ids are unchanged |
| UserDb.UserStore.FindById | src/app/api/customers/create/route.ts:25-37 | a user is found iff filed under the id, and carries that id |
| UserDb.UserStore.SetCustomerId | src/app/api/customers/create/route.ts:38-40 | the store becomes `WithCustomerId` of the old store and stays well formed |
| CustomersCreate.AddressParams | src/app/api/customers/create/route.ts:62-69 | an address is sent iff the user has one, and maps back to it field by field |
| CustomersCreate.CustomerParamsFor | src/app/api/customers/create/route.ts:58-76 | email, name, phone and address of the user; metadata is exactly userId, createdAt and the application's source; description "User <id> - <email>" |
| CustomersCreate.Reusable | src/app/api/customers/create/route.ts:46-56 | a customer is reused iff the stored id is truthy and retrieves a customer that is not deleted |
| CustomersCreate.GetOrCreate | src/app/api/customers/create/route.ts:44-85 | a reusable id is returned with no creation and no store change; otherwise `CustomerParamsFor` is created, and its id is recorded and returned, or the wrapped error is returned with the store unchanged |
| CustomersCreate.Post | src/app/api/customers/create/route.ts:87-108 | missing userId gives 400 and unknown user 404, both with the store unchanged; otherwise the reused or created id is answered, or 500 |
| CheckoutSession.CustomerParamsFor | src/app/api/create-checkout-session/route.ts:43-49 | the customer is created with the user's email and name and metadata exactly naming the user |
| CheckoutSession.SuccessUrlQuery | src/app/api/create-checkout-session/route.ts:68 | for a domain without '?', the success URL splits on '?' into the domain and success page, then exactly the session-id placeholder |
| CheckoutSession.SessionParamsFor | src/app/api/create-checkout-session/route.ts:58-73 | card payments, exactly one line item of quantity 1 with the price, subscription mode, the two return URLs and metadata exactly the userId |
| CheckoutSession.Post | src/app/api/create-checkout-session/route.ts:23-81 | missing ids give 400 and unknown user 404, both before any call; a stored id is reused with no creation; otherwise the customer is created and recorded before the session; the session's URL is answered, or 500 |

## Left out

- The Stripe SDK itself (signature checking, retrieving, creating, listing): each call is an oracle parameter.
- File-system I/O, the path of the log file, and the separate route that reads the file: the log is a ghost sequence of appended texts, and the reader takes the text as input.
- The clock: timestamps are inputs. Their text order stands for time order, as it does for the fixed-width `toISOString` form. A line whose leading field is not a valid date makes the browser comparator NaN; that case is not modelled.
- FetchLogs: the model starts from the text of `data.logs`. The `fetch("/api/logs")` and `response.json()` calls of src/app/components/Logs.tsx:10-11 are an input to `LoadedLogs`; when either throws, the list stays empty. The shipped route src/app/api/logs/route.ts:7-8 answers the file as plain text (and "Error loading logs" with status 500 at :11), which `response.json()` cannot parse, so with that route the viewer always takes the failure path.
- An event without `data.object`: the receiver always has an event object. The `?.` at src/app/api/stripe-webhook/route.ts:43 lets a missing one through as "N/A", but the handlers at :111, :209, :214, :219 and :224 would then throw outside any `try` after the log line is written, giving 500; the provider always sends an object.
- SortNewestFirst: the order among entries with equal timestamps is not stated.
- The 100 ms pause between page requests, and concurrent webhook deliveries writing the same file.
- Console logging everywhere, and the handlers other than checkout-completed, whose bodies only log.
- The pages and UI components other than the log table, `src/app/api/customers/route.ts`, `src/app/api/prices/route.ts` and `src/lib/stripe-client.js`: SDK wrappers or markup.
- `parseInt` on numerals beyond double precision is not modelled.
- The placeholder stores' fixed return values: the store is an arbitrary map, and a failing store update is not modelled.
- Fields of the SDK objects that the routes pass through without reading.
