# Contact pipeline of the Senevon portfolio site, modelled in Dafny

The site is a single-page frontend with a small Express API. Its logic has two paths.

- **Contact request.** The browser form checks and trims its inputs. It posts them through an
  axios client. The `POST /api/contact` route rejects a blank name or e-mail and stores the
  trimmed fields through a mongoose schema, which trims again, lower-cases the e-mail and checks
  lengths. The route then starts a confirmation mail, and an admin notification when an admin
  recipient is configured, and answers 201, 400 or 500.
- **Admin listing.** `GET /api/admin/requests` is guarded by a shared secret. It lists the stored
  requests newest first, one clamped page at a time.

The project models these files:

| file | module | what it holds |
|---|---|---|
| `wrappers.dfy` | `Wrappers` | `Option` and `Result` |
| `js_semantics.dfy` | `JsSemantics` | JavaScript values, truthiness, `\|\|`, `?.`, destructuring defaults, `trim`, `toLowerCase`, `Number`, `String`, `split`, `join` |
| `contact_request.dfy` | `ContactRequestModel` | the mongoose schema; the collection as a class whose `records` sequence `Create` appends to |
| `validate.dfy` | `Validation` | the zod `contactSchema`; the `validateBody` middleware over a request/response object |
| `send_mail.dfy` | `SendMail` | transporter settings, message building, one send over a transport that logs its attempts |
| `contact_routes.dfy` | `ContactRoutes` | the contact route: a pure `Submit` relation, and `PostContact`, which drives the store and the transport |
| `admin_routes.dfy` | `AdminRoutes` | the token gate, the query clamps and the newest-first page |
| `server.dfy` | `Server` | the CORS origin list and the `PORT` default |
| `api_client.dfy` | `ApiClient` | `API_ROOT`, the error normaliser, the token helpers and the two calls, as a `Client` class over `localStorage` and the default headers |
| `contact_form.dfy` | `ContactForm` | `validate`, `trimPayload`, toast selection, and the component state as a `Form` class |

The model abstracts the environment as follows:

- **Environment variables** are parameters of type `Option<string>`.
- **The database** is a `ContactCollection`. Whether it accepts a write is the parameter `reachable`, and the clock is the parameter `now`.
- **The mail transport** is a `Transport` whose `attempts` log records every message handed to it. What the transport does with each message is a `Delivery` parameter.
- **The network in the browser** is a function `net` from the request sent to its outcome.
- **zod's e-mail grammar** is a predicate parameter `isEmail`.

Four behaviours of the code are easy to miss:

- **Validation.** The submission route does not validate against the zod schema. It never imports `contactSchema`, and `validateBody` is mounted nowhere.
  - The route's only check is that `name` and `email` are not blank.
  - Any non-blank e-mail text is accepted (`AnyNonBlankEmailIsStored`).
  - A field over the schema's length bound fails inside `create`, so the answer is 500, not 400 (`OverlongNameIsServerError`).
- **Stored e-mail.** The stored fields are the trimmed input, except that the schema also lower-cases the e-mail (`StoredRecordIsTrimmedInput`).
- **Honeypot.** The honeypot `extra` exists only in the browser. The server ignores every key other than the four fields (`OtherKeysIgnored`).
- **E-mail check in the form.** The browser tests the e-mail as typed, before trimming. A leading space therefore fails the form's check, although the server would accept the address (`LeadingSpaceFailsEmailCheck`).

## Model

| member | source | states |
|---|---|---|
| JsSemantics.Trim | backend/routes/contactRoutes.js:16-19 | the result starts and ends with no white space and is no longer than the input |
| JsSemantics.TrimRemovesOuterSpace | backend/routes/contactRoutes.js:16-19 | the result is the slice of the input between a leading and a trailing run of white space, and those runs are all that is removed |
| JsSemantics.TrimBlankIff | backend/routes/contactRoutes.js:10 | a string trims to "" exactly when every character is JavaScript white space |
| JsSemantics.TrimIdempotent | backend/models/ContactRequest.js:5-8 | trimming a trimmed value changes nothing |
| JsSemantics.ToLower | backend/models/ContactRequest.js:6 | lower-casing keeps the length and maps each character to its lower-case form, leaving no upper-case ASCII letter |
| JsSemantics.TrimToLowerCommute | backend/models/ContactRequest.js:6 | trimming and lower-casing commute, so the order of the two setters is irrelevant |
| JsSemantics.ToNumber | backend/routes/adminRoutes.js:16-17 | blank text reads as 0; every number read is an integer of magnitude at most 2^53, which a double holds exactly |
| JsSemantics.ToNumberTrims | backend/routes/adminRoutes.js:16-17 | white space around the text does not change the number read |
| JsSemantics.ToNumberIntToString | backend/routes/adminRoutes.js:16-17 | `Number(String(n))` is `n` for every integer of magnitude at most 2^53 |
| JsSemantics.ToJsString | frontend/src/api/axios.js:27 | a string is its own text; the text of an integer of magnitude at most 2^53 reads back as it; a boolean gives "true" exactly when true; only "" and arrays give empty text |
| JsSemantics.Split | backend/server.js:32 | a split yields at least one part, no part holds the separator, and every character of a part comes from the input |
| JsSemantics.JoinSplit | backend/server.js:32 | joining the parts of a split with the separator gives back the string |
| JsSemantics.SplitJoin | backend/server.js:32 | splitting the join of separator-free parts gives back the parts |
| ContactRequestModel.Violations | backend/models/ContactRequest.js:5-8 | no validator fails exactly when the name is non-empty and at most 120, the e-mail is non-empty, the WhatsApp field is at most 32 and the message at most 2000 long |
| ContactRequestModel.Cast | backend/models/ContactRequest.js:4-10 | a document is accepted exactly when the trimmed fields meet the required and maxlength rules; an accepted document holds the trimmed fields, the e-mail also lower-cased, and satisfies the rules; a rejection lists at least one failed validator |
| ContactRequestModel.Normalize | backend/models/ContactRequest.js:5-8 | after the setters every field is trimmed, the e-mail has no upper-case letter, and no field is longer than before |
| ContactRequestModel.NormalizeIdempotent | backend/models/ContactRequest.js:5-8 | applying the setters twice is applying them once |
| ContactRequestModel.CastIdempotent | backend/models/ContactRequest.js:4-10 | a document the schema accepted is accepted again unchanged |
| ContactRequestModel.ContactCollection.Create | backend/models/ContactRequest.js:3-11 | a rejected document or an unreachable store leaves the collection unchanged; otherwise exactly one document is appended: the cast fields, the next id, and `createdAt` equal to `updatedAt` equal to `now`; every stored document satisfies the schema |
| Validation.ParseName | backend/utils/validate.js:4 | the name parses exactly when it is a string whose trim has 1..120 characters, and the value is the trim; a failure has an issue |
| Validation.ParseEmail | backend/utils/validate.js:5 | the e-mail parses exactly when it is a string whose trim is an address, and the value is the trim; a failure has an issue |
| Validation.ParseOptionalText | backend/utils/validate.js:6-7 | the field parses exactly when it is absent, "" or a string whose trim is within the bound; absent stays absent, and a present value is the trim; a failure has an issue |
| Validation.EveryFieldReported | backend/utils/validate.js:12 | in the joined issue list, each of the four keys has an issue exactly when its own parse failed |
| Validation.ParseContact | backend/utils/validate.js:3-8 | the parse succeeds exactly when the body is an object whose name trims to 1..120 characters, whose e-mail trims to an address, and whose optional fields are absent, "" or trim to within their bounds; the data holds the trimmed values, and absent optional fields stay absent; a failed parse of an object has an issue at a field exactly when that field's rule fails |
| Validation.ParseIgnoresOtherKeys | backend/utils/validate.js:3-8 | keys outside the schema never change the parse |
| Validation.ParseIsIdempotent | backend/utils/validate.js:4-7 | parsing the parsed data again yields the same data |
| Validation.DataAsJson | backend/utils/validate.js:20 | the parsed data as an object carries the same four values, absent where absent |
| Validation.ValidateBody | backend/utils/validate.js:10-23 | on a failed parse the middleware answers 400 with all issues and neither sets `req.validated` nor calls `next`; on success it sets `req.validated` to the data, calls `next` once and writes no answer |
| SendMail.Settings | backend/utils/SendMail.js:15-16 | the port is `Number(SMTP_PORT)`, or 465 when unset or empty; `secure` holds exactly when `SMTP_SECURE` is the text "true" |
| SendMail.Sender | backend/utils/SendMail.js:28 | the sender is `MAIL_FROM` when it is non-empty, otherwise `SMTP_USER` |
| SendMail.BuildMessage | backend/utils/SendMail.js:30-36 | `to`, `subject` and `html` pass through; a supplied text passes through; without text, an HTML body leaves text undefined and no HTML gives " " |
| SendMail.MessageHasBody | backend/utils/SendMail.js:34 | every built message has a text part or a non-empty HTML part |
| SendMail.Send | backend/utils/SendMail.js:27-43 | one message is handed to the transport; the transport's id is returned on delivery and its error is passed on when it refuses |
| ContactRoutes.ReadSubmission | backend/routes/contactRoutes.js:9-20 | the body gives "blank" exactly when the name is blank, or the name is a string and the e-mail is blank; it gives four fields exactly when name and e-mail are non-blank strings and the optional fields are absent or strings; the fields are the trimmed values, with "" for an absent field; every other input throws |
| ContactRoutes.AdminRecipient | backend/routes/contactRoutes.js:34-35 | the admin recipient is `ADMIN_EMAIL` when non-empty, else `SMTP_USER` when non-empty, else there is none |
| ContactRoutes.ConfirmationMail | backend/routes/contactRoutes.js:23-31 | the confirmation goes to the stored e-mail with its subject, has text and HTML, and its text greets the stored name |
| ContactRoutes.NotificationMail | backend/routes/contactRoutes.js:36-47 | the notification goes to the given recipient with its subject, has text and HTML, and its text starts with the stored name |
| ContactRoutes.MailsFor | backend/routes/contactRoutes.js:23-49 | a stored request gets the confirmation, then the notification exactly when there is an admin recipient |
| ContactRoutes.Submit | backend/routes/contactRoutes.js:7-57 | the answer is 201 exactly when a document is stored; that document is schema-valid, has the next id and the current time, and gets exactly `MailsFor`; otherwise nothing is mailed and the answer is the one `Write` gave |
| ContactRoutes.Write | backend/routes/contactRoutes.js:9-55 | a blank field gives 400 "Name and email required."; a TypeError gives 500; read fields are written exactly when the store is reachable and the schema accepts them, as the document the schema built, with the next id and the current time, and otherwise give 500 "Server error" |
| ContactRoutes.BlankIsRejectedWithoutEffects | backend/routes/contactRoutes.js:9-12 | a name that is absent, null or blank text, or a string name with an e-mail that is absent, null or blank text, gets 400 "Name and email required.", with no write and no mail |
| ContactRoutes.MailOnlyAfterWrite | backend/routes/contactRoutes.js:15-24 | mail is attempted exactly when a document was written; the answer is then 201 with the stored id, and the first mail is the confirmation to the stored e-mail |
| ContactRoutes.AdminMailGoesToRecipient | backend/routes/contactRoutes.js:34-38 | a second mail is attempted exactly when there is an admin recipient; it goes to that recipient with the notification subject; there are never more than two |
| ContactRoutes.StoredRecordIsTrimmedInput | backend/routes/contactRoutes.js:15-20 | a stored document holds the trimmed inputs, the e-mail lower-cased, absent optional fields as "", the next id and the current time |
| ContactRoutes.OtherKeysIgnored | backend/routes/contactRoutes.js:9 | adding any key other than the four fields to the body changes nothing |
| ContactRoutes.OverlongNameIsServerError | backend/routes/contactRoutes.js:15-20 | a string name over 120 characters after trimming, with a non-blank string e-mail and optional fields that are absent or strings, gets 500 and nothing is stored |
| ContactRoutes.AnyNonBlankEmailIsStored | backend/routes/contactRoutes.js:10-20 | with a string name that trims to 1..120 characters, optional fields that are absent or strings trimming within their bounds, and a reachable store, any non-blank e-mail text is stored, lower-cased, and answered 201 |
| ContactRoutes.BoundedFieldsCast | backend/routes/contactRoutes.js:15-20 | for such a body the fields read pass the schema, with the e-mail lower-cased |
| ContactRoutes.TrimmedFieldsCast | backend/models/ContactRequest.js:4-10 | trimmed fields within the bounds are accepted, and the cast is exactly those fields with the e-mail lower-cased |
| ContactRoutes.NonStringOptionalFieldIsServerError | backend/routes/contactRoutes.js:18-19 | with a non-blank string name and e-mail, an optional field that is neither absent nor a string gets 500, with no write and no mail |
| ContactRoutes.UnreachableStoreIsServerError | backend/routes/contactRoutes.js:52-55 | once the fields are read, a write the database refuses is answered 500 "Server error", with no document and no mail |
| ContactRoutes.ServerErrorHasNoEffects | backend/routes/contactRoutes.js:53-56 | every 500 is "Server error" with no write and no mail |
| ContactRoutes.Attempts | backend/utils/SendMail.js:30-36 | one attempt per mail, at most two, each carrying the built message of its mail; the first has the client's delivery and the second the admin's |
| ContactRoutes.AttemptsForContact | backend/routes/contactRoutes.js:23-49 | the attempts for a stored request are the confirmation, then the notification exactly when there is an admin recipient |
| ContactRoutes.NotifyContact | backend/routes/contactRoutes.js:22-49 | the transport log grows by exactly the attempts for the stored request, in order |
| ContactRoutes.WriteSubmission | backend/routes/contactRoutes.js:9-20 | the result is `Write` on the store as it was, and the store grows by the written document and by nothing else |
| ContactRoutes.PostContact | backend/routes/contactRoutes.js:7-57 | the answer, the new store and the new transport log are those of `Submit`; the answer does not depend on either mail's delivery |
| AdminRoutes.RequireAdmin | backend/routes/adminRoutes.js:6-12 | a request proceeds exactly when its token is present, non-empty and equal to a set `ADMIN_TOKEN` |
| AdminRoutes.MissingTokenIsDenied | backend/routes/adminRoutes.js:7-10 | a missing or empty token is refused, whatever the secret |
| AdminRoutes.UnsetSecretDeniesAll | backend/routes/adminRoutes.js:8 | with `ADMIN_TOKEN` unset every request is refused |
| AdminRoutes.QueryNumber | backend/routes/adminRoutes.js:16-17 | an absent or empty parameter gives the default; any other text is read by `Number` |
| AdminRoutes.ClampPage | backend/routes/adminRoutes.js:16 | the page is at least 1, equals the request from 1 up, and is 1 below that |
| AdminRoutes.ClampLimit | backend/routes/adminRoutes.js:17 | the limit lies in 1..100, equals the request inside that range, and is 1 below it and 100 above it |
| AdminRoutes.Skip | backend/routes/adminRoutes.js:18 | the skip is (page − 1) · limit and never negative |
| AdminRoutes.Insert | backend/routes/adminRoutes.js:22 | inserting into a newest-first sequence keeps it newest first and adds exactly the one record |
| AdminRoutes.SortNewestFirst | backend/routes/adminRoutes.js:22 | the order is newest first and a permutation of the store |
| AdminRoutes.Window | backend/routes/adminRoutes.js:22 | the window is the run from position `skip`, at most `limit` long, as long as possible, and empty past the end |
| AdminRoutes.ListRequests | backend/routes/adminRoutes.js:15-26 | a listing is given exactly when both query values read as numbers; the total counts every record; page and limit are the clamps of the numbers read; the items are the window of the newest-first order at (page − 1) · limit |
| AdminRoutes.GetRequests | backend/routes/adminRoutes.js:9-15 | the answer is 401 "UNAUTHORIZED" exactly when the gate refuses; otherwise it is the listing |
| AdminRoutes.DeniedRequestSeesNothing | backend/routes/adminRoutes.js:6-12 | a refused request gets 401, and the answer is the same whatever the store holds |
| AdminRoutes.DefaultQuery | backend/routes/adminRoutes.js:16-18 | without a query the answer is page 1 of 20 from the newest record |
| AdminRoutes.IntegerQuery | backend/routes/adminRoutes.js:16-18 | integer query values of magnitude at most 2^53 are read back and clamped |
| AdminRoutes.ListingIsAPageOfTheStore | backend/routes/adminRoutes.js:20-25 | for integer query values of magnitude at most 2^53, the answer echoes the clamped page and limit; its items are at most `limit`, newest first, and each a stored record |
| AdminRoutes.EveryRecordOnItsPage | backend/routes/adminRoutes.js:18-22 | in a store of at most 2^53 records, the i-th newest record is item i mod limit of page i div limit + 1 |
| Server.CleanOrigins | backend/server.js:32 | the cleaned origins are non-empty, trimmed and no more numerous than the parts |
| Server.CleanOriginsAppend | backend/server.js:32 | cleaning keeps the order of the parts |
| Server.CleanOriginsKeepsClean | backend/server.js:32 | parts that are already non-empty and trimmed are kept as they are |
| Server.CleanOriginsAvoid | backend/server.js:32 | a character that no part holds appears in no cleaned origin |
| Server.AllowedOrigins | backend/server.js:32 | an unset `CLIENT_ORIGIN` gives the default origin; a set one gives only non-empty, trimmed, comma-free origins |
| Server.OriginsRoundTrip | backend/server.js:32 | a comma-joined list of clean origins is read back exactly |
| Server.BlankValueAllowsNothing | backend/server.js:32 | a value made only of commas and white space gives the empty list, not the default |
| Server.Port | backend/server.js:55 | the port is the text of `PORT` when non-empty, otherwise 5000 |
| ApiClient.ApiRoot | frontend/src/api/axios.js:16 | the root is the variable or the default, with exactly one trailing slash removed when there is one |
| ApiClient.TrailingSlashRemovedOnce | frontend/src/api/axios.js:16 | a root with a trailing slash loses that slash and only that slash |
| ApiClient.RootKeptOrDefaulted | frontend/src/api/axios.js:16 | a root without a trailing slash is kept; an unset or empty one gives `http://localhost:5000` |
| ApiClient.NormalizeError | frontend/src/api/axios.js:39-49 | the status is the response's when truthy, otherwise 0; data, url and method are copied from the response and the request |
| ApiClient.NormalizedMessage | frontend/src/api/axios.js:41-45 | the message is the first truthy one of the server's `error`, the server's `message` and the error's own message, or "Request failed"; it is never falsy |
| ApiClient.NoResponseIsStatusZero | frontend/src/api/axios.js:40-46 | without a response the status is 0 and the data undefined |
| ApiClient.Settle | frontend/src/api/axios.js:36-52 | a response resolves with its body; every error becomes a rejection with the normalised error |
| ApiClient.ListingQuery | frontend/src/api/axios.js:59-60 | the query has exactly `page` and `limit`, defaulting to 1 and 20 when absent; a `null` argument cannot be destructured |
| ApiClient.Client.constructor | frontend/src/api/axios.js:18-34 | the base URL is the root plus "/api"; a stored non-empty token is installed as the common header `x-admin-token`, and otherwise the model holds no common header |
| ApiClient.Client.Headers | frontend/src/api/axios.js:18-22 | a request carries the instance's JSON headers and every common header; the instance's own headers win over common ones of the same name |
| ApiClient.Client.SetAdminToken | frontend/src/api/axios.js:25-30 | a falsy token changes nothing; a truthy one is stored as text and installed as the header |
| ApiClient.Client.SubmitContact | frontend/src/api/axios.js:54-57 | the call resolves with the response body or rejects with the normalised error |
| ApiClient.Client.FetchContactRequests | frontend/src/api/axios.js:59-62 | `null` throws before any request; otherwise the call resolves with the body of the GET for the defaulted query |
| ApiClient.DefaultListingQuery | frontend/src/api/axios.js:59 | without an argument the query is page 1, limit 20 |
| ApiClient.TokenReachesRequests | frontend/src/api/axios.js:25-34 | once installed, the token travels on later requests beside the JSON headers, whatever other common headers are set |
| ContactForm.EmailShape | frontend/src/components/Contacts.jsx:27 | an address passing `/^\S+@\S+\.\S+$/` has at least five characters, an `@` and a `.`, and is unchanged by trimming |
| ContactForm.Validate | frontend/src/components/Contacts.jsx:25-30 | the name message comes exactly for a blank name; the e-mail message comes exactly for a non-blank name and an e-mail failing the pattern; "" comes otherwise |
| ContactForm.LeadingSpaceFailsEmailCheck | frontend/src/components/Contacts.jsx:27 | an e-mail typed with a leading space fails the pattern |
| ContactForm.PlainAddressPasses | frontend/src/components/Contacts.jsx:27 | `user@host.tld` without white space passes the pattern |
| ContactForm.TrimPayload | frontend/src/components/Contacts.jsx:32-37 | the payload holds the four inputs trimmed |
| ContactForm.PayloadJson | frontend/src/components/Contacts.jsx:32-37 | the posted object has exactly the four keys with the payload's values |
| ContactForm.HoneypotNeverSent | frontend/src/components/Contacts.jsx:32-37 | the honeypot's value never reaches the payload |
| ContactForm.AcceptedFormPassesServerBlankCheck | frontend/src/components/Contacts.jsx:26-37 | a payload from a form that passes `validate` passes the server's blank check and reaches `create` with the posted values |
| ContactForm.ErrorText | frontend/src/components/Contacts.jsx:66-69 | the unreachable-server text appears exactly for "Request failed" with status 0, or for a message that is that text; otherwise the text is the message, or the fallback when the message is falsy |
| ContactForm.Respond | frontend/src/components/Contacts.jsx:57-70 | the form is cleared exactly when a response arrives with a truthy `ok`, and it then shows the success toast; every other outcome shows an error toast |
| ContactForm.UnreachableToastExactly | frontend/src/components/Contacts.jsx:66-69 | a rejected request shows the unreachable text exactly when its normalised message is "Request failed" with status 0, or is that text |
| ContactForm.MessagedNetworkErrorShowsItsMessage | frontend/src/components/Contacts.jsx:66-69 | a response-less error with its own message shows that message |
| ContactForm.NotOkShowsServerError | frontend/src/components/Contacts.jsx:58 | a body without `ok` shows the server's `error` as text, or "Request submitted", or the fallback when that text is empty |
| ContactForm.Form.constructor | frontend/src/components/Contacts.jsx:10-18 | the form starts with the five inputs empty, no toast and no submission in flight |
| ContactForm.Form.HandleChange | frontend/src/components/Contacts.jsx:20-23 | only the named input changes |
| ContactForm.Form.OnSubmit | frontend/src/components/Contacts.jsx:39-74 | a filled honeypot clears the form and shows success without sending; a validation error shows its message and leaves the form; otherwise the trimmed payload is posted once, the toast is the one for the outcome, the form is cleared only on success, and `submitting` is false afterwards |

## Left out

- JsSemantics.ToLower: only the ASCII letters are lower-cased. `toLowerCase` also maps the other letters of Unicode.
- String lengths count Unicode code points, while JavaScript counts UTF-16 code units. The two differ only for characters outside the Basic Multilingual Plane. This affects the 120, 32 and 2000 bounds.
- JsSemantics.ToNumber: only decimal integers with an optional sign are read; blank text gives 0. Fractions, exponents, hexadecimal text and `NaN` give None. So does an integer beyond 2^53, which JavaScript rounds to the nearest double (`Number("9007199254740993")` is 9007199254740992).
- JsSemantics.ToJsString: every integer is printed as plain decimal text. JavaScript's `String` prints magnitudes from 1e21 in exponent form (`String(1e21)` is "1e+21"), so the text differs there. No contract claims anything about the text of such an integer.
- ToNumberIntToString: holds only for integers of magnitude at most 2^53. Beyond that JavaScript rounds, and `String` switches to exponent form from 1e21, so `Number(String(n))` need not be `n`. The model then reads None.
- AdminRoutes.IntegerQuery: stated, like `ListingIsAPageOfTheStore` and `EveryRecordOnItsPage`, only for query values that a double holds exactly. A larger page is echoed rounded by JavaScript and answered `NonIntegerQuery` in the model.
- AdminRoutes.QueryNumber: a query parameter given twice (an array) is not modelled.
- AdminRoutes.ListRequests: for a query that is not a decimal integer it answers `NonIntegerQuery` and claims nothing. JavaScript would carry `NaN` into the clamps there.
- Numbers are integers throughout (`Num(int)`), so non-integer JSON numbers in a body are not represented.
- Validation.EmailAccepted: zod's e-mail grammar is the parameter `isEmail`, not a grammar.
- Validation.ParseOptionalText: an over-long optional string is reported as one `InvalidUnion` issue, as zod 4 does. zod 3 reports the first union member's `too_big` issue instead.
- Validation.ParseContact: issues carry their field and code only. zod's messages and limit details are left out, and so is its order of issues within one field.
- AdminRoutes.SortNewestFirst: records with equal `createdAt` keep their storage order. MongoDB promises no order among ties.
- AdminRoutes.ListRequests: a failing `countDocuments` or `find` is not modelled. The handler has no `catch`, so the rejection escapes to Express and no listing is sent; the model assumes the reads succeed.
- `ListRequests` reads one snapshot of the store. The count and the query run concurrently in the source (`Promise.all`), so a write between them is not modelled.
- ContactRoutes.NotifyContact: the sends are not awaited in the source, so the 201 may leave before they finish. The model records each attempt in the order the sends start and ignores its result. Console logging is left out.
- ContactRoutes.ConfirmationMail: the HTML body is abbreviated to its greeting. ContactRoutes.NotificationMail: the HTML is abbreviated to its heading, which drops the "-" placeholders and the `toLocaleString` time. The text bodies are complete.
- ContactRequestModel.ContactCollection.Create: identifiers are positions in the collection, not generated ObjectIds. Timestamps come from `now`. Mongoose's casting of non-string values is left out, because the route only ever passes strings.
- ApiClient.Client.constructor: axios's own default common `Accept` header (`application/json, text/plain, */*`) is not held in `commonHeaders`. The instance's `Accept` overrides it on every request, so no request differs.
- SendMail: the transporter's host and credentials are not modelled. `Send` returns only the `messageId` of nodemailer's `info` object; no caller in the core reads the rest. ApiClient: the 15-second timeout, axios's URL joining and query serialisation, and the interceptor's success path (the identity) are not modelled.
- ContactForm.Form.OnSubmit: the call runs until the request settles. While the request is in flight, the component shows `submitting` true and no toast; that intermediate state and a second submit are not modelled. The JSX rendering is left out.
- JsSemantics.Get: reads own properties of objects only. No key the code reads exists on a prototype or on a primitive.
- The rest of `backend/server.js` is not part of this model: the middleware wiring, the disabled rate limiter, the database connection and `listen`.
