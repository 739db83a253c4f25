# Contact form and request list of a civil-engineering firm's website

A Dafny model of the only logic on the site: the contact form that captures a
client request and the page that lists the submitted requests.

- **Phone input** (`PhoneInput`). The phone field keeps only the ASCII digits
  typed and cuts them to ten characters. The validator `/^\d{10}$/` is modelled
  as a pattern matcher and proved equal to "exactly ten digits". The shaped
  value is proved to be the first min(10, n) typed digits in their order,
  idempotent, and a fixed point exactly on in-shape values.
- **Contact form** (`ContactForm.ContactFormComponent`). A class whose fields
  are the component's state: `isOpen`, `formData`, `isSubmitting`,
  `submitSuccess` and `phoneError`. The database insert is a recorded call:
  every record handed to it is appended to `inserts`, and how the awaited call
  ends is a parameter. Its object invariant says two things. The phone field is
  always digits-only with at most ten of them. Every inserted record is
  `pending` and carries a ten-digit phone.
- **Time-of-day extraction** (`ContactForm.ReqTime`). `split('T')[1].split('.')[0]`
  is built on a model of JavaScript's `String.prototype.split` (`Text.Split`),
  which is proved to round-trip with `join`. When the text has no `'T'`, the
  call throws; inside `handleSubmit` that throw is caught.
- **Request list** (`RequestPage`). The "today only" filter, its effect and
  toggle, and the handling of the fetch result. It also covers the status-badge
  lookup with its gray default, the shortened identifier and the email
  fallback.

The clock, the time-zone helper and the database are not part of this model.
The current ISO timestamp, the shifted ISO timestamp, "today", and the result of
each database call are all parameters of the operations that use them.

## Model

| member | source | states |
|---|---|---|
| `PhoneInput.MatchesDigitsIff` | src/components/contactform.tsx:20 | the pattern `\d{n}$` matches exactly the texts of n ASCII digits |
| `PhoneInput.ValidatePhoneIff` | src/components/contactform.tsx:19-22 | `validatePhone` holds iff the text has length 10 and every character is in '0'..'9' |
| `PhoneInput.DigitsOnly` | src/components/contactform.tsx:28 | removing the non-digits leaves only ASCII digits and never lengthens the text |
| `PhoneInput.Sanitize` | src/components/contactform.tsx:28-30 | the shaped phone is all ASCII digits and at most 10 long |
| `PhoneInput.SanitizeKeepsFirstDigits` | src/components/contactform.tsx:28-30 | the shaped phone is a subsequence of the input and a prefix of its digits, of length min(10, number of digits); every digit occurrence survives the filter and nothing else does |
| `PhoneInput.SanitizeFixedPointIff` | src/components/contactform.tsx:28-30 | shaping returns the value unchanged iff it is already all digits and at most 10 long |
| `PhoneInput.SanitizeIdempotent` | src/components/contactform.tsx:28-30 | shaping twice equals shaping once |
| `PhoneInput.SanitizedValidIff` | src/components/contactform.tsx:28-35 | after a phone edit the field validates iff at least ten digits were typed |
| `Text.JoinSplit` | src/components/contactform.tsx:63 | joining the pieces of `split(sep)` with `sep` gives back the text |
| `Text.SplitJoin` | src/components/contactform.tsx:63 | splitting separator-free pieces joined with `sep` gives back the pieces |
| `Text.FirstPiece` | src/app/request/page.tsx:53 | `split(sep)[0]` is the prefix before the first `sep`, or the whole text when there is none |
| `ContactForm.ReqTime` | src/components/contactform.tsx:63 | the time-of-day cut fails (throws) iff the text has no 'T'; a cut time holds no 'T' and no '.' |
| `ContactForm.ReqTimeOfTimestamp` | src/components/contactform.tsx:63 | on `date T time . rest` the extracted time is exactly `time` |
| `ContactForm.FormData.With` | src/components/contactform.tsx:31-34 | the spread update sets the named field and keeps the other three |
| `ContactForm.ContactFormComponent.constructor` | src/components/contactform.tsx:8-17 | closed modal, empty form, no error, not submitting, no success, no insert made, no reset pending |
| `ContactForm.ContactFormComponent.Open` | src/components/contactform.tsx:90 | the contact button opens the modal and changes nothing else |
| `ContactForm.ContactFormComponent.Close` | src/components/contactform.tsx:112 | the close button closes the modal and changes nothing else |
| `ContactForm.ContactFormComponent.HandleChange` | src/components/contactform.tsx:24-42 | a phone edit stores the shaped value and sets the error to '' iff it validates, else to the fixed message; any other edit stores the raw value and keeps the error; the other fields never change; the phone invariant is kept |
| `ContactForm.ContactFormComponent.HandleSubmit` | src/components/contactform.tsx:44-84 | invalid phone: message set, no insert, flags unchanged; a timestamp without 'T': no insert, not submitting; otherwise exactly one insert of a pending record built from the form, with success set unless the insert rejected, even when it resolved with an error; a reset is scheduled only on that resolved path |
| `ContactForm.ContactFormComponent.ResetAfterSubmit` | src/components/contactform.tsx:69-79 | the reset runs only while a reset is pending; it empties every field, clears `isSubmitting`, `submitSuccess`, `isOpen` and the pending reset, and leaves the error text and the inserts alone |
| `RequestPage.DatePart` | src/app/request/page.tsx:53 | the date part is a prefix of `request_date` without 'T', ending at its first 'T' if there is one |
| `RequestPage.TodayRequests` | src/app/request/page.tsx:52-53 | a record is in the filtered list iff it is fetched and its date part equals `today` |
| `RequestPage.TodayRequestsExactly` | src/app/request/page.tsx:53 | the filtered list is a subsequence of the fetched list and holds each record of `today` as often as it was fetched, and no other record |
| `RequestPage.TodayRequestsIdempotent` | src/app/request/page.tsx:53 | filtering the filtered list again changes nothing |
| `RequestPage.TodayRequestsAllIff` | src/app/request/page.tsx:53 | the filter returns the list unchanged iff every record is from `today` |
| `RequestPage.StatusClass` | src/app/request/page.tsx:18-23 | total lookup: each of the four statuses gets its listed class and only it does; every other string gets the gray default |
| `RequestPage.StatusClassAsWritten` | src/app/request/page.tsx:131 | the page's own property read yields an inherited non-string value iff the status is a key of `Object.prototype` |
| `RequestPage.StatusClassAsWrittenAgrees` | src/app/request/page.tsx:131 | the page's lookup equals `StatusClass` on every status except the `Object.prototype` keys, and differs on all of those |
| `RequestPage.StatusClassAsWrittenMissesDefault` | src/app/request/page.tsx:131 | the status "constructor" gets the inherited value where the gray default is intended |
| `RequestPage.DisplayId` | src/app/request/page.tsx:196 | the shown id is a prefix of `req_id` of length min(8, its length) |
| `RequestPage.DisplayEmail` | src/app/request/page.tsx:154 | the shown email is never blank: the email when there is one, else "Not provided" |
| `RequestPage.RequestView.constructor` | src/app/request/page.tsx:26-30 | empty lists, loading, no error, filter off |
| `RequestPage.RequestView.FetchRequests` | src/app/request/page.tsx:33-46 | on error: the fixed message, lists untouched; on success: both lists set to the data, or to empty when there is none; not loading afterwards |
| `RequestPage.RequestView.ApplyTodayFilter` | src/app/request/page.tsx:50-58 | the shown list is the today filter of `requests` when the filter is on and `requests` itself when it is off; either way it is a subsequence of `requests` |
| `RequestPage.RequestView.ToggleTodayFilter` | src/app/request/page.tsx:69-71 | the flag is negated, so two toggles restore it |

## Left out

- The hosted database client is not part of this model. The insert and the select are represented by their outcomes (`InsertOutcome`, `FetchResult`). The descending order by `request_date` is produced by the server and is not modelled.
- `getindiantime`, `new Date()` and `toISOString` are not part of this model. The submit handler takes the UTC timestamp and the shifted timestamp as two independent texts, because the source calls `new Date()` twice. The list page takes "today" as a text. As a result, the mismatch between a shifted "today" and an unshifted stored date near midnight is not modelled.
- `formatDate` (`toLocaleDateString`) depends on the locale and the clock, so it is left out.
- The 1500 ms and 2000 ms `setTimeout` delays and the `await` points are left out. Anything that may happen during those waits is also out of scope, such as typing while a submission is pending. The reset is the separate step `ResetAfterSubmit`. The filter effect is the separate step `ApplyTodayFilter`, which the host runs after `requests` or `showTodayOnly` changes.
- `RequestPage.RequestView.FetchRequests`: the intermediate `loading = true` is not observable in the model. Only the state after the awaited select is stated.
- The browser's own checks are not modelled: `required`, `maxLength={10}`, and the disabled submit button. `HandleSubmit` accepts a form with any contents.
- `console.log` and `console.error` are left out, as are all markup, styling other than the status class, the navigation bar and the landing page.
- JavaScript strings are sequences of UTF-16 code units, while a Dafny character is a Unicode scalar value. The texts are taken to hold only characters of the Basic Multilingual Plane, where the two agree. Digits, ISO timestamps and ids all fall in that range.
- The submit handler shows success when the insert resolves with an error; only a rejected promise reaches `catch`. An error returned by the insert is not reported, and the model states exactly that.

## Findings

| source | as written | input that shows it | evidently intended | confidence | as-written member | corrected member |
|---|---|---|---|---|---|---|
| src/app/request/page.tsx:131 | `statusColors[req.status] \|\| gray` also reads the keys inherited from `Object.prototype`, which are truthy | a record with status `"constructor"` (or `"toString"`, `"valueOf"`, …) gets the inherited function instead of the gray class (`RequestPage.StatusClassAsWrittenMissesDefault`) | every status outside the four listed ones gets the gray default | high for the JavaScript semantics; not executed | `RequestPage.StatusClassAsWritten` | `RequestPage.StatusClass` |
