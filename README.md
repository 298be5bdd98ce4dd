# Arcane 2K25 registration backend: OTP store, registration and ticket issuance

This project models the core of the event-registration backend in `app.py`, a Flask
service, and proves properties of that model.

- **OTP store.** The module-level `otp_store` dictionary maps an email to a six-digit
  code and its expiry time. `POST /api/send-otp` overwrites the record for an email
  with a fresh code valid for five minutes, then mails the code.
  `POST /api/verify-otp` has four outcomes: missing parameters (400), absent or
  expired (410, record deleted), match (200, record deleted) and mismatch (401,
  record kept).
- **Registration.** `POST /register` normalises empty optional fields to None. It
  draws a six-character team code from `A-Z0-9` only when a team name is given
  without a team code. It inserts the row with `payment_status = "pending"`.
- **Payment confirmation.** `POST /confirm_payment` runs five steps in a fixed
  order: look the participant up, render the PDF ticket with a QR code of the
  participant's id, upload it to storage, mark the participant paid and record a
  `qr_path` URL, and mail the ticket. The recorded URL, as the code builds it,
  does not name the uploaded object (see "## Findings").
- **Pure helpers.** These are the ticket path, the events line and the text lines
  printed on the ticket.

## How the model is built

- **Modules.** One module per component of `app.py`, with shared pieces split out:
  - `Common`: optional JSON fields, Python truthiness and `or None`, Python's
    formatting of a string-or-None, and the mail helpers' boolean result.
  - `Numerals`: `str()` of an integer.
  - `Records`: the participant row.
  - `Otp`, `Registration`, `Ticket` and `Confirmation`: the endpoints.

  The function `Common.Show` formats a value the way an f-string does (`None`
  becomes `"None"`).
- **The OTP store is a class**, `Otp.OtpStore`, whose field `entries` is the mutated
  dictionary. The two endpoints are methods with `modifies this`. Each method is
  proved equal to a pure transition function, `Otp.Issue` or `Otp.Check`, which
  gives the reply and the new dictionary. The properties the source promises are
  stated on those functions and in lemmas that chain several requests.
  `OtpStore.Valid()` says every stored code is six decimal digits with no leading
  zero. Both methods keep it.
- **Confirmation is a method that records effects.** `Confirmation.ConfirmPayment`
  appends each external call to a trace of effects, returning early where the
  handler returns. It is proved equal to `Confirmation.Confirm`, a declarative
  reference: the five effects of a complete run, cut off after the first step that
  raises, plus the reply that step gives. Ordering, "no side effect on failure" and
  the success conditions are proved about the reference (`FullRun`, `Confirm`,
  `StepsAttempted` and the lemmas after them).
- **External things are parameters.** Everything the handlers get from outside is
  passed in:
  - the current time, in whole seconds;
  - the random OTP draw, a number in `[100000, 999999]`;
  - the six alphabet positions `random.choices` draws;
  - the configured `SUPABASE_URL`;
  - what each datastore, storage and mail call does;
  - the rendered PDF's bytes.
- **Where exceptions go.** An exception raised outside `confirm_payment`'s `try`
  becomes Flask's default 500 page (`ServerError`); this covers the lookup and the
  QR/PDF rendering. An exception inside the `try` becomes the JSON 500 reply
  (`IssueFailed`); this covers the upload, the update, and any mail error other
  than `ApiException`.
- **What the code does not do.** A few behaviours are easy to assume but are absent
  from the code, and the model does not add them:
  - `register` does not check that a name or an email is present.
  - An unknown or expired OTP gets 410.
  - The upload does not ask storage to overwrite an existing object, so nothing
    says a second confirmation replaces the ticket. The upload's outcome is a
    parameter here. `ReconfirmTargetsSamePath` proves only that a second run
    targets the same path and records the same status and URL.

## Model

| member | source | states |
|---|---|---|
| `Common.OrNone` | app.py:126-128 | `x or None`: the result is a value exactly when the field is truthy (present and not ""), and then it is that field unchanged |
| `Common.SendResult` | app.py:68-74 | the mail helpers return True exactly when the API accepts the message and False exactly when it raises ApiException; any other exception escapes |
| `Numerals.DecimalText` | app.py:85 | `str(n)` of a natural number is a non-empty string of digits, with a leading zero only for 0 |
| `Numerals.IntText` | app.py:227 | `str(i)` of an integer: a negative number is a minus sign before digits that read back as its magnitude; a non-negative one is digits that read back as it |
| `Numerals.DecimalRoundTrip` | app.py:85 | reading the decimal text `str(n)` back gives `n` |
| `Numerals.DecimalInjective` | app.py:85 | distinct numbers have distinct decimal texts, so distinct draws give distinct codes |
| `Otp.MailBody` | app.py:89-90 | the OTP mail body has the code at a fixed position after the introduction, so the code can be read back from the mail |
| `Otp.SixDigitCode` | app.py:85 | `str(randint(100000, 999999))` is six decimal digits with no leading zero, and its value is the draw |
| `Otp.OtpStore.constructor` | app.py:50 | the store starts empty |
| `Otp.Issue` | app.py:82-95 | no or empty email: 400, store unchanged, no mail. Otherwise: the email's record is replaced by a six-digit code equal to the draw, expiring at now + 300 s; every other email's record is untouched; the mailed body carries the stored code. The record is kept whether the reply is 200 (accepted), 500 (ApiException) or a crash |
| `Otp.Check` | app.py:103-115 | exactly one of four outcomes. 400 when email or otp is falsy, store unchanged. 410 when the record is absent or `now > expires`, record removed. 200 when live and equal, record removed. 401 when live and different, store unchanged. A record with `now == expires` is live |
| `Otp.OtpStore.SendOtp` | app.py:78-95 | the reply, the new store and the mail are those of `Issue` on the old store; the store stays well formed |
| `Otp.OtpStore.VerifyOtp` | app.py:98-115 | the reply and the new store are those of `Check` on the old store; the store stays well formed |
| `Otp.IssuedCodeVerifiesOnce` | app.py:106-113 | after send-otp, the mailed code verifies (200) at any time up to and including the expiry instant; a second verify with the same code then gets 410 |
| `Otp.WrongCodeAllowsRetry` | app.py:111-115 | in a well-formed store, a wrong code inside the window gets 401 and leaves the store as it was, so the right code still gets 200 afterwards |
| `Otp.ExpiredCodeIsDiscarded` | app.py:106-109 | verifying after now + 300 s gets 410 whatever the code; the email has no record afterwards and every other email's record is unchanged |
| `Otp.ReissueReplacesCode` | app.py:85-87 | a second send-otp replaces the first code: inside the new window the first code gets 401 unless the two draws were equal |
| `Registration.Pick` | app.py:54 | the joined characters are the alphabet characters at the drawn positions, one per draw, each a letter A-Z or a digit |
| `Registration.GenerateTeamCode` | app.py:53-54 | a generated team code has length 6 and uses only A-Z and 0-9 |
| `Registration.EveryTeamCodeCanBeDrawn` | app.py:54 | every six-character A-Z/0-9 code is the result of some draw, so the generator covers the whole code space |
| `Registration.TeamCode` | app.py:126-132 | an explicit (truthy) team code passes through unchanged; with no code and a truthy team name a code is drawn; with neither the result is None |
| `Registration.Register` | app.py:119-149 | the inserted row has payment status pending. Team name and food preference are normalised with `or None`; name, email, phone, college and total pass through unchanged; missing events become `[]`. The reply is success (carrying the stored team code) exactly when the insert returns data; an insert that returns no data gets "Error saving registration." (500), and one that raises gets "An unexpected error occurred during registration." (500) |
| `Registration.RegisteredTeamCode` | app.py:126-139 | the stored team code is present exactly when the request has a team code or a team name; an explicit code is kept; a drawn code is a valid team code |
| `Ticket.TicketPathParts` | app.py:250 | the ticket path is `tickets/`, then the email as an f-string shows it, then `_ticket.pdf`; the email can be read back from the path |
| `Ticket.TicketPathInjective` | app.py:250 | different emails get different paths `tickets/{email}_ticket.pdf` |
| `Ticket.PublicUrlNamesObject` | app.py:29 | a public storage URL `{SUPABASE_URL}/storage/v1/object/public/{bucket}/{key}` reads back as that bucket and key |
| `Ticket.RecordedUrlAsWritten` | app.py:253 | the `qr_path` the handler builds is a public storage URL naming bucket `tickets` and key `{email}_ticket.pdf` |
| `Ticket.RecordedUrlMissesUpload` | app.py:250-257 | the `qr_path` URL as written names the key `{email}_ticket.pdf` in the bucket, not the key `tickets/{email}_ticket.pdf` that was uploaded |
| `Ticket.TicketUrl` | app.py:253 | corrected `qr_path`: the URL names exactly the uploaded object, (bucket `tickets`, `TicketPath(email)`) |
| `Ticket.RecordedUrlIsNotTicketUrl` | app.py:250-257 | the URL the handler records is never the public URL of the uploaded ticket |
| `Ticket.JoinSnoc` | app.py:217 | `sep.join(parts + [p]) == sep.join(parts) + sep + p` for non-empty parts |
| `Ticket.JoinEmpty` | app.py:217 | a `", "`-join is empty exactly for no names or one empty name |
| `Ticket.EventsLine` | app.py:216-217 | the events line starts with `Events: ` and is never left blank after it (the `or 'N/A'` fallback) |
| `Ticket.EventsLineCases` | app.py:216-217 | the events line is `"Events: N/A"` for no events (and for a single unnamed event); it is the `", "`-join of the names whenever that join is non-empty |
| `Ticket.EventsLineSnoc` | app.py:216-217 | one more event appends `", "` and its name to a non-empty events line |
| `Ticket.TextLinesAsWritten` | app.py:206-220 | as written, each detail line is its label followed by the column's text when it has one, and by `None` when the column is null; the `N/A` default never applies |
| `Ticket.AmountLineAsWritten` | app.py:227 | as written, the amount line is `Amount Paid: ₹` followed by `None` for a null amount, or by digits that read back as a non-negative amount |
| `Ticket.SoloTicketShowsNone` | app.py:218-227 | as written, a participant with no team gets `"Team Name: None"` and `"Team Code: None"` on the ticket, and `"Amount Paid: ₹None"` when the amount is missing too |
| `Ticket.TextLines` | app.py:206-220 | corrected detail lines: a missing field reads N/A, a present field shows its text, so "None" appears only when the participant typed it |
| `Ticket.AmountLine` | app.py:227 | corrected amount line: it equals the line as written exactly when there is an amount; for a missing amount it reads `N/A` where the line as written reads `None` |
| `Confirmation.FullRun` | app.py:163-268 | a complete run issues lookup, render, upload, update and mail, in that order; the update records the `qr_path` exactly as the handler builds it |
| `Confirmation.Confirm` | app.py:159-271 | the trace is a prefix, of length 1 to 5, of that fixed order and starts with the lookup. 404 exactly when the participant is not found. 200 exactly when all five steps run and the mail API does not raise something other than ApiException. Flask's 500 page exactly when the lookup or the rendering raises |
| `Confirmation.ConfirmPayment` | app.py:159-271 | the handler, run step by step, gives exactly the reply and the trace of `Confirm` |
| `Confirmation.StepsAttempted` | app.py:163-258 | the upload is attempted exactly when the participant is found and the ticket is rendered; the update to paid exactly when the upload also succeeded; the mail exactly when the update also succeeded |
| `Confirmation.OrderedTrace` | app.py:250-267 | in a trace in step order, an update always comes right after an upload, and a mail right after an update |
| `Confirmation.PersistBeforeNotify` | app.py:250-268 | for every combination of outcomes, the upload comes before the paid update, and the update comes before the mail |
| `Confirmation.UnknownEmailHasNoEffects` | app.py:163-165 | an unknown email gets 404 after the lookup alone: no render, upload, update or mail |
| `Confirmation.UploadFailureStopsIssuance` | app.py:251-271 | a failed upload gets 500; the upload is the last effect; nothing is updated or mailed |
| `Confirmation.UpdateFailureLeavesUpload` | app.py:255-271 | a failed status update gets 500 after the ticket was uploaded, and nothing is mailed |
| `Confirmation.TicketMailGreeting` | app.py:265 | the ticket mail body starts with `Hello ` followed by the stored name as an f-string shows it |
| `Confirmation.TicketSentDespiteMailRejection` | app.py:250-268 | with every call succeeding, the reply is 200 even when send_ticket_email returns False. The QR payload is the participant id, and the PDF is uploaded under `TicketPath(email)`. The update sets status paid and records the as-written `qr_path`, which does not name the uploaded ticket. The mail goes to the email with the uploaded PDF attached |
| `Confirmation.ReconfirmTargetsSamePath` | app.py:163-258 | the handler ignores the stored payment status: for any two snapshots of the participant, confirming again uploads to the same ticket path and issues the same status update |
| `Confirmation.RegisterThenConfirm` | app.py:119-268 | a registered row is pending and its registration gets 200. Confirming its email then renders the QR of its id, uploads under its path, marks it paid with the as-written `qr_path`, mails the ticket, and gets 200 even when the mail is rejected |

## Findings

| source | as written | input that shows it | evidently intended | confidence | as-written member | corrected member |
|---|---|---|---|---|---|---|
| app.py:250-257 | The ticket is uploaded to bucket `tickets` under the key `tickets/{email}_ticket.pdf`. The recorded `qr_path` is `{SUPABASE_STORAGE_URL}/tickets/{email}_ticket.pdf`, which under the storage service's `public/{bucket}/{key}` layout (used by the logo URLs at app.py:184 and app.py:190) names the key `{email}_ticket.pdf` | any confirmed email, e.g. `ada@x.com`: uploaded key `tickets/ada@x.com_ticket.pdf`, recorded URL `…/public/tickets/ada@x.com_ticket.pdf` | `qr_path` is the public URL of the uploaded ticket, `…/public/tickets/tickets/{email}_ticket.pdf` | medium, relies on the storage service's public-URL layout; not executed | `Ticket.RecordedUrlMissesUpload` | `Ticket.TicketUrl` |
| app.py:206-227 | The row is read with `select("*")`, so every column key is present and `participant.get(key, 'N/A')` never falls back. A null column prints as `None` | a participant registered without team name or team code: the ticket reads `Team Name: None`, `Team Code: None` | a missing value is shown as `N/A` | medium; not executed | `Ticket.SoloTicketShowsNone` | `Ticket.TextLines` |

`Confirmation.ConfirmPayment` models the handler as written, so its status update
records `Ticket.RecordedUrlAsWritten`. `Ticket.TicketUrl` is the corrected URL, and
`Ticket.RecordedUrlIsNotTicketUrl` shows the two always differ. `Ticket.AmountLine`
is the corrected amount line for the second finding. The ticket text lines are not
used by the rest of the model, which treats the rendered PDF as opaque bytes.

## Left out

- Flask routing, JSON parsing, CORS and `/health`: HTTP plumbing. Replies are
  modelled as one variant per distinct reply, with its status code and message.
  JSON fields are `Option<string>` (absent or null is None). Non-string JSON values,
  and a `selected_events` that is explicitly null, are not modelled.
- Environment loading and client construction (app.py:23-44). `SUPABASE_URL` is a
  parameter.
- The Supabase calls themselves (insert, select, update, upload) and the `ilike`
  search of `get_participants`: they are foreign calls. Each call is an abstract
  outcome: returns data, returns none, or raises.
- Brevo message construction and sending (app.py:56-74, 274-302), except the
  True/False/exception result contract (`Common.SendResult`), the OTP mail text and
  the ticket mail's subject, body and attachment.
- `base64.b64encode`, `qrcode.make` and ReportLab drawing (fonts, positions,
  colours): library code that is not visible here. Rendering is one step with an
  outcome (bytes or an exception). Its QR payload is the participant id. The
  printed text lines are modelled in `Ticket`; the static title, date, venue and
  contact lines are not.
- The two decorative image fetches (app.py:152-155, 183-193): their failures are
  caught and do not change any reply or effect, so they are not represented.
- `random.randint`, `random.choices` and `datetime.now()`: these become parameters.
- Otp.Issue: time is whole seconds, whereas `datetime` comparisons have microsecond
  resolution.
- Races between concurrent requests on the shared `otp_store`: concurrency is not
  modelled. Each request runs to completion.
- Registration.Register: amounts are integers in the model. A fractional `total`
  would be stored and printed as a float.
- Events without a `name` key, and event names that are not strings, would raise in
  the rendering step (outside the `try`). They are not modelled.
- Registration.Register: the model takes the empty-data branch (app.py:142-146) to
  reply "Error saving registration.". That branch first prints `result.error`. If the
  client's response object has no `error` attribute, that print raises, and the
  request gets "An unexpected error occurred during registration." instead. The
  client library is not part of this model, so this case is not modelled.
- The console logging (the `print` calls at app.py:70, 73, 145, 148, 187, 193, 270,
  298 and 301): it changes no reply, store or effect, so it is not modelled.
