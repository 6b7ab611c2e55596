# WhatsApp OTP relay: a Dafny model of its OTP lifecycle

The relay is an HTTP service that sends a one-time password (OTP) to a phone
through the WhatsApp Cloud API's template messages, and later checks a code
the user types in. Its logic is small:

- a generator of six-digit codes;
- a process-wide in-memory table from phone number to `{otp, expires}`;
- two handlers over that table, `/send-otp` and `/verify-otp`;
- the challenge handshake of `GET /webhook`.

This project models these parts and proves what they promise.

- `OtpCode` (`otp_code.dfy`): `generateOTP`. The random draw is an integer
  `k` in [0, 900000), standing for `Math.floor(100000 + r * 900000) - 100000`
  where `r` is `Math.random()`. The code is the decimal text of `100000 + k`.
  `DecimalString` models `toString` of an integer below 10^21 (every code is
  below 10^6), and `DigitsValue` reads it back. The proofs show the text
  round-trips both ways, and that every code is six digits with no leading
  zero. They also show the generator is a bijection from the draws onto
  those strings, so the code is exactly as uniform as the draw `k`.
- `OtpRegistry` (`otp_registry.dfy`): the table, modelled in two layers.
  - `Put` and `VerifyStep` are pure functions on `map<string, Record>`. They
    say what one request does to the table.
  - The class `Registry` holds the table in a `map` field. Its methods `Send`,
    `HandleSendOtp` and `Verify` update it in place, as the handlers update
    `otpStore`, and each is proved to act as those functions say; `Lookup`
    reads it.
  - `Run` folds a sequence of requests over the table. It is used to prove
    that records come only from sends and are never rewritten.
- `Webhook` (`webhook.dfy`): the `GET /webhook` mode/token check.
- `OtpScenarios` (`otp_scenarios.dfy`): client methods that run the send and
  verify handlers on a fresh registry. They prove the lifecycle scenarios
  from the method contracts alone.
- `Wrappers` (`wrappers.dfy`): `Option`, for JavaScript values that may be
  `undefined`.

Two things are parameters instead of calls:

- `Date.now()` is the parameter `now`, an integer number of milliseconds.
- The provider's answer to the message POST is the parameter `delivery`: a
  message id, or an error body.

Because a phone maps to at most one record, "at most one live record per
phone" holds by construction.

## Model

| member | source | states |
|---|---|---|
| `OtpCode.DecimalString` | index.js:18 | the decimal text of an integer is a non-empty string of digits |
| `OtpCode.DecimalStringValue` | index.js:18 | reading back the decimal text of `n` gives `n` |
| `OtpCode.DigitsValueDecimal` | index.js:18 | a digit string without a leading zero is the decimal text of its value (the text is canonical) |
| `OtpCode.DecimalStringLength` | index.js:18 | a number with `e` digits has an `e`-character decimal text |
| `OtpCode.DecimalStringLeading` | index.js:18 | the decimal text of a positive number does not start with '0' |
| `OtpCode.GenerateOtp` | index.js:17-19 | for a draw `k` in [0, 900000) the code is six digits with no leading zero, and its value is `100000 + k`, within [100000, 999999] |
| `OtpCode.GenerateOtpInjective` | index.js:17-19 | two draws give the same code exactly when they are equal |
| `OtpCode.GenerateOtpOnto` | index.js:17-19 | every six-digit string without a leading zero is the code of the draw `value - 100000` |
| `OtpRegistry.Reply` | index.js:74-85 | only an accepted code answers `valid: true`, and exactly the refusals carry a reason |
| `OtpRegistry.ReplyInjective` | index.js:74-85 | the four outcomes give four different response bodies |
| `OtpRegistry.Put` | index.js:28 | after a send, `phone` maps to the code with expiry `now + 300000`; an earlier record for `phone` is replaced and every other entry is kept |
| `OtpRegistry.VerifyStep` | index.js:71-86 | "No OTP sent" exactly when there is no record; "OTP expired" exactly when a record exists and `now > expires`, whatever the code; accepted exactly when the record is live (`now <= expires`) and holds the code; the table afterwards is the original minus `phone` on expiry or acceptance, and the original otherwise |
| `OtpRegistry.VerifyAbsent` | index.js:73-74 | with no record the answer is `{valid: false, reason: "No OTP sent"}` and the table is unchanged |
| `OtpRegistry.VerifyExpiredFirst` | index.js:76-79 | past its expiry a record is deleted with "OTP expired" for any submitted code, the matching one included |
| `OtpRegistry.VerifyAtExpiry` | index.js:76 | a record is still live at its expiry instant |
| `OtpRegistry.VerifyMismatch` | index.js:81-85 | a wrong code on a live record answers "Incorrect OTP" and keeps the table |
| `OtpRegistry.SendThenVerify` | index.js:28-83 | a sent code verified within five minutes is accepted and removed, so verifying again answers "No OTP sent" |
| `OtpRegistry.SendThenExpire` | index.js:28-79 | a sent code verified more than five minutes later is refused as expired and removed |
| `OtpRegistry.RetryAfterIncorrect` | index.js:81-85 | a wrong attempt keeps the record, and the right code then still succeeds while live |
| `OtpRegistry.ResendReplaces` | index.js:28 | a second send to a phone replaces the first, and the first code is then refused as incorrect |
| `OtpRegistry.RunProvenance` | index.js:22-86 | over any sequence of sends and verifications, every entry is either untouched from the start or exactly a record some send wrote |
| `OtpRegistry.RunKeepsCodes` | index.js:17-28 | starting from the empty table, if every send stores a well-formed code then every stored code is well formed |
| `OtpRegistry.SendResponse` | index.js:56-66 | status 200 exactly when the provider delivered; the message id or the provider's error body is passed through unchanged |
| `OtpRegistry.Registry.constructor` | index.js:22 | the table starts empty |
| `OtpRegistry.Registry.Lookup` | index.js:73 | returns the record stored for `phone`, or none when there is none; in a valid table a found record holds a six-digit code |
| `OtpRegistry.Registry.Send` | index.js:28 | the table becomes `Put` of the old table, and well-formed codes keep the table valid |
| `OtpRegistry.Registry.HandleSendOtp` | index.js:25-66 | the table gets the generated code whatever the provider answers (no rollback), and the reply is `SendResponse` of that answer |
| `OtpRegistry.Registry.Verify` | index.js:71-86 | the table and the reply are those of `VerifyStep` on the old table |
| `Webhook.VerifyChallenge` | index.js:121-130 | echoes exactly the challenge, with status 200, iff the mode is "subscribe" and the token equals the secret; otherwise status 403 |
| `OtpScenarios.SingleUse` | index.js:71-86 | send, then verify the code twice within five minutes: valid, then "No OTP sent", whatever the provider answered |
| `OtpScenarios.WrongThenRight` | index.js:81-85 | a wrong code answers "Incorrect OTP" and the right code afterwards is valid |
| `OtpScenarios.ExpiredThenGone` | index.js:76-79 | after five minutes the right code answers "OTP expired", and then "No OTP sent" |
| `OtpScenarios.FailedDeliveryKeepsRecord` | index.js:28-66 | a failed delivery answers 500 with the provider's body, and the new record is in the table |

## Left out

- HTTP routing, body parsing and response serialisation (index.js:1-7, 139-140) are framework plumbing. Handlers take their inputs as parameters and return their bodies as datatypes.
- The provider calls are network I/O to a foreign service. This covers the message POST (index.js:56-66), `/register` (index.js:89-105) and `/deregister` (index.js:108-118). Only the message send's outcome is modelled, as the `delivery` parameter. `/register` and `/deregister` only pass the provider's answer through and are not modelled.
- The JSON payloads of the template message and of the registration (index.js:30-54, 91-94) are constant data shaping, so they are not modelled.
- `Math.random()` and the floating-point arithmetic of index.js:18 are replaced by the integer draw `k`. The draw is `k = Math.floor(100000 + r * 900000) - 100000`, which lies in [0, 900000) for every double `r` in [0, 1); how rounding distributes `k` is not modelled.
- `Date.now()` is the parameter `now`. Times are unbounded integers, so the double precision of JavaScript numbers is not modelled.
- Environment configuration is left out, with the secret's default `'my_verify_token'` (index.js:10-14, 122, 139). The secret is a parameter of `VerifyChallenge`.
- Console logging (index.js:64, 102, 115, 134) is left out.
- `POST /webhook` (index.js:133-136) only logs and always answers 200, so it is not modelled.
- Races between concurrent handlers on one phone are left out. The handlers run one at a time here, as `Run` shows, and the source makes no promise about interleavings.
- VerifyStep: phone numbers and submitted codes are strings. The source compares with `===` on whatever the JSON body holds, so a code sent as a JSON number never matches a stored string. A missing `phone` becomes the key `undefined`. Neither case is modelled.
- Webhook.VerifyChallenge: a refusal is `Status(403)` with no body. Express's `sendStatus` also writes the text "Forbidden" as the body, which the model does not represent.
