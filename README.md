# Crypto Loot Lab: wagers and email verification, in Dafny

This project models the server side of the games of Crypto Loot Lab and its signup
verification, and proves properties of the model.

**Games.** Four Supabase edge functions settle a wager: `play-lottery`, `play-chest`,
`play-scratch` and `play-runner`. Each handler does the same things in order:
- authenticate the caller;
- validate the request;
- check the stored balance against the stake;
- decide the outcome on the server;
- record the round through the `play_game` database function.

`play_game` itself is not among the sources. Module `Ledger` specifies it as one atomic
step: debit the stake, credit the payout and append one round, or change nothing when the
storage reports an error. `Ledger.Store` is the balance column plus the round log. Its
invariant says the balances are the opening balances with every recorded round replayed.
The stronger invariant `Sound` adds that every round was affordable when it was settled.
Every handler keeps `Sound`, so no balance ever goes below zero
(`Ledger.AffordableStaysSolvent`).

**Verification.** `send-verification-code` issues a six-digit code that is valid for ten
minutes. When requests are handled one at a time, it allows at most three codes per email
and five per IP address in any trailing hour. `verify-code` accepts the newest unused, unexpired code for an email and marks it
used. Both work on `CodeStore.CodeTable`. The table's invariant `Capped` says every row was
admitted by both hourly limits.

**Sign-in page.** Module `AuthForms` models the checks of the sign-in page: the login and
signup schemas, the filter on the code input, and the two ends of `handleVerifyCode`.
`SignupFlow` connects the three parts: an issued code survives the page's filter, and it
is accepted by the validating function.

Inputs the handlers read from outside are parameters of the model:
- the authenticated user, or none;
- the `Math.random()` draws, as reals in [0, 1);
- the current time, as whole minutes;
- the error each storage call or the email service reports, if any;
- the HTTP headers and JSON fields, as `Option` values.

JavaScript's falsy test on a number (`!x` is true for a missing value and for 0) is
`Wrappers.Falsy`.

Three behaviours of the code that are easy to misread:
- **Runner score 0.** `play-runner` rejects a score of 0 along with a time of 0, because
  both are falsy (`!score`).
- **Leading zeros.** Issued codes never start with `0`. They are
  `Math.floor(100000 + r * 900000)`, which is always in [100000, 999999].
- **Attempt guard.** The `verify-code` guard labelled "failed attempts" counts the *rows
  issued* for the email in the last five minutes. It does not count failed validations.
  When requests are handled one at a time, issuance allows at most three rows per email
  per hour, so while no row has a creation time in the future the guard (more than five)
  can never trip. This is proved in
  `VerifyCode.RateGuardNeverTrips`. `VerifyCode.Handle` states it as a postcondition:
  the 429 answer is given only if some row was created after `now`.

## Model

| member | source | states |
|---|---|---|
| Ledger.Apply | supabase/functions/play-lottery/index.ts:62-67 | settling a round debits its bet from its user and credits the payout; no account is created, removed or otherwise changed |
| Ledger.ReplayKeys | supabase/functions/play-lottery/index.ts:62-67 | settling any sequence of rounds keeps the same set of accounts |
| Ledger.ReplayBalance | supabase/functions/play-lottery/index.ts:62-67 | an account's balance is its opening balance minus its total stakes plus its total payouts |
| Ledger.AffordableStaysSolvent | supabase/functions/play-lottery/index.ts:44-67 | if every round passed the balance check before it was settled and paid a non-negative amount, no balance goes negative |
| Ledger.StakesCovered | supabase/functions/play-lottery/index.ts:44-67 | over affordable rounds, an account never stakes more than its opening balance plus its winnings |
| Ledger.CanAfford | supabase/functions/play-lottery/index.ts:50 | the negation of the balance guard: the caller has a profile whose balance covers the stake; `AffordableStaysSolvent` shows what it buys |
| Ledger.Store.constructor | supabase/functions/play-lottery/index.ts:44-48 | a store opened on non-negative balances with no rounds is sound |
| Ledger.Store.PlayGame | supabase/functions/play-lottery/index.ts:62-75 | on success, exactly one round is appended and the balances become the old ones with that round applied; on a storage error nothing changes and the error is returned; an affordable round with a non-negative payout keeps the store sound |
| PlayLottery.ValidTicketCount | supabase/functions/play-lottery/index.ts:34-39 | a ticket count is accepted exactly when it is present and between 1 and 100 inclusive |
| PlayLottery.BetAmount | supabase/functions/play-lottery/index.ts:41 | the stake is 10 per ticket, between 10 and 1000 |
| PlayLottery.WinPayout | supabase/functions/play-lottery/index.ts:59 | the winning payout `bet * (2 + draw * 3)`; its range, growth and coverage are the three lemmas below |
| PlayLottery.Draw | supabase/functions/play-lottery/index.ts:58-59 | the player wins exactly when the first draw exceeds 0.7; a loss pays 0; a win pays between 2 and 5 times the stake |
| PlayLottery.WinPayoutRange | supabase/functions/play-lottery/index.ts:59 | a winning payout is at least twice and less than five times the stake |
| PlayLottery.PayoutIncreasing | supabase/functions/play-lottery/index.ts:59 | a larger second draw pays strictly more |
| PlayLottery.PayoutCoversRange | supabase/functions/play-lottery/index.ts:59 | every amount in [2, 5) times the stake is paid for some second draw, so the factor ranges over all of [2, 5) |
| PlayLottery.RoundFor | supabase/functions/play-lottery/index.ts:62-67 | the round sent to `play_game`: the caller, "lottery", the stake, the payout, and the tickets with the win flag |
| PlayLottery.Reported | supabase/functions/play-lottery/index.ts:77 | the reply `{ won, payout }` read from a recorded round |
| PlayLottery.ReportedRoundFor | supabase/functions/play-lottery/index.ts:62-77 | the reply equals the drawn outcome and can be read back from the recorded round; the round holds the caller, "lottery", a stake of 10 per ticket and the payout |
| PlayLottery.Handle | supabase/functions/play-lottery/index.ts:19-79 | 401 without a user; 400 for an invalid count; 400 when the balance does not cover the stake; 500 with the error when recording fails; otherwise exactly the drawn round is recorded and reported; a failed request changes nothing; the store stays sound |
| PlayChest.TierOf | supabase/functions/play-chest/index.ts:34-39 | the four tiers have prices of at least 100 and maximum multipliers of at least 3 |
| PlayChest.LookupTier | supabase/functions/play-chest/index.ts:41 | `validTiers[tierName]`: one of the table's own four entries, an inherited `Object.prototype` member, or nothing; own exactly for the four tier names, inherited exactly for the prototype member names |
| PlayChest.PassesTierCheckAsWritten | supabase/functions/play-chest/index.ts:41-42 | the check as written: a request passes exactly when it passes the own-entry check or names an inherited member and omits both `tierPrice` and `maxMultiplier` |
| PlayChest.InheritedNamePassesCheck | supabase/functions/play-chest/index.ts:41-42 | `{ tierName: "constructor" }` and `{ tierName: "__proto__" }` with no numbers pass the check as written and fail the own-entry check |
| PlayChest.CheckTier | supabase/functions/play-chest/index.ts:41-47 | the check as intended, on the table's own entries: exactly four requests pass, each naming a tier with its own price and multiplier; a passing request carries the tier's price and multiplier |
| PlayChest.Multiplier | supabase/functions/play-chest/index.ts:70 | the winning multiplier `0.5 + draw * max`; its range and growth are the two lemmas below |
| PlayChest.MultiplierRange | supabase/functions/play-chest/index.ts:70 | the multiplier lies in [0.5, 0.5 + max) |
| PlayChest.MultiplierMonotone | supabase/functions/play-chest/index.ts:70 | the multiplier does not decrease as the second draw grows |
| PlayChest.PrizeType | supabase/functions/play-chest/index.ts:74-80 | a winning multiplier is labelled "USDT", "BTC" or "Bonus Coins", never "Nothing" |
| PlayChest.PrizeAmount | supabase/functions/play-chest/index.ts:71 | the winning amount, the price times the multiplier; its range is `PrizeAmountRange` |
| PlayChest.PrizeAmountRange | supabase/functions/play-chest/index.ts:70-71 | a winning chest pays at least half its price and less than its price times (0.5 + max) |
| PlayChest.Open | supabase/functions/play-chest/index.ts:64-81 | the player wins exactly when the first draw exceeds 0.5; a loss pays 0 and is labelled "Nothing"; a win pays `PrizeAmount` of the tier and the second draw, between half the price and price times (0.5 + max), labelled by `PrizeType` of the multiplier |
| PlayChest.PrizeTypeByDraw | supabase/functions/play-chest/index.ts:74-80 | the prize label as a function of the draw: "USDT" above 0.8 - 0.5/max, "BTC" between 0.5 - 0.5/max and that, "Bonus Coins" below |
| PlayChest.PrizeTypeMonotone | supabase/functions/play-chest/index.ts:70-80 | a larger second draw never earns a lower-ranked label |
| PlayChest.SilverChestExample | supabase/functions/play-chest/index.ts:64-81 | a Silver chest with draws 0.9 and 0.9 pays 2500 in "USDT"; with a first draw of 0.1 it pays nothing |
| PlayChest.WinBelowStake | supabase/functions/play-chest/index.ts:69-71 | a "win" can pay less than the price: a Bronze chest with a second draw of 0.1 pays 80 for 100 |
| PlayChest.GameType | supabase/functions/play-chest/index.ts:85 | the game type is "chest_" followed by the tier name |
| PlayChest.RoundFor | supabase/functions/play-chest/index.ts:84-89 | the round sent to `play_game`: the caller, "chest_" and the tier name, the price, the prize amount, and the chest type, "win" or "lose" and the prize label |
| PlayChest.Reported | supabase/functions/play-chest/index.ts:99-103 | the reply `{ won, prizeAmount, prizeType }` read from a recorded round |
| PlayChest.ReportedRoundFor | supabase/functions/play-chest/index.ts:84-103 | the reply equals the opened prize and can be read back from the recorded round; the round holds the caller, the chest game type, the tier's price and the tier name |
| PlayChest.Handle | supabase/functions/play-chest/index.ts:19-105 | 401 without a user; 400 for tier data that fails the own-entry check `CheckTier`; 400 when the balance does not cover the price; 500 with the error when recording fails; otherwise exactly the opened chest is recorded and reported; a failed request changes nothing; the store stays sound |
| PlayScratch.Draw | supabase/functions/play-scratch/index.ts:47-49 | the player wins exactly when the first draw exceeds 0.6; a loss pays 0; a win pays 20 times (1.5 + 4 times the second draw), between 30 and 110 |
| PlayScratch.PayoutCoversRange | supabase/functions/play-scratch/index.ts:49 | every amount in [30, 110) is paid for some second draw |
| PlayScratch.WinPaysMoreThanPrice | supabase/functions/play-scratch/index.ts:48-49 | a card is won exactly when it pays more than its price of 20 |
| PlayScratch.RoundFor | supabase/functions/play-scratch/index.ts:52-57 | the round sent to `play_game`: the caller, "scratch", the price of 20, the prize, and the prize as the result |
| PlayScratch.Reported | supabase/functions/play-scratch/index.ts:67 | the reply `{ won, payout }` read from a recorded round, where the round stores only the prize |
| PlayScratch.ReportedRoundFor | supabase/functions/play-scratch/index.ts:48-67 | for every pair of draws the reply equals the drawn card and can be read back from the recorded round, since a card is won exactly when its prize is positive |
| PlayScratch.Handle | supabase/functions/play-scratch/index.ts:19-69 | 401 without a user; 400 when the balance does not cover the price; 500 with the error when recording fails; otherwise exactly the drawn card is recorded and reported; a failed request changes nothing; the store stays sound |
| PlayRunner.ValidGameData | supabase/functions/play-runner/index.ts:34-39 | a session is accepted exactly when 0 < time <= 60 and the score is positive (a score or time of 0 is rejected) |
| PlayRunner.TotalCost | supabase/functions/play-runner/index.ts:41-42 | the stake is the time played, one per second, at most 60 |
| PlayRunner.Payout | supabase/functions/play-runner/index.ts:43 | the payout is positive and ten of it make the score |
| PlayRunner.Won | supabase/functions/play-runner/index.ts:75 | a session is a win exactly when the payout exceeds the cost; `ReportedRoundFor` restates this in terms of score and time |
| PlayRunner.ExampleSession | supabase/functions/play-runner/index.ts:41-75 | 30 seconds with a score of 400 cost 30, pay 40 and win |
| PlayRunner.PayoutUnbounded | supabase/functions/play-runner/index.ts:31-43 | for every accepted time and every target amount, some accepted score makes the net gain exceed the target |
| PlayRunner.RoundFor | supabase/functions/play-runner/index.ts:60-65 | the round sent to `play_game`: the caller, "runner", the cost, the payout, and the score with the time played |
| PlayRunner.Reported | supabase/functions/play-runner/index.ts:75-80 | the reply `{ won, payout, totalCost }` read from a recorded round |
| PlayRunner.ReportedRoundFor | supabase/functions/play-runner/index.ts:60-80 | the reported cost is the time played, ten times the payout is the score, and the session is a win exactly when the score exceeds ten times the seconds |
| PlayRunner.Handle | supabase/functions/play-runner/index.ts:19-82 | 401 without a user; 400 for invalid game data; 400 when the balance does not cover the cost; 500 with the error when recording fails; otherwise exactly the reported session is recorded and answered; a failed request changes nothing; the store stays sound |
| Text.Contains | supabase/functions/send-verification-code/index.ts:113 | `includes`: the needle occurs at the front or further on |
| Text.ContainsIffOccurs | supabase/functions/send-verification-code/index.ts:113 | a string contains a needle exactly when the needle occurs at some position |
| Text.FirstField | supabase/functions/send-verification-code/index.ts:52 | the first field is a prefix without a comma, followed by a comma or the end of the string |
| Text.DecimalString | supabase/functions/send-verification-code/index.ts:71 | a printed number is a non-empty string of digits |
| Text.DecimalRoundTrip | supabase/functions/send-verification-code/index.ts:71 | reading a printed number back gives the number |
| Text.DecimalLength | supabase/functions/send-verification-code/index.ts:71 | a number with k significant digits prints as k characters, the first not '0' |
| CodeStore.CountSince | supabase/functions/send-verification-code/index.ts:38-42 | the count of recent rows with a key never exceeds the number of rows |
| CodeStore.CountSinceMonotone | supabase/functions/send-verification-code/index.ts:56-61 | a later cut-off never counts more rows |
| CodeStore.CapBoundsRecentCount | supabase/functions/send-verification-code/index.ts:34-68 | if the limits admitted every row and no row is newer than `since` + 1 hour, at most the limit of rows with a key were created at or after `since` |
| CodeStore.CodeTable.constructor | supabase/functions/send-verification-code/index.ts:34-68 | the model's starting state is an empty table, and an empty table is capped: no row has yet been admitted past either hourly limit |
| SendVerificationCode.ValidEmail | supabase/functions/send-verification-code/index.ts:27-32 | an address is accepted exactly when it is present and contains '@' |
| SendVerificationCode.ClientIp | supabase/functions/send-verification-code/index.ts:52-54 | the IP is the first field of x-forwarded-for when that is non-empty, else x-real-ip when non-empty, else "unknown"; it is never empty |
| SendVerificationCode.GenerateCode | supabase/functions/send-verification-code/index.ts:71 | the code is six digits without a leading zero and denotes a number in [100000, 999999] |
| SendVerificationCode.SendOutcome | supabase/functions/send-verification-code/index.ts:109-130 | the reply is success exactly when the email service reports no error; otherwise it has status 500 |
| SendVerificationCode.Handle | supabase/functions/send-verification-code/index.ts:24-137 | 400 for an invalid address; 429 at three codes per email or five per IP in the last hour; 500 when the insert fails; otherwise exactly one row valid for 10 minutes is appended and its code is mailed; the table stays capped; success implies a mail was sent |
| SendVerificationCode.AppendKeepsCapped | supabase/functions/send-verification-code/index.ts:38-84 | appending a row that both hourly limits admit keeps the table capped |
| VerifyCode.Present | supabase/functions/verify-code/index.ts:26 | the negation of the missing-field guard: both `email` and `code` are present and non-empty strings |
| VerifyCode.Live | supabase/functions/verify-code/index.ts:54-57 | the lookup's row filter: same email, same code, unused and not yet expired; the lemmas below are stated with it |
| VerifyCode.NewestMatch | supabase/functions/verify-code/index.ts:51-60 | the lookup returns a live row (same email and code, unused, unexpired) created no earlier than any other live row, and returns none exactly when no row is live |
| VerifyCode.MarkUsed | supabase/functions/verify-code/index.ts:71-74 | the chosen row is marked used and every other row is unchanged |
| VerifyCode.UsedRowNeverMatches | supabase/functions/verify-code/index.ts:51-74 | a row marked used is never matched again |
| VerifyCode.SecondVerifyFails | supabase/functions/verify-code/index.ts:51-74 | when the accepted row was the only live one, repeating the validation later fails |
| VerifyCode.ExpiredNeverMatches | supabase/functions/verify-code/index.ts:57 | an expired row is never matched; when every row has expired nothing matches |
| VerifyCode.MarkUsedKeepsCapped | supabase/functions/verify-code/index.ts:71-74 | marking a row used keeps the table capped |
| VerifyCode.RateGuardNeverTrips | supabase/functions/verify-code/index.ts:33-48 | on a capped table with no row newer than now, at most three rows count toward the guard, so the guard (more than five) never trips |
| VerifyCode.RateGuardOnlyWhenFutureRows | supabase/functions/verify-code/index.ts:43-48 | if the guard trips on a capped table, some row has a creation time later than now |
| VerifyCode.Handle | supabase/functions/verify-code/index.ts:23-93 | 400 without email or code; 429 past the guard; 400 when nothing matches; 500 when the update fails; otherwise the newest live row is marked used and the answer is valid; nothing changes on failure; used flags are never cleared; the table stays capped; the guard answers 429 only when some row is newer than now |
| AuthForms.TrimStart | src/pages/Auth.tsx:15 | the result is a suffix, everything removed is white space, and it does not start with white space |
| AuthForms.TrimEnd | src/pages/Auth.tsx:15 | the result is a prefix, everything removed is white space, and it does not end with white space |
| AuthForms.Trim | src/pages/Auth.tsx:15 | the result starts and ends with no white space and is a substring of the input with only white space cut from its two ends |
| AuthForms.TrimFixpoint | src/pages/Auth.tsx:15 | trimming a trimmed string changes nothing |
| AuthForms.TrimIdempotent | src/pages/Auth.tsx:21 | trimming twice is trimming once |
| AuthForms.ParseLogin | src/pages/Auth.tsx:14-17 | login parses exactly when the trimmed address is an address of at most 255 characters and the password has at least 6; the data holds the trimmed address |
| AuthForms.LoginMessages | src/pages/Auth.tsx:54-58 | a rejected login shows the message of the first failing check: address syntax, then address length, then password length |
| AuthForms.ParseSignup | src/pages/Auth.tsx:19-35 | signup parses exactly when the trimmed username has 3 to 20 letters, digits or underscores, the trimmed address is valid and at most 255 long, and the password has at least 12 characters with an uppercase letter, a lowercase letter, a digit and another character; the messages follow field order |
| AuthForms.AcceptedUsernameIsTrimmed | src/pages/Auth.tsx:20-24 | an accepted username contains no white space and is its own trim |
| AuthForms.SignupPassesLogin | src/pages/Auth.tsx:14-35 | whatever signup accepts, login accepts, with the address as typed and with the trimmed address |
| AuthForms.DigitsOnly | src/pages/Auth.tsx:298 | removing non-digits leaves only digits and never lengthens the string |
| AuthForms.DigitsOnlyConcat | src/pages/Auth.tsx:298 | removing non-digits distributes over concatenation |
| AuthForms.DigitsOnlyOfDigits | src/pages/Auth.tsx:298 | a string of digits passes the filter unchanged |
| AuthForms.DigitsOnlyKeepsAll | src/pages/Auth.tsx:298 | the filter keeps every character exactly when all of them are digits |
| AuthForms.FieldValue | src/pages/Auth.tsx:299 | `maxLength={6}`: of the value one edit would produce, the field keeps the first six characters, or all of them when there are fewer |
| AuthForms.CodeInput | src/pages/Auth.tsx:298-299 | one `onChange` event (a paste into the empty field, or one keystroke at the end): the field then holds only digits, at most six, namely the digits among the first six characters of the edited value; it is full exactly when those six characters are all digits |
| AuthForms.PastedSeparatorLosesDigit | src/pages/Auth.tsx:298-299 | pasting "123-456" into the empty field leaves "12345", since the length limit cuts the last digit before the filter removes the dash |
| AuthForms.TypeKeys | src/pages/Auth.tsx:297-299 | typing keys one at a time at the end of the field, one `onChange` event per key; its meaning is stated by `TypedKeys` |
| AuthForms.TypeKeyStep | src/pages/Auth.tsx:298-299 | a keystroke at the end of a field of at most six digits appends the key when it is a digit and the field has room, and otherwise leaves the field unchanged |
| AuthForms.TypedKeys | src/pages/Auth.tsx:297-299 | typing keys into a field of at most six digits leaves the first six characters of the field followed by the digits typed, so a typed separator is removed at once and takes up no room |
| AuthForms.TypedIntoEmptyField | src/pages/Auth.tsx:297-299 | typing into the empty field leaves the first six digits typed; the field is full exactly when at least six digits were typed |
| AuthForms.TypedSeparatorLosesNothing | src/pages/Auth.tsx:297-299 | typed key by key, "123-456" fills the field with "123456", while the same text pasted at once leaves "12345" |
| AuthForms.CodeInputIdempotent | src/pages/Auth.tsx:298 | filtering the field again changes nothing |
| AuthForms.CodeInputKeepsCodes | src/pages/Auth.tsx:298 | up to six digits are kept exactly as typed |
| AuthForms.BeginVerify | src/pages/Auth.tsx:125-147 | the code is sent for validation exactly when signup data is pending and the code has six characters, with the pending address; otherwise the matching message is shown |
| AuthForms.LengthGuardAfterFilter | src/pages/Auth.tsx:130-133 | after one edit, the length guard passes exactly when the first six characters of the edited value are all digits; "123-456" pasted into the empty field is refused with the six-digit message |
| AuthForms.LengthGuardAfterTyping | src/pages/Auth.tsx:130-133 | after typing key by key into the empty field, the length guard passes exactly when at least six digits were typed; typed "123-456" is sent for validation as "123456" with the pending address |
| AuthForms.FinishVerify | src/pages/Auth.tsx:149-163 | an account is created exactly when the call succeeded and the answer says valid, and it is created from the pending data; otherwise a non-empty message is shown, which is the server's error when it sent one |
| SignupFlow.IssuedCodeSurvivesInput | src/pages/Auth.tsx:298 | an issued code typed as received passes the input filter unchanged and is sent for validation with the pending address |
| SignupFlow.IssuedCodeVerifies | supabase/functions/verify-code/index.ts:51-60 | a validation within ten minutes of issuing, with the issued email and code, picks the newly inserted row |

## Left out

- Concurrency: the model runs each request as one uninterrupted step, and every property
  about more than one request holds only when requests are handled one at a time. It does
  not capture three races in the source:
  - each game handler reads the balance and then calls `play_game` in a separate step, so
    two requests can both pass the balance check before either settles;
  - `send-verification-code` counts the recent rows and inserts the new one in separate
    steps (supabase/functions/send-verification-code/index.ts:38-84), so concurrent
    requests can all pass the counts and exceed three codes per email or five per IP;
  - `verify-code` selects a live row and then updates it by id alone, without a
    `used = false` filter (supabase/functions/verify-code/index.ts:51-74), so two
    concurrent validations of one code can both answer valid. `VerifyCode.UsedRowNeverMatches`
    and `VerifyCode.SecondVerifyFails` hold for validations handled one after the other.
- The body of the `play_game` database function is not part of this model. It is
  specified as the atomic debit, credit and append described above. The parameters sent to
  it name no user; the model assumes it settles for the authenticated caller.
- Floating point: amounts and draws are exact reals. `toFixed(2)` rounding of the reported
  amounts is not modelled; the model reports the unrounded amount.
- Dates: `Date`, `setHours`, `setMinutes` and ISO strings become whole minutes, an hour is
  60 and the code lifetime 10. Time zones and calendar arithmetic are not modelled.
- HTTP: CORS preflight, the `OPTIONS` answer, response headers, JSON parsing and the
  generic `catch` for unexpected exceptions are not modelled. JSON fields are `Option`
  values of the type the handler expects; a field of another JSON type is not modelled.
- Count and lookup query errors: the rate-limit counts and the balance and code lookups
  are modelled as always answering. In the source an erroring count yields `null`, which
  passes the `recentCodes && recentCodes >= 3` guard, so an errored count fails open.
- PlayChest.Handle: uses the own-entry check `CheckTier`, the evidently intended one,
  and answers 400 to a `tierName` naming an inherited member. The source's check lets
  `{ tierName: "constructor" }` with no `tierPrice` or `maxMultiplier` through (see
  "## Findings"). It then passes the balance check, because a comparison with `undefined`
  is false, and calls `play_game` with an undefined stake and a NaN prize. The model has
  no undefined or NaN amounts, so that path is not modelled. A JSON `null` is not
  `undefined` and fails the check, so only absent fields open it.
- The zod `email()` address check is a parameter `isEmail`, since the library's regular
  expression is not among the sources. Lengths are counted in Unicode characters, not in
  UTF-16 code units.
- The zod messages say "less than 255" and "less than 20", but the checks allow exactly 255
  and 20. The model follows the checks. Only the first issue's message is modelled, since
  it is the only one the page shows.
- `handleLogin` and `handleSignup` past validation (the sign-in call, the invoke of
  `send-verification-code`, navigation and toasts) are not modelled. Neither are
  `signUp`'s own errors after a valid code, React state, or the UI components.
- `send-lucky-day-email` and the social and chat pages are outside this model.
- Rows created at the same time: the model breaks ties in `order by created_at desc` in
  favour of the row inserted last. The database leaves that order unspecified.
- AuthForms.CodeInput: models one `onChange` event, with the browser's `maxLength` keeping
  the first six characters of the edited value. Typing at the end of the field is the
  sequence of such events (`AuthForms.TypeKeys`). A paste into a non-empty field, editing
  in the middle of the field, deleting and selecting text are not modelled.
- PlayLottery.ValidTicketCount: accepts any real count between 1 and 100, as the source
  does. A fractional count such as 1.5 is accepted and staked as 15.
- The contents of the verification email (its HTML) are not modelled; `Mail` carries only
  the address and the code.

## Findings

| source | as written | input that shows it | evidently intended | confidence | as-written member | corrected member |
|---|---|---|---|---|---|---|
| supabase/functions/play-chest/index.ts:41-42 | `validTiers[tierName]` also finds the members every object inherits from `Object.prototype`, and a request that omits `tierPrice` and `maxMultiplier` compares `undefined !== undefined` and passes | `{ "tierName": "constructor" }` with no other fields | only the four tier names pass, each with its own price and multiplier | not executed | PlayChest.PassesTierCheckAsWritten, PlayChest.InheritedNamePassesCheck | PlayChest.CheckTier |
