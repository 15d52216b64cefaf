# AIContentPro entitlement model

AIContentPro is a Telegram bot. `/ideas <topic>` returns generated post ideas, and `/buy` sells a one-month subscription, paid in TON, USDT or Telegram Stars. This project models the bot's per-user entitlement state machine in Dafny and proves properties about it. The parts it covers:

- User records, created lazily with default values.
- The lazy daily reset of the free-use counter.
- The usage gate of `/ideas` and its conversation log.
- The `/status` report.
- The invoice offer built for a currency button.
- The pre-checkout answer.
- The crediting of a confirmed payment.

The JSON document of the bot is the `State` value. It holds a map from user id to `UserRecord` and a map from user id to the conversation log. Every handler is a pure function of the state, the user id, the current instant `now` (integer seconds since the epoch; the UTC day is `now / 86400`) and its input. The answer of the text generator is an opaque `generated` string, which may be an error text. `Bot.Step` dispatches one event to its handler, and `Bot.Run` applies a sequence of events.

Modules:

- `Optional`: the option type.
- `Text`: Python's `strip`, `upper`, `lower`, `startswith` and `split(sep, 1)[1]`.
- `Store`: the records, `get_user`, `reset_quota` and the log.
- `UsageGate`: `/ideas` and `/status`.
- `Payments`: `process_buy`, `pre_checkout` and `successful_payment`.
- `Bot`: the dispatcher, runs of events, and properties of runs.

Behaviours of the code that the model keeps as written:

- A confirmed payment overwrites `paid_until` with now + 30 days. It does not extend a running subscription (`Payments.DuplicateConfirmation`).
- The usage gate never reads `paid_until`; only `/status` displays it. Once paid, a user is served without limit for ever, and no handler sets `is_paid` back to false (`Bot.RunPaidAlwaysServed`, `Bot.RunPersists`). This is at odds with the invoice text, which promises unlimited ideas for 30 days.
- Any currency other than `USDT` or `TON`, not only `STARS`, gets the Stars tariff of 10000 XTR (`Payments.Tariff`).
- The invoice payload is never parsed on confirmation. Every payment credits the same 30 days.
- A free use is charged before the generator is called. A generator error still costs a use and is logged as the result.
- A refused `/ideas` still keeps the record that `get_user` and `reset_quota` created or reset in memory (`UsageGate.IdeasGate`).

## Model

| member | source | states |
|---|---|---|
| Text.Strip | ai_content_bot_payments.py:173-174 | the stripped topic is a contiguous slice of the arguments with only whitespace (Python's `isspace` set) before and after it; it is empty exactly when the arguments are all whitespace, and otherwise starts and ends with a non-whitespace character |
| Text.Upper | ai_content_bot_payments.py:99 | `upper()` keeps the length and maps every character on its own to its upper-case form (ASCII letters only) |
| Text.Lower | ai_content_bot_payments.py:119-120 | `lower()` keeps the length and maps every character on its own to its lower-case form (ASCII letters only) |
| Text.HasPrefix | ai_content_bot_payments.py:97 | `startswith(p)` holds exactly when the text is `p` followed by the rest of the text |
| Text.StripIdempotent | ai_content_bot_payments.py:173 | the stored topic is already stripped: stripping it again changes nothing |
| Text.AfterFirst | ai_content_bot_payments.py:99 | `split("_", 1)[1]` fails exactly when there is no `_`; otherwise it yields the text after the first `_` |
| Text.AfterFirstOfPrefixed | ai_content_bot_payments.py:97-99 | for data routed by the `buy_` filter, the split yields exactly the text after `buy_` |
| Text.LowerOfUpper | ai_content_bot_payments.py:119-120 | lower-casing the upper-cased currency gives the lower-cased text of the button |
| Store.DayOf | ai_content_bot_payments.py:63 | the UTC day of an instant is the day whose 86400 seconds contain it |
| Store.GetUser | ai_content_bot_payments.py:47-58 | an unknown user gets a record with no uses, reset today, unpaid and without expiry; a known user's record is returned unchanged; no other user's record changes |
| Store.ResetQuota | ai_content_bot_payments.py:61-65 | on a later day the counter becomes 0 and the reset day becomes today; otherwise, including when the clock reads an earlier day, the record is unchanged; payment fields and the counter bound are kept |
| Store.ResetIdempotent | ai_content_bot_payments.py:61-65 | resetting twice on one day equals resetting once |
| Store.Touch | ai_content_bot_payments.py:144-145 | `get_user` then `reset_quota` puts the reset record of that user into the store, leaves every other user and every log alone, and keeps the counter bounds |
| Store.TouchIdempotent | ai_content_bot_payments.py:144-145 | touching a user twice on one day equals touching once |
| Store.AppendEntry | ai_content_bot_payments.py:196-199 | appending to a user's log adds exactly one entry at the end, keeps the earlier entries, and leaves every other user's log unchanged |
| UsageGate.CheckAndConsume | ai_content_bot_payments.py:181-186 | a request is allowed exactly when the user is paid or below the daily quota of 3; a paid user is not charged; an unpaid allowed user is charged exactly one use; the counter bound is kept |
| UsageGate.GateIgnoresPaidUntil | ai_content_bot_payments.py:181-186 | the expiry instant has no influence on the decision |
| UsageGate.UnpaidAllowedQuotaTimes | ai_content_bot_payments.py:181-185 | from a fresh counter an unpaid user is allowed exactly 3 times and refused on the fourth request |
| UsageGate.Admit | ai_content_bot_payments.py:181-200 | a refused request changes nothing and answers with the quota notice; an allowed one stores the charged record and appends one entry with the topic and the generator's answer |
| UsageGate.Ideas | ai_content_bot_payments.py:171-202 | a blank topic is answered with the usage hint, before any record is created or changed; a non-blank one is either refused or answered with the generated text |
| UsageGate.IdeasGate | ai_content_bot_payments.py:178-186 | on a non-blank topic, the answer is generated exactly when the fetched and reset record is paid or below the quota; a refused request keeps that record; a paid user is not charged; an unpaid served user is charged one use; no other user changes |
| UsageGate.IdeasLog | ai_content_bot_payments.py:196-200 | only a served request touches the logs, and it appends one entry holding the stripped topic and the generator's answer |
| UsageGate.IdeasKeepsValid | ai_content_bot_payments.py:178-186 | `/ideas` keeps every counter between 0 and the quota |
| UsageGate.Status | ai_content_bot_payments.py:158-168 | the report shows the touched record's payment state and expiry; the remaining uses plus the counter equal the quota, so in a valid state the remainder is between 0 and 3 |
| UsageGate.StatusCountsDown | ai_content_bot_payments.py:162 | each answer served to an unpaid user lowers the remainder in `/status` by exactly one |
| Payments.Tariff | ai_content_bot_payments.py:101-109 | the price is USD exactly for `USDT` (1000 cents) and `TON` (1500 cents); every other currency gets 10000 XTR |
| Payments.ProcessBuy | ai_content_bot_payments.py:97-124 | an offer is made exactly for callback data that starts with `buy_` |
| Payments.OfferContents | ai_content_bot_payments.py:99-120 | the offer's currency is the upper-cased text after `buy_`, priced by the tariff; the start parameter and the payload carry the lower-cased text, and the payload also carries the creation instant |
| Payments.OfferIgnoresCase | ai_content_bot_payments.py:99 | two button texts that agree up to letter case give the same offer |
| Payments.LowerCaseOffer | ai_content_bot_payments.py:99-120 | a lower-case button text gives the upper-cased currency, its tariff, and a payload spelled with the text as given |
| Payments.UsdtOffer | ai_content_bot_payments.py:101-103 | the `buy_usdt` button gives 1000 USD cents with payload `subscription_usdt_<stamp>` |
| Payments.TonOffer | ai_content_bot_payments.py:104-106 | the `buy_ton` button gives 1500 USD cents with payload `subscription_ton_<stamp>` |
| Payments.StarsOffer | ai_content_bot_payments.py:107-109 | the `buy_stars` button gives 10000 XTR with payload `subscription_stars_<stamp>` |
| Payments.PreCheckout | ai_content_bot_payments.py:127-129 | every pre-checkout query is accepted |
| Payments.SubscriptionEnd | ai_content_bot_payments.py:136 | a subscription ends on the day 30 days after the payment |
| Payments.SuccessfulPayment | ai_content_bot_payments.py:132-138 | the payer, created if unknown, is paid until 30 days from now whatever `paid_until` said; counters, other users and logs are unchanged; the bounds are kept |
| Payments.DuplicateConfirmation | ai_content_bot_payments.py:134-137 | a repeated confirmation leaves the user paid, with the expiry counted from the later one rather than accumulated |
| Payments.ConfirmationIdempotent | ai_content_bot_payments.py:134-137 | one confirmation delivered twice at the same instant has the effect of one |
| Bot.Step | ai_content_bot_payments.py:86-207 | each command is answered by its own handler; `/start` and `/help` only fetch and reset the user; `/buy`, a currency button, the always-accepted pre-checkout query and an unrecognised message leave the state unchanged |
| Bot.StepFrame | ai_content_bot_payments.py:142-207 | every handler keeps the bounds, keeps every user and every subscription, leaves other users' records and logs alone, and grows the caller's log by one entry exactly for a generated answer |
| Bot.RunPreservesValid | ai_content_bot_payments.py:182-185 | after any sequence of events, every counter is still between 0 and the quota |
| Bot.RunPersists | ai_content_bot_payments.py:135 | no sequence of events deletes a user or makes a paid user unpaid |
| Bot.RunLog | ai_content_bot_payments.py:196-199 | after any sequence of events, each user's log keeps its earlier entries and has grown by exactly the number of answers generated for that user |
| Bot.RunFreeDay | ai_content_bot_payments.py:181-186 | on one day with no payment, an unpaid user's charged uses rise by one per generated answer, so they receive at most 3 minus the uses already charged |
| Bot.RunPaidAlwaysServed | ai_content_bot_payments.py:181-186 | in any sequence of events, every non-blank `/ideas` request of a paid user is answered with generated text |
| Bot.ServedOnce | ai_content_bot_payments.py:181-186 | an unpaid user below the quota is served, charged one use, and logged once |
| Bot.RefusedAtQuota | ai_content_bot_payments.py:182-184 | an unpaid user at the quota is refused and the record stays as it was |
| Bot.DailyScenario | ai_content_bot_payments.py:178-186 | a new user is served three times on one day, refused the fourth time, and served again on the next day with the counter restarted at one |
| Bot.PurchaseScenario | ai_content_bot_payments.py:97-138 | a `buy_` button produces an invoice; pre-checkout is accepted; after the payment `/status` shows the user paid until 30 days after the payment |
| Bot.PaidStatus | ai_content_bot_payments.py:158-165 | after a payment `/status` reports the subscription and its expiry |

## Left out

- Telegram transport: the aiogram bot, the dispatcher, the keyboards (including the `/buy` currency menu), `send_invoice` and `answer_*`, and every reply text and label. A reply is a constructor of `Bot.Reply`.
- `ask_openai` and the OpenAI client make an external network call. Their result, or error text, is the `generated` parameter.
- `load_data`/`save_data` and the JSON file are file I/O. The state value is the document, and it is treated as persisted after every step.
- The environment-variable check, `SystemExit` and the polling loop are process start-up.
- Interleaving of the asynchronous handlers is not modelled. Each handler is one atomic step.
- ISO-8601 formatting and parsing of dates and instants are replaced by integer days and seconds. The invoice payload's timestamp is an opaque `stamp` string.
- The several `utcnow()` calls inside one handler are one reading, `now`.
- Converting the numeric platform user id with `str(uid)` is not modelled. A user id is already a string.
- Text.Upper: maps ASCII letters only. Python's `upper()`/`lower()` also map non-ASCII letters, and they can change a string's length. So `Text.LowerOfUpper`, `Payments.OfferContents` and `Payments.LowerCaseOffer` rely on `lower(upper(x)) == lower(x)`, which Python breaks for letters like `ß` (upper-lower gives `ss`) and dotless `ı` (gives `i`). For such button texts the real start parameter and payload differ from what the model states.
- Text.Lower: maps ASCII letters only, for the same reason as `Text.Upper`.
- Payments.ProcessBuy: data without the `buy_` prefix yields `None`, because the dispatcher never routes such data to this handler. The failure path of `send_invoice` (an error text in the callback answer) is not modelled.
