# Invoice equity split and support-ticket normalisation, in Dafny

This project models two pieces of the contractor-payroll application.

- **The invoice equity calculator** (`InvoiceEquityCalculator#calculate`) decides whether an invoice can be partly settled in company equity. Its inputs are the contractor's equity percentage, the contractor's unvested grant for the invoice year, the company's fallback FMV share price and equity switch, and the service amount in cents. It returns the equity cents, the whole number of option shares and the percentage applied, or no result. `EquityCalculator.Calculate` is a pure function returning `Option<Calculation>`. `None` stands for each of the source's three early `return`s.
- **The support page's ticket normaliser** (`frontend/app/support/page.tsx`) turns an untyped JSON response into `SupportTicket` records. Every missing or ill-typed field gets a default. `Json.Json` models the parsed response. `SupportTickets.NormalizeTicket` is the per-element callback. `SupportTickets.TicketsFromResponse` is the outer shape check; its `None` means the page keeps its previous data.

Modelling decisions:

- The equity percentage is in whole percent, because the code divides by 100 (`invoice_equity_calculator.rb:20`).
- Rounding is Ruby `BigDecimal#round` in its default mode: halves go away from zero. `EquityCalculator.RoundHalfAway` computes it exactly over all integers. Its contract bounds the result to within one half of the true quotient.
- A share price is an exact positive rational `Price(num, den)`. So `share_price_usd * 100` and the division by it are exact.
- A grant's own price is optional. Ruby's `grant&.share_price_usd || fmv` also falls back to the FMV when a grant exists but has no price, and the model keeps that.
- The ActiveRecord lookups are plain inputs: the grant for the year, the FMV and `equity_enabled?`.
- `createdAt` and `updatedAt` are a `DateField`: either the text handed to `new Date(...)` or `Now`, which stands for the clock read by `new Date()`.
- `SupportTickets.TicketToJson` and `SupportTickets.TicketsToJson` have no counterpart in the page. They encode tickets back into JSON so that the normaliser can be stated against an inverse in the round-trip lemmas.
- JavaScript truthiness and `typeof` are modelled on JSON values in `Json.Truthy` and `Json.TypeOf`. The page's guard `v && typeof v === "object" && !Array.isArray(v)` is proved to hold exactly of JSON objects.

## Model

| member | source | states |
|---|---|---|
| `EquityCalculator.RoundHalfAway` | backend/app/services/invoice_equity_calculator.rb:20 | The result is within one half of a / b. A tie rounds away from zero: upwards for a ≥ 0, downwards for a < 0. |
| `EquityCalculator.RoundHalfAwayUnique` | backend/app/services/invoice_equity_calculator.rb:25 | Any integer within those bounds is the rounded value, so the rounding is fully specified by its contract. |
| `EquityCalculator.RoundHalfAwayExact` | backend/app/services/invoice_equity_calculator.rb:20 | An exact quotient is returned unchanged by rounding. |
| `EquityCalculator.RoundHalfAwaySign` | backend/app/services/invoice_equity_calculator.rb:25 | A positive rounded quotient needs a positive numerator, and a negative one a negative numerator. |
| `EquityCalculator.SharePrice` | backend/app/services/invoice_equity_calculator.rb:13-14 | A grant that carries a price always supplies the share price; otherwise the company FMV does, including for a grant without a price. |
| `EquityCalculator.EquityCents` | backend/app/services/invoice_equity_calculator.rb:20 | The equity cents lie within half a cent of amount × percentage / 100, with ties away from zero. |
| `EquityCalculator.OptionCount` | backend/app/services/invoice_equity_calculator.rb:25 | The option count lies within half a share of equity cents / (price × 100), with ties away from zero. |
| `EquityCalculator.Calculate` | backend/app/services/invoice_equity_calculator.rb:12-46 | On success the option count is zero exactly when the percentage is zero or equity is disabled. A success with options has a grant, 0 < options ≤ unvested shares, positive equity cents, and the contractor's own percentage. |
| `EquityCalculator.GrantPriceOverridesFmv` | backend/app/services/invoice_equity_calculator.rb:13-14 | When the grant carries a price, the company FMV has no effect on the result. |
| `EquityCalculator.FmvPricesUnpricedGrant` | backend/app/services/invoice_equity_calculator.rb:14 | A grant without a price behaves exactly as if it carried the company FMV as its price. |
| `EquityCalculator.MissingSharePriceFails` | backend/app/services/invoice_equity_calculator.rb:15-18 | A non-zero percentage with no resolvable price gives no result, even when equity is disabled. |
| `EquityCalculator.NoEquityExactly` | backend/app/services/invoice_equity_calculator.rb:28-31 | The result is exactly {0, 0, 0} if and only if the percentage is zero, or equity is disabled and a price resolves. |
| `EquityCalculator.SuccessWithEquity` | backend/app/services/invoice_equity_calculator.rb:19-26 | A success with a non-zero percentage and equity enabled carries the rounded equity cents, the rounded option count at the resolved price, 0 < options ≤ unvested shares, and the contractor's percentage. |
| `EquityCalculator.NonZeroOutcome` | backend/app/services/invoice_equity_calculator.rb:33-45 | With equity owed and a price, the call succeeds if and only if the option count is positive and a grant covers it. |
| `EquityCalculator.RoundsToZeroFails` | backend/app/services/invoice_equity_calculator.rb:33-35 | An option count of 0 or less gives no result, never a zero success. |
| `EquityCalculator.MissingGrantFails` | backend/app/services/invoice_equity_calculator.rb:36-38 | With equity owed and enabled, having no grant gives no result, even when the FMV prices the shares. |
| `EquityCalculator.ExactSplit` | backend/app/services/invoice_equity_calculator.rb:20-45 | When both divisions are exact and the grant covers the count, the result is the plain quotients and the contractor's percentage. |
| `EquityCalculator.QuarterOfThousandDollars` | backend/app/services/invoice_equity_calculator.rb:36-45 | 25% of 100000 cents at $2.50 a share is 25000 cents and 100 options. With only 50 unvested shares there is no result; the count is never clamped. |
| `EquityCalculator.TenCentsAtOnePercent` | backend/app/services/invoice_equity_calculator.rb:33-35 | 1% of 10 cents rounds to zero options and fails, at any share price. |
| `Json.Truthy` | frontend/app/support/page.tsx:119 | JavaScript truthiness: `null` is never truthy, and arrays and objects always are, even empty ones. |
| `Json.TypeOf` | frontend/app/support/page.tsx:126 | `typeof` gives "object" exactly for `null`, arrays and objects. |
| `Json.IsPlainObject` | frontend/app/support/page.tsx:119 | The guard `v && typeof v === "object" && !Array.isArray(v)` holds if and only if v is a JSON object. |
| `SupportTickets.ParseStatus` | frontend/app/support/page.tsx:133-135 | A string is recognised if and only if it is one of the four status names, and it maps to the status with that name. |
| `SupportTickets.ParsePriority` | frontend/app/support/page.tsx:142-144 | A string is recognised if and only if it is one of the four priority names, and it maps to the priority with that name. |
| `SupportTickets.StatusNameRoundTrip` | frontend/app/support/page.tsx:133-136 | Every status is recognised from its own name. |
| `SupportTickets.PriorityNameRoundTrip` | frontend/app/support/page.tsx:142-145 | Every priority is recognised from its own name. |
| `SupportTickets.StringField` | frontend/app/support/page.tsx:128-130 | A string member is returned verbatim. A non-empty result always comes from a string member. So a missing or non-string member gives "". The same rule serves id, subject, emailFrom and lastMessage. |
| `SupportTickets.GetStatus` | frontend/app/support/page.tsx:131-139 | The status name is the member's string when it is one of the four valid statuses, and "open" otherwise. |
| `SupportTickets.GetPriority` | frontend/app/support/page.tsx:140-148 | The priority name is the member's string when it is one of the four valid priorities, and "medium" otherwise. |
| `SupportTickets.DateAt` | frontend/app/support/page.tsx:151-154 | A date is parsed from text exactly when the member is a string, and from that very string. Otherwise the clock is read. |
| `SupportTickets.GetMessageCount` | frontend/app/support/page.tsx:157-158 | A number member is kept. A non-zero count always comes from a number member, so anything else gives 0. |
| `SupportTickets.NormalizeTicket` | frontend/app/support/page.tsx:126-182 | A non-object element becomes the default record. An object's record takes each field from its own getter. `NormalizeTicketRoundTrip` proves that the record is recovered from its JSON form. |
| `SupportTickets.TicketsFromResponse` | frontend/app/support/page.tsx:119-125 | There is a new list if and only if the response is an object whose `tickets` member is an array. That list is the array normalised element by element. |
| `SupportTickets.NormalizeAll` | frontend/app/support/page.tsx:125-183 | The output has one record per input element, in the same order, each normalised on its own. |
| `SupportTickets.NormalizeTicketRoundTrip` | frontend/app/support/page.tsx:160-170 | Normalising the JSON form of any ticket gives back that ticket field for field. |
| `SupportTickets.NormalizeTicketIdempotent` | frontend/app/support/page.tsx:126-182 | Normalising is idempotent: a normalised record, sent again, normalises to itself. |
| `SupportTickets.ResponseRoundTrip` | frontend/app/support/page.tsx:119-183 | A response `{tickets: [...]}` holding well-formed tickets yields exactly those tickets. |
| `SupportTickets.NonObjectTicketIsDefault` | frontend/app/support/page.tsx:172-182 | An element that is not an object gets the status named "open" and the priority named "medium". |

The calculator is a pure function of its inputs. The normaliser is deterministic only because `DateField.Now` keeps the clock abstract: `getCreatedAt` and `getUpdatedAt` (`page.tsx:151-154`) read the current time when the member is not a string.

## Left out

- `Bugsnag.notify` (invoice_equity_calculator.rb:16, 34, 37) is a fire-and-forget alerting side channel. Each call appears only as the `None` it precedes.
- `unique_unvested_equity_grant_for_year`, `fmv_per_share_in_usd` and `equity_enabled?` are persistence lookups. They are inputs here.
- The tRPC route `equityCalculations` that mirrors the calculator is not part of this model.
- BigDecimal's finite precision in the division at line 25 is not modelled; the quotient is exact. The exact quotient cents·den / (100·num) is either exactly a half-integer or at least 1/(200·num) away from one. For any stored price that gap is far larger than the error at BigDecimal's working precision. So rounding the finite-precision quotient gives the same whole number.
- The `Price` type excludes zero and negative share prices. A zero price makes the division at line 25 raise. A negative price divides normally in Ruby: with positive cents the count is negative and the call returns nil at line 33, and with negative cents the count is positive and the call can succeed. Neither case is modelled.
- The line-item cash factor and the client-side equity display in the invoice page (`frontend/app/(dashboard)/invoices/[id]/page.tsx`) are outside the core and not modelled.
- `fetch`, `response.json()`, a thrown error and the placeholder tickets used in the `catch` block are I/O and are not modelled. The model starts from the parsed JSON value.
- `setData` and `setLoading` are React state. `TicketsFromResponse` returns the new list, or `None` where `setData` is not called.
- Parsing of date text and the clock read by `new Date()` are kept abstract in `DateField`.
- JSON numbers are exact reals. A literal that overflows to `Infinity` in JavaScript is not modelled.
- JavaScript's `in` also sees inherited prototype properties. None of the keys the page reads is one of them, so object members are a plain map.
- The table columns, icons and rendering of the page are presentational and are not modelled.
