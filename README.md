# Currency swap form: a Dafny model

This project models the logic of a single-screen currency swap form. The user
picks a "from" token and a "to" token in a search picker. The form converts a
typed amount at live prices, checks the amount against a mock balance, and
simulates a swap whose status goes idle → loading → success → idle. When the
simulated swap completes, the in-memory balance ledger is updated.

Modules, following the program's structure:

- `JsValues`: the JavaScript values the form depends on. `Number` is a finite
  value or NaN. `Sub` and `Add` propagate NaN. `OrZero` is `m[k] || 0` and
  `Truthy` is `!!prices[k]`.
- `Seqs`: `Keep`, which is `Array.prototype.filter`, and the order-preserving
  subsequence relation.
- `TokenModal`: the picker. It holds the case-insensitive substring filter
  `FilteredTokens` and the click guard `HandleSelect`. The guard returns the
  currency to forward, if any, and whether to close the picker.
- `SwapRules`: the rules derived from the form's state, as pure functions.
  These are token selection and direction swap on the chosen pair, the amount
  guard, the conversion-clearing guard, the balance check, the submit guard
  and the disabled-button rule, the ledger update, and the price list built
  from the feed (`CollectPrices`, a loop proved against `PriceMap` and
  `AvailableTokens`).
- `SwapForm`: the class `Form`. Its fields are the form's state fields. It has
  one method per handler, per React effect and per timer callback. `Valid()`
  says that the two chosen tokens differ and that every listed token has a
  price. Every method preserves it. `AmountAccepted()` says that `fromAmount`
  is empty or parses to a number that is not negative. Every method keeps it
  except `SwapDirection`, which copies `toAmount` into `fromAmount`.
  `InFlight()` says that the status and the outstanding timers agree: idle has
  no timer, loading has the swap timer, success has the reset timer. It is not
  an invariant of the form as written, because its token buttons also submit
  (see Findings). Every method that submits only through the Confirm button
  keeps it.

Things worth knowing about the behaviour as modelled:

- `handleSubmit` does not look at the status. Only the Confirm button's
  `disabled` rule does. `Submit` models the handler, and `ClickConfirm` models a
  click on the Confirm button.
- The token button of `CurrencyInput` has no `type` and sits inside the form,
  so it is a submit button that is never disabled. A click on it opens the
  picker and then runs `handleSubmit` (`ClickTokenButtonAsWritten`). Enter in
  the amount field clicks the "from" token button, the form's first submit
  button (`PressEnterAsWritten`). The picker itself is rendered outside the
  form, so its buttons do not submit.
- The swap timer uses the tokens and amounts its closure captured at submit
  time. `SwapTimer` stores them, so later edits during loading do not affect
  the ledger update.
- Through the picker, the exchanging branch of `handleSelectToken` is never
  reached. The picker refuses the other side's token before the handler sees
  it (`PickNeverExchanges`).
- Submitting before the price list has arrived is allowed and writes NaN into
  the "to" balance (`UnpricedSwapPoisonsLedger`). A missing "from" balance
  becomes NaN as well (`ApplySwap`).
- The error status comes only from a failed price fetch, never from a
  submission. The code is followed here.

## Model

| member | source | states |
|---|---|---|
| `JsValues.Sub` | src/problem2/src/App.jsx:131 | the difference is a number exactly when both operands are, and then it adds back to the minuend |
| `JsValues.Add` | src/problem2/src/App.jsx:132 | the sum is a number exactly when both operands are, and then subtracting the addend gives the first operand back |
| `JsValues.Truthy` | src/problem2/src/App.jsx:55-56 | `!!prices[k]`: a price is truthy exactly when it is present and not zero (definition) |
| `Seqs.Keep` | src/problem2/src/components/TokenModal.jsx:17-19 | `filter` keeps an order-preserving subsequence, keeps only elements satisfying the test, keeps every element satisfying it, and keeps everything when all satisfy it |
| `Seqs.KeepCounts` | src/problem2/src/components/TokenModal.jsx:17-19 | `filter` keeps every occurrence of an element that satisfies the test and no occurrence of one that does not: the multiset of the result is the input's restricted to the test |
| `TokenModal.LowerChar` | src/problem2/src/components/TokenModal.jsx:18 | lower-casing maps `A`–`Z` 32 code points up, leaves every other character alone (non-ASCII letters included), and never yields an upper-case letter |
| `TokenModal.ToLower` | src/problem2/src/components/TokenModal.jsx:18 | lower-casing a string keeps its length and lower-cases each character |
| `TokenModal.Includes` | src/problem2/src/components/TokenModal.jsx:18 | `includes`, computed by trying each start position (definition; its meaning is `IncludesIffOccurs`) |
| `TokenModal.OccursAtStart` | src/problem2/src/components/TokenModal.jsx:18 | an occurrence of the search term at position 0 is exactly a prefix match |
| `TokenModal.OccursInTail` | src/problem2/src/components/TokenModal.jsx:18 | an occurrence after position 0 is exactly an occurrence in the tail, one position earlier |
| `TokenModal.IncludesIffOccurs` | src/problem2/src/components/TokenModal.jsx:18 | the computed `includes` holds exactly when the needle occurs at some position of the haystack |
| `TokenModal.Matches` | src/problem2/src/components/TokenModal.jsx:18 | the search test on one token: its lower-cased currency includes the lower-cased term (definition) |
| `TokenModal.FilteredTokens` | src/problem2/src/components/TokenModal.jsx:16-20 | the filtered list is an order-preserving subsequence of the tokens; every kept token matches the search; every matching token is kept, with all its occurrences, and a non-matching one with none |
| `TokenModal.FilteredIffOccurs` | src/problem2/src/components/TokenModal.jsx:17-19 | a token is listed exactly when it is in the list and the lower-cased term occurs in its lower-cased currency |
| `TokenModal.IncludesEmpty` | src/problem2/src/components/TokenModal.jsx:18 | every string includes the empty search term |
| `TokenModal.EmptySearchKeepsAll` | src/problem2/src/components/TokenModal.jsx:17-19 | an empty search term lists every token, in order |
| `TokenModal.SearchIgnoresCase` | src/problem2/src/components/TokenModal.jsx:17-19 | a token whose currency equals the search term up to letter case is listed |
| `TokenModal.HandleSelect` | src/problem2/src/components/TokenModal.jsx:22-34 | a click always closes the picker; it forwards nothing exactly when the currency is the token on the opposite side (`selectedTo` for "from", `selectedFrom` for "to"); otherwise it forwards exactly the clicked currency |
| `SwapRules.Select` | src/problem2/src/App.jsx:100-112 | the picker's side takes the selected token; selecting the other side's token exchanges the two tokens; without that conflict the other side is unchanged; distinct tokens stay distinct |
| `SwapRules.SwapTwice` | src/problem2/src/App.jsx:114-118 | swapping twice restores both tokens, and a swap keeps distinct tokens distinct |
| `SwapRules.Step` | src/problem2/src/App.jsx:100-118 | one user action on the pair: a picker click through the picker's guard and `handleSelectToken`, or the direction button (definition) |
| `SwapRules.Run` | src/problem2/src/App.jsx:100-118 | a sequence of such actions applied in order (definition) |
| `SwapRules.RunKeepsTokensDistinct` | src/problem2/src/App.jsx:100-118 | after any sequence of picker clicks and direction swaps, starting from distinct tokens, the tokens are still distinct |
| `SwapRules.PickNeverExchanges` | src/problem2/src/components/TokenModal.jsx:24-31 | a picker click changes only the side it was opened for; it sets that side to the clicked currency, or changes nothing when the currency is the other side's token |
| `SwapRules.AcceptsAmount` | src/problem2/src/App.jsx:90 | the amount guard: the value is empty, or `parseFloat` gives a number that is not negative and `Number(value)` is not NaN (definition) |
| `SwapRules.ConversionClears` | src/problem2/src/App.jsx:52-57 | the conversion effect clears `toAmount` when the amount is "" or "0" or either token's price is not truthy (definition) |
| `SwapRules.ValidationMessage` | src/problem2/src/App.jsx:76-85 | the message is "Insufficient balance" exactly when the parsed amount is a positive number above the balance; otherwise it is empty |
| `SwapRules.Validation` | src/problem2/src/App.jsx:73-74 | the validation effect's verdict: parse the amount and compare it with `balances[fromToken] \|\| 0` (definition) |
| `SwapRules.ValidationFlagsOverdraft` | src/problem2/src/App.jsx:72-86 | an error is shown exactly when a positive parsed amount exceeds the "from" balance, with a missing or NaN balance counting as 0 |
| `SwapRules.SubmitBlocked` | src/problem2/src/App.jsx:122 | `handleSubmit` returns early when there is an error message or the amount is "" or "0" (definition) |
| `SwapRules.SubmitDisabled` | src/problem2/src/App.jsx:160-164 | the button is disabled exactly when `handleSubmit`'s guard would return early or the status is not idle |
| `SwapRules.EnabledSubmitIsCovered` | src/problem2/src/App.jsx:160-164 | with an up-to-date validation message, an enabled button means the form is idle, the amount is neither empty nor "0", and a positive amount is covered by a present "from" balance |
| `SwapRules.ApplySwap` | src/problem2/src/App.jsx:129-133 | the ledger gains at most the two swapped keys; every other entry is unchanged; "to" becomes `(prev[to] \|\| 0) + received`; a distinct "from" becomes `prev[from] - sent`, or NaN when it was missing |
| `SwapRules.SwapMovesAmounts` | src/problem2/src/App.jsx:129-133 | for distinct tokens, a known "from" balance and numeric amounts, exactly `sent` leaves "from" and `received` reaches "to", and a NaN-free ledger stays NaN-free |
| `SwapRules.UnpricedSwapPoisonsLedger` | src/problem2/src/App.jsx:52-59 | before prices arrive the received amount is cleared, and a completed swap then sets the "to" balance to NaN |
| `SwapRules.Priced` | src/problem2/src/App.jsx:34 | the feed's `item.price` test: a price is present and not zero (definition) |
| `SwapRules.AvailableTokens` | src/problem2/src/App.jsx:33-34 | the listed tokens are an order-preserving subsequence of the feed, all priced, and include every priced entry |
| `SwapRules.PriceMap` | src/problem2/src/App.jsx:32-38 | every recorded price is non-zero; every priced entry's currency is recorded; every recorded currency comes from a priced entry |
| `SwapRules.PriceMapLatest` | src/problem2/src/App.jsx:36 | a currency's recorded price is that of its last priced entry in the feed |
| `SwapRules.PricedTokensHavePrices` | src/problem2/src/App.jsx:32-41 | every token offered by the picker has a truthy price in the price map |
| `SwapRules.ListedTokensConvert` | src/problem2/src/App.jsx:52-59 | once the feed has loaded, an amount other than "" and "0" between two listed tokens is never cleared by the conversion guard |
| `SwapRules.CollectPrices` | src/problem2/src/App.jsx:32-38 | the loop over the feed yields exactly `PriceMap` and `AvailableTokens` of the feed |
| `SwapForm.MockUserBalances` | src/problem2/src/constants/index.js:5-15 | the starting ledger has nine entries, each a positive number, and funds the initial pair ETH and USDC |
| `SwapForm.TimersMatchStatus` | src/problem2/src/App.jsx:124-142 | the timers each status allows when every submit goes through the Confirm button: none when idle, the swap timer when loading, the reset timer on success, at most one after a fetch error (definition) |
| `SwapForm.Form.Valid` | src/problem2/src/App.jsx:100-118 | the class invariant: the two chosen tokens differ, and every token the picker lists has a truthy price (definition; kept by every method) |
| `SwapForm.Form.InFlight` | src/problem2/src/App.jsx:124-142 | the status and the outstanding timers agree, as `TimersMatchStatus` says (definition; kept by every method except the as-written token-button paths and `Submit` outside idle) |
| `SwapForm.Form.SubmitIsDisabled` | src/problem2/src/App.jsx:160-164 | `isSubmitDisabled` on the form's fields: disabled exactly when `handleSubmit`'s guard would return early or the status is not idle |
| `SwapForm.Form.AmountAccepted` | src/problem2/src/App.jsx:88-93 | `fromAmount` is empty or parses to a number that is not negative (definition; kept by every method but `SwapDirection`) |
| `SwapForm.Form.constructor` | src/problem2/src/App.jsx:7-21 | initial state: no prices or tokens, the mock balances, ETH to USDC, empty amounts, picker closed, no error, idle, no timers; `AmountAccepted` and `InFlight` hold |
| `SwapForm.Form.PricesLoaded` | src/problem2/src/App.jsx:32-41 | the price map and the token list are replaced by those built from the feed; nothing else changes |
| `SwapForm.Form.PricesFailed` | src/problem2/src/App.jsx:42-45 | a failed fetch sets the status to error and changes nothing else |
| `SwapForm.Form.ChangeFromAmount` | src/problem2/src/App.jsx:88-93 | an accepted value replaces `fromAmount`, which then satisfies `AmountAccepted`; a rejected one changes nothing |
| `SwapForm.Form.OpenModal` | src/problem2/src/App.jsx:95-98 | records the side and opens the picker |
| `SwapForm.Form.CloseModal` | src/problem2/src/App.jsx:248 | closes the picker and changes nothing else |
| `SwapForm.Form.SelectToken` | src/problem2/src/App.jsx:100-112 | the token pair becomes `Select` of the old pair for the picker's side; nothing else changes; the tokens stay distinct |
| `SwapForm.Form.ChooseInModal` | src/problem2/src/components/TokenModal.jsx:22-34 | the picker's guard composed with `handleSelectToken`: the pair takes one `Step`, the picker is closed, and nothing else changes |
| `SwapForm.Form.SwapDirection` | src/problem2/src/App.jsx:114-118 | the tokens change places and `fromAmount` takes the old `toAmount`; nothing else changes; `AmountAccepted` holds afterwards exactly when the old `toAmount` was empty or parsed to a number that is not negative |
| `SwapForm.Form.ConvertEffect` | src/problem2/src/App.jsx:51-69 | `toAmount` is cleared when the guard fires, kept when the amount does not parse, and otherwise set to the converted value |
| `SwapForm.Form.ValidateEffect` | src/problem2/src/App.jsx:72-86 | `errorMessage` becomes the validation verdict for the current amount, token and balances |
| `SwapForm.Form.Submit` | src/problem2/src/App.jsx:120-127 | a blocked submit changes no state; otherwise the status becomes loading and a swap timer holding the current tokens and amounts is scheduled |
| `SwapForm.Form.ClickConfirm` | src/problem2/src/App.jsx:228-230 | a disabled Confirm button changes nothing; an enabled one starts the swap from idle; `InFlight` is kept |
| `SwapForm.Form.ClickTokenButtonAsWritten` | src/problem2/src/components/CurrencyInput.jsx:35-38 | as written: the click opens the picker for its side and then submits, unless `handleSubmit`'s guard blocks it, whatever the status; `InFlight` is kept only from idle |
| `SwapForm.Form.PressEnterAsWritten` | src/problem2/src/App.jsx:173-189 | as written: Enter in the amount field clicks the "from" token button, with the same effect as `ClickTokenButtonAsWritten(From)` |
| `SwapForm.Form.ClickTokenButton` | src/problem2/src/App.jsx:192-194 | corrected, with `type="button"` as on the direction button: the click only opens the picker, and `InFlight` is kept |
| `SwapForm.Form.PressEnter` | src/problem2/src/App.jsx:228-230 | corrected: Enter clicks the Confirm button, so it does nothing while that button is disabled; `InFlight` is kept |
| `SwapForm.Form.FireTimer` | src/problem2/src/App.jsx:127-142 | the swap timer applies `ApplySwap` to its captured values, sets success and schedules the reset; the reset sets idle and clears both amounts |
| `SwapForm.DoubleDebitAsWritten` | src/problem2/src/components/CurrencyInput.jsx:35-38 | as written: with the mock 10.5 ETH and the amount "1", two clicks on the "from" token button schedule two swaps, and ETH ends at 8.5 |
| `SwapForm.SingleDebitFixed` | src/problem2/src/App.jsx:228-230 | corrected: the same clicks plus two Confirm clicks schedule one swap, and ETH ends at 9.5 |

## Left out

- The price fetch, its JSON decoding, `console.error` and the `try/catch` are I/O. Only their outcomes are modelled, as `PricesLoaded(items)` and `PricesFailed()`. The feed's `date` field is not modelled.
- The conversion arithmetic `(amount * fromPrice) / toPrice` with `toFixed(6)`, and the displayed exchange rate, are floating-point formatting. `ConvertEffect` receives the formatted result as an opaque string.
- `parseFloat` and the `Number(...)` coercion behind `isNaN` are JavaScript numerics. They are abstract functions given to the `Form` constructor. Infinities (`parseFloat("Infinity")`) are not represented.
- TokenModal.LowerChar and TokenModal.ToLower: lower-case ASCII letters only, because full Unicode case mapping is library data. Other characters are left alone, so the filter can differ: JavaScript lower-cases U+212A KELVIN SIGN to "k", so that search term lists "KNC" in the program but not in the model.
- The 1500 ms and 2000 ms delays are time. The caller of `FireTimer(i)` picks which pending timer fires, so no timing order is assumed.
- React scheduling and batching: each handler's updates apply at once, and the effects run only when `ConvertEffect` and `ValidateEffect` are called.
- `SwapForm.Form.Submit`: keeps `InFlight()` only when called from idle, because `handleSubmit` itself does not check the status. `ClickConfirm`, the Confirm button path, keeps it always.
- JsValues.Sub and JsValues.Add: JavaScript numbers are modelled as exact reals, not IEEE doubles, so `-`, `+` and the comparison `amount > balance` in `ValidationMessage` lose rounding. For example, 10.5 - 10.4 is 0.09999999999999964 in JavaScript, so after such a swap an amount of "0.1" shows "Insufficient balance" in the program but not in the model.
- The picker's `searchTerm` state and its input's `onChange` are a parameter of `FilteredTokens`.
- SwapForm.Form.ChooseInModal: accepts any currency in any picker state. The rendered picker only offers clicks on rows of `FilteredTokens` while it is open, so the model allows more clicks than the program can produce, and every property proved for it also holds for the real clicks.
- `modalType` only ever holds "from" or "to", the two values `openModal` is called with, so it is the two-valued `Side`.
- All rendering is presentation and is not modelled. This covers `getSubmitButtonContent`, class strings, icon URLs, image fallbacks, and the read-only "to" input's no-op `onAmountChange`.
- The `CurrencyInput` component's display (`balance.toFixed(2)` and conditional CSS) is presentation and is not modelled. Its token button is modelled, because it submits the form.

## Findings

| source | as written | input that shows it | evidently intended | confidence | as-written member | corrected member |
|---|---|---|---|---|---|---|
| src/problem2/src/components/CurrencyInput.jsx:35-38 | the token button has no `type` inside the form, so it is a submit button that is never disabled: each click (and Enter in the amount field) also runs `handleSubmit`, in any status | mock balances, amount "1", validation up to date; click the "from" token button, close the picker, click it again while loading, fire both timers: two swaps run and ETH goes from 10.5 to 8.5 | `type="button"`, as on the direction button: the token button only opens the picker, and only the Confirm button, disabled while loading, submits | high; not executed | `SwapForm.DoubleDebitAsWritten` | `SwapForm.SingleDebitFixed` |
