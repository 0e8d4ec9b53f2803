/**
 * The derived rules of the swap form: what selecting a token and swapping
 * direction do to the chosen pair of tokens, which typed amounts are
 * accepted, when the converted amount is cleared, the balance check, the
 * submit guard and the disabled-button rule, the ledger update applied
 * when a swap completes, and the price list built from the feed.
 */
module SwapRules {
  import opened JsValues
  import opened Seqs
  import opened TokenModal

  /** `parseFloat`, or the `Number(...)` coercion behind `isNaN(value)`:
      left abstract, NaN standing for "not a number". */
  type Parser = string -> Number

  /** The tokens chosen on the "You send" and "You receive" sides. */
  datatype Pair = Pair(from: string, to: string)

  /** `handleSelectToken` on the chosen pair: the side the picker was
      opened for takes the selected token; when that token is the one on
      the other side, the other side takes this side's old token. */
  function Select(p: Pair, side: Side, t: string): (r: Pair)
    ensures side == From ==> r.from == t
    ensures side == To ==> r.to == t
    ensures side == From && t == p.to ==> r == Pair(p.to, p.from)
    ensures side == To && t == p.from ==> r == Pair(p.to, p.from)
    ensures side == From && t != p.to ==> r.to == p.to
    ensures side == To && t != p.from ==> r.from == p.from
    ensures p.from != p.to ==> r.from != r.to
  {
    match side
    case From => Pair(t, if t == p.to then p.from else p.to)
    case To => Pair(if t == p.from then p.to else p.from, t)
  }

  /** The token half of `handleSwap`. */
  function Swap(p: Pair): (r: Pair)
    ensures r.from == p.to && r.to == p.from
    ensures p.from != p.to ==> r.from != r.to
  {
    Pair(p.to, p.from)
  }

  lemma SwapTwice(p: Pair)
    ensures Swap(Swap(p)) == p
    ensures p.from != p.to ==> Swap(p).from != Swap(p).to
  {
  }

  /** One user interaction with the token fields: a click on a currency
      in the picker opened for `side`, or the direction button. */
  datatype Action = Pick(side: Side, currency: string) | Flip

  /** A picker click goes through the picker's guard and, when forwarded,
      through `handleSelectToken`; the direction button swaps. */
  function Step(p: Pair, a: Action): Pair {
    match a
    case Pick(side, currency) =>
      var click := HandleSelect(side, currency, p.from, p.to);
      if click.selected.Some? then Select(p, side, click.selected.value) else p
    case Flip => Swap(p)
  }

  function Run(p: Pair, actions: seq<Action>): Pair
    decreases |actions|
  {
    if actions == [] then p else Run(Step(p, actions[0]), actions[1..])
  }

  /** Whatever the user clicks, in whatever order, the two chosen tokens
      stay distinct. */
  lemma {:induction false} RunKeepsTokensDistinct(p: Pair, actions: seq<Action>)
    requires p.from != p.to
    ensures Run(p, actions).from != Run(p, actions).to
    decreases |actions|
  {
    if actions != [] {
      var q := Step(p, actions[0]);
      if actions[0].Pick? {
        var click := HandleSelect(actions[0].side, actions[0].currency, p.from, p.to);
        if click.selected.Some? {
          assert q == Select(p, actions[0].side, actions[0].currency);
        }
      }
      assert q.from != q.to;
      RunKeepsTokensDistinct(q, actions[1..]);
    }
  }

  /** The picker's guard means a click never reaches the exchanging branch
      of `handleSelectToken`: a picker click changes only the side it was
      opened for, and sets it to the clicked currency unless that is the
      other side's token. */
  lemma PickNeverExchanges(p: Pair, side: Side, currency: string)
    ensures side == From ==> Step(p, Pick(side, currency)).to == p.to
    ensures side == To ==> Step(p, Pick(side, currency)).from == p.from
    ensures side == From && currency != p.to ==> Step(p, Pick(side, currency)).from == currency
    ensures side == To && currency != p.from ==> Step(p, Pick(side, currency)).to == currency
    ensures side == From && currency == p.to ==> Step(p, Pick(side, currency)) == p
    ensures side == To && currency == p.from ==> Step(p, Pick(side, currency)) == p
  {
  }

  /** `handleFromAmountChange`'s test for a typed value: empty, or
      `parseFloat` gives a number that is at least 0 and the whole string
      is numeric. */
  predicate AcceptsAmount(value: string, parseFloat: Parser, toNumber: Parser) {
    value == "" || (parseFloat(value).Finite? && parseFloat(value).value >= 0.0 && toNumber(value).Finite?)
  }

  /** The conversion effect's first test: the amount is empty or "0", or a
      price is missing or zero; then the received amount is cleared. */
  predicate ConversionClears(fromAmount: string, prices: map<string, real>, from: string, to: string) {
    fromAmount == "" || fromAmount == "0" || !Truthy(prices, from) || !Truthy(prices, to)
  }

  const INSUFFICIENT_BALANCE := "Insufficient balance"

  /** The validation effect's decision, from the parsed amount and the
      available balance. */
  function ValidationMessage(amount: Number, balance: real): (r: string)
    ensures r == INSUFFICIENT_BALANCE <==> amount.Finite? && amount.value > 0.0 && amount.value > balance
    ensures r != INSUFFICIENT_BALANCE ==> r == ""
  {
    if amount.NaN? || amount.value <= 0.0 then ""
    else if amount.value > balance then INSUFFICIENT_BALANCE
    else ""
  }

  /** The validation effect on the form's fields: the balance of the
      "from" token is read with `|| 0`. */
  function Validation(parseFloat: Parser, fromAmount: string, balances: map<string, Number>, from: string): string {
    ValidationMessage(parseFloat(fromAmount), OrZero(balances, from))
  }

  /** The balance check in terms of the ledger: an error is shown exactly
      when a positive amount exceeds the "from" balance, a missing or NaN
      balance counting as 0. */
  lemma ValidationFlagsOverdraft(parseFloat: Parser, fromAmount: string, balances: map<string, Number>, from: string)
    ensures Validation(parseFloat, fromAmount, balances, from) != "" <==>
              && parseFloat(fromAmount).Finite?
              && parseFloat(fromAmount).value > 0.0
              && (if from in balances && balances[from].Finite?
                  then parseFloat(fromAmount).value > balances[from].value
                  else true)
  {
  }

  datatype Status = Idle | Loading | Success | Error

  /** `handleSubmit`'s early return. */
  predicate SubmitBlocked(errorMessage: string, fromAmount: string) {
    errorMessage != "" || fromAmount == "" || fromAmount == "0"
  }

  /** `isSubmitDisabled`: the submit guard, or a status other than idle. */
  function SubmitDisabled(errorMessage: string, fromAmount: string, status: Status): (r: bool)
    ensures r <==> SubmitBlocked(errorMessage, fromAmount) || status != Idle
  {
    !(errorMessage == "") || fromAmount == "" || fromAmount == "0" || status != Idle
  }

  /** When the button is enabled and the error message is the validation
      effect's current verdict, the form is idle and a positive amount is
      covered by the "from" balance. */
  lemma EnabledSubmitIsCovered(parseFloat: Parser, fromAmount: string, balances: map<string, Number>,
                               from: string, status: Status)
    requires !SubmitDisabled(Validation(parseFloat, fromAmount, balances, from), fromAmount, status)
    ensures status == Idle
    ensures fromAmount != "" && fromAmount != "0"
    ensures parseFloat(fromAmount).Finite? && parseFloat(fromAmount).value > 0.0 ==>
              from in balances && balances[from].Finite? &&
              parseFloat(fromAmount).value <= balances[from].value
  {
  }

  /** The balance update run when a simulated swap completes:
      `{...prev, [from]: prev[from] - sent, [to]: (prev[to] || 0) + received}`.
      A missing "from" balance is `undefined`, and subtracting from it
      gives NaN. */
  function ApplySwap(prev: map<string, Number>, from: string, to: string, sent: Number, received: Number)
    : (r: map<string, Number>)
    ensures r.Keys == prev.Keys + {from, to}
    ensures forall k :: k in prev && k != from && k != to ==> r[k] == prev[k]
    ensures r[to] == Add(Finite(OrZero(prev, to)), received)
    ensures from != to && from in prev ==> r[from] == Sub(prev[from], sent)
    ensures from != to && from !in prev ==> r[from] == NaN
  {
    var debited := prev[from := Sub(if from in prev then prev[from] else NaN, sent)];
    debited[to := Add(Finite(OrZero(prev, to)), received)]
  }

  ghost predicate AllFinite(m: map<string, Number>) {
    forall k :: k in m ==> m[k].Finite?
  }

  /** A swap between two distinct tokens with a known "from" balance and
      numeric amounts moves exactly `sent` out of `from` and `received`
      into `to`, and keeps a ledger free of NaN. */
  lemma SwapMovesAmounts(prev: map<string, Number>, from: string, to: string, sent: real, received: real)
    requires from != to && from in prev && prev[from].Finite?
    ensures ApplySwap(prev, from, to, Finite(sent), Finite(received))[from] == Finite(prev[from].value - sent)
    ensures ApplySwap(prev, from, to, Finite(sent), Finite(received))[to] == Finite(OrZero(prev, to) + received)
    ensures AllFinite(prev) ==> AllFinite(ApplySwap(prev, from, to, Finite(sent), Finite(received)))
  {
    var r := ApplySwap(prev, from, to, Finite(sent), Finite(received));
    assert r[from].value + sent == prev[from].value;
    assert r[to].value - received == OrZero(prev, to);
  }

  /** Before the price list has arrived, the conversion effect clears the
      received amount, nothing stops a submit, and the completed swap
      writes NaN into the "to" balance (`parseFloat("")` is NaN). */
  lemma UnpricedSwapPoisonsLedger(parseFloat: Parser, prev: map<string, Number>, from: string, to: string,
                                   fromAmount: string)
    requires parseFloat("") == NaN
    ensures ConversionClears(fromAmount, map[], from, to)
    ensures ApplySwap(prev, from, to, parseFloat(fromAmount), parseFloat(""))[to] == NaN
  {
  }

  /** The price feed's usable entries: `item.price` is truthy. */
  predicate Priced(t: Token) {
    t.price.Some? && t.price.value != 0.0
  }

  /** The token list shown in the picker: the feed's priced entries, in
      feed order. */
  function AvailableTokens(items: seq<Token>): (r: seq<Token>)
    ensures IsSubsequence(r, items)
    ensures forall t :: t in r ==> Priced(t)
    ensures forall i :: 0 <= i < |items| && Priced(items[i]) ==> items[i] in r
    ensures forall t :: t in items ==> multiset(r)[t] == if Priced(t) then multiset(items)[t] else 0
  {
    KeepCounts(items, Priced);
    Keep(items, Priced)
  }

  /** The price map built while filtering the feed: each priced entry, in
      feed order, writes its price under its currency, so the last priced
      entry of a currency wins. */
  function PriceMap(items: seq<Token>): (m: map<string, real>)
    ensures forall k :: k in m ==> m[k] != 0.0
    ensures forall i :: 0 <= i < |items| && Priced(items[i]) ==> items[i].currency in m
    ensures forall k :: k in m ==> exists i :: 0 <= i < |items| && Priced(items[i]) && items[i].currency == k
    decreases |items|
  {
    if items == [] then map[]
    else
      var init := items[..|items| - 1];
      var last := items[|items| - 1];
      var m := PriceMap(init);
      assert forall i :: 0 <= i < |init| ==> init[i] == items[i];
      if Priced(last) then m[last.currency := last.price.value] else m
  }

  /** The price recorded for a currency is that of its last priced entry. */
  lemma {:induction false} PriceMapLatest(items: seq<Token>, i: int)
    requires 0 <= i < |items| && Priced(items[i])
    requires forall j :: i < j < |items| && Priced(items[j]) ==> items[j].currency != items[i].currency
    ensures PriceMap(items)[items[i].currency] == items[i].price.value
    decreases |items|
  {
    if i < |items| - 1 {
      var init := items[..|items| - 1];
      PriceMapLatest(init, i);
    }
  }

  /** Every token offered by the picker has a truthy price. */
  lemma PricedTokensHavePrices(items: seq<Token>)
    ensures forall t :: t in AvailableTokens(items) ==> Truthy(PriceMap(items), t.currency)
  {
    forall t | t in AvailableTokens(items) ensures Truthy(PriceMap(items), t.currency) {
      var i :| 0 <= i < |items| && items[i] == t;
    }
  }

  /** Once the feed has loaded, a typed amount between two tokens taken
      from the picker's list is never cleared by the conversion effect. */
  lemma ListedTokensConvert(items: seq<Token>, fromAmount: string, from: Token, to: Token)
    requires from in AvailableTokens(items) && to in AvailableTokens(items)
    requires fromAmount != "" && fromAmount != "0"
    ensures !ConversionClears(fromAmount, PriceMap(items), from.currency, to.currency)
  {
    PricedTokensHavePrices(items);
  }

  /** The loop of the price fetch: filter the feed to its priced entries
      and record each one's price. */
  method CollectPrices(items: seq<Token>) returns (priceMap: map<string, real>, available: seq<Token>)
    ensures priceMap == PriceMap(items)
    ensures available == AvailableTokens(items)
  {
    priceMap, available := map[], [];
    var i := 0;
    while i < |items|
      invariant 0 <= i <= |items|
      invariant priceMap == PriceMap(items[..i])
      invariant available == Keep(items[..i], Priced)
    {
      var item := items[i];
      assert items[..i + 1][..i] == items[..i];
      assert items[..i + 1] == items[..i] + [item];
      KeepSnoc(items[..i], item, Priced);
      if Priced(item) {
        priceMap := priceMap[item.currency := item.price.value];
        available := available + [item];
      }
      i := i + 1;
    }
    assert items[..i] == items;
  }
}
