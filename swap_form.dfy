/**
 * The swap form's state and its handlers. Every handler of the form, each
 * React effect and each `setTimeout` callback is one method; the effects
 * and timer callbacks are called explicitly, in whatever order the event
 * loop would run them.
 */
module SwapForm {
  import opened JsValues
  import opened TokenModal
  import opened SwapRules

  /** A scheduled `setTimeout` callback. The swap timer holds the values
      its closure captured at the moment the swap was submitted. */
  datatype Timer =
    | SwapTimer(from: string, to: string, fromAmount: string, toAmount: string)
    | ResetTimer

  /** The whole state of the form, as one value. */
  datatype FormState = FormState(
    prices: map<string, real>,
    tokens: seq<Token>,
    balances: map<string, Number>,
    fromToken: string,
    toToken: string,
    fromAmount: string,
    toAmount: string,
    isModalOpen: bool,
    modalType: Side,
    errorMessage: string,
    submitStatus: Status,
    pending: seq<Timer>)

  /** The mock balances the ledger starts from: nine tokens, each with a
      positive number, the initial pair ETH and USDC among them. */
  function MockUserBalances(): (r: map<string, Number>)
    ensures |r| == 9
    ensures "ETH" in r && "USDC" in r
    ensures forall k :: k in r ==> r[k].Finite? && r[k].value > 0.0
  {
    map[
      "ETH" := Finite(10.5), "USDC" := Finite(5000.0), "WBTC" := Finite(0.2),
      "USDT" := Finite(10000.0), "BNB" := Finite(50.0), "MATIC" := Finite(2500.0),
      "AVAX" := Finite(300.0), "SOL" := Finite(150.0), "ZIL" := Finite(50000.0)]
  }

  /** The timers that can be outstanding in each status when every submit
      is gated by the Confirm button's `disabled` rule: idle has none,
      loading has the swap, success has the reset, and an error (from the
      price fetch) may have interrupted either. The form as written does
      not keep this, because its token buttons also submit. */
  predicate TimersMatchStatus(status: Status, pending: seq<Timer>) {
    match status
    case Idle => pending == []
    case Loading => |pending| == 1 && pending[0].SwapTimer?
    case Success => pending == [ResetTimer]
    case Error => |pending| <= 1
  }

  class Form {
    const parseFloat: Parser
    const toNumber: Parser

    var prices: map<string, real>
    var tokens: seq<Token>
    var balances: map<string, Number>
    var fromToken: string
    var toToken: string
    var fromAmount: string
    var toAmount: string
    var isModalOpen: bool
    var modalType: Side
    var errorMessage: string
    var submitStatus: Status
    var pending: seq<Timer>

    /** The two chosen tokens differ, and every token the picker offers
        has a price. */
    ghost predicate Valid()
      reads this
    {
      && fromToken != toToken
      && forall t :: t in tokens ==> Truthy(prices, t.currency)
    }

    /** The submit status moves idle, loading, success, idle, with the
        matching timer outstanding. */
    ghost predicate InFlight()
      reads this
    {
      TimersMatchStatus(submitStatus, pending)
    }

    /** `fromAmount` is empty or parses to a number that is not negative. */
    ghost predicate AmountAccepted()
      reads this
    {
      fromAmount == "" || (parseFloat(fromAmount).Finite? && parseFloat(fromAmount).value >= 0.0)
    }

    ghost function State(): FormState
      reads this
    {
      FormState(prices, tokens, balances, fromToken, toToken, fromAmount, toAmount,
                isModalOpen, modalType, errorMessage, submitStatus, pending)
    }

    /** The chosen pair of tokens. */
    function Chosen(): Pair
      reads this
    {
      Pair(fromToken, toToken)
    }

    /** The Confirm button's `disabled` attribute, `isSubmitDisabled`. */
    function SubmitIsDisabled(): (r: bool)
      reads this
      ensures r <==> SubmitBlocked(errorMessage, fromAmount) || submitStatus != Idle
    {
      SubmitDisabled(errorMessage, fromAmount, submitStatus)
    }

    /** The initial render. */
    constructor (parseFloat: Parser, toNumber: Parser)
      ensures Valid() && InFlight() && AmountAccepted()
      ensures this.parseFloat == parseFloat && this.toNumber == toNumber
      ensures State() == FormState(map[], [], MockUserBalances(), "ETH", "USDC", "", "",
                                   false, From, "", Idle, [])
    {
      this.parseFloat := parseFloat;
      this.toNumber := toNumber;
      prices, tokens, balances := map[], [], MockUserBalances();
      fromToken, toToken := "ETH", "USDC";
      fromAmount, toAmount := "", "";
      isModalOpen, modalType := false, From;
      errorMessage, submitStatus := "", Idle;
      pending := [];
    }

    /** The price fetch succeeded with the feed `items`. */
    method PricesLoaded(items: seq<Token>)
      requires Valid()
      modifies this
      ensures Valid() && (old(InFlight()) ==> InFlight())
      ensures old(AmountAccepted()) ==> AmountAccepted()
      ensures State() == old(State()).(prices := PriceMap(items), tokens := AvailableTokens(items))
    {
      var priceMap, available := CollectPrices(items);
      PricedTokensHavePrices(items);
      prices, tokens := priceMap, available;
    }

    /** The price fetch failed. */
    method PricesFailed()
      requires Valid()
      modifies this
      ensures Valid() && (old(InFlight()) ==> InFlight())
      ensures old(AmountAccepted()) ==> AmountAccepted()
      ensures State() == old(State()).(submitStatus := Error)
    {
      submitStatus := Error;
    }

    /** `handleFromAmountChange`: the typed value is kept only when it is
        empty or a non-negative number. */
    method ChangeFromAmount(value: string)
      requires Valid()
      modifies this
      ensures Valid() && (old(InFlight()) ==> InFlight())
      ensures old(AmountAccepted()) ==> AmountAccepted()
      ensures AcceptsAmount(value, parseFloat, toNumber) ==> State() == old(State()).(fromAmount := value)
      ensures !AcceptsAmount(value, parseFloat, toNumber) ==> State() == old(State())
      ensures AcceptsAmount(value, parseFloat, toNumber) ==> AmountAccepted()
    {
      if AcceptsAmount(value, parseFloat, toNumber) {
        fromAmount := value;
      }
    }

    /** `openModal`. */
    method OpenModal(side: Side)
      requires Valid()
      modifies this
      ensures Valid() && (old(InFlight()) ==> InFlight())
      ensures old(AmountAccepted()) ==> AmountAccepted()
      ensures State() == old(State()).(modalType := side, isModalOpen := true)
    {
      modalType, isModalOpen := side, true;
    }

    /** The picker's `onClose`. */
    method CloseModal()
      requires Valid()
      modifies this
      ensures Valid() && (old(InFlight()) ==> InFlight())
      ensures old(AmountAccepted()) ==> AmountAccepted()
      ensures State() == old(State()).(isModalOpen := false)
    {
      isModalOpen := false;
    }

    /** `handleSelectToken`: only the two token fields change. */
    method SelectToken(token: string)
      requires Valid()
      modifies this
      ensures Valid() && (old(InFlight()) ==> InFlight())
      ensures old(AmountAccepted()) ==> AmountAccepted()
      ensures Chosen() == Select(old(Chosen()), modalType, token)
      ensures State() == old(State()).(fromToken := fromToken, toToken := toToken)
    {
      if modalType == From {
        if token == toToken {
          toToken := fromToken;
        }
        fromToken := token;
      } else {
        if token == fromToken {
          fromToken := toToken;
        }
        toToken := token;
      }
    }

    /** A click on `currency` in the picker: its `handleSelect` forwards
        the currency to `handleSelectToken` unless it is the other side's
        token, then closes the picker. Any currency and any picker state
        are allowed, a superset of the clicks the rendered picker can
        produce: rows of `FilteredTokens` while it is open. */
    method ChooseInModal(currency: string)
      requires Valid()
      modifies this
      ensures Valid() && (old(InFlight()) ==> InFlight())
      ensures old(AmountAccepted()) ==> AmountAccepted()
      ensures Chosen() == Step(old(Chosen()), Pick(old(modalType), currency))
      ensures !isModalOpen
      ensures State() == old(State()).(fromToken := fromToken, toToken := toToken, isModalOpen := false)
    {
      var click := HandleSelect(modalType, currency, fromToken, toToken);
      if click.selected.Some? {
        SelectToken(click.selected.value);
      }
      if click.close {
        CloseModal();
      }
    }

    /** `handleSwap`: the tokens change places and the received amount
        becomes the amount sent. */
    method SwapDirection()
      requires Valid()
      modifies this
      ensures Valid() && (old(InFlight()) ==> InFlight())
      ensures AmountAccepted() <==>
                old(toAmount) == "" || (parseFloat(old(toAmount)).Finite? && parseFloat(old(toAmount)).value >= 0.0)
      ensures Chosen() == Swap(old(Chosen()))
      ensures State() == old(State()).(fromToken := old(toToken), toToken := old(fromToken), fromAmount := old(toAmount))
    {
      fromToken, toToken, fromAmount := toToken, fromToken, toAmount;
    }

    /** The conversion effect. `converted` is the formatted result of the
        price arithmetic; it is used only when the amount parses. */
    method ConvertEffect(converted: string)
      requires Valid()
      modifies this
      ensures Valid() && (old(InFlight()) ==> InFlight())
      ensures old(AmountAccepted()) ==> AmountAccepted()
      ensures ConversionClears(fromAmount, prices, fromToken, toToken) ==> State() == old(State()).(toAmount := "")
      ensures !ConversionClears(fromAmount, prices, fromToken, toToken) && parseFloat(fromAmount).NaN? ==>
                State() == old(State())
      ensures !ConversionClears(fromAmount, prices, fromToken, toToken) && parseFloat(fromAmount).Finite? ==>
                State() == old(State()).(toAmount := converted)
    {
      if ConversionClears(fromAmount, prices, fromToken, toToken) {
        toAmount := "";
        return;
      }
      var amount := parseFloat(fromAmount);
      if amount.NaN? {
        return;
      }
      toAmount := converted;
    }

    /** The validation effect. */
    method ValidateEffect()
      requires Valid()
      modifies this
      ensures Valid() && (old(InFlight()) ==> InFlight())
      ensures old(AmountAccepted()) ==> AmountAccepted()
      ensures State() == old(State()).(errorMessage := Validation(parseFloat, fromAmount, balances, fromToken))
    {
      errorMessage := ValidationMessage(parseFloat(fromAmount), OrZero(balances, fromToken));
    }

    /** `handleSubmit`: unless blocked, the status becomes loading and the
        swap timer is scheduled with the current tokens and amounts. */
    method Submit()
      requires Valid()
      modifies this
      ensures Valid() && (old(AmountAccepted()) ==> AmountAccepted())
      ensures old(InFlight()) && old(submitStatus) == Idle ==> InFlight()
      ensures SubmitBlocked(old(errorMessage), old(fromAmount)) ==> State() == old(State())
      ensures !SubmitBlocked(old(errorMessage), old(fromAmount)) ==>
                State() == old(State()).(submitStatus := Loading,
                                         pending := old(pending) + [SwapTimer(fromToken, toToken, fromAmount, toAmount)])
    {
      if SubmitBlocked(errorMessage, fromAmount) {
        return;
      }
      submitStatus := Loading;
      pending := pending + [SwapTimer(fromToken, toToken, fromAmount, toAmount)];
    }

    /** A click on the Confirm button. It is `disabled` by
        `isSubmitDisabled`, and a disabled button submits nothing. */
    method ClickConfirm()
      requires Valid()
      modifies this
      ensures Valid() && (old(InFlight()) ==> InFlight())
      ensures old(AmountAccepted()) ==> AmountAccepted()
      ensures SubmitDisabled(old(errorMessage), old(fromAmount), old(submitStatus)) ==> State() == old(State())
      ensures !SubmitDisabled(old(errorMessage), old(fromAmount), old(submitStatus)) ==>
                old(submitStatus) == Idle &&
                State() == old(State()).(submitStatus := Loading,
                                         pending := old(pending) + [SwapTimer(fromToken, toToken, fromAmount, toAmount)])
    {
      if !SubmitIsDisabled() {
        Submit();
      }
    }

    /** As written: a click on a token button. The button has no `type`
        inside the form, so it is a submit button that is never disabled:
        the click opens the picker and then runs `handleSubmit`. */
    method ClickTokenButtonAsWritten(side: Side)
      requires Valid()
      modifies this
      ensures Valid() && (old(AmountAccepted()) ==> AmountAccepted())
      ensures old(InFlight()) && old(submitStatus) == Idle ==> InFlight()
      ensures SubmitBlocked(old(errorMessage), old(fromAmount)) ==>
                State() == old(State()).(modalType := side, isModalOpen := true)
      ensures !SubmitBlocked(old(errorMessage), old(fromAmount)) ==>
                State() == old(State()).(modalType := side, isModalOpen := true, submitStatus := Loading,
                                         pending := old(pending) + [SwapTimer(fromToken, toToken, fromAmount, toAmount)])
    {
      OpenModal(side);
      Submit();
    }

    /** As written: Enter in the amount field. Implicit submission clicks
        the form's default button, its first submit button, which is the
        "from" token button. */
    method PressEnterAsWritten()
      requires Valid()
      modifies this
      ensures Valid() && (old(AmountAccepted()) ==> AmountAccepted())
      ensures old(InFlight()) && old(submitStatus) == Idle ==> InFlight()
      ensures SubmitBlocked(old(errorMessage), old(fromAmount)) ==>
                State() == old(State()).(modalType := From, isModalOpen := true)
      ensures !SubmitBlocked(old(errorMessage), old(fromAmount)) ==>
                State() == old(State()).(modalType := From, isModalOpen := true, submitStatus := Loading,
                                         pending := old(pending) + [SwapTimer(fromToken, toToken, fromAmount, toAmount)])
    {
      ClickTokenButtonAsWritten(From);
    }

    /** Corrected: a click on a token button (`type="button"`, like the
        direction button) only opens the picker. */
    method ClickTokenButton(side: Side)
      requires Valid()
      modifies this
      ensures Valid() && (old(InFlight()) ==> InFlight())
      ensures old(AmountAccepted()) ==> AmountAccepted()
      ensures State() == old(State()).(modalType := side, isModalOpen := true)
    {
      OpenModal(side);
    }

    /** Corrected: once the token buttons no longer submit, the default
        button is Confirm, and implicit submission does nothing while it
        is disabled. */
    method PressEnter()
      requires Valid()
      modifies this
      ensures Valid() && (old(InFlight()) ==> InFlight())
      ensures old(AmountAccepted()) ==> AmountAccepted()
      ensures SubmitDisabled(old(errorMessage), old(fromAmount), old(submitStatus)) ==> State() == old(State())
      ensures !SubmitDisabled(old(errorMessage), old(fromAmount), old(submitStatus)) ==>
                old(submitStatus) == Idle &&
                State() == old(State()).(submitStatus := Loading,
                                         pending := old(pending) + [SwapTimer(fromToken, toToken, fromAmount, toAmount)])
    {
      ClickConfirm();
    }

    /** The event loop runs the pending timer `i`. The swap timer applies
        the ledger update with its captured values, sets success and
        schedules the reset; the reset returns to idle and clears both
        amounts. */
    method FireTimer(i: nat)
      requires Valid() && i < |pending|
      modifies this
      ensures Valid() && (old(InFlight()) ==> InFlight())
      ensures old(AmountAccepted()) ==> AmountAccepted()
      ensures old(pending[i]).SwapTimer? ==>
                var t := old(pending[i]);
                State() == old(State()).(
                  balances := ApplySwap(old(balances), t.from, t.to, parseFloat(t.fromAmount), parseFloat(t.toAmount)),
                  submitStatus := Success,
                  pending := old(pending[..i] + pending[i + 1..]) + [ResetTimer])
      ensures old(pending[i]).ResetTimer? ==> AmountAccepted()
      ensures old(pending[i]).ResetTimer? ==>
                State() == old(State()).(submitStatus := Idle, fromAmount := "", toAmount := "",
                                         pending := old(pending[..i] + pending[i + 1..]))
    {
      var t := pending[i];
      pending := pending[..i] + pending[i + 1..];
      match t
      case SwapTimer(from, to, sentText, receivedText) =>
        balances := ApplySwap(balances, from, to, parseFloat(sentText), parseFloat(receivedText));
        submitStatus := Success;
        pending := pending + [ResetTimer];
      case ResetTimer =>
        submitStatus := Idle;
        fromAmount := "";
        toAmount := "";
    }
  }

  /** As written: with 10.5 ETH and the amount "1", a click on the "from"
      token button starts the swap; after closing the picker, a second
      click during loading schedules a second swap, and ETH is debited
      twice. */
  method DoubleDebitAsWritten(parseFloat: Parser, toNumber: Parser) returns (swapsScheduled: nat, eth: Number)
    requires parseFloat("1") == Finite(1.0) && toNumber("1") == Finite(1.0)
    ensures swapsScheduled == 2
    ensures eth == Finite(8.5)
  {
    var form := new Form(parseFloat, toNumber);
    form.ChangeFromAmount("1");
    form.ValidateEffect();
    form.ClickTokenButtonAsWritten(From);
    form.CloseModal();
    form.ClickTokenButtonAsWritten(From);
    swapsScheduled := |form.pending|;
    form.FireTimer(0);
    form.FireTimer(0);
    eth := form.balances["ETH"];
  }

  /** Corrected: the same clicks only open the picker, and two Confirm
      clicks schedule one swap, because the second finds the button
      disabled; ETH is debited once. */
  method SingleDebitFixed(parseFloat: Parser, toNumber: Parser) returns (swapsScheduled: nat, eth: Number)
    requires parseFloat("1") == Finite(1.0) && toNumber("1") == Finite(1.0)
    ensures swapsScheduled == 1
    ensures eth == Finite(9.5)
  {
    var form := new Form(parseFloat, toNumber);
    form.ChangeFromAmount("1");
    form.ValidateEffect();
    form.ClickTokenButton(From);
    form.CloseModal();
    form.ClickTokenButton(From);
    form.CloseModal();
    form.ClickConfirm();
    form.ClickConfirm();
    swapsScheduled := |form.pending|;
    form.FireTimer(0);
    eth := form.balances["ETH"];
  }
}
