/** The prices of paid model calls and metered tools, in exact arithmetic: rates are dollars
    per thousand tokens or millionths of a dollar per unit, amounts are whole cents. */
module Pricing {
  import opened Wrappers

  datatype PriceList = PriceList(inputRate: real, outputRate: real, maxTotalTokens: int, maxCostUsd: real)

  datatype RawQuote = RawQuote(reserveCents: nat, maxTotalTokens: nat, inputRate: real, outputRate: real, maxCostCents: nat)

  /** The quotes that ModelQuote makes: nonnegative rates that are not both zero, a positive
      token limit and cost cap, and a reserve for the worst case under the cap. */
  type Quote = q: RawQuote | WellFormed(q) witness RawQuote(1, 1, 1.0, 1.0, 1)

  predicate WellFormed(quote: RawQuote) {
    && quote.inputRate >= 0.0 && quote.outputRate >= 0.0
    && quote.inputRate + quote.outputRate > 0.0
    && quote.maxTotalTokens > 0 && quote.maxCostCents > 0
    && quote.reserveCents == Min(quote.maxCostCents,
                                 Ceiling(quote.maxTotalTokens as real * MaxRate(quote.inputRate, quote.outputRate) / 10.0))
  }

  datatype SpendError =
    | InvalidTokenCounts
    | PromptOverTokenLimit
    | PromptOverCostCap
    | NoOutputTokensLeft
    | ReservationOverCap

  function Ceiling(x: real): int { -((-x).Floor) }

  /** The ceiling of x is the least integer that is at least x. */
  lemma CeilingIsLeast(x: real, n: int)
    ensures Ceiling(x) <= n <==> x <= n as real
  {
  }

  lemma CeilingMonotone(x: real, y: real)
    requires x <= y
    ensures Ceiling(x) <= Ceiling(y)
  {
  }

  function MaxRate(a: real, b: real): real { if a >= b then a else b }

  function Min(a: int, b: int): int { if a <= b then a else b }

  /** Dollars to cents, defined when the amount is nonnegative with at most two decimals. */
  function UsdToCents(amount: real): Option<nat> {
    if amount < 0.0 || amount * 100.0 != (amount * 100.0).Floor as real then None
    else Some((amount * 100.0).Floor)
  }

  /** Exactly the whole nonnegative cent amounts convert, each to itself. */
  lemma UsdToCentsExact(amount: real, cents: nat)
    ensures UsdToCents(amount) == Some(cents) <==> amount == cents as real / 100.0
  {
    assert (cents as real).Floor == cents;
  }

  function ModelQuote(prices: PriceList): Option<Quote> {
    match UsdToCents(prices.maxCostUsd)
    case None => None
    case Some(cap) =>
      if prices.inputRate < 0.0 || prices.outputRate < 0.0 || prices.inputRate + prices.outputRate <= 0.0
         || prices.maxTotalTokens <= 0 || cap <= 0
      then None
      else
        var worstCents := prices.maxTotalTokens as real * MaxRate(prices.inputRate, prices.outputRate) / 10.0;
        assert worstCents >= 0.0 by { ProductNonnegative(prices.maxTotalTokens as real, MaxRate(prices.inputRate, prices.outputRate)); }
        Some(RawQuote(Min(cap, Ceiling(worstCents)), prices.maxTotalTokens, prices.inputRate, prices.outputRate, cap))
  }

  lemma ProductNonnegative(a: real, b: real)
    requires a >= 0.0 && b >= 0.0
    ensures a * b >= 0.0
  {
  }

  function Dollars(cents: nat): real { cents as real / 100.0 }

  /** The price list can be used: rates that are not negative and not both zero, a token limit, and
      a cost cap of a positive whole number of cents. */
  ghost predicate Usable(prices: PriceList) {
    && prices.inputRate >= 0.0 && prices.outputRate >= 0.0 && (prices.inputRate > 0.0 || prices.outputRate > 0.0)
    && prices.maxTotalTokens > 0 && exists cap: nat :: cap > 0 && prices.maxCostUsd == Dollars(cap)
  }

  /** A quote is made of exactly the usable price lists, and keeps both rates, the limit and the cap.
      Its reserve is the lesser of the cap and the dearest call of that many tokens, rounded up. */
  lemma ModelQuoteExactly(prices: PriceList, c: int)
    ensures ModelQuote(prices).Some? <==> Usable(prices)
    ensures Usable(prices) ==>
              var quote := ModelQuote(prices).value;
              && quote.inputRate == prices.inputRate && quote.outputRate == prices.outputRate
              && quote.maxTotalTokens == prices.maxTotalTokens && prices.maxCostUsd == Dollars(quote.maxCostCents)
              && (quote.reserveCents <= c
                  <==> prices.maxCostUsd * 100.0 <= c as real
                       || prices.maxTotalTokens as real * MaxRate(prices.inputRate, prices.outputRate) / 10.0 <= c as real)
  {
    var cents := UsdToCents(prices.maxCostUsd);
    if cents.Some? {
      UsdToCentsExact(prices.maxCostUsd, cents.value);
      assert prices.maxCostUsd == Dollars(cents.value);
    }
    if cap: nat :| cap > 0 && prices.maxCostUsd == Dollars(cap) {
      UsdToCentsExact(prices.maxCostUsd, cap);
    }
    CeilingIsLeast(prices.maxTotalTokens as real * MaxRate(prices.inputRate, prices.outputRate) / 10.0, c);
  }

  /** The exact price in cents of a call with these token counts. */
  function CallCents(quote: Quote, prompt: nat, output: nat): real {
    (prompt as real * quote.inputRate + output as real * quote.outputRate) / 10.0
  }

  /** A call that stays within the registered token limit and cost cap. */
  predicate Affordable(quote: Quote, prompt: nat, output: nat) {
    prompt + output <= quote.maxTotalTokens && CallCents(quote, prompt, output) <= quote.maxCostCents as real
  }

  function InputUsd(quote: Quote, prompt: nat): real {
    prompt as real * quote.inputRate / 1000.0
  }

  function CapUsd(quote: Quote): real {
    quote.maxCostCents as real / 100.0
  }

  /** The output tokens that the dollars left after the prompt can buy. */
  function CostLimit(quote: Quote, prompt: nat): int {
    if quote.outputRate > 0.0
    then ((CapUsd(quote) - InputUsd(quote, prompt)) * 1000.0 / quote.outputRate).Floor
    else quote.maxTotalTokens
  }

  function ReservedCents(quote: Quote, prompt: nat, output: nat): int {
    Ceiling((InputUsd(quote, prompt) + output as real * quote.outputRate / 1000.0) * 100.0)
  }

  /** Clamp the output tokens of a paid call and reserve its worst case. */
  function BoundedModelCall(quote: Quote, promptTokens: int, requestedOutputTokens: int): Result<(nat, int), SpendError>
  {
    if promptTokens < 0 || requestedOutputTokens <= 0 then Failure(InvalidTokenCounts)
    else if promptTokens >= quote.maxTotalTokens then Failure(PromptOverTokenLimit)
    else if InputUsd(quote, promptTokens) >= CapUsd(quote) then Failure(PromptOverCostCap)
    else
      var outputTokens := Min(requestedOutputTokens,
                              Min(quote.maxTotalTokens - promptTokens, CostLimit(quote, promptTokens)));
      if outputTokens <= 0 then Failure(NoOutputTokensLeft)
      else
        var reservedCents := ReservedCents(quote, promptTokens, outputTokens);
        if reservedCents > quote.maxCostCents then Failure(ReservationOverCap)
        else Success((outputTokens, reservedCents))
  }

  /** The settled amount of a usage report. */
  function SettledModelCents(quote: Quote, promptUnits: nat, completionUnits: nat): int {
    Ceiling(CallCents(quote, promptUnits, completionUnits))
  }

  lemma QuotientBound(n: real, total: real, rate: real)
    requires rate > 0.0
    ensures n <= total / rate <==> n * rate <= total
  {
    var q := total / rate;
    assert q * rate == total;
    if n <= q {
      assert (q - n) * rate >= 0.0;
    } else {
      assert (n - q) * rate > 0.0;
    }
  }

  /** With a positive output rate, the cost limit is exactly the affordable output. */
  lemma CostLimitIsExact(quote: Quote, prompt: nat, n: nat)
    requires quote.outputRate > 0.0
    ensures n <= CostLimit(quote, prompt) <==> CallCents(quote, prompt, n) <= quote.maxCostCents as real
  {
    var dollars := CapUsd(quote) - InputUsd(quote, prompt);
    QuotientBound(n as real, dollars * 1000.0, quote.outputRate);
    FloorBound(dollars * 1000.0 / quote.outputRate, n);
  }

  lemma FloorBound(x: real, n: int)
    ensures n <= x.Floor <==> n as real <= x
  {
  }

  lemma CallCentsMonotone(quote: Quote, p: nat, c: nat, prompt: nat, output: nat)
    requires p <= prompt && c <= output
    ensures CallCents(quote, p, c) <= CallCents(quote, prompt, output)
  {
    ProductNonnegative((prompt - p) as real, quote.inputRate);
    ProductNonnegative((output - c) as real, quote.outputRate);
    assert (prompt - p) as real * quote.inputRate == prompt as real * quote.inputRate - p as real * quote.inputRate;
    assert (output - c) as real * quote.outputRate == output as real * quote.outputRate - c as real * quote.outputRate;
  }

  /** No call within the token limit costs more than the quote's worst case. */
  lemma CallCentsUnderWorstCase(quote: Quote, prompt: nat, output: nat)
    requires prompt + output <= quote.maxTotalTokens
    ensures CallCents(quote, prompt, output) <= quote.maxTotalTokens as real * MaxRate(quote.inputRate, quote.outputRate) / 10.0
  {
    var top := MaxRate(quote.inputRate, quote.outputRate);
    ProductNonnegative(prompt as real, top - quote.inputRate);
    ProductNonnegative(output as real, top - quote.outputRate);
    ProductNonnegative((quote.maxTotalTokens - prompt - output) as real, top);
    assert prompt as real * (top - quote.inputRate) == prompt as real * top - prompt as real * quote.inputRate;
    assert output as real * (top - quote.outputRate) == output as real * top - output as real * quote.outputRate;
    assert (quote.maxTotalTokens - prompt - output) as real * top
        == quote.maxTotalTokens as real * top - prompt as real * top - output as real * top;
  }

  lemma ReservedIsCeilingOfPrice(quote: Quote, prompt: nat, output: nat)
    ensures ReservedCents(quote, prompt, output) == SettledModelCents(quote, prompt, output)
    ensures InputUsd(quote, prompt) >= CapUsd(quote) <==> CallCents(quote, prompt, 0) >= quote.maxCostCents as real
  {
    assert (InputUsd(quote, prompt) + output as real * quote.outputRate / 1000.0) * 100.0
        == CallCents(quote, prompt, output);
  }

  /** An output count within the code's three limits is affordable, and an affordable one is
      within them. */
  lemma LimitsMeanAffordable(quote: Quote, prompt: nat, n: nat)
    requires InputUsd(quote, prompt) < CapUsd(quote)
    ensures n <= Min(quote.maxTotalTokens - prompt, CostLimit(quote, prompt)) <==> Affordable(quote, prompt, n)
  {
    if quote.outputRate > 0.0 {
      CostLimitIsExact(quote, prompt, n);
    } else {
      ReservedIsCeilingOfPrice(quote, prompt, 0);
      assert CallCents(quote, prompt, n) == CallCents(quote, prompt, 0);
    }
  }

  /** A call is accepted exactly when the counts are valid, one output token is affordable and
      the prompt alone costs less than the cap. The last check, a reservation over the cap,
      never fires. */
  lemma AcceptedExactlyWhenAffordable(quote: Quote, prompt: int, requested: int)
    ensures BoundedModelCall(quote, prompt, requested).Success?
            <==> 0 <= prompt && 0 < requested && Affordable(quote, prompt, 1)
                 && CallCents(quote, prompt, 0) < quote.maxCostCents as real
    ensures BoundedModelCall(quote, prompt, requested) != Failure(ReservationOverCap)
  {
    if 0 <= prompt < quote.maxTotalTokens && 0 < requested {
      ReservedIsCeilingOfPrice(quote, prompt, 0);
      if InputUsd(quote, prompt) < CapUsd(quote) {
        LimitsMeanAffordable(quote, prompt, 1);
        var output := Min(requested, Min(quote.maxTotalTokens - prompt, CostLimit(quote, prompt)));
        if output > 0 {
          LimitsMeanAffordable(quote, prompt, output);
          ReservedIsCeilingOfPrice(quote, prompt, output);
          CeilingIsLeast(CallCents(quote, prompt, output), quote.maxCostCents);
        }
      }
    }
  }

  /** A refusal names the first thing that is wrong. */
  lemma RejectionReasons(quote: Quote, prompt: int, requested: int)
    ensures var r := BoundedModelCall(quote, prompt, requested);
            if prompt < 0 || requested <= 0 then r == Failure(InvalidTokenCounts)
            else if prompt >= quote.maxTotalTokens then r == Failure(PromptOverTokenLimit)
            else if CallCents(quote, prompt, 0) >= quote.maxCostCents as real then r == Failure(PromptOverCostCap)
            else if !Affordable(quote, prompt, 1) then r == Failure(NoOutputTokensLeft)
            else r.Success?
  {
    AcceptedExactlyWhenAffordable(quote, prompt, requested);
    if 0 <= prompt < quote.maxTotalTokens {
      ReservedIsCeilingOfPrice(quote, prompt, 0);
    }
  }

  /** An accepted call gets the largest affordable output count. */
  lemma AcceptedCallIsLargest(quote: Quote, prompt: int, requested: int, n: nat)
    requires BoundedModelCall(quote, prompt, requested).Success?
    ensures var (output, _) := BoundedModelCall(quote, prompt, requested).value;
            && 0 <= prompt && 0 < output <= requested
            && Affordable(quote, prompt, output)
            && (n <= requested && Affordable(quote, prompt, n) ==> n <= output)
  {
    var (output, cents) := BoundedModelCall(quote, prompt, requested).value;
    LimitsMeanAffordable(quote, prompt, output);
    LimitsMeanAffordable(quote, prompt, n);
  }

  /** The reservation is the least whole number of cents c that covers the call, is at most
      the cap and at most the quote's own reserve, and every report (p, r) within the admitted
      token counts settles at or below it. */
  lemma ReservationIsLeastBound(quote: Quote, prompt: int, requested: int, c: int, p: nat, r: nat)
    requires BoundedModelCall(quote, prompt, requested).Success?
    ensures 0 <= prompt
    ensures var (output, cents) := BoundedModelCall(quote, prompt, requested).value;
            && (cents <= c <==> CallCents(quote, prompt, output) <= c as real)
            && 0 <= cents <= quote.maxCostCents && cents <= quote.reserveCents
            && (p <= prompt && r <= output ==> SettledModelCents(quote, p, r) <= cents)
  {
    var (output, cents) := BoundedModelCall(quote, prompt, requested).value;
    AcceptedCallIsLargest(quote, prompt, requested, 0);
    ReservedIsCeilingOfPrice(quote, prompt, output);
    CeilingIsLeast(CallCents(quote, prompt, output), c);
    SettledModelCentsMonotone(quote, 0, 0, prompt, output);
    WorstCaseCoversReservation(quote, prompt, output);
    if p <= prompt && r <= output {
      SettledModelCentsMonotone(quote, p, r, prompt, output);
    }
  }

  lemma SettledModelCentsMonotone(quote: Quote, p: nat, c: nat, prompt: nat, output: nat)
    requires p <= prompt && c <= output
    ensures 0 <= SettledModelCents(quote, p, c) <= SettledModelCents(quote, prompt, output)
  {
    CallCentsMonotone(quote, 0, 0, p, c);
    CallCentsMonotone(quote, p, c, prompt, output);
    CeilingMonotone(0.0, CallCents(quote, p, c));
    CeilingMonotone(CallCents(quote, p, c), CallCents(quote, prompt, output));
  }

  lemma WorstCaseCoversReservation(quote: Quote, prompt: nat, output: nat)
    requires prompt + output <= quote.maxTotalTokens
    requires SettledModelCents(quote, prompt, output) <= quote.maxCostCents
    ensures SettledModelCents(quote, prompt, output) <= quote.reserveCents
  {
    CallCentsUnderWorstCase(quote, prompt, output);
    CeilingMonotone(CallCents(quote, prompt, output),
                    quote.maxTotalTokens as real * MaxRate(quote.inputRate, quote.outputRate) / 10.0);
  }

  /** With a positive output rate a valid request is rejected exactly when no positive output
      count is affordable. */
  lemma RejectedExactlyWhenNothingFits(quote: Quote, prompt: nat, requested: int)
    requires 0 < requested && quote.outputRate > 0.0
    ensures BoundedModelCall(quote, prompt, requested).Failure?
            <==> forall n: nat :: 0 < n <= requested ==> !Affordable(quote, prompt, n)
  {
    AcceptedExactlyWhenAffordable(quote, prompt, requested);
    forall n: nat | 0 < n <= requested && Affordable(quote, prompt, n)
      ensures Affordable(quote, prompt, 1)
    {
      CallCentsMonotone(quote, prompt, 1, prompt, n);
    }
    assert CallCents(quote, prompt, 1) == CallCents(quote, prompt, 0) + quote.outputRate / 10.0;
  }

  /** The prompt alone costs exactly the cap, and output costs nothing. */
  predicate PromptAtCapWithFreeOutput(quote: Quote, prompt: nat) {
    quote.outputRate == 0.0 && prompt < quote.maxTotalTokens && CallCents(quote, prompt, 0) == quote.maxCostCents as real
  }

  ghost predicate NothingFits(quote: Quote, prompt: nat, requested: int) {
    forall n: nat :: 0 < n <= requested ==> !Affordable(quote, prompt, n)
  }

  /** At any output rate, rejection means that nothing fits, except exactly for prompts that cost
      the cap when output is free. */
  lemma RejectionIsExact(quote: Quote, prompt: nat, requested: int)
    requires 0 < requested
    ensures (BoundedModelCall(quote, prompt, requested).Failure? <==> NothingFits(quote, prompt, requested))
            <==> !PromptAtCapWithFreeOutput(quote, prompt)
  {
    AcceptedExactlyWhenAffordable(quote, prompt, requested);
    if quote.outputRate > 0.0 {
      RejectedExactlyWhenNothingFits(quote, prompt, requested);
    } else {
      FreeOutputCostsNothing(quote, prompt, 1);
      forall n: nat | 0 < n <= requested && Affordable(quote, prompt, n) ensures Affordable(quote, prompt, 1) {
        FreeOutputCostsNothing(quote, prompt, n);
      }
    }
  }

  lemma FreeOutputCostsNothing(quote: Quote, prompt: nat, n: nat)
    requires quote.outputRate == 0.0
    ensures CallCents(quote, prompt, n) == CallCents(quote, prompt, 0)
  {
  }

  /** With free output the rejection is wider: a prompt that costs exactly the cap is refused
      although every output count would be affordable. */
  lemma FreeOutputRejectsPromptAtCap()
    ensures var quote := RawQuote(100, 2000, 1.0, 0.0, 100);
            && WellFormed(quote)
            && (forall n: nat :: n <= 1000 ==> Affordable(quote, 1000, n))
            && BoundedModelCall(quote, 1000, 1000) == Failure(PromptOverCostCap)
  {
  }

  // ----- metered tools -----

  datatype ToolPricing = Unmetered | Metered(ratePerUnitMicroUsd: int, maxUnits: int) | Malformed

  /** The worst-case cents, the rate and the maximum of a tool's pricing; None is the error. */
  function MeteredQuote(pricing: ToolPricing): Option<(nat, nat, nat)> {
    match pricing
    case Unmetered => Some((0, 0, 0))
    case Malformed => None
    case Metered(rate, maximum) =>
      if rate <= 0 || maximum <= 0 then None
      else Some((MeteredCents(rate, maximum), rate, maximum))
  }

  function MeteredCents(rate: nat, units: nat): (cents: nat) {
    (rate * units + 9999) / 10000
  }

  /** The rate and the maximum are those of the pricing, and the worst case is their product, in
      millionths of a dollar, rounded up to cents. */
  lemma MeteredQuoteExactly(pricing: ToolPricing, cents: nat, rate: nat, maximum: nat)
    ensures MeteredQuote(pricing) == Some((cents, rate, maximum))
            <==> (pricing == Unmetered && cents == rate == maximum == 0)
                 || (pricing == Metered(rate, maximum) && rate > 0 && maximum > 0
                     && rate * maximum <= 10000 * cents < rate * maximum + 10000)
  {
  }

  /** Metered cents are the exact cost rounded up: the least cents worth at least the usage. */
  lemma MeteredCentsIsCeiling(rate: nat, units: nat, cents: int)
    ensures MeteredCents(rate, units) <= cents <==> rate * units <= cents * 10000
  {
  }

  lemma MeteredCentsMonotone(rate: nat, units: nat, maximum: nat)
    requires units <= maximum
    ensures MeteredCents(rate, units) <= MeteredCents(rate, maximum)
  {
    assert rate * (maximum - units) >= 0;
    assert rate * maximum == rate * units + rate * (maximum - units);
  }
}
