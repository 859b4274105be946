/** Per-request costs: one token split priced at three sets of rates. Rates are per million tokens. */
module Costs {
  import opened Sums

  const TOKENS_PER_MESSAGE := 500
  const DEFAULT_OUTPUT_TOKENS := 1024

  datatype Usage = Usage(prompt: int, completion: int, reasoning: int, cacheRead: int)

  // Input, output and cache-read price. A cache price of zero or less means there is none.
  datatype Rates = Rates(input: real, output: real, cache: real)
  {
    // Cached tokens are never free: without a cache price they bill at the input rate.
    function CacheRate(): real { if cache <= 0.0 then input else cache }

    function Scale(k: real): Rates { Rates(input * k, output * k, cache * k) }
  }

  datatype ModelPrice = ModelPrice(user: Rates, ref: Rates, market: Rates, discount: real, userDiscount: real)

  function Millions(tokens: int): real { tokens as real / 1000000.0 }

  function ClampCacheRead(cacheRead: int, prompt: int): int {
    if cacheRead < 0 then 0 else if cacheRead > prompt then prompt else cacheRead
  }

  function BillableInput(u: Usage): int {
    var billable := u.prompt - ClampCacheRead(u.cacheRead, u.prompt);
    if billable < 0 then 0 else billable
  }

  function Uncached(u: Usage): real { Millions(BillableInput(u)) }
  function Cached(u: Usage): real { Millions(ClampCacheRead(u.cacheRead, u.prompt)) }
  function Output(u: Usage): real { Millions(u.completion) }

  function SplitCost(rates: Rates, usage: Option<Usage>): real {
    if usage.None? then 0.0
    else
      var u := usage.value;
      Total(Uncached(u), Cached(u), Output(u), rates.input, rates.CacheRate(), rates.output)
  }

  // Uncached, cached and output tokens (in millions), each at its own rate.
  function Total(uncached: real, cached: real, output: real, inRate: real, cacheRate: real, outRate: real): real {
    uncached * inRate + cached * cacheRate + output * outRate
  }

  function ActualCost(price: ModelPrice, usage: Option<Usage>): real { SplitCost(price.user, usage) }
  function RefCost(price: ModelPrice, usage: Option<Usage>): real { SplitCost(price.ref, usage) }
  function MarketCost(price: ModelPrice, usage: Option<Usage>): real { SplitCost(price.market, usage) }

  function EstimateCost(price: ModelPrice, messages: int, maxTokens: Option<int>): real {
    Total(Millions(messages * TOKENS_PER_MESSAGE), 0.0, Millions(AssumedOutput(maxTokens)),
          price.user.input, price.user.CacheRate(), price.user.output)
  }

  function AssumedOutput(maxTokens: Option<int>): int {
    if maxTokens.Some? then maxTokens.value else DEFAULT_OUTPUT_TOKENS
  }

  predicate NonNegative(usage: Option<Usage>) {
    usage.Some? ==> usage.value.prompt >= 0 && usage.value.completion >= 0
  }

  /** The prompt is split without loss, whatever cache count the upstream reports. */
  lemma PromptIsSplit(u: Usage)
    requires u.prompt >= 0
    ensures BillableInput(u) + ClampCacheRead(u.cacheRead, u.prompt) == u.prompt
    ensures 0 <= ClampCacheRead(u.cacheRead, u.prompt) <= u.prompt
    ensures Uncached(u) >= 0.0 && Cached(u) >= 0.0 && Uncached(u) + Cached(u) == Millions(u.prompt)
  {
  }

  /** The charge in tokens: cached tokens, at most the prompt, at the cache rate, or at the input rate when there is
      none; the rest of the prompt at the input rate; the output at the output rate. */
  lemma CostInTokens(rates: Rates, u: Usage)
    ensures
      var millionfold := SplitCost(rates, Some(u)) * 1000000.0;
      var cacheRate := if rates.cache > 0.0 then rates.cache else rates.input;
      var output := u.completion as real * rates.output;
      && (u.cacheRead < 0 && 0 <= u.prompt ==> millionfold == u.prompt as real * rates.input + output)
      && (0 <= u.cacheRead <= u.prompt ==>
            millionfold == (u.prompt - u.cacheRead) as real * rates.input + u.cacheRead as real * cacheRate + output)
      && (0 <= u.cacheRead && u.prompt < u.cacheRead ==> millionfold == u.prompt as real * cacheRate + output)
      && (u.cacheRead < 0 && u.prompt < 0 ==> millionfold == output)
  {
    var full, cached := BillableInput(u), ClampCacheRead(u.cacheRead, u.prompt);
    TotalInTokens(full, cached, u.completion, rates.input, rates.CacheRate(), rates.output);
    assert SplitCost(rates, Some(u)) * 1000000.0
           == full as real * rates.input + cached as real * rates.CacheRate() + u.completion as real * rates.output;
  }

  lemma TotalInTokens(f: int, c: int, o: int, i: real, r: real, p: real)
    ensures Total(Millions(f), Millions(c), Millions(o), i, r, p) * 1000000.0
            == f as real * i + c as real * r + o as real * p
  {
    InTokens(f, i);
    InTokens(c, r);
    InTokens(o, p);
  }

  lemma InTokens(tokens: int, rate: real)
    ensures Millions(tokens) * rate * 1000000.0 == tokens as real * rate
  {
    var q := Millions(tokens);
    assert q * 1000000.0 == tokens as real;
  }

  /** The estimate in tokens: 500 a message at the input rate, and the requested output, or 1024, at the output rate. */
  lemma EstimateInTokens(price: ModelPrice, messages: int, maxTokens: Option<int>)
    ensures
      var output := if maxTokens.Some? then maxTokens.value else 1024;
      EstimateCost(price, messages, maxTokens) * 1000000.0
      == (500 * messages) as real * price.user.input + output as real * price.user.output
  {
    TotalInTokens(messages * TOKENS_PER_MESSAGE, 0, AssumedOutput(maxTokens),
                  price.user.input, price.user.CacheRate(), price.user.output);
  }

  lemma TotalScales(f: real, c: real, o: real, i: real, r: real, p: real, k: real)
    ensures Total(f, c, o, i * k, r * k, p * k) == Total(f, c, o, i, r, p) * k
  {
  }

  /** Scaling all rates by a positive factor scales every cost by it, cache fallback included. */
  lemma CostScales(rates: Rates, k: real, usage: Option<Usage>)
    requires k > 0.0
    ensures SplitCost(rates.Scale(k), usage) == SplitCost(rates, usage) * k
  {
    if usage.Some? {
      var u := usage.value;
      assert rates.cache * k > 0.0 <==> rates.cache > 0.0;
      assert rates.Scale(k).CacheRate() == rates.CacheRate() * k;
      TotalScales(Uncached(u), Cached(u), Output(u), rates.input, rates.CacheRate(), rates.output, k);
    }
  }

  lemma TermMonotone(t: real, a: real, b: real)
    requires 0.0 <= t && a <= b
    ensures t * a <= t * b
  {
  }

  lemma TotalMonotone(f: real, c: real, o: real, i: real, r: real, p: real, i': real, r': real, p': real)
    requires 0.0 <= f && 0.0 <= c && 0.0 <= o && i <= i' && r <= r' && p <= p'
    ensures Total(f, c, o, i, r, p) <= Total(f, c, o, i', r', p')
  {
    TermMonotone(f, i, i');
    TermMonotone(c, r, r');
    TermMonotone(o, p, p');
  }

  // Every rate that can apply is no higher.
  predicate Below(low: Rates, high: Rates) {
    low.input <= high.input && low.output <= high.output && low.CacheRate() <= high.CacheRate()
  }

  lemma CostMonotone(low: Rates, high: Rates, usage: Option<Usage>)
    requires Below(low, high) && NonNegative(usage)
    ensures SplitCost(low, usage) <= SplitCost(high, usage)
  {
    if usage.Some? {
      var u := usage.value;
      PromptIsSplit(u);
      TotalMonotone(Uncached(u), Cached(u), Output(u), low.input, low.CacheRate(), low.output,
                    high.input, high.CacheRate(), high.output);
    }
  }

  /** One rate card is never dearer than another exactly when its input, output and effective cache-read
      rates are all no higher. */
  lemma NeverDearerIff(low: Rates, high: Rates)
    ensures (forall usage :: NonNegative(usage) ==> SplitCost(low, usage) <= SplitCost(high, usage))
            <==> Below(low, high)
  {
    if Below(low, high) {
      forall usage | NonNegative(usage)
        ensures SplitCost(low, usage) <= SplitCost(high, usage)
      {
        CostMonotone(low, high, usage);
      }
    } else {
      OneMillion(low);
      OneMillion(high);
      assert NonNegative(Some(Usage(1000000, 0, 0, 0)));
      assert NonNegative(Some(Usage(0, 1000000, 0, 0)));
      assert NonNegative(Some(Usage(1000000, 0, 0, 1000000)));
    }
  }

  // A million tokens of one kind cost the rate of that kind.
  lemma OneMillion(rates: Rates)
    ensures SplitCost(rates, Some(Usage(1000000, 0, 0, 0))) == rates.input
    ensures SplitCost(rates, Some(Usage(0, 1000000, 0, 0))) == rates.output
    ensures SplitCost(rates, Some(Usage(1000000, 0, 0, 1000000))) == rates.CacheRate()
  {
    assert Millions(1000000) == 1.0 && Millions(0) == 0.0;
    var u, v, w := Usage(1000000, 0, 0, 0), Usage(0, 1000000, 0, 0), Usage(1000000, 0, 0, 1000000);
    assert Uncached(u) == 1.0 && Cached(u) == 0.0 && Output(u) == 0.0;
    assert Uncached(v) == 0.0 && Cached(v) == 0.0 && Output(v) == 1.0;
    assert Uncached(w) == 0.0 && Cached(w) == 1.0 && Output(w) == 0.0;
    UnitTotal(rates.input, rates.CacheRate(), rates.output);
  }

  lemma UnitTotal(i: real, r: real, p: real)
    ensures Total(1.0, 0.0, 0.0, i, r, p) == i
    ensures Total(0.0, 0.0, 1.0, i, r, p) == p
    ensures Total(0.0, 1.0, 0.0, i, r, p) == r
  {
  }

  /** The estimate dominates the charge, whatever cache count is reported: below zero, within the prompt or
      above it. */
  lemma EstimateDominates(price: ModelPrice, messages: int, maxTokens: Option<int>, u: Usage)
    requires 0 <= u.prompt <= messages * TOKENS_PER_MESSAGE
    requires 0 <= u.completion <= AssumedOutput(maxTokens)
    requires 0.0 <= price.user.output && 0.0 <= price.user.input
    requires price.user.CacheRate() <= price.user.input
    ensures ActualCost(price, Some(u)) <= EstimateCost(price, messages, maxTokens)
  {
    PromptIsSplit(u);
    TotalBelow(Uncached(u), Cached(u), Output(u), price.user.input, price.user.CacheRate(), price.user.output,
               Millions(messages * TOKENS_PER_MESSAGE), Millions(AssumedOutput(maxTokens)));
  }

  // A usage within what the estimate assumes.
  predicate Assumed(messages: int, maxTokens: Option<int>, u: Usage) {
    0 <= u.prompt <= messages * TOKENS_PER_MESSAGE && 0 <= u.completion <= AssumedOutput(maxTokens)
  }

  /** The exact condition on a rate card: its estimates cover every charge they assume if and only if input and
      output are not negative and a cached token is not dearer than a fresh one. */
  lemma EstimateDominatesIff(price: ModelPrice)
    ensures (forall messages, maxTokens, u :: Assumed(messages, maxTokens, u) ==>
               ActualCost(price, Some(u)) <= EstimateCost(price, messages, maxTokens))
            <==> 0.0 <= price.user.input && 0.0 <= price.user.output && price.user.CacheRate() <= price.user.input
  {
    hide ActualCost, EstimateCost, Assumed;
    if 0.0 <= price.user.input && 0.0 <= price.user.output && price.user.CacheRate() <= price.user.input {
      forall messages, maxTokens, u | Assumed(messages, maxTokens, u)
        ensures ActualCost(price, Some(u)) <= EstimateCost(price, messages, maxTokens)
      {
        AssumedIsCovered(price, messages, maxTokens, u);
      }
    } else {
      MillionsAreAssumed();
      MillionEstimate(price);
      MillionCharges(price);
    }
  }

  lemma AssumedIsCovered(price: ModelPrice, messages: int, maxTokens: Option<int>, u: Usage)
    requires 0.0 <= price.user.input && 0.0 <= price.user.output && price.user.CacheRate() <= price.user.input
    requires Assumed(messages, maxTokens, u)
    ensures ActualCost(price, Some(u)) <= EstimateCost(price, messages, maxTokens)
  {
    EstimateDominates(price, messages, maxTokens, u);
  }

  lemma MillionsAreAssumed()
    ensures Assumed(2000, Some(1000000), Usage(1000000, 0, 0, 0))
    ensures Assumed(2000, Some(1000000), Usage(0, 1000000, 0, 0))
    ensures Assumed(2000, Some(1000000), Usage(1000000, 1000000, 0, 1000000))
  {
  }

  lemma MillionCharges(price: ModelPrice)
    ensures ActualCost(price, Some(Usage(1000000, 0, 0, 0))) == price.user.input
    ensures ActualCost(price, Some(Usage(0, 1000000, 0, 0))) == price.user.output
    ensures ActualCost(price, Some(Usage(1000000, 1000000, 0, 1000000))) == price.user.CacheRate() + price.user.output
  {
    hide SplitCost;
    OneMillion(price.user);
    CachedMillions(price.user);
  }

  lemma MillionEstimate(price: ModelPrice)
    ensures EstimateCost(price, 2000, Some(1000000)) == price.user.input + price.user.output
  {
    assert Millions(1000000) == 1.0;
  }

  lemma CachedMillions(rates: Rates)
    ensures SplitCost(rates, Some(Usage(1000000, 1000000, 0, 1000000))) == rates.CacheRate() + rates.output
  {
    var u := Usage(1000000, 1000000, 0, 1000000);
    assert Uncached(u) == 0.0 && Cached(u) == 1.0 && Output(u) == 1.0;
  }

  lemma TotalBelow(f: real, c: real, o: real, i: real, r: real, p: real, prompt: real, output: real)
    requires 0.0 <= f && 0.0 <= c && f + c <= prompt && o <= output
    requires r <= i && 0.0 <= i && 0.0 <= p
    ensures Total(f, c, o, i, r, p) <= Total(prompt, 0.0, output, i, r, p)
  {
    TermMonotone(c, r, i);
    Regroup(f, c, f + c, i);
    TermMonotone(i, f + c, prompt);
    TermMonotone(p, o, output);
  }

  lemma Regroup(a: real, b: real, sum: real, rate: real)
    requires a + b == sum
    ensures a * rate + b * rate == sum * rate
  {
  }

  /** More cache reads never cost more, as long as a cached token is not dearer than a fresh one. */
  lemma CostAntitoneInCacheReads(rates: Rates, u: Usage, more: int)
    requires u.prompt >= 0 && u.cacheRead <= more
    requires rates.CacheRate() <= rates.input
    ensures SplitCost(rates, Some(u.(cacheRead := more))) <= SplitCost(rates, Some(u))
  {
    var v := u.(cacheRead := more);
    PromptIsSplit(u);
    PromptIsSplit(v);
    TotalShifts(Uncached(u), Cached(u), Uncached(v), Cached(v), Output(u),
                rates.input, rates.CacheRate(), rates.output);
  }

  lemma TotalShifts(f: real, c: real, f': real, c': real, o: real, i: real, r: real, p: real)
    requires f + c == f' + c' && c <= c' && r <= i
    ensures Total(f', c', o, i, r, p) <= Total(f, c, o, i, r, p)
  {
    var moved := c' - c;
    Regroup(f', moved, f, i);
    Regroup(c, moved, c', r);
    TermMonotone(moved, r, i);
  }

  /** The estimate assumes 500 tokens a message: a longer prompt can cost more than was held for it. */
  lemma LongPromptExceedsEstimate(price: ModelPrice, messages: nat, maxTokens: Option<int>, u: Usage)
    requires price.user.input > 0.0 && u.cacheRead == 0
    requires u.prompt > messages * TOKENS_PER_MESSAGE && u.completion == AssumedOutput(maxTokens)
    ensures ActualCost(price, Some(u)) > EstimateCost(price, messages, maxTokens)
  {
    assert Uncached(u) == Millions(u.prompt) && Cached(u) == 0.0;
    TotalGrows(Millions(messages * TOKENS_PER_MESSAGE), Uncached(u), Output(u),
               price.user.input, price.user.CacheRate(), price.user.output);
  }

  lemma TotalGrows(f: real, f': real, o: real, i: real, r: real, p: real)
    requires f < f' && 0.0 < i
    ensures Total(f, 0.0, o, i, r, p) < Total(f', 0.0, o, i, r, p)
  {
    Regroup(f, f' - f, f', i);
    assert (f' - f) * i > 0.0;
  }
}
