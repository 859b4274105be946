/** The margin audit over a window of usage rows. */
module Reconcile {
  import opened Sums
  import opened Costs
  import opened Pricing

  datatype Status = Healthy | NegativeMargin | BelowExpected

  datatype Result = Result(our: real, upstream: real, margin: real, marginPct: real, status: Status)

  function MarginPct(our: real, upstream: real): real {
    if our > 0.0 then (our - upstream) / our * 100.0 else 0.0
  }

  function EvaluateMargin(our: real, upstream: real, expectedPct: real): Status {
    if our - upstream < 0.0 then NegativeMargin
    else if upstream > 0.0 && MarginPct(our, upstream) < expectedPct * 0.5 then BelowExpected
    else Healthy
  }

  datatype Row = Row(createdAt: int, completed: bool, cost: real, market: real, upstream: real)

  predicate InWindow(row: Row, since: int) { row.createdAt >= since && row.completed }

  // CASE WHEN market_cost > 0 THEN market_cost ELSE upstream_cost END
  function ProviderCost(row: Row): real { if row.market > 0.0 then row.market else row.upstream }

  function OurShare(since: int): Row -> real { (row: Row) => if InWindow(row, since) then row.cost else 0.0 }
  function ProviderShare(since: int): Row -> real {
    (row: Row) => if InWindow(row, since) then ProviderCost(row) else 0.0
  }

  function ReconcileWindow(rows: seq<Row>, since: int, spread: int): Result {
    var our, upstream := Sum(OurShare(since), rows), Sum(ProviderShare(since), rows);
    Result(our, upstream, our - upstream, MarginPct(our, upstream),
           EvaluateMargin(our, upstream, spread as real))
  }

  // The share of revenue the provider may cost at most.
  function MaxCostShare(expectedPct: real): real { 1.0 - expectedPct / 200.0 }

  lemma ShareAlgebra(our: real, upstream: real, e: real)
    requires our > 0.0
    ensures (our - upstream) / our >= e <==> upstream <= our * (1.0 - e)
  {
    var q := (our - upstream) / our;
    assert q * our == our - upstream;
    if q >= e {
      TermMonotone(our, e, q);
    } else {
      assert (e - q) * our > 0.0;
    }
  }

  lemma PctIsShare(our: real, upstream: real, expectedPct: real)
    requires our > 0.0
    ensures MarginPct(our, upstream) >= expectedPct * 0.5 <==> upstream <= our * MaxCostShare(expectedPct)
  {
    ShareAlgebra(our, upstream, expectedPct / 200.0);
  }

  /** The exact policy: a window is healthy precisely when the provider cost is within revenue and, if there
      is any, within the share of revenue the expected margin allows. It is a loss precisely when the provider
      cost exceeds revenue. */
  lemma HealthyIff(our: real, upstream: real, expectedPct: real)
    ensures EvaluateMargin(our, upstream, expectedPct) == Healthy
            <==> upstream <= our && (upstream > 0.0 ==> upstream <= our * MaxCostShare(expectedPct))
    ensures EvaluateMargin(our, upstream, expectedPct) == NegativeMargin <==> our < upstream
  {
    if our > 0.0 {
      PctIsShare(our, upstream, expectedPct);
    }
  }

  // Completed at or after the start of the window.
  predicate Counts(row: Row, since: int) { row.completed && since <= row.createdAt }

  function Revenue(): Row -> real { (row: Row) => row.cost }
  function Provider(): Row -> real { (row: Row) => if row.market <= 0.0 then row.upstream else row.market }

  // The rows that count, in order.
  function Counted(rows: seq<Row>, since: int): seq<Row> {
    if rows == [] then []
    else
      var last := rows[|rows| - 1];
      Counted(rows[..|rows| - 1], since) + (if Counts(last, since) then [last] else [])
  }

  lemma CountedMore(before: seq<Row>, last: Row, since: int)
    ensures Counted(before + [last], since) == Counted(before, since) + (if Counts(last, since) then [last] else [])
    ensures OurShare(since)(last) == if Counts(last, since) then Revenue()(last) else 0.0
    ensures ProviderShare(since)(last) == if Counts(last, since) then Provider()(last) else 0.0
  {
    assert (before + [last])[..|before|] == before;
  }

  // A measure that is another one's on the rows that count, and nothing on all others.
  lemma OneMoreRow(f: Row -> real, g: Row -> real, before: seq<Row>, last: Row, since: int)
    requires Sum(f, before) == Sum(g, Counted(before, since))
    requires f(last) == if Counts(last, since) then g(last) else 0.0
    ensures Sum(f, before + [last]) == Sum(g, Counted(before + [last], since))
  {
    hide Sum, Counted, Counts;
    var counted := Counted(before, since);
    CountedMore(before, last, since);
    SumAppend(f, before, last);
    if Counts(last, since) {
      SumAppend(g, counted, last);
    } else {
      assert counted + [] == counted;
    }
  }

  lemma {:induction false} WindowIsCounted(rows: seq<Row>, since: int)
    ensures Sum(OurShare(since), rows) == Sum(Revenue(), Counted(rows, since))
    ensures Sum(ProviderShare(since), rows) == Sum(Provider(), Counted(rows, since))
  {
    if rows != [] {
      var before, last := rows[..|rows| - 1], rows[|rows| - 1];
      WindowIsCounted(before, since);
      hide Sum, Counted, Counts, OurShare, ProviderShare, Revenue, Provider;
      CountedMore(before, last, since);
      OneMoreRow(OurShare(since), Revenue(), before, last, since);
      OneMoreRow(ProviderShare(since), Provider(), before, last, since);
      assert rows == before + [last];
    }
  }

  /** What is audited: the plain sums over the rows completed at or after the start of the window, the upstream
      figure standing in where there is no market cost; the margin is their difference, and the percentage that of
      revenue. */
  lemma AuditIsOfTheWindow(rows: seq<Row>, since: int, spread: int)
    ensures
      var audit := ReconcileWindow(rows, since, spread);
      && audit.our == Sum(Revenue(), Counted(rows, since))
      && audit.upstream == Sum(Provider(), Counted(rows, since))
      && audit.margin == audit.our - audit.upstream
      && (audit.our > 0.0 ==> audit.marginPct * audit.our == audit.margin * 100.0)
  {
    hide Sum, Counted, OurShare, ProviderShare, MarginPct;
    WindowIsCounted(rows, since);
    var audit := ReconcileWindow(rows, since, spread);
    if audit.our > 0.0 { PctOfRevenue(audit.our, audit.upstream); }
  }

  lemma PctOfRevenue(our: real, upstream: real)
    requires our > 0.0
    ensures MarginPct(our, upstream) * our == (our - upstream) * 100.0
  {
    var q := (our - upstream) / our;
    assert q * our == our - upstream;
  }

  // A completed row written by FinalizeDeduction for a request priced at `price`.
  ghost predicate PricedAt(row: Row, p: PricingData, spread: int, usage: Option<Usage>) {
    var price := BuildPrice(p, spread);
    && row.cost == ActualCost(price, usage)
    && row.market == MarketCost(price, usage)
    && (row.market == 0.0 ==> row.upstream == 0.0)
  }

  // The listing leaves room for half the spread: it is discounted enough, and its output price as much as
  // its input price.
  predicate Profitable(p: PricingData, spread: int) {
    && p.refInput > 0.0 && p.refOutput >= 0.0
    && p.providerInput == p.refInput * Remaining(p.discount) && p.providerInput > 0.0
    && 0.0 <= p.providerOutput <= p.refOutput * Remaining(p.discount)
    && spread as real / 2.0 <= p.discount < 100.0
  }

  ghost predicate WellPriced(row: Row, spread: int) {
    exists p: PricingData, usage: Option<Usage> ::
      Profitable(p, spread) && NonNegative(usage) && PricedAt(row, p, spread, usage)
  }

  // The provider's share of the reference is at most the user's share times the allowed cost share.
  lemma ShareIsCovered(discount: real, spread: int)
    requires spread > 0 && spread as real / 2.0 <= discount < 100.0
    ensures
      var d := discount - spread as real;
      var keep := Remaining(if d < 0.0 then 0.0 else d);
      && 0.0 < Remaining(discount) <= keep * MaxCostShare(spread as real)
      && 0.0 < keep
      && 0.0 < MaxCostShare(spread as real) <= 1.0
  {
    var s, x := spread as real / 100.0, discount / 100.0;
    if discount - spread as real >= 0.0 {
      var keep := 1.0 - x + s;
      assert s <= x < 1.0;
      assert keep * (1.0 - s / 2.0) == (1.0 - x) + s - s / 2.0 * keep;
      assert s / 2.0 * keep <= s by { TermMonotone(s / 2.0, keep, 2.0); }
    }
  }

  lemma Compose(x: real, part: real, keep: real, share: real)
    requires 0.0 <= x && part <= keep * share
    ensures x * part <= x * keep * share
  {
    TermMonotone(x, part, keep * share);
  }

  lemma ListPricesAreCovered(p: PricingData, spread: int)
    requires spread > 0 && Profitable(p, spread)
    ensures
      var price := BuildPrice(p, spread);
      var share := MaxCostShare(spread as real);
      price.market.input <= price.user.input * share && price.market.output <= price.user.output * share
  {
    var keep, share := Remaining(UserDiscount(p, spread)), MaxCostShare(spread as real);
    ShareIsCovered(p.discount, spread);
    Compose(p.refInput, Remaining(p.discount), keep, share);
    Compose(p.refOutput, Remaining(p.discount), keep, share);
  }

  lemma CachePriceIsCovered(p: PricingData, spread: int)
    requires spread > 0 && Profitable(p, spread) && p.bestCache > 0.0
    ensures
      var cache := BuildPrice(p, spread).user.cache;
      0.0 < p.bestCache <= cache * MaxCostShare(spread as real)
  {
    ShareIsCovered(p.discount, spread);
    ComposeQuotient(p.bestCache, Remaining(p.discount), Remaining(UserDiscount(p, spread)),
                    MaxCostShare(spread as real));
  }

  lemma ComposeQuotient(x: real, part: real, keep: real, share: real)
    requires 0.0 < x && 0.0 < part <= keep * share
    ensures x <= x / part * keep * share
  {
    var q := x / part;
    assert q * part == x && q > 0.0;
    Compose(q, part, keep, share);
  }

  lemma ScaledBelow(market: Rates, user: Rates, share: real)
    requires market.input <= user.input * share && market.output <= user.output * share
    requires if market.cache > 0.0 then market.cache <= user.cache * share else user.cache == 0.0
    ensures Below(market, user.Scale(share))
  {
    if market.cache <= 0.0 {
      assert user.cache * share == 0.0;
    }
  }

  // Rate by rate, the market card is within the allowed share of the user card.
  lemma CardIsCovered(p: PricingData, spread: int)
    requires spread > 0 && Profitable(p, spread)
    ensures
      var price := BuildPrice(p, spread);
      && Below(price.market, price.user.Scale(MaxCostShare(spread as real)))
      && 0.0 <= price.market.input && 0.0 <= price.market.output && 0.0 <= price.market.CacheRate()
  {
    hide MaxCostShare, Remaining, RefCache, UserDiscount;
    var price := BuildPrice(p, spread);
    ListPricesAreCovered(p, spread);
    if p.bestCache > 0.0 {
      CachePriceIsCovered(p, spread);
    }
    ScaledBelow(price.market, price.user, MaxCostShare(spread as real));
  }

  predicate Covered(row: Row, share: real) {
    0.0 <= row.cost && 0.0 <= ProviderCost(row) <= row.cost * share
  }

  lemma RowIsCovered(row: Row, spread: int)
    requires spread > 0 && WellPriced(row, spread)
    ensures Covered(row, MaxCostShare(spread as real))
  {
    var p, usage :| Profitable(p, spread) && NonNegative(usage) && PricedAt(row, p, spread, usage);
    hide BuildPrice, SplitCost, Below, MaxCostShare, Remaining;
    var price := BuildPrice(p, spread);
    var share := MaxCostShare(spread as real);
    ShareIsCovered(p.discount, spread);
    CardIsCovered(p, spread);
    CostScales(price.user, share, usage);
    CostMonotone(price.market, price.user.Scale(share), usage);
    CostIsPositive(price.market, usage);
    PositiveFactor(row.cost, share);
  }

  lemma PositiveFactor(x: real, share: real)
    requires 0.0 <= x * share && 0.0 < share
    ensures 0.0 <= x
  {
  }

  lemma CostIsPositive(rates: Rates, usage: Option<Usage>)
    requires 0.0 <= rates.input && 0.0 <= rates.output && 0.0 <= rates.CacheRate() && NonNegative(usage)
    ensures 0.0 <= SplitCost(rates, usage)
  {
    CostMonotone(Rates(0.0, 0.0, 0.0), rates, usage);
    if usage.Some? {
      assert Total(Uncached(usage.value), Cached(usage.value), Output(usage.value), 0.0, 0.0, 0.0) == 0.0;
    }
  }

  lemma {:induction false} WindowIsCovered(rows: seq<Row>, since: int, share: real)
    requires forall row :: row in rows && InWindow(row, since) ==> Covered(row, share)
    ensures 0.0 <= Sum(OurShare(since), rows)
    ensures 0.0 <= Sum(ProviderShare(since), rows) <= Sum(OurShare(since), rows) * share
  {
    if rows != [] {
      var n := |rows| - 1;
      WindowIsCovered(rows[..n], since, share);
      var cost, market := OurShare(since)(rows[n]), ProviderShare(since)(rows[n]);
      if InWindow(rows[n], since) {
        assert rows[n] in rows;
      }
      assert 0.0 <= cost && 0.0 <= market <= cost * share;
      Accumulate(Sum(OurShare(since), rows[..n]), Sum(ProviderShare(since), rows[..n]), cost, market, share);
    }
  }

  lemma Accumulate(our: real, provider: real, cost: real, market: real, share: real)
    requires provider <= our * share && market <= cost * share
    ensures provider + market <= (our + cost) * share
  {
  }

  /** From the feed to the audit: a request priced off a listing discounted by at least half the spread, on
      its output price too, leaves a row the audit accepts. */
  lemma FeedRowIsWellPriced(m: Listing, catalog: set<string>, spread: int, usage: Option<Usage>, row: Row)
    requires Listed(Price(m), catalog) && NonNegative(usage)
    requires 0.0 <= m.bestOutput && 0.0 <= m.directOutput && Price(m).discount >= spread as real / 2.0
    requires Price(m).providerOutput <= Price(m).refOutput * Remaining(Price(m).discount)
    requires PricedAt(row, Price(m), spread, usage)
    ensures WellPriced(row, spread)
  {
    DiscountTiesInput(m, catalog);
    assert Profitable(Price(m), spread);
  }

  /** Whole-window margin: for any set of rows, however mixed their models and usages, if every completed row
      of the window was priced off a listing that leaves room for half the spread, the audit is healthy. */
  lemma WholeWindowIsHealthy(rows: seq<Row>, since: int, spread: int)
    requires spread > 0
    requires forall row :: row in rows && InWindow(row, since) ==> WellPriced(row, spread)
    ensures ReconcileWindow(rows, since, spread).status == Healthy
    ensures ReconcileWindow(rows, since, spread).margin >= 0.0
  {
    var our, upstream := Sum(OurShare(since), rows), Sum(ProviderShare(since), rows);
    if row :| row in rows && InWindow(row, since) {
      ShareIsPositive(row, spread);
      forall r | r in rows && InWindow(r, since)
        ensures Covered(r, MaxCostShare(spread as real))
      {
        RowIsCovered(r, spread);
      }
      WindowIsCovered(rows, since, MaxCostShare(spread as real));
      CoveredIsHealthy(our, upstream, spread as real);
    } else {
      NothingInWindow(rows, since);
    }
  }

  lemma CoveredIsHealthy(our: real, upstream: real, expectedPct: real)
    requires 0.0 <= our && upstream <= our * MaxCostShare(expectedPct) && MaxCostShare(expectedPct) <= 1.0
    ensures upstream <= our && EvaluateMargin(our, upstream, expectedPct) == Healthy
  {
    TermMonotone(our, MaxCostShare(expectedPct), 1.0);
    HealthyIff(our, upstream, expectedPct);
  }

  // A listing that is for sale: no price is negative, and input is not free.
  predicate ForSale(p: PricingData) {
    Tied(p) && p.refOutput >= 0.0 && p.providerOutput >= 0.0
  }

  // All completed rows of the window were priced off the listing.
  ghost predicate PricedOff(rows: seq<Row>, since: int, p: PricingData, spread: int) {
    forall row :: row in rows && InWindow(row, since) ==>
      exists usage: Option<Usage> :: NonNegative(usage) && PricedAt(row, p, spread, usage)
  }

  // Rate by rate, what the provider charges is within the allowed share of what the user pays.
  predicate WithinShare(p: PricingData, spread: int) {
    var price := BuildPrice(p, spread);
    Below(price.market, price.user.Scale(MaxCostShare(spread as real)))
  }

  lemma CardsArePositive(p: PricingData, spread: int)
    requires ForSale(p) && spread > 0
    ensures
      var price := BuildPrice(p, spread);
      && 0.0 < price.market.input && 0.0 <= price.market.output && 0.0 < price.market.CacheRate()
      && 0.0 < price.user.input && 0.0 <= price.user.output && 0.0 < price.user.CacheRate()
  {
    var keep := Remaining(UserDiscount(p, spread));
    KeepIs(p, spread);
    Pricing.PositiveProduct(p.refInput, Remaining(p.discount));
    UserInputBelow(p, spread);
    Compose(p.refOutput, 0.0, keep, 1.0);
    UserCacheIsPositive(p, spread);
  }

  lemma UserCacheIsPositive(p: PricingData, spread: int)
    requires ForSale(p) && spread > 0
    ensures 0.0 < BuildPrice(p, spread).user.CacheRate()
  {
    hide Remaining, UserDiscount, RefCache, BuildPrice;
    UserInputBelow(p, spread);
    KeepIs(p, spread);
    CacheRatesAre(p, spread);
    if p.bestCache > 0.0 && 0.0 < p.discount {
      QuotientBelow(p.bestCache, Remaining(p.discount), Remaining(UserDiscount(p, spread)));
    }
  }

  lemma ListingCoversRow(row: Row, p: PricingData, spread: int, usage: Option<Usage>)
    requires ForSale(p) && spread > 0 && WithinShare(p, spread) && MaxCostShare(spread as real) > 0.0
    requires NonNegative(usage) && PricedAt(row, p, spread, usage)
    ensures Covered(row, MaxCostShare(spread as real))
  {
    CardsArePositive(p, spread);
    hide BuildPrice, SplitCost, Below, MaxCostShare;
    var price, share := BuildPrice(p, spread), MaxCostShare(spread as real);
    CostScales(price.user, share, usage);
    CostMonotone(price.market, price.user.Scale(share), usage);
    CostIsPositive(price.market, usage);
    PositiveFactor(row.cost, share);
  }

  lemma ShareMustBePositive(p: PricingData, spread: int)
    requires ForSale(p) && spread > 0 && WithinShare(p, spread)
    ensures 0.0 < MaxCostShare(spread as real) <= 1.0
  {
    CardsArePositive(p, spread);
    hide MaxCostShare, BuildPrice;
    var price, share := BuildPrice(p, spread), MaxCostShare(spread as real);
    assert 0.0 < price.user.input * share;
    PositiveShare(price.user.input, share);
    ShareIsAtMostOne(spread);
  }

  lemma PositiveShare(x: real, share: real)
    requires 0.0 < x && 0.0 < x * share
    ensures 0.0 < share
  {
    if share <= 0.0 { TermMonotone(x, share, 0.0); }
  }

  lemma ShareIsAtMostOne(spread: int)
    requires spread > 0
    ensures MaxCostShare(spread as real) <= 1.0
  {
  }

  lemma WindowsOffListing(rows: seq<Row>, since: int, p: PricingData, spread: int)
    requires ForSale(p) && spread > 0 && WithinShare(p, spread) && PricedOff(rows, since, p, spread)
    ensures ReconcileWindow(rows, since, spread).status == Healthy
  {
    hide ForSale, WithinShare, MaxCostShare, PricedAt, EvaluateMargin;
    ShareMustBePositive(p, spread);
    forall row | row in rows && InWindow(row, since)
      ensures Covered(row, MaxCostShare(spread as real))
    {
      var usage :| NonNegative(usage) && PricedAt(row, p, spread, usage);
      ListingCoversRow(row, p, spread, usage);
    }
    WindowIsCovered(rows, since, MaxCostShare(spread as real));
    CoveredIsHealthy(Sum(OurShare(since), rows), Sum(ProviderShare(since), rows), spread as real);
  }

  // The window of a single row.
  lemma SingleRow(row: Row, spread: int)
    requires row.completed
    ensures ReconcileWindow([row], row.createdAt, spread).status
            == EvaluateMargin(row.cost, ProviderCost(row), spread as real)
  {
    SumAppend(OurShare(row.createdAt), [], row);
    SumAppend(ProviderShare(row.createdAt), [], row);
    assert [row] == [] + [row];
  }

  lemma UnhealthyRow(p: PricingData, spread: int, since: int, usage: Option<Usage>) returns (rows: seq<Row>)
    requires ForSale(p) && spread > 0 && NonNegative(usage)
    requires
      var price := BuildPrice(p, spread);
      && MarketCost(price, usage) > ActualCost(price, usage) * MaxCostShare(spread as real)
      && MarketCost(price, usage) > 0.0
    ensures PricedOff(rows, since, p, spread) && ReconcileWindow(rows, since, spread).status != Healthy
  {
    var price := BuildPrice(p, spread);
    var row := Row(since, true, ActualCost(price, usage), MarketCost(price, usage), 0.0);
    rows := [row];
    hide BuildPrice, SplitCost, MaxCostShare, EvaluateMargin;
    SingleRow(row, spread);
    HealthyIff(row.cost, row.market, spread as real);
    assert PricedAt(row, p, spread, usage);
  }

  // A usage that the listing's rates do not cover.
  lemma UncoveredUsage(p: PricingData, spread: int) returns (usage: Option<Usage>)
    requires ForSale(p) && spread > 0 && !WithinShare(p, spread)
    ensures NonNegative(usage)
    ensures
      var price := BuildPrice(p, spread);
      && MarketCost(price, usage) > ActualCost(price, usage) * MaxCostShare(spread as real)
      && MarketCost(price, usage) > 0.0
  {
    CardsArePositive(p, spread);
    hide BuildPrice, SplitCost, MaxCostShare;
    var price, share := BuildPrice(p, spread), MaxCostShare(spread as real);
    if share <= 0.0 {
      usage := Some(Usage(1000000, 0, 0, 0));
      OneMillion(price.market);
      OneMillion(price.user);
      TermMonotone(price.user.input, share, 0.0);
    } else {
      NeverDearerIff(price.market, price.user.Scale(share));
      usage :| NonNegative(usage) && SplitCost(price.market, usage) > SplitCost(price.user.Scale(share), usage);
      CostScales(price.user, share, usage);
      CostIsPositive(price.user, usage);
      TermMonotone(SplitCost(price.user, usage), 0.0, share);
    }
  }

  /** The exact condition on a listing: every window priced off it is healthy if and only if its market card is
      within the allowed share of its user card. */
  lemma ListingIsHealthyIff(p: PricingData, spread: int, since: int)
    requires ForSale(p) && spread > 0
    ensures (forall rows :: PricedOff(rows, since, p, spread) ==>
               ReconcileWindow(rows, since, spread).status == Healthy)
            <==> WithinShare(p, spread)
  {
    hide ForSale, WithinShare, PricedOff, ReconcileWindow;
    if WithinShare(p, spread) {
      forall rows | PricedOff(rows, since, p, spread)
        ensures ReconcileWindow(rows, since, spread).status == Healthy
      {
        WindowsOffListing(rows, since, p, spread);
      }
    } else {
      var usage := UncoveredUsage(p, spread);
      var rows := UnhealthyRow(p, spread, since, usage);
      assert PricedOff(rows, since, p, spread);
    }
  }

  lemma ShareIsPositive(row: Row, spread: int)
    requires spread > 0 && WellPriced(row, spread)
    ensures 0.0 < MaxCostShare(spread as real) <= 1.0
  {
    var p, usage :| Profitable(p, spread) && NonNegative(usage) && PricedAt(row, p, spread, usage);
    ShareIsCovered(p.discount, spread);
  }

  lemma NothingInWindow(rows: seq<Row>, since: int)
    requires forall row :: row in rows ==> !InWindow(row, since)
    ensures Sum(OurShare(since), rows) == 0.0 && Sum(ProviderShare(since), rows) == 0.0
  {
    SumZero(OurShare(since), rows);
    SumZero(ProviderShare(since), rows);
  }

  /** A row whose market cost is zero falls back to the upstream figure, which was never charged: one such row
      with a positive upstream cost and no revenue reads as a loss. */
  lemma ZeroMarketRowReadsAsLoss(upstream: real, spread: int, since: int)
    requires upstream > 0.0
    ensures ReconcileWindow([Row(since, true, 0.0, 0.0, upstream)], since, spread).status == NegativeMargin
  {
    var row := Row(since, true, 0.0, 0.0, upstream);
    SumAppend(OurShare(since), [], row);
    SumAppend(ProviderShare(since), [], row);
    assert [row] == [] + [row];
  }
}
