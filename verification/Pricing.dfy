/** From the market feed to the price a user pays: discount, spread, cache-price reconstruction. */
module Pricing {
  import opened Sums
  import opened Costs

  const MICRO := 1000000.0

  // One listing of the market feed, and the pricing record FetchPricing makes of it.
  datatype Listing = Listing(model: string, bestInput: real, bestOutput: real, bestCache: real,
                             directInput: real, directOutput: real)

  datatype PricingData = PricingData(model: string, refInput: real, refOutput: real,
                                     providerInput: real, providerOutput: real, discount: real, bestCache: real)

  function Price(m: Listing): PricingData {
    PricingData(m.model, m.directInput / MICRO, m.directOutput / MICRO, m.bestInput / MICRO, m.bestOutput / MICRO,
                if m.directInput > 0.0 then (1.0 - m.bestInput / m.directInput) * 100.0 else 0.0,
                m.bestCache / MICRO)
  }

  // 1 - pct/100
  function Remaining(pct: real): real { 1.0 - pct / 100.0 }

  function UserDiscount(p: PricingData, spread: int): real {
    var d := p.discount - spread as real;
    if d < 0.0 then 0.0 else d
  }

  function RefCache(p: PricingData): real {
    if p.bestCache > 0.0 && 0.0 < p.discount < 100.0 then
      (assert Remaining(p.discount) > 0.0; p.bestCache / Remaining(p.discount))
    else 0.0
  }

  // calculateUserPrice and the ModelPrice updatePrices builds from it.
  function BuildPrice(p: PricingData, spread: int): ModelPrice {
    var keep := Remaining(UserDiscount(p, spread));
    var userCache := if p.bestCache > 0.0 && 0.0 < p.discount < 100.0 then RefCache(p) * keep else 0.0;
    ModelPrice(
      Rates(p.refInput * keep, p.refOutput * keep, userCache),
      Rates(p.refInput, p.refOutput, RefCache(p)),
      Rates(p.providerInput, p.providerOutput, p.bestCache),
      p.discount, UserDiscount(p, spread))
  }

  // The rows updatePrices lets through: neither price is free, and the model is in the catalog.
  predicate Listed(p: PricingData, catalog: set<string>) {
    p.refInput > 0.0 && p.providerInput > 0.0 && p.model in catalog
  }

  /** A listed row's discount is below 100 points and ties the provider's input price to the reference, in the
      listing as in the record, whose prices are the listing's divided by a million. */
  lemma DiscountTiesInput(m: Listing, catalog: set<string>)
    requires Listed(Price(m), catalog)
    ensures
      var p := Price(m);
      && p.discount < 100.0 && p.providerInput == p.refInput * Remaining(p.discount)
      && m.bestInput * 100.0 == m.directInput * (100.0 - p.discount)
      && p.refInput * 1000000.0 == m.directInput && p.refOutput * 1000000.0 == m.directOutput
      && p.providerInput * 1000000.0 == m.bestInput && p.providerOutput * 1000000.0 == m.bestOutput
      && p.bestCache * 1000000.0 == m.bestCache
  {
    var p := Price(m);
    var ratio := m.bestInput / m.directInput;
    assert ratio > 0.0 && ratio * m.directInput == m.bestInput;
    assert Remaining(p.discount) == ratio;
    assert p.refInput * ratio == m.directInput * ratio / MICRO;
  }

  /** The user's rate card is the reference card times (1 - userDiscount/100), cache price included. */
  lemma UserCardIsScaled(p: PricingData, spread: int)
    ensures
      var price := BuildPrice(p, spread);
      price.user == price.ref.Scale(Remaining(price.userDiscount))
  {
  }

  /** The spread is the margin: where the provider's discount is at least the spread, the user pays, on input and on
      cached tokens, exactly `spread` points of the reference price more than the provider; where it is smaller but
      not negative, the user pays the reference price. The reference cache price stands to the provider's as the
      reference input price does. */
  lemma SpreadIsTheMargin(m: Listing, catalog: set<string>, spread: int)
    requires Listed(Price(m), catalog) && spread > 0
    ensures
      var p := Price(m);
      var price := BuildPrice(p, spread);
      var points := spread as real / 100.0;
      && price.market == Rates(p.providerInput, p.providerOutput, p.bestCache)
      && price.ref.input == p.refInput && price.ref.output == p.refOutput
      && (p.discount >= spread as real ==>
            && price.userDiscount == p.discount - spread as real
            && price.user.input - price.market.input == points * price.ref.input
            && price.user.output == price.ref.output * (1.0 - p.discount / 100.0 + points)
            && (p.bestCache > 0.0 ==> price.user.cache - price.market.cache == points * price.ref.cache))
      && (p.discount < spread as real ==> price.user == price.ref && price.userDiscount == 0.0)
      && (p.discount > 0.0 && p.bestCache > 0.0 ==>
            price.ref.cache * price.market.input == price.market.cache * price.ref.input)
  {
    var p := Price(m);
    var price := BuildPrice(p, spread);
    DiscountTiesInput(m, catalog);
    if p.discount > 0.0 && p.bestCache > 0.0 {
      assert price.ref.cache * Remaining(p.discount) == p.bestCache;
      Swap(price.ref.cache, p.refInput, Remaining(p.discount));
    }
  }

  lemma Swap(x: real, y: real, z: real)
    ensures x * (y * z) == (x * z) * y
  {
  }

  /** Exact scaling: for every listed row and every usage, with and without cached tokens, the charge is the
      reference cost times (1 - userDiscount/100). */
  lemma ExactScaling(m: Listing, catalog: set<string>, spread: int, usage: Option<Usage>)
    requires Listed(Price(m), catalog) && spread > 0
    ensures
      var price := BuildPrice(Price(m), spread);
      && 0.0 < Remaining(price.userDiscount) <= 1.0
      && ActualCost(price, usage) == Remaining(price.userDiscount) * RefCost(price, usage)
  {
    var p := Price(m);
    var price := BuildPrice(p, spread);
    DiscountTiesInput(m, catalog);
    UserCardIsScaled(p, spread);
    CostScales(price.ref, Remaining(price.userDiscount), usage);
  }

  lemma DivideThenMultiply(x: real, d: real, k: real)
    requires x > 0.0 && 0.0 < d <= k
    ensures x <= x / d * k
  {
    var q := x / d;
    assert q * d == x && q > 0.0;
    TermMonotone(q, d, k);
  }

  lemma LargerFactor(x: real, a: real, b: real)
    requires x > 0.0
    ensures x * a <= x * b <==> a <= b
  {
    if a <= b {
      TermMonotone(x, a, b);
    } else {
      PositiveProduct(x, a - b);
    }
  }

  lemma PositiveProduct(x: real, y: real)
    requires x > 0.0 && y > 0.0
    ensures x * y > 0.0
  {
  }

  // The factor the user's prices keep of the reference.
  lemma KeepIs(p: PricingData, spread: int)
    requires p.discount < 100.0 && spread > 0
    ensures 0.0 < Remaining(UserDiscount(p, spread)) <= 1.0
    ensures Remaining(p.discount) <= Remaining(UserDiscount(p, spread)) <==> p.discount >= 0.0
    ensures p.discount == 0.0 ==> Remaining(UserDiscount(p, spread)) == 1.0 == Remaining(p.discount)
    ensures Remaining(UserDiscount(p, spread)) == 1.0 <==> UserDiscount(p, spread) == 0.0
    ensures Remaining(p.discount) > 0.0
  {
  }

  // What a record of the feed satisfies once its row is listed.
  predicate Tied(p: PricingData) {
    && p.refInput > 0.0 && p.discount < 100.0
    && p.providerInput == p.refInput * Remaining(p.discount)
  }

  lemma MarketInputIff(p: PricingData, spread: int)
    requires Tied(p) && spread > 0
    ensures p.providerInput <= BuildPrice(p, spread).user.input <==> p.discount >= 0.0
  {
    KeepIs(p, spread);
    LargerFactor(p.refInput, Remaining(p.discount), Remaining(UserDiscount(p, spread)));
  }

  // Without a reconstructed cache price the user's cached tokens cost the input rate.
  lemma MarketCacheIff(p: PricingData, spread: int)
    requires Tied(p) && spread > 0 && p.discount >= 0.0
    ensures BuildPrice(p, spread).market.CacheRate() <= BuildPrice(p, spread).user.CacheRate()
            <==> p.discount > 0.0 || p.bestCache <= p.providerInput
  {
    hide Remaining, UserDiscount, RefCache, BuildPrice;
    var keep := Remaining(UserDiscount(p, spread));
    KeepIs(p, spread);
    PositiveProduct(p.refInput, Remaining(p.discount));
    MarketInputIff(p, spread);
    CacheRatesAre(p, spread);
    if p.discount == 0.0 {
      AtListPrice(p, spread);
    } else if p.bestCache > 0.0 {
      DivideThenMultiply(p.bestCache, Remaining(p.discount), keep);
    }
  }

  lemma AtListPrice(p: PricingData, spread: int)
    requires Tied(p) && spread > 0 && p.discount == 0.0
    ensures BuildPrice(p, spread).user.input == p.refInput == p.providerInput
  {
  }

  lemma UserOutputIff(p: PricingData, spread: int)
    requires p.discount < 100.0 && spread > 0
    ensures BuildPrice(p, spread).user.output <= p.refOutput
            <==> p.refOutput >= 0.0 || UserDiscount(p, spread) == 0.0
  {
    var keep := Remaining(UserDiscount(p, spread));
    KeepIs(p, spread);
    if p.refOutput > 0.0 {
      LargerFactor(p.refOutput, keep, 1.0);
    } else if p.refOutput < 0.0 {
      LargerFactor(-p.refOutput, 1.0, keep);
      assert -p.refOutput * keep == -(p.refOutput * keep);
    }
  }

  lemma UserInputBelow(p: PricingData, spread: int)
    requires Tied(p) && spread > 0
    ensures 0.0 < BuildPrice(p, spread).user.input <= p.refInput
  {
    var keep := Remaining(UserDiscount(p, spread));
    KeepIs(p, spread);
    LargerFactor(p.refInput, keep, 1.0);
    PositiveProduct(p.refInput, keep);
  }

  lemma UserCacheBelow(p: PricingData, spread: int)
    requires Tied(p) && spread > 0
    ensures BuildPrice(p, spread).user.CacheRate() <= BuildPrice(p, spread).ref.CacheRate()
  {
    hide Remaining, UserDiscount, RefCache, BuildPrice;
    UserInputBelow(p, spread);
    KeepIs(p, spread);
    CacheRatesAre(p, spread);
    if p.bestCache > 0.0 && 0.0 < p.discount {
      QuotientBelow(p.bestCache, Remaining(p.discount), Remaining(UserDiscount(p, spread)));
    }
  }

  lemma CacheRatesAre(p: PricingData, spread: int)
    requires p.discount < 100.0 && Remaining(p.discount) > 0.0
    ensures
      var price := BuildPrice(p, spread);
      && price.ref.input == p.refInput && price.market.input == p.providerInput && price.market.cache == p.bestCache
      && if p.bestCache > 0.0 && 0.0 < p.discount then
           && price.ref.cache == p.bestCache / Remaining(p.discount)
           && price.user.cache == (p.bestCache / Remaining(p.discount)) * Remaining(UserDiscount(p, spread))
         else price.ref.cache == 0.0 == price.user.cache
  {
  }

  lemma QuotientBelow(x: real, d: real, k: real)
    requires x > 0.0 && d > 0.0 && 0.0 < k <= 1.0
    ensures 0.0 < (x / d) * k <= x / d
  {
    var q := x / d;
    assert q * d == x;
    assert q > 0.0;
    LargerFactor(q, k, 1.0);
    PositiveProduct(q, k);
  }

  // The row sells no usage below its market cost, as far as its rates tell.
  predicate CoversMarket(p: PricingData, spread: int) {
    && p.discount >= 0.0
    && p.providerOutput <= BuildPrice(p, spread).user.output
    && (p.discount > 0.0 || p.bestCache <= p.providerInput)
  }

  lemma MarketBelowIff(p: PricingData, spread: int)
    requires Tied(p) && spread > 0
    ensures Below(BuildPrice(p, spread).market, BuildPrice(p, spread).user) <==> CoversMarket(p, spread)
  {
    hide UserDiscount, RefCache, Remaining;
    MarketInputIff(p, spread);
    if p.discount >= 0.0 { MarketCacheIff(p, spread); }
  }

  lemma UserBelowRefIff(p: PricingData, spread: int)
    requires Tied(p) && spread > 0
    ensures Below(BuildPrice(p, spread).user, BuildPrice(p, spread).ref)
            <==> p.refOutput >= 0.0 || UserDiscount(p, spread) == 0.0
  {
    hide UserDiscount, RefCache, Remaining;
    UserInputBelow(p, spread);
    UserOutputIff(p, spread);
    UserCacheBelow(p, spread);
  }

  /** A listed row sells no usage below its market cost if and only if its discount is not negative, its
      provider output price is within the user's, and, at discount 0 only, its cache price is within its input
      price. */
  lemma MarketIsCoveredIff(m: Listing, catalog: set<string>, spread: int)
    requires Listed(Price(m), catalog) && spread > 0
    ensures
      var price := BuildPrice(Price(m), spread);
      (forall usage :: NonNegative(usage) ==> MarketCost(price, usage) <= ActualCost(price, usage))
      <==> CoversMarket(Price(m), spread)
  {
    hide Price, BuildPrice, SplitCost, Below, CoversMarket;
    DiscountTiesInput(m, catalog);
    ListedIsTied(m, catalog);
    var price := BuildPrice(Price(m), spread);
    MarketBelowIff(Price(m), spread);
    NeverDearerIff(price.market, price.user);
    if forall usage :: NonNegative(usage) ==> MarketCost(price, usage) <= ActualCost(price, usage) {
      forall usage | NonNegative(usage) ensures SplitCost(price.market, usage) <= SplitCost(price.user, usage) {
        assert MarketCost(price, usage) <= ActualCost(price, usage);
      }
    }
  }

  lemma ListedIsTied(m: Listing, catalog: set<string>)
    requires Listed(Price(m), catalog)
    ensures Tied(Price(m))
  {
    DiscountTiesInput(m, catalog);
  }

  /** A listed row charges no usage above its reference cost if and only if its reference output price is not
      negative or it gives no discount. */
  lemma ReferenceIsKeptIff(m: Listing, catalog: set<string>, spread: int)
    requires Listed(Price(m), catalog) && spread > 0
    ensures
      var price := BuildPrice(Price(m), spread);
      (forall usage :: NonNegative(usage) ==> ActualCost(price, usage) <= RefCost(price, usage))
      <==> m.directOutput >= 0.0 || price.userDiscount == 0.0
  {
    hide BuildPrice, SplitCost, Below, Remaining, UserDiscount;
    ListedIsTied(m, catalog);
    var price := BuildPrice(Price(m), spread);
    UserBelowRefIff(Price(m), spread);
    DiscountIs(Price(m), spread);
    NeverDearerIff(price.user, price.ref);
    if forall usage :: NonNegative(usage) ==> ActualCost(price, usage) <= RefCost(price, usage) {
      forall usage | NonNegative(usage) ensures SplitCost(price.user, usage) <= SplitCost(price.ref, usage) {
        assert ActualCost(price, usage) <= RefCost(price, usage);
      }
    }
  }

  lemma DiscountIs(p: PricingData, spread: int)
    ensures BuildPrice(p, spread).userDiscount == UserDiscount(p, spread)
  {
  }

  /** Ordering: on every usage, market cost <= charge <= reference cost, if and only if the row covers its
      market and keeps its reference. */
  lemma CostsAreOrderedIff(m: Listing, catalog: set<string>, spread: int)
    requires Listed(Price(m), catalog) && spread > 0
    ensures
      var price := BuildPrice(Price(m), spread);
      (forall usage :: NonNegative(usage) ==>
         MarketCost(price, usage) <= ActualCost(price, usage) <= RefCost(price, usage))
      <==> CoversMarket(Price(m), spread) && (m.directOutput >= 0.0 || price.userDiscount == 0.0)
  {
    hide BuildPrice, MarketCost, ActualCost, RefCost, CoversMarket, Price;
    MarketIsCoveredIff(m, catalog, spread);
    ReferenceIsKeptIff(m, catalog, spread);
    var price := BuildPrice(Price(m), spread);
    if forall usage :: NonNegative(usage) ==>
         MarketCost(price, usage) <= ActualCost(price, usage) <= RefCost(price, usage) {
      forall usage | NonNegative(usage) ensures MarketCost(price, usage) <= ActualCost(price, usage) {}
      forall usage | NonNegative(usage) ensures ActualCost(price, usage) <= RefCost(price, usage) {}
    }
  }

  /** A listing dearer than its reference price (a negative discount) is sold at the reference price, below
      what it costs: the discount must not be negative. */
  lemma NegativeDiscountSellsAtLoss(m: Listing, catalog: set<string>, spread: int)
    requires Listed(Price(m), catalog) && spread > 0 && m.bestInput > m.directInput
    ensures
      var price := BuildPrice(Price(m), spread);
      && price.userDiscount == 0.0
      && !forall usage :: NonNegative(usage) ==> MarketCost(price, usage) <= ActualCost(price, usage)
  {
    var p := Price(m);
    var price := BuildPrice(p, spread);
    var ratio := m.bestInput / m.directInput;
    assert ratio * m.directInput == m.bestInput;
    assert ratio > 1.0;
    assert p.discount < 0.0;
    assert price.user.input == p.refInput < p.providerInput;
    NeverDearerIff(price.market, price.user);
  }

  // ---- The sync worker: rows are upserted one by one, each upsert may fail ----

  datatype PriceRow = PriceRow(price: ModelPrice, active: bool)

  // The model_prices table and the Redis price cache.
  datatype Book = Book(rows: map<string, PriceRow>, cache: map<string, ModelPrice>)

  datatype Terms = Terms(catalog: set<string>, spread: int)

  // What becomes of a row: the upsert fails, or the cache write after it does, or both succeed.
  datatype WriteFate = UpsertFails | CacheFails | Saved

  type Fates = nat -> WriteFate

  predicate Written(m: Listing, fate: WriteFate, terms: Terms) {
    !fate.UpsertFails? && Listed(Price(m), terms.catalog)
  }

  function Upsert(b: Book, m: Listing, fate: WriteFate, terms: Terms): Book {
    if Written(m, fate, terms) then
      var price := BuildPrice(Price(m), terms.spread);
      Book(b.rows[m.model := PriceRow(price, true)], if fate.Saved? then b.cache[m.model := price] else b.cache)
    else b
  }

  function UpsertAll(b: Book, list: seq<Listing>, fates: Fates, terms: Terms): Book {
    if list == [] then b
    else
      var n := |list| - 1;
      Upsert(UpsertAll(b, list[..n], fates, terms), list[n], fates(n), terms)
  }

  // Models outside the catalog are deactivated, unless that query fails.
  function Sweep(b: Book, terms: Terms, swept: bool): Book {
    if !swept then b
    else b.(rows := map model | model in b.rows ::
              if model in terms.catalog then b.rows[model] else b.rows[model].(active := false))
  }

  // The feed lists the model in the catalog and at positive input prices.
  predicate OnSale(m: Listing, catalog: set<string>) {
    m.model in catalog && m.directInput > 0.0 && m.bestInput > 0.0
  }

  lemma OnSaleIsListed(m: Listing, catalog: set<string>)
    ensures OnSale(m, catalog) <==> Listed(Price(m), catalog)
  {
    assert m.directInput / MICRO * MICRO == m.directInput;
    assert m.bestInput / MICRO * MICRO == m.bestInput;
  }

  ghost predicate FromFeed(price: ModelPrice, model: string, terms: Terms) {
    exists m: Listing ::
      OnSale(m, terms.catalog) && m.model == model && price == BuildPrice(Price(m), terms.spread)
  }

  // Every active row and every cached price is one that BuildPrice made of a listed row of the feed.
  ghost predicate AllFromFeed(b: Book, terms: Terms) {
    && (forall model :: model in b.rows && b.rows[model].active ==> FromFeed(b.rows[model].price, model, terms))
    && (forall model :: model in b.cache ==> FromFeed(b.cache[model], model, terms))
  }

  /** Whatever writes fail, only prices built from listed rows ever become active or cached, so the cost
      theorems hold of every price in use. */
  lemma {:induction false} OnlyListedPrices(b: Book, list: seq<Listing>, fates: Fates, terms: Terms, swept: bool)
    requires AllFromFeed(b, terms)
    ensures AllFromFeed(UpsertAll(b, list, fates, terms), terms)
    ensures AllFromFeed(Sweep(UpsertAll(b, list, fates, terms), terms, swept), terms)
  {
    if list != [] {
      var n := |list| - 1;
      OnlyListedPrices(b, list[..n], fates, terms, swept);
      OnSaleIsListed(list[n], terms.catalog);
      if Written(list[n], fates(n), terms) {
        assert FromFeed(BuildPrice(Price(list[n]), terms.spread), list[n].model, terms);
      }
    }
  }

  /** The last listing of a model whose upsert went through decides its active row, and its cached price if it
      was cached too. */
  lemma {:induction false} LastWriteWins(
      b: Book, list: seq<Listing>, fates: Fates, terms: Terms, swept: bool, i: nat)
    requires i < |list| && OnSale(list[i], terms.catalog) && !fates(i).UpsertFails?
    requires forall j :: i < j < |list| && list[j].model == list[i].model ==>
      !OnSale(list[j], terms.catalog) || fates(j).UpsertFails?
    ensures
      var now := Sweep(UpsertAll(b, list, fates, terms), terms, swept);
      var price := BuildPrice(Price(list[i]), terms.spread);
      && list[i].model in now.rows && now.rows[list[i].model] == PriceRow(price, true)
      && (fates(i).Saved? ==> list[i].model in now.cache && now.cache[list[i].model] == price)
  {
    hide BuildPrice;
    var n := |list| - 1;
    OnSaleIsListed(list[n], terms.catalog);
    if i < n {
      LastWriteWins(b, list[..n], fates, terms, swept, i);
    }
  }

  /** The last listing of a model that was cached decides its cached price, whatever cache writes fail after it. */
  lemma {:induction false} LastCachedWins(
      b: Book, list: seq<Listing>, fates: Fates, terms: Terms, swept: bool, i: nat)
    requires i < |list| && OnSale(list[i], terms.catalog) && fates(i).Saved?
    requires forall j :: i < j < |list| && list[j].model == list[i].model ==>
      !OnSale(list[j], terms.catalog) || !fates(j).Saved?
    ensures
      var now := Sweep(UpsertAll(b, list, fates, terms), terms, swept);
      list[i].model in now.cache && now.cache[list[i].model] == BuildPrice(Price(list[i]), terms.spread)
  {
    hide BuildPrice;
    var n := |list| - 1;
    OnSaleIsListed(list[n], terms.catalog);
    if i < n {
      LastCachedWins(b, list[..n], fates, terms, swept, i);
    }
  }

  /** A model of which nothing is written keeps its row, and one of which nothing is cached its cached price. */
  lemma {:induction false} OthersStay(
      b: Book, list: seq<Listing>, fates: Fates, terms: Terms, model: string)
    ensures
      var now := UpsertAll(b, list, fates, terms);
      && ((forall j :: 0 <= j < |list| && list[j].model == model && OnSale(list[j], terms.catalog) ==>
             fates(j).UpsertFails?) ==>
            (model in now.rows <==> model in b.rows) && (model in b.rows ==> now.rows[model] == b.rows[model]))
      && ((forall j :: 0 <= j < |list| && list[j].model == model && OnSale(list[j], terms.catalog) ==>
             !fates(j).Saved?) ==>
            (model in now.cache <==> model in b.cache) && (model in b.cache ==> now.cache[model] == b.cache[model]))
  {
    if list != [] {
      var n := |list| - 1;
      hide BuildPrice;
      OnSaleIsListed(list[n], terms.catalog);
      OthersStay(b, list[..n], fates, terms, model);
    }
  }

  /** A swept book has no active row outside the catalog, whatever was active before; the sweep removes no row, changes
      no price and no row of the catalog. */
  lemma SweptIsCurated(b: Book, list: seq<Listing>, fates: Fates, terms: Terms, model: string)
    ensures
      var was := UpsertAll(b, list, fates, terms);
      var now := Sweep(was, terms, true);
      && (model in now.rows && now.rows[model].active ==> model in terms.catalog)
      && (model in now.rows <==> model in was.rows)
      && (model in was.rows ==> now.rows[model].price == was.rows[model].price)
      && (model in was.rows && model in terms.catalog ==> now.rows[model] == was.rows[model])
      && now.cache == was.cache && Sweep(was, terms, false) == was
  {
  }

  class PriceSync {
    const catalog: set<string>
    const spread: int
    var rows: map<string, PriceRow>
    var cache: map<string, ModelPrice>

    function State(): Book
      reads this
    {
      Book(rows, cache)
    }

    constructor (catalog: set<string>, spread: int)
      ensures this.catalog == catalog && State() == Book(map[], map[])
      ensures this.spread == if spread > 0 then spread else 20
    {
      this.catalog := catalog;
      this.spread := if spread <= 0 then 20 else spread;
      rows, cache := map[], map[];
    }

    /** FetchPricing: one pricing record per listing, in order. */
    method FetchPricing(list: seq<Listing>) returns (prices: seq<PricingData>)
      ensures |prices| == |list|
      ensures forall i :: 0 <= i < |list| ==> prices[i] == Price(list[i])
    {
      prices := [];
      for i := 0 to |list|
        invariant |prices| == i
        invariant forall j :: 0 <= j < i ==> prices[j] == Price(list[j])
      {
        var m := list[i];
        var discountPct := 0.0;
        if m.directInput > 0.0 {
          discountPct := (1.0 - m.bestInput / m.directInput) * 100.0;
        }
        prices := prices + [PricingData(m.model, m.directInput / MICRO, m.directOutput / MICRO,
                                        m.bestInput / MICRO, m.bestOutput / MICRO, discountPct, m.bestCache / MICRO)];
      }
    }

    /** updatePrices: skip, upsert, cache, row by row; then the catalog sweep. */
    method UpdatePrices(list: seq<Listing>, fates: Fates, swept: bool)
      modifies this
      ensures State() == Sweep(UpsertAll(old(State()), list, fates, Terms(catalog, spread)), Terms(catalog, spread),
                               swept)
    {
      var prices := FetchPricing(list);
      for i := 0 to |prices|
        invariant State() == UpsertAll(old(State()), list[..i], fates, Terms(catalog, spread))
      {
        assert list[..i + 1][..i] == list[..i];
        var p := prices[i];
        if p.refInput <= 0.0 || p.providerInput <= 0.0 || p.model !in catalog {
          continue;
        }
        if fates(i).UpsertFails? {
          continue;
        }
        var price := BuildPrice(p, spread);
        rows := rows[p.model := PriceRow(price, true)];
        if fates(i).Saved? { cache := cache[p.model := price]; }
      }
      assert list[..|list|] == list;
      if !swept { return; }
      rows := map model | model in rows ::
        if model in catalog then rows[model] else rows[model].(active := false);
    }
  }
}
