/** Which reserves and fills a funded ledger takes after any run, said of the orders and
    the balances themselves. */
module LedgerTerms {
  import opened Common
  import opened LedgerModel
  import opened LedgerProofs
  import opened LedgerRuns

  /** Two open orders of one market and opposite sides, the taker that of the current
      message, at a price inside both limits and a quantity neither order lacks. */
  predicate Legal(now: State, f: Fill) {
    && f.taker == now.lastSequence + 1 <= 18_446_744_073_709_551_615 && f.maker != f.taker
    && f.maker in now.reservations && f.taker in now.reservations
    && var maker, taker := now.reservations[f.maker], now.reservations[f.taker];
    && maker.symbol == taker.symbol
    && (|| (maker.side.Sell? && taker.side.Buy? && maker.limitCents <= f.priceCents <= taker.limitCents)
        || (maker.side.Buy? && taker.side.Sell? && taker.limitCents <= f.priceCents <= maker.limitCents))
    && 0 < f.qtyTenths <= maker.remainingTenths && f.qtyTenths <= taker.remainingTenths
  }

  /** After every run whose funding fits, a fill settles if and only if it is legal: price
      improvement is never refused, and a taker of another message always is. */
  lemma LegalFillSettles(s: State, ops: seq<Op>, f: Fill)
    requires Valid(s) && s.mode.FundedSimulation? && FundingFits(s.config.value)
    ensures Apply(Run(s, ops), Settle(f)).Some? <==> Legal(Run(s, ops), f)
  {
    hide Run, Apply, MayFill, Legal, Inv, FundingFits;
    RunKeepsValid(s, ops);
    NoSpuriousFailure(s, ops, f);
    GuardsAreTerms(Run(s, ops), f);
  }

  /** An open order's own limit is positive and its market mapped. */
  lemma GuardsAreTerms(now: State, f: Fill)
    requires Inv(now)
    ensures MayFill(now, f) <==> Legal(now, f)
  {
    hide Conserved, Backed, GoodBalances, ValidConfig, FindMarket, GoodIds;
    if f.maker in now.reservations { assert GoodReservation(now.config.value.markets, now.reservations[f.maker]); }
    if f.taker in now.reservations { assert GoodReservation(now.config.value.markets, now.reservations[f.taker]); }
  }

  /** What the account can still set aside. */
  function Free(now: State, account: nat, asset: string): int {
    if (account, asset) in now.balances then now.balances[(account, asset)].available else 0
  }

  /** The order `id` of the current message, not reserved yet, in the market `m`, which its
      account can cover: limit times quantity in quote, or a hundred per tenth in base. */
  predicate Covered(now: State, id: nat, account: nat, m: MarketAssets, side: Side, limitCents: int, qtyTenths: int) {
    && id == now.lastSequence + 1 <= 18_446_744_073_709_551_615 && id !in now.reservations
    && limitCents > 0 && qtyTenths > 0
    && (side.Buy? ==> limitCents * qtyTenths <= Free(now, account, m.quoteAsset))
    && (side.Sell? ==> 100 * qtyTenths <= Free(now, account, m.baseAsset))
  }

  /** After every run, an order in the market `m` is reserved if and only if it is covered,
      and it moves exactly its cost from free to set aside. */
  lemma CoveredOrderReserves(s: State, ops: seq<Op>, m: MarketAssets, id: nat, account: nat, side: Side,
                             limitCents: int, qtyTenths: int)
    requires Valid(s) && s.mode.FundedSimulation? && m in s.config.value.markets
    ensures var now := Run(s, ops);
            var next := Apply(now, Reserve(id, account, m.symbol, side, limitCents, qtyTenths));
            && (next.Some? <==> Covered(now, id, account, m, side, limitCents, qtyTenths))
            && (next.Some? ==> SetsAside(now, next.value, id, account, m, side, limitCents, qtyTenths))
  {
    hide Run, Inv;
    RunKeepsValid(s, ops);
    CoveredReserves(Run(s, ops), m, id, account, side, limitCents, qtyTenths);
  }

  /** The cost of the order has moved from free to set aside, and nothing else has. */
  predicate SetsAside(now: State, next: State, id: nat, account: nat, m: MarketAssets, side: Side, limitCents: int,
                      qtyTenths: int)
  {
    var cost := if side.Buy? then limitCents * qtyTenths else 100 * qtyTenths;
    var asset := if side.Buy? then m.quoteAsset else m.baseAsset;
    var before := BalanceOf(now.balances, (account, asset));
    && next.balances == now.balances[(account, asset) := Balance(before.available - cost, before.reserved + cost)]
    && next.reservations
       == now.reservations[id := Reservation(id, account, m.symbol, side, limitCents, qtyTenths, asset, cost)]
    && next.lastSequence == now.lastSequence
  }

  lemma CoveredReserves(now: State, m: MarketAssets, id: nat, account: nat, side: Side, limitCents: int, qtyTenths: int)
    requires Inv(now) && now.mode.FundedSimulation? && m in now.config.value.markets
    ensures var next := Apply(now, Reserve(id, account, m.symbol, side, limitCents, qtyTenths));
            && (next.Some? <==> Covered(now, id, account, m, side, limitCents, qtyTenths))
            && (next.Some? ==> SetsAside(now, next.value, id, account, m, side, limitCents, qtyTenths))
  {
    FindsOwn(now.config.value.markets, m);
    GuardsAreCover(now, m, id, account, side, limitCents, qtyTenths);
    hide MayReserve, AfterReserve, SetsAside, Covered, Inv, FindMarket;
    if MayReserve(now, id, account, m.symbol, side, limitCents, qtyTenths) {
      MovesCost(now, m, id, account, side, limitCents, qtyTenths);
    }
  }

  lemma GuardsAreCover(now: State, m: MarketAssets, id: nat, account: nat, side: Side, limitCents: int, qtyTenths: int)
    requires Inv(now) && FindMarket(now.config.value.markets, m.symbol) == Some(m)
    ensures MayReserve(now, id, account, m.symbol, side, limitCents, qtyTenths)
            <==> Covered(now, id, account, m, side, limitCents, qtyTenths)
  {
    BalanceOfGood(now.config.value.markets, now.balances, (account, SideAsset(m, side)));
    hide Conserved, Backed, GoodReservations, GoodBalances, FindMarket, GoodIds, ValidConfig;
    if limitCents > 0 && qtyTenths > 0 { CostNonneg(limitCents, qtyTenths); }
  }

  lemma MovesCost(now: State, m: MarketAssets, id: nat, account: nat, side: Side, limitCents: int, qtyTenths: int)
    requires MayReserve(now, id, account, m.symbol, side, limitCents, qtyTenths)
    requires Market(now, m.symbol) == Some(m)
    ensures SetsAside(now, AfterReserve(now, id, account, m.symbol, side, limitCents, qtyTenths), id, account, m, side,
                      limitCents, qtyTenths)
  {
    hide FindMarket;
  }

  /** Releasing an order that was just reserved takes the ledger back where it was. */
  lemma ReserveThenRelease(s: State, ops: seq<Op>, m: MarketAssets, id: nat, account: nat, side: Side,
                           limitCents: int, qtyTenths: int)
    requires Valid(s) && s.mode.FundedSimulation? && m in s.config.value.markets
    requires Covered(Run(s, ops), id, account, m, side, limitCents, qtyTenths)
    ensures var next := Apply(Run(s, ops), Reserve(id, account, m.symbol, side, limitCents, qtyTenths));
            next.Some? && Apply(next.value, Release(id)) == Some(Run(s, ops))
  {
    CoveredOrderReserves(s, ops, m, id, account, side, limitCents, qtyTenths);
    hide Run, FindMarket;
    var now := Run(s, ops);
    if limitCents > 0 && qtyTenths > 0 { CostNonneg(limitCents, qtyTenths); }
    var asset := if side.Buy? then m.quoteAsset else m.baseAsset;
    assert (account, asset) in now.balances;
    var next := Apply(now, Reserve(id, account, m.symbol, side, limitCents, qtyTenths)).value;
    GivesBack(now, next, id, account, m, side, limitCents, qtyTenths);
  }

  lemma GivesBack(now: State, next: State, id: nat, account: nat, m: MarketAssets, side: Side, limitCents: int,
                  qtyTenths: int)
    requires SetsAside(now, next, id, account, m, side, limitCents, qtyTenths) && id !in now.reservations
    requires (account, if side.Buy? then m.quoteAsset else m.baseAsset) in now.balances
    requires next.mode == now.mode && next.config == now.config
    ensures Apply(next, Release(id)) == Some(now)
  {
    var after := AfterRelease(next, id);
    assert after.balances == now.balances;
    assert after.reservations == now.reservations;
  }

  lemma CostNonneg(limitCents: int, qtyTenths: int)
    requires limitCents > 0 && qtyTenths > 0
    ensures limitCents * qtyTenths > 0
  {}

  /** Symbols name one market each. */
  lemma {:induction false} FindsOwn(markets: seq<MarketAssets>, m: MarketAssets)
    requires m in markets && forall i, j | 0 <= i < j < |markets| :: markets[i].symbol != markets[j].symbol
    ensures FindMarket(markets, m.symbol) == Some(m)
  {
    if markets[0].symbol != m.symbol { FindsOwn(markets[1..], m); }
  }

  // ---------------------------------------------------------------------------
  // What the checkers let through
  // ---------------------------------------------------------------------------

  /** The cost still set aside for an open order is that of what remains of it. */
  predicate Costs(r: Reservation) {
    && r.limitCents > 0 && r.remainingTenths > 0
    && r.units == if r.side.Buy? then r.limitCents * r.remainingTenths else 100 * r.remainingTenths
  }

  /** In a ledger the checkers accept no balance is negative, past an i64 or in an asset no
      market names, and every open order is one of a known market with its own cost set
      aside, in the asset it would pay with. */
  lemma AcceptedLedgerSays(s: State, k: Key, id: nat)
    requires Sound(s)
    ensures k in s.balances ==>
              && 0 <= s.balances[k].available && 0 <= s.balances[k].reserved
              && s.balances[k].available + s.balances[k].reserved <= 9_223_372_036_854_775_807
              && exists m :: m in s.config.value.markets && (k.1 == m.baseAsset || k.1 == m.quoteAsset)
    ensures id in s.reservations ==>
              var r := s.reservations[id];
              && Costs(r)
              && exists m :: m in s.config.value.markets && m.symbol == r.symbol
                             && r.asset == if r.side.Buy? then m.quoteAsset else m.baseAsset
  {
    hide Conserved, Backed, FindMarket;
    if k in s.balances {
      assert Configured(s.config.value.markets, k.1);
      var i :| 0 <= i < |s.config.value.markets|
               && (s.config.value.markets[i].baseAsset == k.1 || s.config.value.markets[i].quoteAsset == k.1);
      assert s.config.value.markets[i] in s.config.value.markets;
    }
    if id in s.reservations { assert GoodReservation(s.config.value.markets, s.reservations[id]); }
  }

  // ---------------------------------------------------------------------------
  // The configuration, entry by entry
  // ---------------------------------------------------------------------------

  /** One to 32 capital letters, digits and one more character. */
  predicate Named(name: string, extra: char) {
    && 1 <= |name| <= 32
    && forall i | 0 <= i < |name| :: 'A' <= name[i] <= 'Z' || '0' <= name[i] <= '9' || name[i] == extra
  }

  predicate NamedMarket(m: MarketAssets) {
    Named(m.symbol, '-') && Named(m.baseAsset, '_') && Named(m.quoteAsset, '_') && m.baseAsset != m.quoteAsset
  }

  lemma NamedIsValid(name: string, extra: char)
    ensures ValidName(name, extra) <==> Named(name, extra)
  {
    if ValidName(name, extra) {
      assert forall i | 0 <= i < |name| :: name[i] in name;
    }
  }

  lemma NamedMarketIsValid(m: MarketAssets)
    ensures NamedMarket(m)
            <==> && ValidName(m.symbol, '-') && ValidName(m.baseAsset, '_') && ValidName(m.quoteAsset, '_')
                 && m.baseAsset != m.quoteAsset
  {
    NamedIsValid(m.symbol, '-');
    NamedIsValid(m.baseAsset, '_');
    NamedIsValid(m.quoteAsset, '_');
  }

  /** One market with no funding is a configuration if and only if its names are, at no fee. */
  lemma OneMarketConfig(m: MarketAssets, feeUnits: int)
    ensures ValidConfig(FundingConfig([m], [], feeUnits)) <==> feeUnits == 0 && NamedMarket(m)
  {
    NamedMarketIsValid(m);
    hide ValidName, Named;
    assert FundingConfig([m], [], feeUnits).markets[0] == m;
  }

  /** One market more, under a symbol of its own. */
  lemma MarketJoinsConfig(c: FundingConfig, m: MarketAssets)
    requires ValidConfig(c)
    ensures ValidConfig(c.(markets := c.markets + [m]))
            <==> NamedMarket(m) && forall i | 0 <= i < |c.markets| :: c.markets[i].symbol != m.symbol
  {
    NamedMarketIsValid(m);
    hide ValidName, Named;
    var more := c.markets + [m];
    assert more[|c.markets|] == m && forall i | 0 <= i < |c.markets| :: more[i] == c.markets[i];
    forall i | 0 <= i < |c.funding| ensures Configured(more, c.funding[i].asset) {
      assert Configured(c.markets, c.funding[i].asset);
    }
  }

  /** One grant more: of a positive amount that fits, in an asset of some market, to an
      account that has none of that asset yet. */
  lemma GrantJoinsConfig(c: FundingConfig, f: Funding)
    requires ValidConfig(c)
    ensures ValidConfig(c.(funding := c.funding + [f]))
            <==> && 0 < f.units <= 9_223_372_036_854_775_807
                 && (exists m :: m in c.markets && (f.asset == m.baseAsset || f.asset == m.quoteAsset))
                 && forall g | g in c.funding :: g.account != f.account || g.asset != f.asset
  {
    hide ValidName;
    var more := c.funding + [f];
    assert more[|c.funding|] == f && forall i | 0 <= i < |c.funding| :: more[i] == c.funding[i];
  }
}
