/** Every operation keeps the ledger invariant, and on valid ledgers the guards are
    the only ways to fail. */
module LedgerProofs {
  import opened Common
  import Sums
  import opened LedgerModel

  lemma PositiveUnits(side: Side, limitCents: int, qtyTenths: int)
    requires limitCents > 0 && qtyTenths > 0
    ensures Units(side, limitCents, qtyTenths) > 0
  {}

  lemma AllUnitsPositive(markets: seq<MarketAssets>, reservations: Reservations)
    requires GoodReservations(markets, reservations)
    ensures forall id | id in reservations :: reservations[id].units > 0
  {
    forall id | id in reservations ensures reservations[id].units > 0 {
      var r := reservations[id];
      assert GoodReservation(markets, r);
      PositiveUnits(r.side, r.limitCents, r.remainingTenths);
    }
  }

  lemma SideAssetConfigured(markets: seq<MarketAssets>, symbol: string, side: Side)
    requires FindMarket(markets, symbol).Some?
    ensures Configured(markets, SideAsset(FindMarket(markets, symbol).value, side))
  {
    var m := FindMarket(markets, symbol).value;
    var i :| 0 <= i < |markets| && markets[i] == m;
  }

  /** Units moved between the two halves of one balance. */
  lemma MoveConserves(funding: seq<Funding>, balances: Balances, k: Key, units: int)
    requires Conserved(funding, balances)
    ensures Conserved(funding, Adjust(balances, k, -units, units))
  {
    forall asset ensures Total(Adjust(balances, k, -units, units), asset) == Granted(funding, asset) {
      TotalAdjust(balances, k, -units, units, asset);
    }
  }

  lemma ReserveKeepsBacked(balances: Balances, reservations: Reservations, id: nat, r: Reservation)
    requires Backed(balances, reservations) && id !in reservations
    ensures Backed(Adjust(balances, KeyOf(r), -r.units, r.units), reservations[id := r])
  {
    hide Backing;
    var balances', reservations' := Adjust(balances, KeyOf(r), -r.units, r.units), reservations[id := r];
    forall k ensures BalanceOf(balances', k).reserved == Backing(reservations', k) {
      BackingPut(reservations, id, r, k);
    }
  }

  lemma ReleaseKeepsBacked(balances: Balances, reservations: Reservations, id: nat, r: Reservation)
    requires Backed(balances, reservations) && id in reservations && r == reservations[id]
    ensures Backed(Adjust(balances, KeyOf(r), r.units, -r.units), reservations - {id})
  {
    hide Backing;
    var balances', reservations' := Adjust(balances, KeyOf(r), r.units, -r.units), reservations - {id};
    forall k ensures BalanceOf(balances', k).reserved == Backing(reservations', k) {
      BackingRemove(reservations, id, k);
    }
  }

  lemma AdjustKeepsGood(markets: seq<MarketAssets>, balances: Balances, k: Key, available: int, reserved: int)
    requires GoodBalances(markets, balances) && Configured(markets, k.1)
    requires BalanceOf(balances, k).available + available >= 0 && BalanceOf(balances, k).reserved + reserved >= 0
    requires var b := BalanceOf(balances, k); b.available + b.reserved + available + reserved <= I64_MAX
    ensures GoodBalances(markets, Adjust(balances, k, available, reserved))
  {}

  lemma BalanceOfGood(markets: seq<MarketAssets>, balances: Balances, k: Key)
    requires GoodBalances(markets, balances)
    ensures GoodBalance(BalanceOf(balances, k))
  {}

  lemma ReserveKeepsInv(s: State, id: nat, account: nat, symbol: string, side: Side, limitCents: int, qtyTenths: int)
    requires Inv(s) && MayReserve(s, id, account, symbol, side, limitCents, qtyTenths)
    ensures Inv(AfterReserve(s, id, account, symbol, side, limitCents, qtyTenths))
  {
    hide Conserved, Backed, Configured, FindMarket, ValidConfig, Units, GoodBalances;
    var s' := AfterReserve(s, id, account, symbol, side, limitCents, qtyTenths);
    var r, markets := s'.reservations[id], s.config.value.markets;
    PositiveUnits(side, limitCents, qtyTenths);
    SideAssetConfigured(markets, symbol, side);
    BalanceOfGood(markets, s.balances, KeyOf(r));
    AdjustKeepsGood(markets, s.balances, KeyOf(r), -r.units, r.units);
    MoveConserves(s.config.value.funding, s.balances, KeyOf(r), r.units);
    ReserveKeepsBacked(s.balances, s.reservations, id, r);
  }

  /** A reservation is positive, and the balance behind it is there and covers it. */
  lemma ReservationBacked(s: State, id: nat)
    requires Sound(s) && id in s.reservations
    ensures var r := s.reservations[id];
            && 0 < r.units <= BalanceOf(s.balances, KeyOf(r)).reserved && KeyOf(r) in s.balances
            && Configured(s.config.value.markets, r.asset)
  {
    var r, markets := s.reservations[id], s.config.value.markets;
    AllUnitsPositive(markets, s.reservations);
    BackingCovers(s.reservations, id);
    assert BalanceOf(s.balances, KeyOf(r)).reserved == Backing(s.reservations, KeyOf(r));
    assert GoodReservation(markets, r);
    SideAssetConfigured(markets, r.symbol, r.side);
  }

  lemma ReleaseKeepsInv(s: State, id: nat)
    requires Inv(s) && id in s.reservations
    ensures Inv(AfterRelease(s, id))
  {
    hide Conserved, Backed, Configured, GoodReservation, ValidConfig, GoodBalances;
    var r, c, s' := s.reservations[id], s.config.value, AfterRelease(s, id);
    ReservationBacked(s, id);
    assert GoodBalances(c.markets, s'.balances) by {
      BalanceOfGood(c.markets, s.balances, KeyOf(r));
      AdjustKeepsGood(c.markets, s.balances, KeyOf(r), r.units, -r.units);
    }
    assert Conserved(c.funding, s'.balances) by { MoveConserves(c.funding, s.balances, KeyOf(r), -r.units); }
    assert Backed(s'.balances, s'.reservations) by { ReleaseKeepsBacked(s.balances, s.reservations, id, r); }
  }

  // ---------------------------------------------------------------------------
  // One fill
  // ---------------------------------------------------------------------------

  /** Reducing an order takes away the units of the filled quantity. */
  lemma ReduceBacking(reservations: Reservations, id: nat, qtyTenths: int, k: Key)
    requires id in reservations
    requires var r := reservations[id]; r.units == Units(r.side, r.limitCents, r.remainingTenths)
    ensures var r := reservations[id];
            Backing(Reduce(reservations, id, qtyTenths), k)
            == Backing(reservations, k) - (if KeyOf(r) == k then Units(r.side, r.limitCents, qtyTenths) else 0)
  {
    hide Backing, Units;
    var r := reservations[id];
    var left := r.remainingTenths - qtyTenths;
    UnitsSplit(r.side, r.limitCents, r.remainingTenths, qtyTenths);
    BackingRemove(reservations, id, k);
    BackingPut(reservations, id, r.(remainingTenths := left, units := Units(r.side, r.limitCents, left)), k);
  }

  lemma UnitsSplit(side: Side, limitCents: int, total: int, part: int)
    ensures Units(side, limitCents, total) == Units(side, limitCents, part) + Units(side, limitCents, total - part)
    ensures Units(side, limitCents, 0) == 0
  {}

  lemma ReduceKeepsGood(markets: seq<MarketAssets>, reservations: Reservations, id: nat, qtyTenths: int)
    requires GoodReservations(markets, reservations) && id in reservations
    requires 0 < qtyTenths <= reservations[id].remainingTenths
    ensures GoodReservations(markets, Reduce(reservations, id, qtyTenths))
  {
    var r := reservations[id];
    var left := r.remainingTenths - qtyTenths;
    assert GoodReservation(markets, r);
    UnitsSplit(r.side, r.limitCents, r.remainingTenths, qtyTenths);
    PositiveUnits(r.side, r.limitCents, qtyTenths);
    if left > 0 { PositiveUnits(r.side, r.limitCents, left); }
    hide FindMarket, Units;
  }

  /** What one fill moves at one key: available, then reserved. */
  function Moved(s: State, f: Fill, k: Key): (int, int)
    requires MayFill(s, f)
  {
    var buyer, seller := Buyer(s, f), Seller(s, f);
    var m := FindMarket(s.config.value.markets, s.reservations[f.maker].symbol).value;
    var cash, setAside, base := f.priceCents * f.qtyTenths, buyer.limitCents * f.qtyTenths, f.qtyTenths * 100;
    ((if k == (buyer.account, m.quoteAsset) then setAside - cash else 0)
     + (if k == (seller.account, m.quoteAsset) then cash else 0)
     + (if k == (buyer.account, m.baseAsset) then base else 0),
     -(if k == (buyer.account, m.quoteAsset) then setAside else 0)
     - (if k == (seller.account, m.baseAsset) then base else 0))
  }

  lemma FilledMoves(s: State, f: Fill, k: Key)
    requires MayFill(s, f)
    ensures BalanceOf(FilledBalances(s, f), k).available == BalanceOf(s.balances, k).available + Moved(s, f, k).0
    ensures BalanceOf(FilledBalances(s, f), k).reserved == BalanceOf(s.balances, k).reserved + Moved(s, f, k).1
  {}

  /** The orders of a fill, with the amounts the arithmetic needs. */
  lemma FillFacts(s: State, f: Fill)
    requires Sound(s) && MayFill(s, f)
    ensures var buyer, seller, m := Buyer(s, f), Seller(s, f), Market(s, s.reservations[f.maker].symbol).value;
            && buyer.side == Buy && seller.side == Sell
            && KeyOf(buyer) == (buyer.account, m.quoteAsset) && KeyOf(seller) == (seller.account, m.baseAsset)
            && 0 < f.priceCents * f.qtyTenths <= buyer.limitCents * f.qtyTenths
            && buyer.limitCents * f.qtyTenths <= buyer.units <= BalanceOf(s.balances, KeyOf(buyer)).reserved
            && f.qtyTenths * 100 <= seller.units <= BalanceOf(s.balances, KeyOf(seller)).reserved
            && FitsI64(buyer.units) && FitsI64(seller.units)
            && Configured(s.config.value.markets, m.quoteAsset) && Configured(s.config.value.markets, m.baseAsset)
  {
    hide Conserved, GoodBalances, Backed, Configured;
    var buyer, seller, markets := Buyer(s, f), Seller(s, f), s.config.value.markets;
    assert GoodReservation(markets, buyer) && GoodReservation(markets, seller);
    ReservationBacked(s, f.maker);
    ReservationBacked(s, f.taker);
    UnitsSplit(Buy, buyer.limitCents, buyer.remainingTenths, f.qtyTenths);
    UnitsNonneg(Buy, buyer.limitCents, buyer.remainingTenths - f.qtyTenths);
    PriceWithin(f.priceCents, buyer.limitCents, f.qtyTenths);
  }

  lemma UnitsNonneg(side: Side, limitCents: int, qtyTenths: int)
    requires limitCents > 0 && qtyTenths >= 0
    ensures Units(side, limitCents, qtyTenths) >= 0
  {}

  lemma PriceWithin(price: int, limit: int, qty: int)
    requires 0 < price <= limit && 0 < qty
    ensures 0 < price * qty <= limit * qty
  {}

  lemma FillKeepsBacked(s: State, f: Fill)
    requires Sound(s) && MayFill(s, f)
    ensures Backed(AfterFill(s, f).balances, AfterFill(s, f).reservations)
  {
    hide Backing, FilledBalances, Conserved, GoodBalances, Configured, FindMarket;
    var s', markets := AfterFill(s, f), s.config.value.markets;
    FillFacts(s, f);
    assert GoodReservation(markets, s.reservations[f.maker]) && GoodReservation(markets, s.reservations[f.taker]);
    forall k ensures BalanceOf(s'.balances, k).reserved == Backing(s'.reservations, k) {
      FilledMoves(s, f, k);
      ReduceBacking(s.reservations, f.maker, f.qtyTenths, k);
      ReduceBacking(Reduce(s.reservations, f.maker, f.qtyTenths), f.taker, f.qtyTenths, k);
    }
  }

  lemma FillConserves(s: State, f: Fill)
    requires Sound(s) && MayFill(s, f)
    ensures Conserved(s.config.value.funding, FilledBalances(s, f))
  {
    hide Total, Granted, FindMarket, GoodBalances, GoodReservations, Backed;
    var buyer, seller, m := Buyer(s, f), Seller(s, f), Market(s, s.reservations[f.maker].symbol).value;
    var cash, setAside, base := f.priceCents * f.qtyTenths, buyer.limitCents * f.qtyTenths, f.qtyTenths * 100;
    var b1 := Adjust(s.balances, (buyer.account, m.quoteAsset), setAside - cash, -setAside);
    var b2 := Adjust(b1, (seller.account, m.quoteAsset), cash, 0);
    var b3 := Adjust(b2, (seller.account, m.baseAsset), 0, -base);
    forall asset ensures Total(FilledBalances(s, f), asset) == Granted(s.config.value.funding, asset) {
      TotalAdjust(s.balances, (buyer.account, m.quoteAsset), setAside - cash, -setAside, asset);
      TotalAdjust(b1, (seller.account, m.quoteAsset), cash, 0, asset);
      TotalAdjust(b2, (seller.account, m.baseAsset), 0, -base, asset);
      TotalAdjust(b3, (buyer.account, m.baseAsset), base, 0, asset);
    }
  }

  /** After a fill no half of a balance is negative, and only the two credited
      balances grow. */
  lemma FilledBalanceGood(s: State, f: Fill, k: Key)
    requires Sound(s) && ValidConfig(s.config.value) && MayFill(s, f)
    ensures var b := BalanceOf(FilledBalances(s, f), k);
            && b.available >= 0 && b.reserved >= 0
            && var m := Market(s, s.reservations[f.maker].symbol).value;
            (k == (Seller(s, f).account, m.quoteAsset) || k == (Buyer(s, f).account, m.baseAsset)
             || b.available + b.reserved <= I64_MAX)
  {
    hide Conserved, Backed, GoodReservations, Configured, FindMarket, FilledBalances;
    FillFacts(s, f);
    FilledMoves(s, f, k);
    BalanceOfGood(s.config.value.markets, s.balances, k);
    MarketAssetsDiffer(s.config.value, s.reservations[f.maker].symbol);
  }

  lemma MarketAssetsDiffer(c: FundingConfig, symbol: string)
    requires ValidConfig(c) && FindMarket(c.markets, symbol).Some?
    ensures var m := FindMarket(c.markets, symbol).value; m.baseAsset != m.quoteAsset
  {
    var i :| 0 <= i < |c.markets| && c.markets[i] == FindMarket(c.markets, symbol).value;
  }

  lemma FilledKeys(s: State, f: Fill)
    requires MayFill(s, f)
    ensures var m := Market(s, s.reservations[f.maker].symbol).value;
            FilledBalances(s, f).Keys
            == s.balances.Keys + {(Buyer(s, f).account, m.quoteAsset), (Seller(s, f).account, m.quoteAsset),
                                  (Seller(s, f).account, m.baseAsset), (Buyer(s, f).account, m.baseAsset)}
  {}

  lemma FillKeepsGoodBalances(s: State, f: Fill)
    requires Sound(s) && ValidConfig(s.config.value) && MayFill(s, f) && CreditsFit(s, f)
    ensures GoodBalances(s.config.value.markets, FilledBalances(s, f))
  {
    hide Conserved, Backed, GoodReservations, FindMarket, FilledBalances, Configured, ValidConfig;
    FillFacts(s, f);
    FilledKeys(s, f);
    forall k | k in FilledBalances(s, f)
      ensures GoodBalance(FilledBalances(s, f)[k]) && Configured(s.config.value.markets, k.1)
    {
      FilledBalanceGood(s, f, k);
    }
  }

  lemma FillKeepsInv(s: State, f: Fill)
    requires Inv(s) && MayFill(s, f) && CreditsFit(s, f)
    ensures Inv(AfterFill(s, f))
  {
    hide Conserved, Backed, GoodReservations, FindMarket, FilledBalances, GoodBalances, ValidConfig, CreditsFit;
    FillConserves(s, f);
    FillKeepsBacked(s, f);
    FillKeepsGoodBalances(s, f);
    ReduceKeepsGood(s.config.value.markets, s.reservations, f.maker, f.qtyTenths);
    ReduceKeepsGood(s.config.value.markets, Reduce(s.reservations, f.maker, f.qtyTenths), f.taker, f.qtyTenths);
  }

  // ---------------------------------------------------------------------------
  // No overflow
  // ---------------------------------------------------------------------------

  /** Every asset's genesis funding fits in an i64. */
  ghost predicate FundingFits(c: FundingConfig) {
    forall asset :: Granted(c.funding, asset) <= I64_MAX
  }

  lemma BalanceWithinTotal(markets: seq<MarketAssets>, balances: Balances, k: Key)
    requires forall x | x in balances :: balances[x].available >= 0 && balances[x].reserved >= 0
    ensures BalanceOf(balances, k).available + BalanceOf(balances, k).reserved <= Total(balances, k.1)
  {
    if k in balances {
      Sums.SumAtLeast(balances.Keys, Weight(balances, k.1), k);
    } else {
      Sums.SumNonneg(balances.Keys, Weight(balances, k.1));
    }
  }

  /** If the funding fits, the credits of every allowed fill fit: no overflow branch
      of a fill is reachable. */
  lemma FundingFitsMakesCreditsFit(s: State, f: Fill)
    requires Inv(s) && FundingFits(s.config.value) && MayFill(s, f)
    ensures CreditsFit(s, f)
  {
    hide Backed, GoodReservations, GoodBalances, FindMarket, FilledBalances, Total, Granted, ValidConfig;
    FillConserves(s, f);
    var after, m := FilledBalances(s, f), Market(s, s.reservations[f.maker].symbol).value;
    forall x | x in after ensures after[x].available >= 0 && after[x].reserved >= 0 { FilledBalanceGood(s, f, x); }
    BalanceWithinTotal(s.config.value.markets, after, (Seller(s, f).account, m.quoteAsset));
    BalanceWithinTotal(s.config.value.markets, after, (Buyer(s, f).account, m.baseAsset));
  }
}
