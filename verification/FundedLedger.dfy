/** `Ledger`, updated in place. */
module FundedLedger {
  import opened Common
  import opened LedgerModel
  import opened LedgerProofs
  import opened LedgerRuns

  /** `reserve_units`. */
  function ReserveUnits(side: Side, priceCents: int, qtyTenths: int): (r: Result<int>)
    ensures r.Ok? <==> priceCents > 0 && qtyTenths > 0 && FitsI64(Units(side, priceCents, qtyTenths))
    ensures r.Ok? ==> r.value == Units(side, priceCents, qtyTenths)
  {
    if priceCents <= 0 || qtyTenths <= 0 then Err("nonpositive reservation terms")
    else
      var units := match side case Buy => priceCents * qtyTenths case Sell => qtyTenths * 100;
      if FitsI64(units) then Ok(units) else Err("reservation amount overflow")
  }

  /** `after_fill`. */
  function AfterFillOf(before: Reservation, qtyTenths: int): Result<Reservation> {
    var left := before.remainingTenths - qtyTenths;
    if left < 0 then Err("reservation fill underflow")
    else if left == 0 then Ok(before.(remainingTenths := 0, units := 0))
    else
      match ReserveUnits(before.side, before.limitCents, left)
      case Ok(units) => Ok(before.(remainingTenths := left, units := units))
      case Err(reason) => Err(reason)
  }

  type Deltas = map<Key, (int, int)>

  function DeltaAt(deltas: Deltas, k: Key): (int, int) {
    if k in deltas then deltas[k] else (0, 0)
  }

  /** `add_delta`. */
  function AddDelta(into: Deltas, k: Key, available: int, reserved: int): Deltas {
    into[k := (DeltaAt(into, k).0 + available, DeltaAt(into, k).1 + reserved)]
  }

  /** What a fill's four credits and debits come to, one entry for each balance. */
  function FillDeltas(buyer: Reservation, seller: Reservation, m: MarketAssets, cash: int, setAside: int,
                      base: int): Deltas {
    var d1 := AddDelta(map[], (buyer.account, m.quoteAsset), setAside - cash, -setAside);
    var d2 := AddDelta(d1, (seller.account, m.quoteAsset), cash, 0);
    var d3 := AddDelta(d2, (seller.account, m.baseAsset), 0, -base);
    AddDelta(d3, (buyer.account, m.baseAsset), base, 0)
  }

  /** Combining the movements by balance first moves what moving one by one does. */
  lemma FillDeltasMove(s: State, f: Fill, k: Key)
    requires MayFill(s, f)
    ensures var m := Market(s, s.reservations[f.maker].symbol).value;
            var deltas := FillDeltas(Buyer(s, f), Seller(s, f), m, f.priceCents * f.qtyTenths,
                                     Buyer(s, f).limitCents * f.qtyTenths, f.qtyTenths * 100);
            && (k in FilledBalances(s, f) <==> k in s.balances || k in deltas)
            && BalanceOf(FilledBalances(s, f), k)
               == Balance(BalanceOf(s.balances, k).available + DeltaAt(deltas, k).0,
                          BalanceOf(s.balances, k).reserved + DeltaAt(deltas, k).1)
  {
    hide FindMarket;
    FilledMoves(s, f, k);
    FilledKeys(s, f);
  }

  /** One touched balance after a fill's deltas. */
  function Shifted(balances: Balances, deltas: Deltas, k: Key): Balance {
    var b := BalanceOf(balances, k);
    Balance(b.available + DeltaAt(deltas, k).0, b.reserved + DeltaAt(deltas, k).1)
  }

  /** The touched balances are all good exactly when the two credits fit. */
  lemma NextBalancesDecide(s: State, f: Fill, deltas: Deltas)
    requires Inv(s) && MayFill(s, f)
    requires deltas == FillDeltas(Buyer(s, f), Seller(s, f), Market(s, s.reservations[f.maker].symbol).value,
                                  f.priceCents * f.qtyTenths, Buyer(s, f).limitCents * f.qtyTenths, f.qtyTenths * 100)
    ensures (forall k | k in deltas :: GoodBalance(Shifted(s.balances, deltas, k))) <==> CreditsFit(s, f)
    ensures s.balances + (map k | k in deltas :: Shifted(s.balances, deltas, k)) == FilledBalances(s, f)
  {
    hide Conserved, Backed, GoodReservations, GoodBalances, ValidConfig, FilledBalances, FindMarket;
    forall k
      ensures (k in FilledBalances(s, f) <==> k in s.balances || k in deltas)
      ensures BalanceOf(FilledBalances(s, f), k) == Shifted(s.balances, deltas, k)
      ensures k in deltas && CreditsFit(s, f) ==> GoodBalance(Shifted(s.balances, deltas, k))
    {
      FillDeltasMove(s, f, k);
      FilledBalanceGood(s, f, k);
    }
  }

  lemma AfterFillFits(s: State, id: nat, qtyTenths: int)
    requires Inv(s) && id in s.reservations && 0 < qtyTenths <= s.reservations[id].remainingTenths
    ensures AfterFillOf(s.reservations[id], qtyTenths).Ok?
    ensures var next := AfterFillOf(s.reservations[id], qtyTenths).value;
            forall rs: Reservations | id in rs && rs[id] == s.reservations[id] ::
              Reduce(rs, id, qtyTenths)
              == if next.remainingTenths == 0 then rs - {next.orderId} else rs[next.orderId := next]
  {
    hide Conserved, Backed, GoodBalances, ValidConfig, FindMarket;
    ReduceKeepsGood(s.config.value.markets, s.reservations, id, qtyTenths);
    assert GoodReservation(s.config.value.markets, s.reservations[id]);
    var after := Reduce(s.reservations, id, qtyTenths);
    if id in after { assert GoodReservation(s.config.value.markets, after[id]); }
  }

  /** A plan of fills, one after the other; None where one of them is refused. */
  function ApplyAll(s: State, fills: seq<Fill>): Option<State>
    decreases |fills|
  {
    if fills == [] then Some(s)
    else
      match ApplyAll(s, fills[..|fills| - 1])
      case None => None
      case Some(before) => Apply(before, Settle(fills[|fills| - 1]))
  }

  lemma {:induction false} ApplyAllStops(s: State, fills: seq<Fill>, i: nat)
    requires i <= |fills| && ApplyAll(s, fills[..i]).None?
    ensures ApplyAll(s, fills).None?
    decreases |fills|
  {
    hide Apply;
    if i < |fills| {
      assert fills[..|fills| - 1][..i] == fills[..i];
      ApplyAllStops(s, fills[..|fills| - 1], i);
    } else {
      assert fills[..i] == fills;
    }
  }

  class Ledger {
    var mode: Mode
    var config: Option<FundingConfig>
    var lastSequence: nat
    var balances: Balances
    var reservations: Reservations

    function Abs(): State
      reads this
    {
      State(mode, config, lastSequence, balances, reservations)
    }

    constructor Of(s: State)
      ensures Abs() == s
    {
      mode, config, lastSequence, balances, reservations := s.mode, s.config, s.lastSequence, s.balances, s.reservations;
    }

    /** `reserve`. A failed reserve changes nothing. */
    method Reserve(id: nat, account: nat, symbol: string, side: Side, limitCents: int, qtyTenths: int)
      returns (r: Result<()>)
      requires Valid(Abs())
      modifies this
      ensures Valid(Abs())
      ensures r.Ok? <==> Apply(old(Abs()), Op.Reserve(id, account, symbol, side, limitCents, qtyTenths)).Some?
      ensures Abs() == Do(old(Abs()), Op.Reserve(id, account, symbol, side, limitCents, qtyTenths))
    {
      hide Sound, ValidConfig, FindMarket, AfterFill, MayFill, CreditsFit, AfterRelease;
      ghost var s, op := Abs(), Op.Reserve(id, account, symbol, side, limitCents, qtyTenths);
      DoKeepsValid(s, op);
      if mode.SyntheticLegacy? { return Ok(()); }
      if lastSequence >= U64_MAX { return Err("sequence exhausted"); }
      if id != lastSequence + 1 || id in reservations {
        return Err("order reservation would replay an applied sequence");
      }
      var market := Market(Abs(), symbol);
      if market.None? { return Err("no funded asset mapping"); }
      var asset := SideAsset(market.value, side);
      var terms := ReserveUnits(side, limitCents, qtyTenths);
      if terms.Err? { return Err(terms.reason); }
      var units := terms.value;
      var key := (account, asset);
      var before := BalanceOf(balances, key);
      KnownBalance(s, key);
      var available := before.available - units;
      if !FitsI64(available) || available < 0 { return Err("insufficient available"); }
      var reserved := before.reserved + units;
      if !FitsI64(reserved) { return Err("reserve overflow"); }
      var next := Balance(available, reserved);
      if !GoodBalance(next) { return Err("negative or overflowing asset balance"); }
      balances := balances[key := next];
      reservations := reservations[id := Reservation(id, account, symbol, side, limitCents, qtyTenths, asset, units)];
      return Ok(());
    }

    /** `settle_fill`: every check comes before the first mutation. */
    method SettleFill(f: Fill) returns (r: Result<()>)
      requires Valid(Abs())
      modifies this
      ensures Valid(Abs())
      ensures r.Ok? <==> Apply(old(Abs()), Settle(f)).Some?
      ensures Abs() == Do(old(Abs()), Settle(f))
    {
      hide Sound, ValidConfig, FindMarket, AfterReserve, MayReserve, AfterRelease, FilledBalances, FillDeltas,
        CreditsFit, AfterFill,
        AfterFillOf;
      ghost var s := Abs();
      DoKeepsValid(s, Settle(f));
      if mode.SyntheticLegacy? { return Ok(()); }
      if lastSequence >= U64_MAX { return Err("sequence exhausted"); }
      if f.taker != lastSequence + 1 { return Err("fill taker is outside the current sequence"); }
      if f.maker == f.taker || f.priceCents <= 0 || f.qtyTenths <= 0 { return Err("invalid fill"); }
      if f.maker !in reservations { return Err("maker reservation missing"); }
      if f.taker !in reservations { return Err("taker reservation missing"); }
      var maker, taker := reservations[f.maker], reservations[f.taker];
      if maker.symbol != taker.symbol || maker.side == taker.side {
        return Err("fill reservations disagree on market or side");
      }
      var market := Market(Abs(), maker.symbol);
      if market.None? { return Err("no funded asset mapping"); }
      var (buyer, seller) := if maker.side == Buy then (maker, taker) else (taker, maker);
      if f.priceCents > buyer.limitCents || f.priceCents < seller.limitCents
         || f.qtyTenths > buyer.remainingTenths || f.qtyTenths > seller.remainingTenths {
        return Err("fill exceeds reserved terms");
      }
      FillFacts(s, f);
      var base := f.qtyTenths * 100;
      if !FitsI64(base) { return Err("base fill overflow"); }
      var cash := f.priceCents * f.qtyTenths;
      if !FitsI64(cash) { return Err("quote fill overflow"); }
      var buyerReserved := buyer.limitCents * f.qtyTenths;
      if !FitsI64(buyerReserved) { return Err("buy reserve overflow"); }
      var deltas := FillDeltas(buyer, seller, market.value, cash, buyerReserved, base);
      var next := NextBalances(deltas);
      NextBalancesDecide(s, f, deltas);
      if next.Err? { return Err(next.reason); }
      var makerNext, takerNext := AfterFillOf(maker, f.qtyTenths), AfterFillOf(taker, f.qtyTenths);
      AfterFillFits(s, f.maker, f.qtyTenths);
      AfterFillFits(s, f.taker, f.qtyTenths);
      if makerNext.Err? { return Err("maker fill underflow"); }
      if takerNext.Err? { return Err("taker fill underflow"); }
      Commit(f, next.value, makerNext.value, takerNext.value);
      return Ok(());
    }

    /** The mutations of a fill, once nothing can fail. */
    method Commit(f: Fill, next: Balances, maker: Reservation, taker: Reservation)
      requires Inv(Abs()) && MayFill(Abs(), f) && balances + next == FilledBalances(Abs(), f)
      requires AfterFillOf(reservations[f.maker], f.qtyTenths) == Ok(maker)
      requires AfterFillOf(reservations[f.taker], f.qtyTenths) == Ok(taker)
      modifies this
      ensures Abs() == AfterFill(old(Abs()), f)
    {
      hide Sound, FilledBalances, FindMarket, ReserveUnits;
      AfterFillFits(Abs(), f.maker, f.qtyTenths);
      AfterFillFits(Abs(), f.taker, f.qtyTenths);
      balances := balances + next;
      Store(maker);
      Store(taker);
    }

    /** The touched balances after the deltas, or an error where one is negative or
        does not fit. */
    method NextBalances(deltas: Deltas) returns (r: Result<Balances>)
      ensures r.Ok? <==> forall k | k in deltas :: GoodBalance(Shifted(balances, deltas, k))
      ensures r.Ok? ==> r.value == map k | k in deltas :: Shifted(balances, deltas, k)
    {
      var todo, next := deltas.Keys, map[];
      while todo != {}
        invariant todo <= deltas.Keys
        invariant next == map k | k in deltas && k !in todo :: Shifted(balances, deltas, k)
        invariant forall k | k in deltas && k !in todo :: GoodBalance(Shifted(balances, deltas, k))
        decreases todo
      {
        var k :| k in todo;
        var before := BalanceOf(balances, k);
        var available, reserved := before.available + deltas[k].0, before.reserved + deltas[k].1;
        if !FitsI64(available) { return Err("available fill overflow"); }
        if !FitsI64(reserved) { return Err("reserved fill overflow"); }
        if !GoodBalance(Balance(available, reserved)) { return Err("negative or overflowing asset balance"); }
        next := next[k := Balance(available, reserved)];
        todo := todo - {k};
      }
      return Ok(next);
    }

    /** A filled order leaves, or stays with what remains. */
    method Store(next: Reservation)
      modifies this`reservations
      ensures reservations == if next.remainingTenths == 0 then old(reservations) - {next.orderId}
                              else old(reservations)[next.orderId := next]
    {
      if next.remainingTenths == 0 {
        reservations := reservations - {next.orderId};
      } else {
        reservations := reservations[next.orderId := next];
      }
    }

    /** `stage_reserved_fills`: the plan on a clone; this ledger never changes. */
    method StageReservedFills(fills: seq<Fill>) returns (r: Result<Ledger>)
      requires Valid(Abs())
      ensures r.Ok? <==> ApplyAll(Abs(), fills).Some?
      ensures r.Ok? ==> fresh(r.value) && r.value.Abs() == ApplyAll(Abs(), fills).value && Valid(r.value.Abs())
    {
      hide Valid, Apply;
      var staged := new Ledger.Of(Abs());
      for i := 0 to |fills|
        invariant fresh(staged) && Valid(staged.Abs()) && Abs() == old(Abs())
        invariant ApplyAll(Abs(), fills[..i]) == Some(staged.Abs())
      {
        assert fills[..i + 1][..i] == fills[..i];
        var settled := staged.SettleFill(fills[i]);
        if settled.Err? {
          ApplyAllStops(Abs(), fills, i + 1);
          return Err(settled.reason);
        }
      }
      assert fills[..|fills|] == fills;
      return Ok(staged);
    }

    /** `release`: once, and never new funding. Its overflow and missing-balance
        branches are not reached. */
    method Release(id: nat) returns (r: Result<bool>)
      requires Valid(Abs())
      modifies this
      ensures Valid(Abs())
      ensures r == Ok(id in old(reservations))
      ensures Abs() == Do(old(Abs()), Op.Release(id))
    {
      hide Sound, ValidConfig, AfterReserve, AfterFill, MayFill, CreditsFit, MayReserve;
      ghost var s := Abs();
      DoKeepsValid(s, Op.Release(id));
      if id !in reservations { return Ok(false); }
      ReservationBacked(s, id);
      var reservation := reservations[id];
      var key := KeyOf(reservation);
      KnownBalance(s, key);
      if key !in balances { return Err("reserved balance missing"); }
      var before := balances[key];
      var available := before.available + reservation.units;
      if !FitsI64(available) { return Err("release overflow"); }
      var reserved := before.reserved - reservation.units;
      if !FitsI64(reserved) { return Err("release underflow"); }
      var next := Balance(available, reserved);
      if !GoodBalance(next) { return Err("negative or overflowing asset balance"); }
      balances := balances[key := next];
      reservations := reservations - {id};
      return Ok(true);
    }

    /** `finish_sequence`. */
    method FinishSequence(sequence: nat) returns (r: Result<()>)
      requires Valid(Abs())
      modifies this
      ensures Valid(Abs())
      ensures r.Ok? <==> sequence == old(lastSequence) + 1 <= 18_446_744_073_709_551_615
      ensures Abs() == Do(old(Abs()), Finish(sequence))
    {
      hide Sound, ValidConfig;
      DoKeepsValid(Abs(), Finish(sequence));
      if lastSequence >= U64_MAX { return Err("sequence exhausted"); }
      if sequence != lastSequence + 1 { return Err("ledger sequence out of order"); }
      lastSequence := sequence;
      return Ok(());
    }
  }

  lemma KnownBalance(s: State, k: Key)
    requires Inv(s)
    ensures GoodBalance(BalanceOf(s.balances, k))
  {
    hide Conserved, Backed, GoodReservations, ValidConfig;
    BalanceOfGood(s.config.value.markets, s.balances, k);
  }
}
