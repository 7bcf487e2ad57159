/** Where the units an order set aside go, over a whole run. */
module OrderFlows {
  import opened Common
  import opened LedgerModel
  import opened LedgerProofs
  import opened LedgerRuns
  import opened Sums

  /** Who stands behind an id. An id that was released inside its own message can be
      reserved again, so the id alone does not name an order. */
  datatype Order = Order(id: nat, account: nat, symbol: string, side: Side)

  /** One order's account. `buyWorth` and `sellWorth` add up limit times quantity
      over its fills on each side, `received` the base units it bought. */
  datatype Flow = Flow(reserved: int, paid: int, shipped: int, refunded: int, released: int,
                       proceeds: int, received: int, buyWorth: int, sellWorth: int)

  type Journal = map<Order, Flow>

  function OrderOf(r: Reservation, id: nat): Order {
    Order(id, r.account, r.symbol, r.side)
  }

  function FlowOf(j: Journal, o: Order): Flow {
    if o in j then j[o] else Flow(0, 0, 0, 0, 0, 0, 0, 0, 0)
  }

  /** The buyer's side of a fill: what it paid, the improvement it got back, and the base. */
  function Bought(flow: Flow, limitCents: int, f: Fill): Flow {
    var cash, worth := f.priceCents * f.qtyTenths, limitCents * f.qtyTenths;
    flow.(paid := flow.paid + cash, refunded := flow.refunded + worth - cash, buyWorth := flow.buyWorth + worth,
          received := flow.received + f.qtyTenths * 100)
  }

  function Sold(flow: Flow, limitCents: int, f: Fill): Flow {
    flow.(shipped := flow.shipped + f.qtyTenths * 100, proceeds := flow.proceeds + f.priceCents * f.qtyTenths,
          sellWorth := flow.sellWorth + limitCents * f.qtyTenths)
  }

  function Filled(flow: Flow, r: Reservation, f: Fill): Flow {
    if r.side == Buy then Bought(flow, r.limitCents, f) else Sold(flow, r.limitCents, f)
  }

  /** The journal after the order `id` of a fill. */
  function FillOne(j: Journal, s: State, f: Fill, id: nat): Journal
    requires id in s.reservations
  {
    var r := s.reservations[id];
    j[OrderOf(r, id) := Filled(FlowOf(j, OrderOf(r, id)), r, f)]
  }

  /** The journal after one operation on `s`. */
  function Record(j: Journal, s: State, op: Op): Journal {
    if s.mode.SyntheticLegacy? || Apply(s, op).None? then j
    else
      match op
      case Reserve(id, account, symbol, side, limitCents, qtyTenths) =>
        var o := Order(id, account, symbol, side);
        var flow := FlowOf(j, o);
        j[o := flow.(reserved := flow.reserved + Units(side, limitCents, qtyTenths))]
      case Settle(f) => FillOne(FillOne(j, s, f, f.maker), s, f, f.taker)
      case Release(id) =>
        if id in s.reservations then
          var o := OrderOf(s.reservations[id], id);
          var flow := FlowOf(j, o);
          j[o := flow.(released := flow.released + s.reservations[id].units)]
        else j
      case Finish(_) => j
  }

  function RunJournal(s: State, ops: seq<Op>): Journal
    decreases |ops|
  {
    if ops == [] then map[]
    else Record(RunJournal(s, ops[..|ops| - 1]), Run(s, ops[..|ops| - 1]), ops[|ops| - 1])
  }

  function StillReserved(reservations: Reservations, o: Order): int {
    if o.id in reservations && OrderOf(reservations[o.id], o.id) == o then reservations[o.id].units else 0
  }

  /** Every unit set aside is paid, shipped, given back, released or still set aside;
      no buyer paid above its limit and no seller got less than its limit. */
  predicate Accounted(flow: Flow, still: int) {
    && flow.reserved == flow.paid + flow.shipped + flow.refunded + flow.released + still
    && flow.refunded == flow.buyWorth - flow.paid
    && flow.paid <= flow.buyWorth && flow.proceeds >= flow.sellWorth
  }

  ghost predicate AllAccounted(j: Journal, s: State) {
    forall o :: Accounted(FlowOf(j, o), StillReserved(s.reservations, o))
  }

  /** One order of one fill. */
  lemma FilledAccounts(s: State, f: Fill, id: nat, flow: Flow)
    requires Sound(s) && MayFill(s, f) && (id == f.maker || id == f.taker)
    requires Accounted(flow, s.reservations[id].units)
    ensures var r := s.reservations[id];
            Accounted(Filled(flow, r, f), Units(r.side, r.limitCents, r.remainingTenths - f.qtyTenths))
  {
    hide Conserved, GoodBalances, Backed, FindMarket;
    var r := s.reservations[id];
    assert GoodReservation(s.config.value.markets, r);
    UnitsSplit(r.side, r.limitCents, r.remainingTenths, f.qtyTenths);
    if r.side == Buy {
      assert r == Buyer(s, f);
      PriceWithin(f.priceCents, r.limitCents, f.qtyTenths);
    } else {
      assert r == Seller(s, f);
      PriceWithin(r.limitCents, f.priceCents, f.qtyTenths);
    }
  }

  lemma ReducedStill(reservations: Reservations, id: nat, qtyTenths: int, o: Order)
    requires id in reservations
    ensures var after, r := Reduce(reservations, id, qtyTenths), reservations[id];
            && (forall x | x != id :: (x in after <==> x in reservations)
                                      && (x in reservations ==> after[x] == reservations[x]))
            && StillReserved(after, o)
               == if o == OrderOf(r, id) then Units(r.side, r.limitCents, r.remainingTenths - qtyTenths)
                  else StillReserved(reservations, o)
  {
    UnitsSplit(reservations[id].side, reservations[id].limitCents, 0, 0);
  }

  lemma FillAccounts(j: Journal, s: State, f: Fill, o: Order)
    requires Sound(s) && MayFill(s, f) && CreditsFit(s, f) && s.mode.FundedSimulation?
    requires Accounted(FlowOf(j, o), StillReserved(s.reservations, o))
    ensures Accounted(FlowOf(Record(j, s, Settle(f)), o), StillReserved(AfterFill(s, f).reservations, o))
  {
    hide Sound, FilledBalances, CreditsFit, Filled, Reduce, Units, Accounted, MayReserve, AfterReserve, AfterRelease;
    ReducedStill(s.reservations, f.maker, f.qtyTenths, o);
    ReducedStill(Reduce(s.reservations, f.maker, f.qtyTenths), f.taker, f.qtyTenths, o);
    if (o.id == f.maker || o.id == f.taker) && o == OrderOf(s.reservations[o.id], o.id) {
      FilledAccounts(s, f, o.id, FlowOf(j, o));
    }
  }

  lemma SetAsideAccounts(flow: Flow, units: int)
    requires Accounted(flow, 0)
    ensures Accounted(flow.(reserved := flow.reserved + units), units)
  {}

  lemma ReserveAccounts(j: Journal, s: State, op: Op, o: Order)
    requires op.Reserve? && s.mode.FundedSimulation? && Apply(s, op).Some?
    requires Accounted(FlowOf(j, o), StillReserved(s.reservations, o))
    ensures Accounted(FlowOf(Record(j, s, op), o), StillReserved(Do(s, op).reservations, o))
  {
    hide FindMarket, Units, Adjust, Accounted;
    if o == Order(op.id, op.account, op.symbol, op.side) {
      SetAsideAccounts(FlowOf(j, o), Units(op.side, op.limitCents, op.qtyTenths));
    }
  }

  lemma GivenBackAccounts(flow: Flow, units: int)
    requires Accounted(flow, units)
    ensures Accounted(flow.(released := flow.released + units), 0)
  {}

  lemma ReleaseAccounts(j: Journal, s: State, id: nat, o: Order)
    requires s.mode.FundedSimulation? && Accounted(FlowOf(j, o), StillReserved(s.reservations, o))
    ensures Accounted(FlowOf(Record(j, s, Op.Release(id)), o), StillReserved(Do(s, Op.Release(id)).reservations, o))
  {
    hide MayReserve, MayFill, AfterReserve, AfterFill, CreditsFit, Filled, Units, FindMarket, Adjust, Accounted;
    if id in s.reservations && o == OrderOf(s.reservations[id], id) {
      GivenBackAccounts(FlowOf(j, o), s.reservations[id].units);
    }
  }

  lemma RecordKeepsAccounted(j: Journal, s: State, op: Op)
    requires Valid(s) && AllAccounted(j, s)
    ensures AllAccounted(Record(j, s, op), Do(s, op))
  {
    hide Sound, ValidConfig, MayReserve, MayFill, CreditsFit, AfterFill, AfterReserve, AfterRelease, Filled, Units,
      Accounted;
    forall o ensures Accounted(FlowOf(Record(j, s, op), o), StillReserved(Do(s, op).reservations, o)) {
      assert Accounted(FlowOf(j, o), StillReserved(s.reservations, o));
      if s.mode.FundedSimulation? && Apply(s, op).Some? {
        match op
        case Settle(f) => FillAccounts(j, s, f, o);
        case Reserve(_, _, _, _, _, _) => ReserveAccounts(j, s, op, o);
        case Release(id) => ReleaseAccounts(j, s, id, o);
        case Finish(_) =>
      }
    }
  }

  /** Over any run from a valid ledger with no open orders, every order's units are
      accounted for. */
  lemma {:induction false} OrdersAreAccounted(s: State, ops: seq<Op>)
    requires Valid(s) && s.reservations == map[]
    ensures AllAccounted(RunJournal(s, ops), Run(s, ops))
    decreases |ops|
  {
    hide Valid, Do, Record, AllAccounted;
    if ops == [] {
      EmptyAccounted(s);
    } else {
      OrdersAreAccounted(s, ops[..|ops| - 1]);
      RunKeepsValid(s, ops[..|ops| - 1]);
      RecordKeepsAccounted(RunJournal(s, ops[..|ops| - 1]), Run(s, ops[..|ops| - 1]), ops[|ops| - 1]);
    }
  }

  lemma EmptyAccounted(s: State)
    requires s.reservations == map[]
    ensures AllAccounted(map[], s)
  {}

  // ---------------------------------------------------------------------------
  // The journal explains the balances
  // ---------------------------------------------------------------------------

  /** The asset an order is paid in. */
  function PaidIn(m: MarketAssets, side: Side): string {
    match side
    case Buy => m.baseAsset
    case Sell => m.quoteAsset
  }

  /** What one order's account adds to the available balance of `k`: on the asset it
      set aside, what came back less what was set aside; on the asset it is paid in,
      what it was paid. */
  function Gain(markets: seq<MarketAssets>, o: Order, flow: Flow, k: Key): int {
    var m := FindMarket(markets, o.symbol);
    if m.None? then 0
    else
      (if k == (o.account, SideAsset(m.value, o.side)) then flow.refunded + flow.released - flow.reserved else 0)
      + (if k == (o.account, PaidIn(m.value, o.side)) then flow.received + flow.proceeds else 0)
  }

  function GainIn(markets: seq<MarketAssets>, j: Journal, k: Key): Order -> int {
    (o: Order) => Gain(markets, o, FlowOf(j, o), k)
  }

  /** The gains of all the orders of a journal. */
  ghost function AllGains(markets: seq<MarketAssets>, j: Journal, k: Key): int {
    SumOver(j.Keys, GainIn(markets, j, k))
  }

  lemma GainsPut(markets: seq<MarketAssets>, j: Journal, o: Order, flow: Flow, k: Key)
    ensures AllGains(markets, j[o := flow], k)
            == AllGains(markets, j, k) + Gain(markets, o, flow, k) - Gain(markets, o, FlowOf(j, o), k)
  {
    var after, all := j[o := flow], j.Keys + {o};
    assert after.Keys == all;
    NoFlowNoGain(markets, o, k);
    SumOfZeros(j.Keys, all, GainIn(markets, j, k));
    SumPull(all, GainIn(markets, j, k), o);
    SumPull(all, GainIn(markets, after, k), o);
    SumSame(all - {o}, GainIn(markets, j, k), GainIn(markets, after, k));
  }

  lemma NoFlowNoGain(markets: seq<MarketAssets>, o: Order, k: Key)
    ensures Gain(markets, o, FlowOf(map[], o), k) == 0
  {}

  /** The gain of one order of a fill. */
  function FillGain(s: State, f: Fill, r: Reservation, k: Key): int
    requires MayFill(s, f)
  {
    var m, cash := Market(s, s.reservations[f.maker].symbol).value, f.priceCents * f.qtyTenths;
    if r.side == Buy then
      (if k == (r.account, m.quoteAsset) then r.limitCents * f.qtyTenths - cash else 0)
      + (if k == (r.account, m.baseAsset) then f.qtyTenths * 100 else 0)
    else if k == (r.account, m.quoteAsset) then cash else 0
  }

  lemma FillOneGains(j: Journal, s: State, f: Fill, id: nat, k: Key)
    requires MayFill(s, f) && (id == f.maker || id == f.taker)
    ensures AllGains(s.config.value.markets, FillOne(j, s, f, id), k)
            == AllGains(s.config.value.markets, j, k) + FillGain(s, f, s.reservations[id], k)
  {
    hide AllGains, FindMarket;
    var r := s.reservations[id];
    GainsPut(s.config.value.markets, j, OrderOf(r, id), Filled(FlowOf(j, OrderOf(r, id)), r, f), k);
  }

  /** What the journal records is what the operation did to every available balance. */
  lemma RecordExplains(j: Journal, s: State, op: Op, k: Key)
    requires Valid(s) && s.mode.FundedSimulation?
    ensures BalanceOf(Do(s, op).balances, k).available - BalanceOf(s.balances, k).available
            == AllGains(s.config.value.markets, Record(j, s, op), k) - AllGains(s.config.value.markets, j, k)
  {
    hide Sound, AllGains, MayReserve, MayFill, CreditsFit, AfterFill, AfterReserve, AfterRelease, Filled, FillOne;
    if Apply(s, op).Some? {
      match op
      case Reserve(_, _, _, _, _, _) => ReserveExplains(j, s, op, k);
      case Settle(f) => SettleExplains(j, s, f, k);
      case Release(id) => if id in s.reservations { ReleaseExplains(j, s, id, k); }
      case Finish(_) =>
    }
  }

  lemma ReserveExplains(j: Journal, s: State, op: Op, k: Key)
    requires op.Reserve? && s.mode.FundedSimulation? && Apply(s, op).Some?
    ensures BalanceOf(Do(s, op).balances, k).available - BalanceOf(s.balances, k).available
            == AllGains(s.config.value.markets, Record(j, s, op), k) - AllGains(s.config.value.markets, j, k)
  {
    hide AllGains, FindMarket, Units;
    var o := Order(op.id, op.account, op.symbol, op.side);
    var flow := FlowOf(j, o);
    GainsPut(s.config.value.markets, j, o,
             flow.(reserved := flow.reserved + Units(op.side, op.limitCents, op.qtyTenths)), k);
  }

  lemma SettleExplains(j: Journal, s: State, f: Fill, k: Key)
    requires Sound(s) && s.mode.FundedSimulation? && MayFill(s, f) && CreditsFit(s, f)
    ensures BalanceOf(AfterFill(s, f).balances, k).available - BalanceOf(s.balances, k).available
            == AllGains(s.config.value.markets, Record(j, s, Settle(f)), k) - AllGains(s.config.value.markets, j, k)
  {
    hide Sound, AllGains, FindMarket, FilledBalances, CreditsFit, FillOne, Reduce;
    FillFacts(s, f);
    FilledMoves(s, f, k);
    FillOneGains(j, s, f, f.maker, k);
    FillOneGains(FillOne(j, s, f, f.maker), s, f, f.taker, k);
  }

  lemma ReleaseExplains(j: Journal, s: State, id: nat, k: Key)
    requires Sound(s) && s.mode.FundedSimulation? && id in s.reservations
    ensures BalanceOf(AfterRelease(s, id).balances, k).available - BalanceOf(s.balances, k).available
            == AllGains(s.config.value.markets, Record(j, s, Op.Release(id)), k)
               - AllGains(s.config.value.markets, j, k)
  {
    hide AllGains, FindMarket, Units, Conserved, GoodBalances, Backed;
    var r := s.reservations[id];
    assert GoodReservation(s.config.value.markets, r);
    var flow := FlowOf(j, OrderOf(r, id));
    GainsPut(s.config.value.markets, j, OrderOf(r, id), flow.(released := flow.released + r.units), k);
  }

  /** Over any run, every available balance moved by exactly the gains of its orders:
      less what they set aside, and more by what was refunded, released and earned. */
  lemma {:induction false} JournalExplainsBalances(s: State, ops: seq<Op>, k: Key)
    requires Valid(s) && s.mode.FundedSimulation?
    ensures BalanceOf(Run(s, ops).balances, k).available
            == BalanceOf(s.balances, k).available + AllGains(s.config.value.markets, RunJournal(s, ops), k)
    decreases |ops|
  {
    hide Valid, Do, Record, BalanceOf;
    if ops != [] {
      JournalExplainsBalances(s, ops[..|ops| - 1], k);
      RunKeepsValid(s, ops[..|ops| - 1]);
      RecordExplains(RunJournal(s, ops[..|ops| - 1]), Run(s, ops[..|ops| - 1]), ops[|ops| - 1], k);
    }
  }
}
