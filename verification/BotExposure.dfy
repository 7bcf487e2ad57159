/** What the bot has committed in each direction, and how the book, the bot and the
    log move it. Quantities are whole tenths and prices whole cents. */
module BotExposure {
  import opened Common
  import opened Sums

  datatype Side = Buy | Sell

  datatype Lot = Lot(symbol: string, side: Side, qty: int)

  datatype OpenOrder = OpenOrder(lot: Lot, cents: int)

  /** The bot's account in its own copy of the book: positions, and its orders that
      still rest. */
  datatype Book = Book(position: map<string, int>, open: map<nat, OpenOrder>)

  function PositionOf(b: Book, symbol: string): int {
    if symbol in b.position then b.position[symbol] else 0
  }

  /** The position counted in one direction. */
  function Signed(b: Book, symbol: string, side: Side): int {
    if side == Buy then PositionOf(b, symbol) else -PositionOf(b, symbol)
  }

  // ---------------------------------------------------------------------------
  // Totals
  // ---------------------------------------------------------------------------

  function Weigh(lot: Lot, symbol: string, side: Side): int {
    if lot.symbol == symbol && lot.side == side then lot.qty else 0
  }

  ghost function WeightOf(lots: map<nat, Lot>, symbol: string, side: Side): nat -> int {
    id => if id in lots then Weigh(lots[id], symbol, side) else 0
  }

  /** The quantity of some orders on one side of one symbol. */
  ghost function Total(lots: map<nat, Lot>, symbol: string, side: Side): int {
    SumOver(lots.Keys, WeightOf(lots, symbol, side))
  }

  function Lots(open: map<nat, OpenOrder>): map<nat, Lot> {
    map id | id in open :: open[id].lot
  }

  /** Only the orders the bot knows as its own. */
  function Mine(open: map<nat, OpenOrder>, mine: set<nat>): map<nat, OpenOrder> {
    map id | id in open && id in mine :: open[id]
  }

  /** `exposure`: what is held, plus everything that can still fill with no further
      step of the bot. */
  ghost function Exposure(b: Book, mine: set<nat>, inflight: map<nat, Lot>, symbol: string, side: Side): int {
    Signed(b, symbol, side) + Total(Lots(Mine(b.open, mine)), symbol, side) + Total(inflight, symbol, side)
  }

  lemma TotalPut(lots: map<nat, Lot>, id: nat, lot: Lot, symbol: string, side: Side)
    requires id !in lots
    ensures Total(lots[id := lot], symbol, side) == Total(lots, symbol, side) + Weigh(lot, symbol, side)
  {
    var put := lots[id := lot];
    SumPull(put.Keys, WeightOf(put, symbol, side), id);
    assert put.Keys - {id} == lots.Keys;
    SumSame(lots.Keys, WeightOf(put, symbol, side), WeightOf(lots, symbol, side));
  }

  lemma TotalDrop(lots: map<nat, Lot>, id: nat, symbol: string, side: Side)
    requires id in lots
    ensures Total(lots - {id}, symbol, side) == Total(lots, symbol, side) - Weigh(lots[id], symbol, side)
  {
    var left := lots - {id};
    assert left[id := lots[id]] == lots;
    TotalPut(left, id, lots[id], symbol, side);
  }

  /** One order of a running total. */
  lemma WeighOne(lots: map<nat, Lot>, left: set<nat>, id: nat, symbol: string, side: Side)
    requires id in left
    ensures SumOver(lots.Keys * left, WeightOf(lots, symbol, side))
            == (if id in lots then Weigh(lots[id], symbol, side) else 0)
               + SumOver(lots.Keys * (left - {id}), WeightOf(lots, symbol, side))
  {
    if id in lots {
      SumPull(lots.Keys * left, WeightOf(lots, symbol, side), id);
      assert lots.Keys * left - {id} == lots.Keys * (left - {id});
    } else {
      assert lots.Keys * left == lots.Keys * (left - {id});
    }
  }

  lemma TotalNonneg(lots: map<nat, Lot>, symbol: string, side: Side)
    requires forall id | id in lots :: lots[id].qty >= 0
    ensures Total(lots, symbol, side) >= 0
  {
    SumNonneg(lots.Keys, WeightOf(lots, symbol, side));
  }

  lemma NothingTotals(symbol: string, side: Side)
    ensures Total(map[], symbol, side) == 0
  {
    var none: map<nat, Lot> := map[];
    assert none.Keys == {};
  }

  // ---------------------------------------------------------------------------
  // What the engine may do to the bot's account
  // ---------------------------------------------------------------------------

  /** One step of the matching engine on the bot's orders: a trade against one of
      them, or its end by a cancel, an expiry or a refusal. */
  datatype Event = Fill(id: nat, qty: int) | Close(id: nat)

  predicate Legal(b: Book, e: Event) {
    e.id in b.open && (e.Fill? ==> 0 < e.qty <= b.open[e.id].lot.qty)
  }

  function Happen(b: Book, e: Event): Book
    requires Legal(b, e)
  {
    var order := b.open[e.id];
    match e
    case Close(id) => b.(open := b.open - {id})
    case Fill(id, qty) =>
      var moved := if order.lot.side == Buy then qty else -qty;
      var left := order.lot.qty - qty;
      b.(position := b.position[order.lot.symbol := PositionOf(b, order.lot.symbol) + moved],
         open := if left == 0 then b.open - {id} else b.open[id := order.(lot := order.lot.(qty := left))])
  }

  predicate AllLegal(b: Book, events: seq<Event>)
    decreases |events|
  {
    events == [] || (Legal(b, events[0]) && AllLegal(Happen(b, events[0]), events[1..]))
  }

  function HappenAll(b: Book, events: seq<Event>): Book
    requires AllLegal(b, events)
    decreases |events|
  {
    if events == [] then b else HappenAll(Happen(b, events[0]), events[1..])
  }

  // ---------------------------------------------------------------------------
  // The cap
  // ---------------------------------------------------------------------------

  /** Every order that can fill is one the bot counts, and none is negative. */
  ghost predicate Counted(b: Book, mine: set<nat>, inflight: map<nat, Lot>) {
    && b.open.Keys <= mine
    && (forall id | id in b.open :: b.open[id].lot.qty >= 0)
    && (forall id | id in inflight :: inflight[id].qty >= 0 && id !in mine)
  }

  /** Everything committed in either direction is within the cap. */
  ghost predicate WithinCap(b: Book, mine: set<nat>, inflight: map<nat, Lot>, cap: map<string, int>) {
    forall symbol, side | symbol in cap :: Exposure(b, mine, inflight, symbol, side) <= cap[symbol]
  }

  lemma AllMine(open: map<nat, OpenOrder>, mine: set<nat>)
    requires open.Keys <= mine
    ensures Mine(open, mine) == open
  {}

  /** No position can pass the cap while everything committed is within it. */
  lemma PositionWithinCap(b: Book, mine: set<nat>, inflight: map<nat, Lot>, cap: map<string, int>, symbol: string)
    requires Counted(b, mine, inflight) && WithinCap(b, mine, inflight, cap) && symbol in cap
    ensures -cap[symbol] <= PositionOf(b, symbol) <= cap[symbol]
  {
    hide Total;
    forall side: Side ensures Signed(b, symbol, side) <= Exposure(b, mine, inflight, symbol, side) {
      TotalNonneg(Lots(Mine(b.open, mine)), symbol, side);
      TotalNonneg(inflight, symbol, side);
    }
    assert Signed(b, symbol, Buy) <= cap[symbol] && Signed(b, symbol, Sell) <= cap[symbol];
  }

  lemma LotsPut(open: map<nat, OpenOrder>, id: nat, order: OpenOrder)
    ensures Lots(open[id := order]) == Lots(open)[id := order.lot]
    ensures Lots(open - {id}) == Lots(open) - {id}
  {}

  /** A trade moves quantity from the order into the position, and never commits
      more in either direction. */
  lemma HappenTotals(b: Book, e: Event, symbol: string, side: Side)
    requires Legal(b, e) && forall id | id in b.open :: b.open[id].lot.qty >= 0
    ensures var after := Happen(b, e);
            Signed(after, symbol, side) + Total(Lots(after.open), symbol, side)
            <= Signed(b, symbol, side) + Total(Lots(b.open), symbol, side)
  {
    hide Total;
    var order := b.open[e.id];
    TotalDrop(Lots(b.open), e.id, symbol, side);
    LotsPut(b.open, e.id, order);
    if e.Fill? && order.lot.qty > e.qty {
      var rest := order.(lot := order.lot.(qty := order.lot.qty - e.qty));
      LotsPut(b.open - {e.id}, e.id, rest);
      assert b.open[e.id := rest] == (b.open - {e.id})[e.id := rest];
      TotalPut(Lots(b.open) - {e.id}, e.id, rest.lot, symbol, side);
    }
  }

  lemma HappenLowers(b: Book, e: Event, mine: set<nat>, inflight: map<nat, Lot>, symbol: string, side: Side)
    requires Legal(b, e) && Counted(b, mine, inflight)
    ensures Counted(Happen(b, e), mine, inflight) && Happen(b, e).open.Keys <= b.open.Keys
    ensures Exposure(Happen(b, e), mine, inflight, symbol, side) <= Exposure(b, mine, inflight, symbol, side)
  {
    hide Total;
    AllMine(b.open, mine);
    AllMine(Happen(b, e).open, mine);
    HappenTotals(b, e, symbol, side);
  }

  /** Whatever the engine does to the bot's orders in one message, it commits no more. */
  lemma {:induction false} HappenAllLowers(b: Book, events: seq<Event>, mine: set<nat>, inflight: map<nat, Lot>,
                                           symbol: string, side: Side)
    requires AllLegal(b, events) && Counted(b, mine, inflight)
    ensures Counted(HappenAll(b, events), mine, inflight) && HappenAll(b, events).open.Keys <= b.open.Keys
    ensures Exposure(HappenAll(b, events), mine, inflight, symbol, side) <= Exposure(b, mine, inflight, symbol, side)
    decreases |events|
  {
    hide Counted, Exposure, Happen, Legal;
    if events != [] {
      HappenLowers(b, events[0], mine, inflight, symbol, side);
      HappenAllLowers(Happen(b, events[0]), events[1..], mine, inflight, symbol, side);
    }
  }

  // ---------------------------------------------------------------------------
  // Messages
  // ---------------------------------------------------------------------------

  /** One message of the log, with what the engine does to the bot's account on
      reading it: the bot's own order enters the book, then orders trade or end. */
  datatype Message = Message(id: nat, order: Option<OpenOrder>, events: seq<Event>)

  /** The book with the bot's own order of this message entered, before any trade. */
  function Entered(b: Book, m: Message): Book {
    match m.order case None => b case Some(order) => b.(open := b.open[m.id := order])
  }

  /** The log carries an order of the bot exactly where the bot noted one, with the
      terms it sent, and under a number of its own. */
  ghost predicate Honest(b: Book, mine: set<nat>, inflight: map<nat, Lot>, m: Message) {
    && m.id !in mine && m.id !in b.open
    && (m.order.Some? <==> m.id in inflight)
    && (m.order.Some? ==> m.order.value.lot == inflight[m.id])
    && AllLegal(Entered(b, m), m.events)
  }

  /** The ids the bot knows as its own once this message is read. */
  function MineAfter(mine: set<nat>, inflight: map<nat, Lot>, m: Message): set<nat> {
    if m.id in inflight then mine + {m.id} else mine
  }

  /** An order landing moves its quantity from in flight to resting. */
  lemma EnteredSame(b: Book, mine: set<nat>, inflight: map<nat, Lot>, m: Message, symbol: string, side: Side)
    requires Counted(b, mine, inflight) && Honest(b, mine, inflight, m)
    ensures Counted(Entered(b, m), MineAfter(mine, inflight, m), inflight - {m.id})
    ensures Exposure(Entered(b, m), MineAfter(mine, inflight, m), inflight - {m.id}, symbol, side)
            == Exposure(b, mine, inflight, symbol, side)
  {
    hide Total;
    AllMine(b.open, mine);
    AllMine(Entered(b, m).open, MineAfter(mine, inflight, m));
    if m.id in inflight {
      TotalDrop(inflight, m.id, symbol, side);
      TotalPut(Lots(b.open), m.id, inflight[m.id], symbol, side);
      LotsPut(b.open, m.id, m.order.value);
    } else {
      assert inflight - {m.id} == inflight;
    }
  }

  /** A message of the log never raises what is committed in either direction. */
  lemma MessageLowers(b: Book, mine: set<nat>, inflight: map<nat, Lot>, m: Message, symbol: string, side: Side)
    requires Counted(b, mine, inflight) && Honest(b, mine, inflight, m)
    ensures var after, mine' := HappenAll(Entered(b, m), m.events), MineAfter(mine, inflight, m);
            && Counted(after, mine', inflight - {m.id})
            && after.open.Keys <= b.open.Keys + {m.id}
            && Exposure(after, mine', inflight - {m.id}, symbol, side) <= Exposure(b, mine, inflight, symbol, side)
  {
    hide Counted, Exposure;
    EnteredSame(b, mine, inflight, m, symbol, side);
    HappenAllLowers(Entered(b, m), m.events, MineAfter(mine, inflight, m), inflight - {m.id}, symbol, side);
  }

  // ---------------------------------------------------------------------------
  // The exact condition
  // ---------------------------------------------------------------------------

  /** What is held, plus every resting order of the account, noted by the bot or not. */
  ghost function Worst(b: Book, symbol: string, side: Side): int {
    Signed(b, symbol, side) + Total(Lots(b.open), symbol, side)
  }

  predicate Sized(open: map<nat, OpenOrder>) {
    forall id | id in open :: open[id].lot.qty >= 0
  }

  /** The engine can fill every resting order on one side. */
  lemma {:induction false} WorstIsReached(b: Book, symbol: string, side: Side) returns (events: seq<Event>)
    requires Sized(b.open)
    ensures AllLegal(b, events) && Signed(HappenAll(b, events), symbol, side) == Worst(b, symbol, side)
    decreases b.open.Keys
  {
    if id :| id in b.open && Weigh(b.open[id].lot, symbol, side) > 0 {
      var fill := Fill(id, b.open[id].lot.qty);
      var rest := WorstIsReached(Happen(b, fill), symbol, side);
      events := [fill] + rest;
      assert events[1..] == rest;
      LotsPut(b.open, id, b.open[id]);
      TotalDrop(Lots(b.open), id, symbol, side);
    } else {
      events := [];
      SumOfZeros({}, Lots(b.open).Keys, WeightOf(Lots(b.open), symbol, side));
    }
  }

  /** The bot's own count, and the resting orders it never noted. */
  lemma WorstSplits(b: Book, mine: set<nat>, symbol: string, side: Side)
    ensures Worst(b, symbol, side)
            == Exposure(b, mine, map[], symbol, side) + Total(Lots(b.open - mine), symbol, side)
  {
    NothingTotals(symbol, side);
    hide Total, Lots, Mine;
    SplitTotals(b.open, mine, symbol, side);
  }

  lemma SplitTotals(open: map<nat, OpenOrder>, mine: set<nat>, symbol: string, side: Side)
    ensures Total(Lots(open), symbol, side)
            == Total(Lots(Mine(open, mine)), symbol, side) + Total(Lots(open - mine), symbol, side)
  {
    var weight, noted, rest := WeightOf(Lots(open), symbol, side), Lots(Mine(open, mine)), Lots(open - mine);
    SumSplit(open.Keys, mine, weight);
    assert Lots(open).Keys == open.Keys && noted.Keys == open.Keys * mine && rest.Keys == open.Keys - mine;
    SumSame(noted.Keys, weight, WeightOf(noted, symbol, side));
    SumSame(rest.Keys, weight, WeightOf(rest, symbol, side));
  }

  /** Two sets of orders under different ids. */
  lemma TotalJoin(a: map<nat, Lot>, b: map<nat, Lot>, symbol: string, side: Side)
    requires a.Keys !! b.Keys
    ensures Total(a + b, symbol, side) == Total(a, symbol, side) + Total(b, symbol, side)
  {
    var weight := WeightOf(a + b, symbol, side);
    SumSplit((a + b).Keys, a.Keys, weight);
    assert (a + b).Keys * a.Keys == a.Keys && (a + b).Keys - a.Keys == b.Keys;
    SumSame(a.Keys, weight, WeightOf(a, symbol, side));
    SumSame(b.Keys, weight, WeightOf(b, symbol, side));
  }

  /** What an event leaves of the orders the bot never noted. */
  lemma HappenUnnoted(b: Book, e: Event, mine: set<nat>, symbol: string, side: Side)
    requires Legal(b, e) && Sized(b.open)
    ensures Sized(Happen(b, e).open)
    ensures Total(Lots(Happen(b, e).open - mine), symbol, side) <= Total(Lots(b.open - mine), symbol, side)
  {
    hide Total;
    var after, order, rest := Happen(b, e), b.open[e.id], b.open - mine;
    if e.id in mine {
      assert after.open - mine == rest;
    } else {
      LotsPut(rest, e.id, order);
      TotalDrop(Lots(rest), e.id, symbol, side);
      if e.Fill? && order.lot.qty > e.qty {
        var left := order.(lot := order.lot.(qty := order.lot.qty - e.qty));
        assert after.open - mine == (rest - {e.id})[e.id := left];
        LotsPut(rest - {e.id}, e.id, left);
        TotalPut(Lots(rest) - {e.id}, e.id, left.lot, symbol, side);
      } else {
        assert after.open - mine == rest - {e.id};
      }
    }
  }

  lemma {:induction false} HappenAllUnnoted(b: Book, events: seq<Event>, mine: set<nat>, symbol: string, side: Side)
    requires AllLegal(b, events) && Sized(b.open)
    ensures Total(Lots(HappenAll(b, events).open - mine), symbol, side) <= Total(Lots(b.open - mine), symbol, side)
    decreases |events|
  {
    hide Total, Happen, Legal, Sized, Lots;
    if events != [] {
      HappenUnnoted(b, events[0], mine, symbol, side);
      HappenAllUnnoted(Happen(b, events[0]), events[1..], mine, symbol, side);
    }
  }
}
