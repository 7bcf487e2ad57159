/** What the bot decides at one poll, as conditions on the actions it wants to send. */
module BotDecisions {
  import opened Common
  import opened BotExposure

  const SYMBOLS := ["MERKLE-USDC", "ETH-USDC", "BTC-USDC"]

  // ---------------------------------------------------------------------------
  // Prices
  // ---------------------------------------------------------------------------

  /** The highest whole number of steps at or below a price, negative ones too. */
  function FloorToStep(cents: int, step: int): (r: int)
    requires step > 0
    ensures r % step == 0 && r <= cents < r + step
  {
    StepBelow(cents, step);
    cents - cents % step
  }

  /** The lowest whole number of steps at or above a price. */
  function CeilToStep(cents: int, step: int): (r: int)
    requires step > 0
    ensures r % step == 0 && r - step < cents <= r
  {
    FloorToStep(cents + step - 1, step)
  }

  lemma StepBelow(cents: int, step: int)
    requires step > 0
    ensures (cents - cents % step) % step == 0
  {
    var q := cents / step;
    assert cents - cents % step == q * step;
    MultipleHasNoRest(q, step);
  }

  lemma MultipleHasNoRest(q: int, step: int)
    requires step > 0
    ensures (q * step) % step == 0
  {
    var x := q * step;
    assert x == (x / step) * step + x % step;
    if x / step < q {
      Apart(x / step, q, step);
    } else if x / step > q {
      Apart(q, x / step, step);
    }
  }

  lemma Apart(a: int, b: int, p: int)
    requires a < b && p > 0
    ensures a * p + p <= b * p
  {
    var c := b - a - 1;
    assert b * p == a * p + p + c * p;
    assert c * p >= 0;
  }

  // ---------------------------------------------------------------------------
  // Actions
  // ---------------------------------------------------------------------------

  datatype Action = Submit(symbol: string, side: Side, cents: int, qty: int) | Cancel(target: nat)

  /** One market at one poll: the cap and the prices fair value gives, and what the
      book shows. `askDepth` and `bidDepth` are other accounts' quantity through the
      two limits. */
  datatype View = View(cap: int, buyCents: int, sellCents: int, step: int, bestAsk: Option<int>, bestBid: Option<int>,
                       askDepth: int, bidDepth: int, maxOrder: int,
                       quotes: bool, quoteQty: int, quoteBuyCents: int, quoteSellCents: int)

  predicate WellFormed(v: View) {
    v.step > 0 && v.quoteQty >= 0
  }

  function Limit(v: View, side: Side): int
    requires WellFormed(v)
  {
    if side == Buy then FloorToStep(v.buyCents, v.step) else CeilToStep(v.sellCents, v.step)
  }

  function QuoteTarget(v: View, side: Side): int
    requires WellFormed(v)
  {
    if side == Buy then FloorToStep(v.quoteBuyCents, v.step) else CeilToStep(v.quoteSellCents, v.step)
  }

  /** Whether an order resting on `side` at `cents` is still past fair value. */
  predicate StillGood(v: View, side: Side, cents: int)
    requires WellFormed(v)
  {
    if side == Buy then cents <= Limit(v, Buy) else cents >= Limit(v, Sell)
  }

  /** Whether a price on `side` meets the other side of the book. */
  predicate Meets(v: View, side: Side, cents: int) {
    if side == Buy then v.bestAsk.Some? && v.bestAsk.value <= cents else v.bestBid.Some? && v.bestBid.value >= cents
  }

  function Depth(v: View, side: Side): int {
    if side == Buy then v.askDepth else v.bidDepth
  }

  /** An order the bot has a reason to send: it takes quantity that is there at its
      limit, or it rests, on the side that shrinks the position, without crossing. */
  predicate Sensible(v: View, position: int, a: Action)
    requires WellFormed(v) && a.Submit?
  {
    || (0 < a.qty <= Depth(v, a.side) && a.qty <= v.maxOrder && a.cents == Limit(v, a.side) && Meets(v, a.side, a.cents))
    || (&& v.quotes && a.qty == v.quoteQty && a.cents == QuoteTarget(v, a.side) > 0 && !Meets(v, a.side, a.cents)
        && (if a.side == Buy then position < 0 else position > 0))
  }

  /** Whether other accounts offer anything at or through the limit. */
  predicate Offered(v: View, side: Side)
    requires WellFormed(v)
  {
    Meets(v, side, Limit(v, side)) && Depth(v, side) > 0 && v.maxOrder > 0
  }

  /** An order at the limit for the least of all there is, all the room, and the largest
      size. */
  predicate TakesAll(v: View, room: int, a: Action)
    requires WellFormed(v) && a.Submit?
  {
    && a.cents == Limit(v, a.side) && 0 < a.qty
    && a.qty <= room && a.qty <= Depth(v, a.side) && a.qty <= v.maxOrder
    && (a.qty == room || a.qty == Depth(v, a.side) || a.qty == v.maxOrder)
  }

  /** Whether what the book offers through the limit is taken, as far as the room goes. */
  ghost predicate Taken(actions: seq<Action>, symbol: string, v: View, room: int, side: Side)
    requires WellFormed(v)
  {
    Offered(v, side) && room > 0 ==>
      exists a | a in actions :: a.Submit? && a.symbol == symbol && a.side == side && TakesAll(v, room, a)
  }

  function QtyOf(a: Action, symbol: string, side: Side): int {
    match a
    case Submit(s, d, _, qty) => Weigh(Lot(s, d, qty), symbol, side)
    case Cancel(_) => 0
  }

  /** The quantity some actions would send on one side of one symbol. */
  function Planned(actions: seq<Action>, symbol: string, side: Side): int {
    if actions == [] then 0
    else Planned(actions[..|actions| - 1], symbol, side) + QtyOf(actions[|actions| - 1], symbol, side)
  }

  lemma PlannedPush(actions: seq<Action>, a: Action, symbol: string, side: Side)
    ensures Planned(actions + [a], symbol, side) == Planned(actions, symbol, side) + QtyOf(a, symbol, side)
  {
    assert (actions + [a])[..|actions|] == actions;
  }

  lemma {:induction false} PlannedJoin(a: seq<Action>, b: seq<Action>, symbol: string, side: Side)
    ensures Planned(a + b, symbol, side) == Planned(a, symbol, side) + Planned(b, symbol, side)
    decreases |b|
  {
    if b == [] {
      assert a + b == a;
    } else {
      PlannedJoin(a, b[..|b| - 1], symbol, side);
      assert (a + b)[..|a + b| - 1] == a + b[..|b| - 1];
    }
  }

  // ---------------------------------------------------------------------------
  // What is decided
  // ---------------------------------------------------------------------------

  /** What the bot and its book hold at one moment. */
  datatype Life = Life(book: Book, mine: set<nat>, inflight: map<nat, Lot>)

  /** What is committed in one direction. */
  ghost function Committed(s: Life, symbol: string, side: Side): int {
    Exposure(s.book, s.mine, s.inflight, symbol, side)
  }

  /** What the markets look like at one poll, where fair value is known. */
  ghost predicate Views(view: string -> Option<View>) {
    forall m :: view(m).Some? ==> WellFormed(view(m).value)
  }

  /** Whether a resting order is due on one side: it would shrink the position, none
      is there yet, and its price would rest. */
  ghost predicate Due(s: Life, symbol: string, v: View, side: Side)
    requires WellFormed(v)
  {
    && v.quotes && QuoteTarget(v, side) > 0 && !Meets(v, side, QuoteTarget(v, side))
    && (if side == Buy then PositionOf(s.book, symbol) < 0 else PositionOf(s.book, symbol) > 0)
    && Total(Lots(Mine(s.book.open, s.mine)), symbol, side) + Total(s.inflight, symbol, side) <= 0
  }

  /** A resting order that is due is sent, unless the room ran out. */
  ghost predicate Rested(s: Life, symbol: string, v: View, actions: seq<Action>, side: Side)
    requires WellFormed(v)
  {
    Due(s, symbol, v, side) && v.cap - Committed(s, symbol, side) - Planned(actions, symbol, side) >= v.quoteQty
    ==> Submit(symbol, side, QuoteTarget(v, side), v.quoteQty) in actions
  }

  /** The actions of one market so far, and the room they leave in each direction. */
  ghost predicate Planning(s: Life, symbol: string, v: View, actions: seq<Action>, longRoom: int, shortRoom: int)
    requires WellFormed(v)
  {
    && longRoom == v.cap - Committed(s, symbol, Buy) - Planned(actions, symbol, Buy)
    && shortRoom == v.cap - Committed(s, symbol, Sell) - Planned(actions, symbol, Sell)
    && (Planned(actions, symbol, Buy) == 0 || longRoom >= 0) && (Planned(actions, symbol, Sell) == 0 || shortRoom >= 0)
    && (forall a | a in actions && a.Submit? :: a.symbol == symbol && Sensible(v, PositionOf(s.book, symbol), a))
  }

  lemma PlanOne(s: Life, symbol: string, v: View, actions: seq<Action>, longRoom: int, shortRoom: int, a: Action)
    requires WellFormed(v) && Planning(s, symbol, v, actions, longRoom, shortRoom)
    requires a.Submit? && a.symbol == symbol && Sensible(v, PositionOf(s.book, symbol), a)
    requires 0 <= a.qty <= if a.side == Buy then longRoom else shortRoom
    ensures Planning(s, symbol, v, actions + [a], if a.side == Buy then longRoom - a.qty else longRoom,
                     if a.side == Sell then shortRoom - a.qty else shortRoom)
  {
    hide Sensible, Planned;
    PlannedPush(actions, a, symbol, Buy);
    PlannedPush(actions, a, symbol, Sell);
  }

  lemma PlanFits(s: Life, symbol: string, v: View, actions: seq<Action>, longRoom: int, shortRoom: int, side: Side)
    requires WellFormed(v) && Planning(s, symbol, v, actions, longRoom, shortRoom)
    ensures Planned(actions, symbol, side) == 0 || Committed(s, symbol, side) + Planned(actions, symbol, side) <= v.cap
  {}

  lemma RoomIs(s: Life, symbol: string, v: View, actions: seq<Action>, longRoom: int, shortRoom: int)
    requires WellFormed(v) && Planning(s, symbol, v, actions, longRoom, shortRoom)
    ensures longRoom == v.cap - Committed(s, symbol, Buy) - Planned(actions, symbol, Buy)
    ensures shortRoom == v.cap - Committed(s, symbol, Sell) - Planned(actions, symbol, Sell)
  {}

  lemma PlanSensible(s: Life, symbol: string, v: View, actions: seq<Action>, longRoom: int, shortRoom: int)
    requires WellFormed(v) && Planning(s, symbol, v, actions, longRoom, shortRoom)
    ensures forall a | a in actions && a.Submit? :: a.symbol == symbol && Sensible(v, PositionOf(s.book, symbol), a)
  {}

  /** A market the bot trades at this poll. */
  predicate Active(view: string -> Option<View>, symbol: string) {
    view(symbol).Some? && view(symbol).value.cap > 0
  }

  /** One of the bot's resting orders that fair value has caught up to. */
  ghost predicate Stale(s: Life, view: string -> Option<View>, id: nat)
    requires Views(view)
  {
    && id in s.book.open
    && var order := s.book.open[id];
       && order.lot.symbol in SYMBOLS && Active(view, order.lot.symbol)
       && !StillGood(view(order.lot.symbol).value, order.lot.side, order.cents)
  }

  /** A whole batch of actions fits beside everything already committed. */
  ghost predicate RoomKept(s: Life, view: string -> Option<View>, actions: seq<Action>, symbol: string, side: Side)
  {
    Planned(actions, symbol, side) == 0
    || (Active(view, symbol) && Committed(s, symbol, side) + Planned(actions, symbol, side) <= view(symbol).value.cap)
  }

  /** What holds of the actions decided for the markets in `done`. */
  ghost predicate Decided(s: Life, view: string -> Option<View>, actions: seq<Action>, done: seq<string>)
    requires Views(view)
  {
    && (forall symbol, side :: RoomKept(s, view, actions, symbol, side))
    && (forall symbol, side | symbol !in done :: Planned(actions, symbol, side) == 0)
    && (forall a | a in actions && a.Submit? ::
          a.symbol in done && Active(view, a.symbol)
          && Sensible(view(a.symbol).value, PositionOf(s.book, a.symbol), a))
    && (forall id: nat ::
          Cancel(id) in actions <==> id in s.mine && Stale(s, view, id) && s.book.open[id].lot.symbol in done)
    && (forall symbol, side | symbol in done && Active(view, symbol) ::
          Taken(actions, symbol, view(symbol).value, view(symbol).value.cap - Committed(s, symbol, side), side)
          && Rested(s, symbol, view(symbol).value, actions, side))
  }

  /** One market's decision. */
  ghost predicate DecidedHere(s: Life, symbol: string, v: View, actions: seq<Action>)
    requires WellFormed(v)
  {
    && (forall a | a in actions && a.Submit? :: a.symbol == symbol && Sensible(v, PositionOf(s.book, symbol), a))
    && (forall side ::
          Planned(actions, symbol, side) == 0 || Committed(s, symbol, side) + Planned(actions, symbol, side) <= v.cap)
    && (forall side :: Taken(actions, symbol, v, v.cap - Committed(s, symbol, side), side))
    && (forall side :: Rested(s, symbol, v, actions, side))
    && (forall id: nat :: Cancel(id) in actions
          <==> id in s.mine && id in s.book.open && s.book.open[id].lot.symbol == symbol
               && !StillGood(v, s.book.open[id].lot.side, s.book.open[id].cents))
  }

  lemma NothingDecided(s: Life, view: string -> Option<View>)
    requires Views(view)
    ensures Decided(s, view, [], [])
  {}

  lemma MarketSkipped(s: Life, view: string -> Option<View>, actions: seq<Action>, done: seq<string>, here: string)
    requires Views(view)
    requires Decided(s, view, actions, done) && !Active(view, here)
    ensures Decided(s, view, actions, done + [here])
  {
    hide RoomKept, Planned, Sensible, StillGood, Taken, Exposure, Due;
  }

  lemma MarketDecided(s: Life, view: string -> Option<View>, actions: seq<Action>, done: seq<string>, here: string,
                      more: seq<Action>)
    requires Views(view)
    requires Decided(s, view, actions, done) && Active(view, here) && here in SYMBOLS && here !in done
    requires DecidedHere(s, here, view(here).value, more)
    ensures Decided(s, view, actions + more, done + [here])
  {
    hide Sensible, StillGood, Taken, Exposure, Planned, Due;
    forall symbol, side
      ensures RoomKept(s, view, actions + more, symbol, side)
      ensures symbol !in done + [here] ==> Planned(actions + more, symbol, side) == 0
      ensures symbol in done + [here] && Active(view, symbol) ==>
                Taken(actions + more, symbol, view(symbol).value,
                      view(symbol).value.cap - Committed(s, symbol, side), side)
                && Rested(s, symbol, view(symbol).value, actions + more, side)
    {
      PlannedJoin(actions, more, symbol, side);
      if symbol != here { PlannedElsewhere(more, here, symbol, side); }
      assert RoomKept(s, view, actions, symbol, side);
      if symbol in done + [here] && Active(view, symbol) {
        assert Rested(s, symbol, view(symbol).value, if symbol == here then more else actions, side);
        TakenWithin(if symbol == here then more else actions, actions + more, symbol, view(symbol).value,
                    view(symbol).value.cap - Committed(s, symbol, side), side);
      }
    }
  }

  /** Forgetting orders that are no longer open changes no decision. */
  lemma SameDecision(before: Life, s: Life, view: string -> Option<View>, actions: seq<Action>)
    requires Views(view) && s == before.(mine := before.mine * before.book.open.Keys)
    requires Decided(s, view, actions, SYMBOLS)
    ensures Decided(before, view, actions, SYMBOLS)
  {
    hide Sensible, StillGood, Taken, Planned, Total, QuoteTarget;
    assert Mine(s.book.open, s.mine) == Mine(s.book.open, before.mine);
    forall symbol, side
      ensures Committed(s, symbol, side) == Committed(before, symbol, side)
      ensures RoomKept(before, view, actions, symbol, side)
    {
      assert RoomKept(s, view, actions, symbol, side);
    }
    forall symbol, side | symbol in SYMBOLS && Active(view, symbol)
      ensures Rested(before, symbol, view(symbol).value, actions, side)
    {
      assert Rested(s, symbol, view(symbol).value, actions, side);
    }
  }

  lemma TakenWithin(actions: seq<Action>, more: seq<Action>, symbol: string, v: View, room: int, side: Side)
    requires WellFormed(v) && Taken(actions, symbol, v, room, side) && forall a | a in actions :: a in more
    ensures Taken(more, symbol, v, room, side)
  {
    hide Offered, TakesAll;
    if Offered(v, side) && room > 0 {
      var a :| a in actions && a.Submit? && a.symbol == symbol && a.side == side && TakesAll(v, room, a);
      assert a in more;
    }
  }

  lemma SensibleSize(v: View, position: int, a: Action)
    requires WellFormed(v) && a.Submit? && Sensible(v, position, a)
    ensures a.qty >= 0
  {}

  lemma {:induction false} CancelsPlanNothing(actions: seq<Action>, symbol: string)
    requires forall a | a in actions :: a.Cancel?
    ensures Planned(actions, symbol, Buy) == 0 == Planned(actions, symbol, Sell)
  {
    if actions != [] {
      CancelsPlanNothing(actions[..|actions| - 1], symbol);
      assert actions[|actions| - 1] in actions;
    }
  }

  lemma {:induction false} PlannedElsewhere(actions: seq<Action>, here: string, symbol: string, side: Side)
    requires forall a | a in actions && a.Submit? :: a.symbol == here
    requires symbol != here
    ensures Planned(actions, symbol, side) == 0
  {
    if actions != [] {
      PlannedElsewhere(actions[..|actions| - 1], here, symbol, side);
      assert actions[|actions| - 1] in actions;
    }
  }
}
