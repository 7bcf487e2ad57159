/** What a decided batch means in prices: what it keeps, what it withdraws, what each
    order is for, and what it does not leave on the table. */
module BotPrices {
  import opened Common
  import opened BotExposure
  import opened BotDecisions

  /** Whole numbers of steps stand a step apart. */
  lemma NextStep(a: int, b: int, step: int)
    requires step > 0 && a % step == 0 && b % step == 0 && a < b
    ensures a + step <= b
  {
    var p, q := a / step, b / step;
    assert a == p * step && b == q * step;
    NoMoreSteps(q, p, step);
    Apart(p, q, step);
  }

  lemma NoMoreSteps(q: int, p: int, step: int)
    requires step > 0
    ensures q <= p ==> q * step <= p * step
  {
    if q <= p { assert (p - q) * step >= 0; }
  }

  lemma AtMostFloor(c: int, cents: int, step: int)
    requires step > 0 && c % step == 0
    ensures c <= FloorToStep(cents, step) <==> c <= cents
  {
    if c > FloorToStep(cents, step) { NextStep(FloorToStep(cents, step), c, step); }
  }

  lemma AtLeastCeil(c: int, cents: int, step: int)
    requires step > 0 && c % step == 0
    ensures CeilToStep(cents, step) <= c <==> cents <= c
  {
    if c < CeilToStep(cents, step) { NextStep(c, CeilToStep(cents, step), step); }
  }

  /** Whether an order of one side at a price is worse for the bot than its own price. */
  predicate Overpays(v: View, side: Side, cents: int) {
    match side
    case Buy => cents > v.buyCents
    case Sell => cents < v.sellCents
  }

  /** No resting order that fair value has caught up to is kept; and of the orders at a
      whole step, those alone are withdrawn. */
  lemma KeptIsGood(s: Life, view: string -> Option<View>, actions: seq<Action>, id: nat, v: View)
    requires Views(view) && Decided(s, view, actions, SYMBOLS) && id in s.mine && id in s.book.open
    requires s.book.open[id].lot.symbol in SYMBOLS && view(s.book.open[id].lot.symbol) == Some(v) && v.cap > 0
    ensures Overpays(v, s.book.open[id].lot.side, s.book.open[id].cents) ==> Cancel(id) in actions
    ensures s.book.open[id].cents % v.step == 0 ==>
              (Cancel(id) in actions <==> Overpays(v, s.book.open[id].lot.side, s.book.open[id].cents))
  {
    hide RoomKept, Sensible, Taken, Rested, Planned, FloorToStep, CeilToStep;
    var cents := s.book.open[id].cents;
    assert Cancel(id) in actions <==> Stale(s, view, id);
    if cents % v.step == 0 {
      AtMostFloor(cents, v.buyCents, v.step);
      AtLeastCeil(cents, v.sellCents, v.step);
    }
  }

  /** Another market's orders and other accounts' are left alone. */
  lemma WithdrawsOnlyOwn(s: Life, view: string -> Option<View>, actions: seq<Action>, id: nat)
    requires Views(view) && Decided(s, view, actions, SYMBOLS) && Cancel(id) in actions
    ensures id in s.mine && id in s.book.open
    ensures view(s.book.open[id].lot.symbol).Some? && view(s.book.open[id].lot.symbol).value.cap > 0
  {
    hide RoomKept, Sensible, Taken, Rested, Planned;
    assert Stale(s, view, id);
  }

  /** A taker: at a price the bot would pay, against a quote of another account at that
      price or better, for no more than is there or than one order may be. */
  predicate TakesOffer(v: View, a: Action)
    requires a.Submit?
  {
    && 0 < a.qty <= v.maxOrder
    && match a.side
       case Buy => v.bestAsk.Some? && v.bestAsk.value <= a.cents <= v.buyCents && a.qty <= v.askDepth
       case Sell => v.bestBid.Some? && v.bestBid.value >= a.cents >= v.sellCents && a.qty <= v.bidDepth
  }

  /** A quote: it shrinks the position, crosses nothing, and rests inside its own price. */
  predicate Quotes(v: View, position: int, a: Action)
    requires a.Submit?
  {
    && v.quotes && a.qty == v.quoteQty && a.cents > 0
    && match a.side
       case Buy => position < 0 && a.cents <= v.quoteBuyCents && (v.bestAsk.None? || a.cents < v.bestAsk.value)
       case Sell => position > 0 && a.cents >= v.quoteSellCents && (v.bestBid.None? || a.cents > v.bestBid.value)
  }

  /** Every order of a batch is one or the other, at a whole step, in a market with a cap. */
  lemma EveryOrderHasReason(s: Life, view: string -> Option<View>, actions: seq<Action>, a: Action)
    requires Views(view) && Decided(s, view, actions, SYMBOLS) && a in actions && a.Submit?
    ensures view(a.symbol).Some? && view(a.symbol).value.cap > 0 && a.cents % view(a.symbol).value.step == 0
    ensures TakesOffer(view(a.symbol).value, a) || Quotes(view(a.symbol).value, PositionOf(s.book, a.symbol), a)
  {
    hide RoomKept, Taken, Rested, Planned, Stale, FloorToStep, CeilToStep;
    assert Sensible(view(a.symbol).value, PositionOf(s.book, a.symbol), a);
  }

  /** Another account offers through `cents`, a price of a whole step the bot would pay. */
  predicate Offers(v: View, side: Side, cents: int) {
    && v.step > 0 && cents % v.step == 0 && v.maxOrder > 0
    && match side
       case Buy => v.bestAsk.Some? && v.bestAsk.value <= cents <= v.buyCents && v.askDepth > 0
       case Sell => v.bestBid.Some? && v.bestBid.value >= cents >= v.sellCents && v.bidDepth > 0
  }

  /** The least of the room, the quantity on offer and the largest order. */
  predicate IsLeast(v: View, room: int, a: Action)
    requires a.Submit?
  {
    var depth := if a.side == Buy then v.askDepth else v.bidDepth;
    a.qty == if room <= depth && room <= v.maxOrder then room else if depth <= v.maxOrder then depth else v.maxOrder
  }

  /** Such an offer is taken while there is room, as much of it as the room, the offer and
      the order size allow, at that price or past it. */
  lemma OfferIsTaken(s: Life, view: string -> Option<View>, actions: seq<Action>, symbol: string, v: View, side: Side,
                     cents: int) returns (a: Action)
    requires Views(view) && Decided(s, view, actions, SYMBOLS) && symbol in SYMBOLS && view(symbol) == Some(v)
    requires Offers(v, side, cents) && Committed(s, symbol, side) < v.cap && v.cap > 0
    ensures a in actions && a.Submit? && a.symbol == symbol && a.side == side
    ensures if side == Buy then cents <= a.cents <= v.buyCents else v.sellCents <= a.cents <= cents
    ensures IsLeast(v, v.cap - Committed(s, symbol, side), a)
  {
    hide RoomKept, Rested, Planned, Stale, Sensible, FloorToStep, CeilToStep, Exposure;
    AtMostFloor(cents, v.buyCents, v.step);
    AtLeastCeil(cents, v.sellCents, v.step);
    var room := v.cap - Committed(s, symbol, side);
    assert Taken(actions, symbol, v, room, side) && Offered(v, side);
    a :| a in actions && a.Submit? && a.symbol == symbol && a.side == side && TakesAll(v, room, a);
  }

  /** A quote that would shrink the position, at the whole step `cents` next to its price,
      with none resting or on its way, is sent if the room holds it. */
  lemma DueIsQuoted(s: Life, view: string -> Option<View>, actions: seq<Action>, symbol: string, v: View, side: Side,
                    cents: int)
    requires Views(view) && Decided(s, view, actions, SYMBOLS) && symbol in SYMBOLS && view(symbol) == Some(v)
    requires v.quotes && v.cap > 0 && cents > 0 && cents % v.step == 0
    requires match side
             case Buy => && PositionOf(s.book, symbol) < 0 && cents <= v.quoteBuyCents < cents + v.step
                         && (v.bestAsk.None? || cents < v.bestAsk.value)
             case Sell => && PositionOf(s.book, symbol) > 0 && cents - v.step < v.quoteSellCents <= cents
                          && (v.bestBid.None? || cents > v.bestBid.value)
    requires Total(Lots(Mine(s.book.open, s.mine)), symbol, side) + Total(s.inflight, symbol, side) <= 0
    requires Committed(s, symbol, side) + Planned(actions, symbol, side) + v.quoteQty <= v.cap
    ensures Submit(symbol, side, cents, v.quoteQty) in actions
  {
    hide RoomKept, Taken, Planned, Stale, Sensible, FloorToStep, CeilToStep, Exposure, Total, Lots, Mine;
    AtMostFloor(cents, v.quoteBuyCents, v.step);
    AtLeastCeil(cents, v.quoteSellCents, v.step);
    if side == Buy {
      AtMostFloor(FloorToStep(v.quoteBuyCents, v.step), v.quoteBuyCents, v.step);
      if cents < FloorToStep(v.quoteBuyCents, v.step) { NextStep(cents, FloorToStep(v.quoteBuyCents, v.step), v.step); }
    } else if CeilToStep(v.quoteSellCents, v.step) < cents {
      NextStep(CeilToStep(v.quoteSellCents, v.step), cents, v.step);
    }
    assert Rested(s, symbol, v, actions, side);
  }
}
