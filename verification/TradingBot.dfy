/** The bot: what one poll decides to send, in place, and the two drivers that send it. */
module TradingBot {
  import opened Common
  import opened Sums
  import opened BotExposure
  import opened BotDecisions
  import opened BotRuns

  class Bot {
    var book: Book
    var mine: set<nat>
    var inflight: map<nat, Lot>
    var cursor: nat

    ghost function Now(): Life
      reads this
    {
      Life(book, mine, inflight)
    }

    /** The bot with what it still has to send, and what it lost track of. */
    ghost function On(pending: seq<Action>, unread: map<nat, Lot>, gone: seq<Action>): Desk
      reads this
    {
      Desk(Now(), pending, unread, gone)
    }

    method RestingTenths(symbol: string, side: Side) returns (q: int)
      ensures q == Total(Lots(Mine(book.open, mine)), symbol, side)
    {
      hide WeightOf;
      q := 0;
      ghost var lots := Lots(Mine(book.open, mine));
      ghost var f := WeightOf(lots, symbol, side);
      var left := mine;
      assert lots.Keys * left == lots.Keys;
      while left != {}
        invariant left <= mine
        invariant SumOver(lots.Keys, f) == q + SumOver(lots.Keys * left, f)
        decreases |left|
      {
        var id :| id in left;
        WeighOne(lots, left, id, symbol, side);
        if id in book.open {
          q := q + Weigh(book.open[id].lot, symbol, side);
        }
        left := left - {id};
      }
      assert lots.Keys * left == {};
    }

    method InflightTenths(symbol: string, side: Side) returns (q: int)
      ensures q == Total(inflight, symbol, side)
    {
      q := 0;
      ghost var f := WeightOf(inflight, symbol, side);
      var left: set<nat> := inflight.Keys;
      while left != {}
        invariant left <= inflight.Keys
        invariant SumOver(inflight.Keys, f) == q + SumOver(left, f)
        decreases |left|
      {
        var id :| id in left;
        SumPull(left, f, id);
        q := q + Weigh(inflight[id], symbol, side);
        left := left - {id};
      }
    }

    /** The cancels of one market: exactly the bot's own resting orders that fair
        value has caught up to. */
    method Withdraw(symbol: string, v: View) returns (actions: seq<Action>)
      requires WellFormed(v)
      ensures forall a | a in actions :: a.Cancel?
      ensures forall id: nat :: Cancel(id) in actions
                <==> id in mine && id in book.open && book.open[id].lot.symbol == symbol
                     && !StillGood(v, book.open[id].lot.side, book.open[id].cents)
    {
      actions := [];
      var left := mine;
      while left != {}
        invariant left <= mine
        invariant forall a | a in actions :: a.Cancel?
        invariant forall id: nat :: Cancel(id) in actions
                    <==> id in mine - left && id in book.open && book.open[id].lot.symbol == symbol
                         && !StillGood(v, book.open[id].lot.side, book.open[id].cents)
        decreases |left|
      {
        var id :| id in left;
        if id in book.open {
          var order := book.open[id];
          if order.lot.symbol == symbol && !StillGood(v, order.lot.side, order.cents) {
            actions := actions + [Cancel(id)];
          }
        }
        left := left - {id};
      }
    }

    /** The order that takes what the book offers through the limit, if there is any. */
    method Take(symbol: string, side: Side, v: View, room: int) returns (a: Option<Action>)
      requires WellFormed(v)
      ensures a.Some? <==> room > 0 && Offered(v, side)
      ensures a.Some? ==> a.value.Submit? && a.value.symbol == symbol && a.value.side == side && a.value.qty <= room
      ensures a.Some? ==> TakesAll(v, room, a.value) && forall position :: Sensible(v, position, a.value)
    {
      var limit := Limit(v, side);
      if room <= 0 || !Meets(v, side, limit) { return None; }
      var want := Depth(v, side);
      if room < want { want := room; }
      if v.maxOrder < want { want := v.maxOrder; }
      a := if want > 0 then Some(Submit(symbol, side, limit, want)) else None;
    }

    /** The resting order of one side, if the bot should hold one there. */
    method Quote(symbol: string, side: Side, v: View, room: int) returns (a: Option<Action>)
      requires WellFormed(v)
      ensures a.Some? ==> a.value.Submit? && a.value.symbol == symbol && a.value.side == side && a.value.qty <= room
      ensures a.Some? ==> Sensible(v, PositionOf(book, symbol), a.value)
      ensures a == if Due(Now(), symbol, v, side) && room >= v.quoteQty
                   then Some(Submit(symbol, side, QuoteTarget(v, side), v.quoteQty)) else None
    {
      if !v.quotes { return None; }
      var position := PositionOf(book, symbol);
      var reduces := if side == Buy then position < 0 else position > 0;
      var resting := RestingTenths(symbol, side);
      var sent := InflightTenths(symbol, side);
      if !reduces || room < v.quoteQty || resting + sent > 0 { return None; }
      var target := QuoteTarget(v, side);
      if Meets(v, side, target) || target <= 0 { return None; }
      a := Some(Submit(symbol, side, target, v.quoteQty));
    }

    /** `exposure`. */
    method ExposureTenths(symbol: string, side: Side) returns (q: int)
      ensures q == Committed(Now(), symbol, side)
    {
      var resting := RestingTenths(symbol, side);
      var sent := InflightTenths(symbol, side);
      q := Signed(book, symbol, side) + resting + sent;
    }

    /** One order more, or none, and the room it leaves. */
    method Add(symbol: string, v: View, actions: seq<Action>, longRoom: int, shortRoom: int, next: Option<Action>)
      returns (more: seq<Action>, long: int, short: int)
      requires WellFormed(v) && Planning(Now(), symbol, v, actions, longRoom, shortRoom)
      requires next.Some? ==> next.value.Submit? && next.value.symbol == symbol
                              && next.value.qty <= (if next.value.side == Buy then longRoom else shortRoom)
                              && Sensible(v, PositionOf(book, symbol), next.value)
      ensures Planning(Now(), symbol, v, more, long, short)
      ensures forall id: nat :: Cancel(id) in more <==> Cancel(id) in actions
      ensures actions <= more && (next.Some? ==> next.value in more)
      ensures next.None? ==> long == longRoom && short == shortRoom
      ensures next.Some? ==>
                (next.value.side == Sell ==> long == longRoom) && (next.value.side == Buy ==> short == shortRoom)
    {
      hide Planning, Sensible, Planned;
      more, long, short := actions, longRoom, shortRoom;
      if next.Some? {
        var a := next.value;
        SensibleSize(v, PositionOf(book, symbol), a);
        PlanOne(Now(), symbol, v, actions, longRoom, shortRoom, a);
        more := more + [a];
        if a.side == Buy { long := long - a.qty; } else { short := short - a.qty; }
      }
    }

    /** The two orders that take from the book. */
    method TakeBoth(symbol: string, v: View, actions: seq<Action>, longRoom: int, shortRoom: int)
      returns (more: seq<Action>, long: int, short: int)
      requires WellFormed(v) && Planning(Now(), symbol, v, actions, longRoom, shortRoom)
      ensures Planning(Now(), symbol, v, more, long, short)
      ensures Taken(more, symbol, v, longRoom, Buy) && Taken(more, symbol, v, shortRoom, Sell)
      ensures forall id: nat :: Cancel(id) in more <==> Cancel(id) in actions
    {
      hide Planning, Sensible, Limit, Planned, Offered, TakesAll;
      var buy := Take(symbol, Buy, v, longRoom);
      more, long, short := Add(symbol, v, actions, longRoom, shortRoom, buy);
      var sell := Take(symbol, Sell, v, shortRoom);
      more, long, short := Add(symbol, v, more, long, short, sell);
      assert buy.Some? ==> buy.value in more;
    }

    /** The orders that rest: at most one a side, on the side that shrinks the position. */
    method QuoteBoth(symbol: string, v: View, actions: seq<Action>, longRoom: int, shortRoom: int)
      returns (more: seq<Action>, long: int, short: int)
      requires WellFormed(v) && Planning(Now(), symbol, v, actions, longRoom, shortRoom)
      ensures Planning(Now(), symbol, v, more, long, short) && actions <= more
      ensures Rested(Now(), symbol, v, more, Buy) && Rested(Now(), symbol, v, more, Sell)
      ensures forall id: nat :: Cancel(id) in more <==> Cancel(id) in actions
    {
      hide Planning, Sensible, QuoteTarget, Planned, Due, Exposure;
      var buy := Quote(symbol, Buy, v, longRoom);
      more, long, short := Add(symbol, v, actions, longRoom, shortRoom, buy);
      var sell := Quote(symbol, Sell, v, short);
      more, long, short := Add(symbol, v, more, long, short, sell);
      assert buy.Some? ==> buy.value in more;
      RoomIs(Now(), symbol, v, more, long, short);
    }

    /** One market of `decide`: the cancels, then orders sized against room that
        shrinks with every order of this same batch. */
    method DecideSymbol(symbol: string, v: View) returns (actions: seq<Action>)
      requires WellFormed(v)
      ensures DecidedHere(Now(), symbol, v, actions)
    {
      hide Sensible, StillGood, TakesAll, Offered, Exposure, Due;
      actions := Withdraw(symbol, v);
      CancelsPlanNothing(actions, symbol);
      var long := ExposureTenths(symbol, Buy);
      var short := ExposureTenths(symbol, Sell);
      var longRoom, shortRoom := v.cap - long, v.cap - short;
      actions, longRoom, shortRoom := TakeBoth(symbol, v, actions, longRoom, shortRoom);
      ghost var taken := actions;
      assert Taken(taken, symbol, v, v.cap - Committed(Now(), symbol, Buy), Buy);
      assert Taken(taken, symbol, v, v.cap - Committed(Now(), symbol, Sell), Sell);
      actions, longRoom, shortRoom := QuoteBoth(symbol, v, actions, longRoom, shortRoom);
      forall side: Side
        ensures Planned(actions, symbol, side) == 0
                || Committed(Now(), symbol, side) + Planned(actions, symbol, side) <= v.cap
        ensures Taken(actions, symbol, v, v.cap - Committed(Now(), symbol, side), side)
        ensures Rested(Now(), symbol, v, actions, side)
      {
        PlanFits(Now(), symbol, v, actions, longRoom, shortRoom, side);
        assert side == Buy || side == Sell;
        TakenWithin(taken, actions, symbol, v, v.cap - Committed(Now(), symbol, side), side);
      }
      PlanSensible(Now(), symbol, v, actions, longRoom, shortRoom);
    }

    /** What the bot wants to do now, over every market that has a fair value and a cap. */
    method Decide(view: string -> Option<View>) returns (actions: seq<Action>)
      requires Views(view)
      modifies this`mine
      ensures mine == old(mine) * book.open.Keys
      ensures Decided(Now(), view, actions, SYMBOLS) && Decided(old(Now()), view, actions, SYMBOLS)
    {
      hide Decided, DecidedHere;
      mine := set id | id in mine && id in book.open;
      assert mine == old(mine) * book.open.Keys;
      actions := [];
      NothingDecided(Now(), view);
      for i := 0 to |SYMBOLS|
        invariant mine == old(mine) * book.open.Keys
        invariant Decided(Now(), view, actions, SYMBOLS[..i])
      {
        var symbol := SYMBOLS[i];
        assert SYMBOLS[..i + 1] == SYMBOLS[..i] + [symbol] && symbol !in SYMBOLS[..i];
        var v := view(symbol);
        if v.None? || v.value.cap <= 0 {
          MarketSkipped(Now(), view, actions, SYMBOLS[..i], symbol);
          continue;
        }
        var more := DecideSymbol(symbol, v.value);
        MarketDecided(Now(), view, actions, SYMBOLS[..i], symbol, more);
        actions := actions + more;
      }
      assert SYMBOLS[..|SYMBOLS|] == SYMBOLS;
      SameDecision(old(Now()), Now(), view, actions);
    }

    constructor ()
      ensures book == Book(map[], map[]) && mine == {} && inflight == map[] && cursor == 0
    {
      book, mine, inflight, cursor := Book(map[], map[]), {}, map[], 0;
    }

    /** `note_sent`: an order sent and not yet seen back counts from now on. */
    method NoteSent(id: nat, symbol: string, side: Side, qty: int)
      modifies this`inflight
      ensures inflight == old(inflight)[id := Lot(symbol, side, qty)]
      ensures id !in old(inflight) ==> forall m, d ::
                Committed(Now(), m, d) == old(Committed(Now(), m, d)) + Weigh(Lot(symbol, side, qty), m, d)
    {
      ghost var before, a := Now(), Submit(symbol, side, 0, qty);
      inflight := inflight[id := Lot(symbol, side, qty)];
      assert Now() == Sent(before, a, id);
      if id !in before.inflight {
        forall m, d
          ensures Committed(Now(), m, d) == Committed(before, m, d) + Weigh(Lot(symbol, side, qty), m, d)
        {
          SentRaises(before, a, id, m, d);
        }
      }
    }

    /** `observe`, on any message. `accepted` is whether the engine reads it at all: a
        repeat or one past a gap changes nothing. */
    method Observe(m: Message, accepted: bool)
      requires accepted ==> AllLegal(Entered(book, m), m.events)
      modifies this
      ensures !accepted ==> unchanged(this)
      ensures accepted ==> Now() == Heard(old(Now()), m)
      ensures accepted ==> old(cursor) <= cursor && m.id <= cursor && (cursor == old(cursor) || cursor == m.id)
    {
      if !accepted { return; }
      hide HappenAll;
      book := HappenAll(Entered(book, m), m.events);
      if cursor < m.id { cursor := m.id; }
      if m.id in inflight {
        inflight := inflight - {m.id};
        mine := mine + {m.id};
      } else {
        assert inflight - {m.id} == inflight;
      }
    }

    /** One poll of the live driver: decide, then send one by one. Every request may be
        answered, refused, or published with an answer nobody read. No cap of this poll
        is above `cap`. */
    method Poll(view: string -> Option<View>, answer: nat -> Answer, ghost unread: map<nat, Lot>,
                ghost gone: seq<Action>, ghost cap: map<string, int>)
      returns (actions: seq<Action>, ghost end: Desk)
      requires Within(On([], unread, gone), cap) && Views(view) && CapsWithin(view, cap)
      requires forall i: nat | Published(answer(i)) :: Unused(On([], unread, gone), answer(i).id)
      requires forall i: nat, j: nat | i < j && Published(answer(i)) && Published(answer(j)) ::
                 answer(i).id != answer(j).id
      modifies this`mine, this`inflight
      ensures Decided(old(Now()), view, actions, SYMBOLS)
      ensures end == Polled(Desk(Retained(old(Now())), [], unread, gone), actions, answer)
      ensures end == On([], end.unread, end.gone) && Within(end, cap)
    {
      hide Decided, Within;
      actions := Decide(view);
      DecideKeeps(old(On([], unread, gone)), view, actions, cap);
      ghost var start := On([], unread, gone);
      end := start;
      assert actions[..0] == [] && actions[0..] == actions;
      for n := 0 to |actions|
        modifies this`inflight
        invariant end == Polled(start, actions[..n], answer) && end == On([], end.unread, end.gone)
        invariant Within(end.(pending := actions[n..]), cap)
        invariant forall i: nat | i >= n && Published(answer(i)) :: Unused(end, answer(i).id)
      {
        assert actions[..n + 1][..n] == actions[..n] && actions[n..][1..] == actions[n + 1..];
        AnswerKeeps(end.(pending := actions[n..]), answer(n), cap);
        end := Answered(end, actions[n], answer(n));
        match answer(n) {
          case Numbered(id) =>
            match actions[n] {
              case Submit(symbol, side, _, qty) => NoteSent(id, symbol, side, qty);
              case Cancel(_) =>
            }
          case Silent(_) =>
          case Refused =>
        }
      }
      assert actions[..|actions|] == actions && actions[|actions|..] == [];
    }

    /** One action of `backtest`: noted, and read back as the bot's own message. */
    method PlayOne(a: Action, id: nat, venue: Venue, ghost pending: seq<Action>, ghost cap: map<string, int>)
      requires pending != [] && a == pending[0] && Within(On(pending, map[], []), cap)
      requires LegalVenue(venue) && KnownBelow(Now(), id)
      modifies this
      ensures Within(On(pending[1..], map[], []), cap) && KnownBelow(Now(), id + 1)
      ensures Now() == PlayedOne(old(Now()), a, id, venue)
    {
      hide Within, Honest, Heard, LegalVenue, Sane;
      SendKeeps(On(pending, map[], []), id, cap);
      match a {
        case Submit(symbol, side, _, qty) => NoteSent(id, symbol, side, qty);
        case Cancel(_) =>
      }
      assert Now() == Sent(old(Now()), a, id);
      ghost var d := On(pending[1..], map[], []);
      var own := OwnMessage(book, a, id, venue);
      OwnIsHonest(Now(), a, id, venue, own);
      ReadsOwn(d, own);
      HearKeeps(d, own, cap);
      WithinIsSane(d, cap);
      HeardBelow(d, own, id + 1);
      Observe(own, true);
    }

    /** One round of `backtest`: a message of the market, then a decision, each of whose
        actions is noted and lands before the next one is noted. `venue` is what the
        engine does on reading each of them, and `next` is the next free number. */
    method Round(m: Message, accepted: bool, view: string -> Option<View>, venue: Venue, next: nat,
                 ghost cap: map<string, int>)
      returns (actions: seq<Action>)
      requires Within(On([], map[], []), cap) && Views(view) && CapsWithin(view, cap) && LegalVenue(venue)
      requires (accepted ==> Honest(book, mine, inflight, m)) && KnownBelow(Now(), next) && m.id < next
      modifies this
      ensures Within(On([], map[], []), cap)
      ensures var heard := if accepted then Heard(old(Now()), m) else old(Now());
              && Decided(heard, view, actions, SYMBOLS)
              && Now() == Played(Retained(heard), actions, venue, next)
      ensures KnownBelow(Now(), next + |actions|)
    {
      hide Decided, Within, LegalVenue, PlayedOne, Sane;
      ghost var d := On([], map[], []);
      if accepted {
        ReadsOwn(d, m);
        HearKeeps(d, m, cap);
        WithinIsSane(d, cap);
        HeardBelow(d, m, next);
      }
      Observe(m, accepted);
      ghost var heard := Now();
      actions := Decide(view);
      DecideKeeps(Desk(heard, [], map[], []), view, actions, cap);
      ghost var s := Now();
      assert actions[..0] == [] && actions[0..] == actions;
      for n := 0 to |actions|
        invariant Now() == Played(s, actions[..n], venue, next) && Within(On(actions[n..], map[], []), cap)
        invariant KnownBelow(Now(), next + n)
      {
        assert actions[..n + 1][..n] == actions[..n] && actions[n..][1..] == actions[n + 1..];
        PlayOne(actions[n], next + n, venue, actions[n..], cap);
      }
      assert actions[..|actions|] == actions && actions[|actions|..] == [];
    }
  }

  lemma WithinIsSane(d: Desk, cap: map<string, int>)
    requires Within(d, cap)
    ensures Sane(d)
  {}

  /** Where no answer was lost, a message is honest as the bot sees it. */
  lemma ReadsOwn(d: Desk, m: Message)
    requires d.unread == map[] && Honest(d.held.book, d.held.mine, d.held.inflight, m)
    ensures HonestOn(d, m) && HeardOn(d, m) == d.(held := Heard(d.held, m))
  {
    hide AllLegal, HappenAll;
    assert d.held.inflight + d.unread == d.held.inflight;
    assert d.unread - {m.id} == d.unread;
  }
}
