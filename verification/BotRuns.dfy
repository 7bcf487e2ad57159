/** Whole runs of the bot: decisions, single sends, lost requests, lost answers, and
    messages of the log, in any order. */
module BotRuns {
  import opened Common
  import opened Sums
  import opened BotExposure
  import opened BotDecisions

  /** The bot, the actions decided and not yet sent, and the orders that were published
      without an answer the bot could read: those no message has shown it yet, and all
      of them since the start. */
  datatype Desk = Desk(held: Life, pending: seq<Action>, unread: map<nat, Lot>, gone: seq<Action>)

  ghost predicate Unsent(s: Life, lots: map<nat, Lot>) {
    forall id | id in lots :: lots[id].qty >= 0 && id !in s.mine && id !in s.book.open
  }

  predicate Sizes(actions: seq<Action>) {
    forall a | a in actions && a.Submit? :: a.qty >= 0
  }

  /** No quantity is negative, and every number names one order. */
  ghost predicate Sane(d: Desk) {
    && Sized(d.held.book.open) && Unsent(d.held, d.held.inflight) && Unsent(d.held, d.unread)
    && d.held.inflight.Keys !! d.unread.Keys && Sizes(d.pending) && Sizes(d.gone)
  }

  /** The orders that can fill and that the bot does not count. */
  ghost function Unnoted(d: Desk, symbol: string, side: Side): int {
    Total(Lots(d.held.book.open - d.held.mine), symbol, side) + Total(d.unread, symbol, side)
  }

  /** Everything that can fill, counted by the bot or not. */
  ghost function Reach(d: Desk, symbol: string, side: Side): int {
    Committed(d.held, symbol, side) + Unnoted(d, symbol, side)
  }

  /** What can fill, with what is still to be sent, is within the cap and what was lost. */
  ghost predicate Fits(d: Desk, symbol: string, side: Side, cap: int) {
    && Unnoted(d, symbol, side) <= Planned(d.gone, symbol, side)
    && Reach(d, symbol, side) + Planned(d.pending, symbol, side) <= cap + Planned(d.gone, symbol, side)
  }

  ghost predicate Within(d: Desk, cap: map<string, int>) {
    Sane(d) && forall symbol, side | symbol in cap :: Fits(d, symbol, side, cap[symbol])
  }

  lemma PlannedHead(actions: seq<Action>, symbol: string, side: Side)
    requires actions != []
    ensures Planned(actions, symbol, side) == QtyOf(actions[0], symbol, side) + Planned(actions[1..], symbol, side)
  {
    assert [actions[0]] + actions[1..] == actions;
    PlannedJoin([actions[0]], actions[1..], symbol, side);
    PlannedPush([], actions[0], symbol, side);
    assert [] + [actions[0]] == [actions[0]];
  }

  lemma {:induction false} PlannedNonneg(actions: seq<Action>, symbol: string, side: Side)
    requires Sizes(actions)
    ensures Planned(actions, symbol, side) >= 0
  {
    if actions != [] {
      assert actions[|actions| - 1] in actions;
      PlannedNonneg(actions[..|actions| - 1], symbol, side);
    }
  }

  lemma ReachCoversPosition(d: Desk, symbol: string, side: Side)
    requires Sane(d)
    ensures Signed(d.held.book, symbol, side) <= Reach(d, symbol, side)
  {
    hide Total;
    TotalNonneg(Lots(Mine(d.held.book.open, d.held.mine)), symbol, side);
    TotalNonneg(Lots(d.held.book.open - d.held.mine), symbol, side);
    TotalNonneg(d.held.inflight, symbol, side);
    TotalNonneg(d.unread, symbol, side);
  }

  // ---------------------------------------------------------------------------
  // Steps
  // ---------------------------------------------------------------------------

  /** No cap of this poll is above the bound. */
  ghost predicate CapsWithin(view: string -> Option<View>, cap: map<string, int>) {
    forall m | m in cap && view(m).Some? :: view(m).value.cap <= cap[m]
  }

  /** The bot after `decide` has forgotten its closed orders. */
  function Retained(s: Life): Life {
    s.(mine := s.mine * s.book.open.Keys)
  }

  /** The bot after one action is sent under `id`. */
  function Sent(s: Life, a: Action, id: nat): Life {
    match a
    case Submit(symbol, side, _, qty) => s.(inflight := s.inflight[id := Lot(symbol, side, qty)])
    case Cancel(_) => s
  }

  /** One action published under `id`, with an answer the bot never read. */
  function Lost(d: Desk, a: Action, id: nat): Desk {
    match a
    case Submit(symbol, side, _, qty) => d.(unread := d.unread[id := Lot(symbol, side, qty)], gone := d.gone + [a])
    case Cancel(_) => d
  }

  /** The bot after one message of the log is read. */
  function Heard(s: Life, m: Message): Life
    requires AllLegal(Entered(s.book, m), m.events)
  {
    Life(HappenAll(Entered(s.book, m), m.events), MineAfter(s.mine, s.inflight, m), s.inflight - {m.id})
  }

  function HeardOn(d: Desk, m: Message): Desk
    requires AllLegal(Entered(d.held.book, m), m.events)
  {
    d.(held := Heard(d.held, m), unread := d.unread - {m.id})
  }

  /** The log holds what the bot sent, whether the bot read an answer or not. */
  ghost predicate HonestOn(d: Desk, m: Message) {
    Honest(d.held.book, d.held.mine, d.held.inflight + d.unread, m)
  }

  predicate Unused(d: Desk, id: nat) {
    id !in d.held.mine && id !in d.held.inflight && id !in d.held.book.open && id !in d.unread
  }

  lemma RetainedSame(d: Desk, symbol: string, side: Side)
    ensures var after := d.(held := Retained(d.held));
            && Committed(after.held, symbol, side) == Committed(d.held, symbol, side)
            && Unnoted(after, symbol, side) == Unnoted(d, symbol, side)
            && (Sane(d) ==> Sane(after))
  {
    hide Total;
    var s := d.held;
    assert Mine(s.book.open, Retained(s).mine) == Mine(s.book.open, s.mine);
    assert s.book.open - Retained(s).mine == s.book.open - s.mine;
  }

  /** What `decide` decides fits the bound beside everything committed. */
  lemma DecideKeeps(d: Desk, view: string -> Option<View>, actions: seq<Action>, cap: map<string, int>)
    requires Within(d, cap) && Views(view) && CapsWithin(view, cap) && Decided(d.held, view, actions, SYMBOLS)
    ensures Within(d.(held := Retained(d.held), pending := actions), cap)
  {
    forall a | a in actions && a.Submit? ensures a.qty >= 0 {
      SensibleSize(view(a.symbol).value, PositionOf(d.held.book, a.symbol), a);
    }
    hide Sensible, StillGood, Taken, Rested, Exposure, Planned, Sized, Unsent, Unnoted;
    RetainedSame(d, "", Buy);
    var after := d.(held := Retained(d.held), pending := actions);
    forall symbol, side | symbol in cap ensures Fits(after, symbol, side, cap[symbol]) {
      RetainedSame(d, symbol, side);
      PlannedNonneg(d.pending, symbol, side);
      SameUnnoted(d.(held := Retained(d.held)), after, symbol, side);
      assert Fits(d, symbol, side, cap[symbol]);
      assert RoomKept(d.held, view, actions, symbol, side);
    }
  }

  lemma SameUnnoted(a: Desk, b: Desk, symbol: string, side: Side)
    requires a.held.book == b.held.book && a.held.mine == b.held.mine && a.unread == b.unread
    ensures Unnoted(a, symbol, side) == Unnoted(b, symbol, side)
  {}

  /** An order noted moves its quantity from the plan into what is committed. */
  lemma SentRaises(s: Life, a: Action, id: nat, symbol: string, side: Side)
    requires id !in s.inflight
    ensures Committed(Sent(s, a, id), symbol, side) == Committed(s, symbol, side) + QtyOf(a, symbol, side)
  {
    hide Total;
    if a.Submit? { TotalPut(s.inflight, id, Lot(a.symbol, a.side, a.qty), symbol, side); }
  }

  lemma SendKeeps(d: Desk, id: nat, cap: map<string, int>)
    requires Within(d, cap) && d.pending != [] && Unused(d, id)
    ensures Within(d.(held := Sent(d.held, d.pending[0], id), pending := d.pending[1..]), cap)
  {
    var a, after := d.pending[0], d.(held := Sent(d.held, d.pending[0], id), pending := d.pending[1..]);
    assert forall b | b in d.pending[1..] :: b in d.pending;
    assert a in d.pending;
    hide Exposure, Planned, Unnoted, Sized;
    forall symbol, side | symbol in cap ensures Fits(after, symbol, side, cap[symbol]) {
      SentRaises(d.held, a, id, symbol, side);
      PlannedHead(d.pending, symbol, side);
      SameUnnoted(d, after, symbol, side);
      assert Fits(d, symbol, side, cap[symbol]);
    }
  }

  /** An action that is never published leaves its room unused. */
  lemma DropKeeps(d: Desk, cap: map<string, int>)
    requires Within(d, cap) && d.pending != []
    ensures Within(d.(pending := d.pending[1..]), cap)
  {
    var after := d.(pending := d.pending[1..]);
    assert forall b | b in d.pending[1..] :: b in d.pending;
    assert d.pending[0] in d.pending;
    hide Exposure, Planned, Unnoted, Sized, Unsent;
    forall symbol, side | symbol in cap ensures Fits(after, symbol, side, cap[symbol]) {
      PlannedHead(d.pending, symbol, side);
      SameUnnoted(d, after, symbol, side);
      assert Fits(d, symbol, side, cap[symbol]);
    }
  }

  lemma LostRaises(d: Desk, a: Action, id: nat, symbol: string, side: Side)
    requires id !in d.unread
    ensures Unnoted(Lost(d, a, id), symbol, side) == Unnoted(d, symbol, side) + QtyOf(a, symbol, side)
    ensures Planned(Lost(d, a, id).gone, symbol, side) == Planned(d.gone, symbol, side) + QtyOf(a, symbol, side)
  {
    hide Total, Planned;
    if a.Submit? {
      TotalPut(d.unread, id, Lot(a.symbol, a.side, a.qty), symbol, side);
      PlannedPush(d.gone, a, symbol, side);
    }
  }

  /** A lost answer moves its quantity from the plan to what the bot does not count. */
  lemma LoseKeeps(d: Desk, id: nat, cap: map<string, int>)
    requires Within(d, cap) && d.pending != [] && Unused(d, id)
    ensures Within(Lost(d, d.pending[0], id).(pending := d.pending[1..]), cap)
  {
    var a := d.pending[0];
    var after := Lost(d, a, id).(pending := d.pending[1..]);
    assert forall b | b in d.pending[1..] :: b in d.pending;
    assert a in d.pending;
    hide Exposure, Planned, Unnoted, Sized;
    forall symbol, side | symbol in cap ensures Fits(after, symbol, side, cap[symbol]) {
      LostRaises(d, a, id, symbol, side);
      PlannedHead(d.pending, symbol, side);
      SameUnnoted(Lost(d, a, id), after, symbol, side);
      assert Fits(d, symbol, side, cap[symbol]);
    }
  }

  // ---------------------------------------------------------------------------
  // Reading
  // ---------------------------------------------------------------------------

  lemma ReachIs(d: Desk, symbol: string, side: Side)
    requires d.held.inflight.Keys !! d.unread.Keys
    ensures Reach(d, symbol, side)
            == Worst(d.held.book, symbol, side) + Total(d.held.inflight + d.unread, symbol, side)
  {
    WorstSplits(d.held.book, d.held.mine, symbol, side);
    NothingTotals(symbol, side);
    TotalJoin(d.held.inflight, d.unread, symbol, side);
    hide Total;
  }

  /** Counted as if the bot had noted every order, a message raises nothing. */
  lemma HeardWorst(d: Desk, m: Message, symbol: string, side: Side)
    requires Sane(d) && HonestOn(d, m)
    ensures var after, sent := HeardOn(d, m).held.book, d.held.inflight + d.unread;
            && Sized(after.open) && after.open.Keys <= d.held.book.open.Keys + {m.id}
            && Worst(after, symbol, side) + Total(sent - {m.id}, symbol, side)
               <= Worst(d.held.book, symbol, side) + Total(sent, symbol, side)
  {
    hide Total, HappenAll, Entered, AllLegal;
    var b, all, sent := d.held.book, d.held.mine + d.held.book.open.Keys, d.held.inflight + d.unread;
    assert Counted(b, all, sent) && Honest(b, all, sent, m);
    MessageLowers(b, all, sent, m, symbol, side);
    AllMine(b.open, all);
    AllMine(HappenAll(Entered(b, m), m.events).open, MineAfter(all, sent, m));
  }

  lemma HeardReach(d: Desk, m: Message, symbol: string, side: Side)
    requires Sane(d) && HonestOn(d, m)
    ensures Sane(HeardOn(d, m)) && Reach(HeardOn(d, m), symbol, side) <= Reach(d, symbol, side)
    ensures HeardOn(d, m).held.book.open.Keys <= d.held.book.open.Keys + {m.id}
  {
    hide Total, HappenAll, Entered, AllLegal, Reach, Worst, Sized;
    var after := HeardOn(d, m);
    HeardWorst(d, m, symbol, side);
    assert after.held.inflight + after.unread == (d.held.inflight + d.unread) - {m.id};
    ReachIs(d, symbol, side);
    ReachIs(after, symbol, side);
  }

  lemma EnteredUnnoted(d: Desk, m: Message, symbol: string, side: Side)
    requires Sane(d) && HonestOn(d, m)
    ensures var entered := Entered(d.held.book, m);
            && Sized(entered.open)
            && Total(Lots(entered.open - MineAfter(d.held.mine, d.held.inflight, m)), symbol, side)
               + Total(d.unread - {m.id}, symbol, side) == Unnoted(d, symbol, side)
  {
    hide Total, AllLegal;
    var b, mine, inflight := d.held.book, d.held.mine, d.held.inflight;
    var entered, rest := Entered(b, m), b.open - mine;
    if m.id in inflight {
      assert entered.open - MineAfter(mine, inflight, m) == rest;
      assert d.unread - {m.id} == d.unread;
    } else if m.id in d.unread {
      assert entered.open - mine == rest[m.id := m.order.value];
      LotsPut(rest, m.id, m.order.value);
      TotalPut(Lots(rest), m.id, d.unread[m.id], symbol, side);
      TotalDrop(d.unread, m.id, symbol, side);
    } else {
      assert d.unread - {m.id} == d.unread;
    }
  }

  lemma HeardUnnoted(d: Desk, m: Message, symbol: string, side: Side)
    requires Sane(d) && HonestOn(d, m)
    ensures Unnoted(HeardOn(d, m), symbol, side) <= Unnoted(d, symbol, side)
  {
    hide Total, HappenAll, Entered, AllLegal, Sized;
    EnteredUnnoted(d, m, symbol, side);
    HappenAllUnnoted(Entered(d.held.book, m), m.events, MineAfter(d.held.mine, d.held.inflight, m), symbol, side);
  }

  /** A message read, with any part of the batch still to be sent. */
  lemma HearKeeps(d: Desk, m: Message, cap: map<string, int>)
    requires Within(d, cap) && HonestOn(d, m)
    ensures Within(HeardOn(d, m), cap)
  {
    hide Reach, Planned, Unnoted, Heard, Sane, Unsent, Sized, AllLegal, Entered;
    HeardReach(d, m, "", Buy);
    var after := HeardOn(d, m);
    forall symbol, side | symbol in cap ensures Fits(after, symbol, side, cap[symbol]) {
      HeardReach(d, m, symbol, side);
      HeardUnnoted(d, m, symbol, side);
      assert Fits(d, symbol, side, cap[symbol]);
    }
  }

  // ---------------------------------------------------------------------------
  // Batches
  // ---------------------------------------------------------------------------

  /** What the live driver learns of one request: the number it was published under,
      nothing although it was published under `id`, or that it was not published. */
  datatype Answer = Numbered(id: nat) | Silent(id: nat) | Refused

  predicate Published(answer: Answer) {
    !answer.Refused?
  }

  /** What one request makes of the desk. */
  function Answered(d: Desk, a: Action, answer: Answer): Desk {
    match answer
    case Numbered(id) => d.(held := Sent(d.held, a, id))
    case Silent(id) => Lost(d, a, id)
    case Refused => d
  }

  /** What a whole batch does. */
  function Polled(d: Desk, actions: seq<Action>, answer: nat -> Answer): Desk {
    if actions == [] then d else
    var n := |actions| - 1;
    Answered(Polled(d, actions[..n], answer), actions[n], answer(n))
  }

  /** One request, with the rest of the batch still to go. */
  lemma AnswerKeeps(d: Desk, answer: Answer, cap: map<string, int>)
    requires Within(d, cap) && d.pending != [] && (Published(answer) ==> Unused(d, answer.id))
    ensures Within(Answered(d, d.pending[0], answer).(pending := d.pending[1..]), cap)
  {
    hide Within, Lost, Sent;
    match answer
    case Numbered(id) => SendKeeps(d, id, cap);
    case Silent(id) => LoseKeeps(d, id, cap);
    case Refused => DropKeeps(d, cap);
  }

  /** What the engine does on reading one of the bot's messages. */
  type Venue = (Book, Action, nat) -> seq<Event>

  /** The book with an order of the bot entered. */
  function WithOrder(b: Book, a: Action, id: nat): Book {
    match a
    case Submit(symbol, side, cents, qty) => b.(open := b.open[id := OpenOrder(Lot(symbol, side, qty), cents)])
    case Cancel(_) => b
  }

  ghost predicate LegalVenue(venue: Venue) {
    forall b, a, id :: AllLegal(WithOrder(b, a, id), venue(b, a, id))
  }

  /** The message an action becomes. */
  function OwnMessage(b: Book, a: Action, id: nat, venue: Venue): Message {
    match a
    case Submit(symbol, side, cents, qty) => Message(id, Some(OpenOrder(Lot(symbol, side, qty), cents)), venue(b, a, id))
    case Cancel(_) => Message(id, None, venue(b, a, id))
  }

  /** Numbers are handed out in order. */
  predicate KnownBelow(s: Life, next: nat) {
    && (forall id | id in s.mine :: id < next) && (forall id | id in s.inflight :: id < next)
    && (forall id | id in s.book.open :: id < next)
  }

  lemma OwnIsHonest(s: Life, a: Action, id: nat, venue: Venue, m: Message)
    requires LegalVenue(venue) && m == OwnMessage(s.book, a, id, venue)
    requires id !in s.mine && id !in s.book.open
    requires if a.Submit? then id in s.inflight && s.inflight[id] == Lot(a.symbol, a.side, a.qty) else id !in s.inflight
    ensures Honest(s.book, s.mine, s.inflight, m)
  {
    assert Entered(s.book, m) == WithOrder(s.book, a, id);
  }

  lemma HeardBelow(d: Desk, m: Message, next: nat)
    requires Sane(d) && HonestOn(d, m) && KnownBelow(d.held, next) && m.id < next
    ensures KnownBelow(Heard(d.held, m), next)
  {
    hide Reach, HappenAll, AllLegal, Entered, Sized, Unsent;
    HeardReach(d, m, "", Buy);
  }

  /** One action noted, and read back. */
  ghost function PlayedOne(s: Life, a: Action, id: nat, venue: Venue): Life
    requires LegalVenue(venue)
  {
    var sent := Sent(s, a, id);
    var own := OwnMessage(sent.book, a, id, venue);
    assert Entered(sent.book, own) == WithOrder(sent.book, a, id);
    Heard(sent, own)
  }

  /** What `backtest` makes of a batch: each action through before the next. */
  ghost function Played(s: Life, actions: seq<Action>, venue: Venue, next: nat): Life
    requires LegalVenue(venue)
  {
    if actions == [] then s else
    var n := |actions| - 1;
    PlayedOne(Played(s, actions[..n], venue, next), actions[n], next + n, venue)
  }

  // ---------------------------------------------------------------------------
  // Runs
  // ---------------------------------------------------------------------------

  /** `decide` on some view of the markets, one request with its answer, or one message
      of the log read. */
  datatype Step =
    | Decide(view: string -> Option<View>, actions: seq<Action>)
    | Request(answer: Answer)
    | Hear(message: Message)

  /** What can happen: the actions are ones `decide` decides, and the log holds what was
      published. */
  ghost predicate Possible(d: Desk, step: Step, cap: map<string, int>) {
    match step
    case Decide(view, actions) => Views(view) && CapsWithin(view, cap) && Decided(d.held, view, actions, SYMBOLS)
    case Request(answer) => d.pending != [] && (Published(answer) ==> Unused(d, answer.id))
    case Hear(m) => HonestOn(d, m)
  }

  ghost function After(d: Desk, step: Step, cap: map<string, int>): Desk
    requires Possible(d, step, cap)
  {
    match step
    case Decide(_, actions) => d.(held := Retained(d.held), pending := actions)
    case Request(answer) => Answered(d, d.pending[0], answer).(pending := d.pending[1..])
    case Hear(m) => HeardOn(d, m)
  }

  lemma StepKeeps(d: Desk, step: Step, cap: map<string, int>)
    requires Within(d, cap) && Possible(d, step, cap)
    ensures Within(After(d, step, cap), cap)
  {
    hide Within, Decided, Honest, Views, CapsWithin, Heard, Unused, Answered;
    match step
    case Decide(view, actions) => DecideKeeps(d, view, actions, cap);
    case Request(answer) => AnswerKeeps(d, answer, cap);
    case Hear(m) => HearKeeps(d, m, cap);
  }

  ghost predicate IsRun(d: Desk, steps: seq<Step>, cap: map<string, int>)
    decreases |steps|
  {
    steps == [] || (Possible(d, steps[0], cap) && IsRun(After(d, steps[0], cap), steps[1..], cap))
  }

  ghost function End(d: Desk, steps: seq<Step>, cap: map<string, int>): Desk
    requires IsRun(d, steps, cap)
    decreases |steps|
  {
    if steps == [] then d else End(After(d, steps[0], cap), steps[1..], cap)
  }

  lemma {:induction false} RunKeeps(d: Desk, steps: seq<Step>, cap: map<string, int>)
    requires Within(d, cap) && IsRun(d, steps, cap)
    ensures Within(End(d, steps, cap), cap)
    decreases |steps|
  {
    hide Within, Possible, After;
    if steps != [] {
      StepKeeps(d, steps[0], cap);
      RunKeeps(After(d, steps[0], cap), steps[1..], cap);
    }
  }

  const NewBot := Desk(Life(Book(map[], map[]), {}, map[]), [], map[], [])

  lemma NoOrders(open: map<nat, OpenOrder>, mine: set<nat>, symbol: string, side: Side)
    requires open.Keys == {}
    ensures Total(Lots(Mine(open, mine)), symbol, side) == 0 && Total(Lots(open - mine), symbol, side) == 0
  {
    assert Lots(Mine(open, mine)).Keys == {} && Lots(open - mine).Keys == {};
  }

  lemma NewBotWithin(cap: map<string, int>)
    requires forall m | m in cap :: cap[m] >= 0
    ensures Within(NewBot, cap)
  {
    hide Total, Lots, Mine;
    forall symbol, side | symbol in cap ensures Fits(NewBot, symbol, side, cap[symbol]) {
      NothingTotals(symbol, side);
      NoOrders(NewBot.held.book.open, NewBot.held.mine, symbol, side);
    }
  }

  /** However decisions, requests, answers, lost answers, arrivals, partial fills and
      cancels interleave, the position passes the cap by at most what was published
      without an answer the bot could read. */
  lemma PositionPassesCapByLostAtMost(steps: seq<Step>, cap: map<string, int>, symbol: string)
    requires (forall m | m in cap :: cap[m] >= 0) && IsRun(NewBot, steps, cap) && symbol in cap
    ensures var d := End(NewBot, steps, cap);
            -cap[symbol] - Planned(d.gone, symbol, Sell)
            <= PositionOf(d.held.book, symbol)
            <= cap[symbol] + Planned(d.gone, symbol, Buy)
  {
    hide Possible, After, IsRun, End, Reach, Unnoted, Sized, Unsent;
    NewBotWithin(cap);
    RunKeeps(NewBot, steps, cap);
    var d := End(NewBot, steps, cap);
    assert Fits(d, symbol, Buy, cap[symbol]) && Fits(d, symbol, Sell, cap[symbol]);
    PlannedNonneg(d.pending, symbol, Buy);
    PlannedNonneg(d.pending, symbol, Sell);
    ReachCoversPosition(d, symbol, Buy);
    ReachCoversPosition(d, symbol, Sell);
  }

  lemma {:induction false} NothingLost(d: Desk, steps: seq<Step>, cap: map<string, int>)
    requires IsRun(d, steps, cap) && forall step | step in steps :: step.Request? ==> !step.answer.Silent?
    ensures End(d, steps, cap).gone == d.gone
    decreases |steps|
  {
    hide Possible;
    if steps != [] {
      assert steps[0] in steps;
      assert forall step | step in steps[1..] :: step in steps;
      NothingLost(After(d, steps[0], cap), steps[1..], cap);
    }
  }

  /** If every answer was read, the position never passes the cap in either direction. */
  lemma PositionNeverPassesCap(steps: seq<Step>, cap: map<string, int>, symbol: string)
    requires (forall m | m in cap :: cap[m] >= 0) && IsRun(NewBot, steps, cap) && symbol in cap
    requires forall step | step in steps :: step.Request? ==> !step.answer.Silent?
    ensures -cap[symbol] <= PositionOf(End(NewBot, steps, cap).held.book, symbol) <= cap[symbol]
  {
    hide IsRun, End;
    PositionPassesCapByLostAtMost(steps, cap, symbol);
    NothingLost(NewBot, steps, cap);
  }

  // ---------------------------------------------------------------------------
  // The exact condition
  // ---------------------------------------------------------------------------

  /** Messages the log may hold next, while the bot sends nothing more. */
  ghost predicate AllHonest(d: Desk, ms: seq<Message>)
    decreases |ms|
  {
    ms == [] || (HonestOn(d, ms[0]) && AllHonest(HeardOn(d, ms[0]), ms[1..]))
  }

  ghost function Read(d: Desk, ms: seq<Message>): Desk
    requires AllHonest(d, ms)
    decreases |ms|
  {
    if ms == [] then d else Read(HeardOn(d, ms[0]), ms[1..])
  }

  lemma {:induction false} ReadBounds(d: Desk, ms: seq<Message>, symbol: string, side: Side)
    requires Sane(d) && AllHonest(d, ms)
    ensures Signed(Read(d, ms).held.book, symbol, side) <= Reach(d, symbol, side)
    decreases |ms|
  {
    hide Sane, Reach, Heard, Entered, AllLegal;
    if ms == [] {
      ReachCoversPosition(d, symbol, side);
    } else {
      HeardReach(d, ms[0], symbol, side);
      ReadBounds(HeardOn(d, ms[0]), ms[1..], symbol, side);
    }
  }

  lemma {:induction false} FreshId(used: set<nat>) returns (id: nat)
    ensures forall x | x in used :: x < id
  {
    if x :| x in used {
      var other := FreshId(used - {x});
      id := if other > x then other else x + 1;
      assert forall y | y in used :: y == x || y in used - {x};
    } else {
      id := 0;
    }
  }

  /** The log can land every order on its way, and the engine then fill all of a side. */
  lemma {:induction false} ReachIsReached(d: Desk, symbol: string, side: Side) returns (ms: seq<Message>)
    requires Sane(d)
    ensures AllHonest(d, ms) && Signed(Read(d, ms).held.book, symbol, side) == Reach(d, symbol, side)
    decreases d.held.inflight.Keys + d.unread.Keys
  {
    hide Reach, Sane, Sized, Worst, HappenAll;
    var sent := d.held.inflight + d.unread;
    if id :| id in sent {
      var m := Message(id, Some(OpenOrder(sent[id], 0)), []);
      LandKeepsReach(d, m, symbol, side);
      var rest := ReachIsReached(HeardOn(d, m), symbol, side);
      ms := [m] + rest;
      assert ms[1..] == rest;
    } else {
      var events, m := FillSide(d, symbol, side);
      ms := [m];
      assert ms[1..] == [];
    }
  }

  lemma LandKeepsReach(d: Desk, m: Message, symbol: string, side: Side)
    requires Sane(d) && m.events == [] && m.order.Some? && m.id in d.held.inflight + d.unread
    requires m.order.value.lot == (d.held.inflight + d.unread)[m.id]
    ensures HonestOn(d, m) && Sane(HeardOn(d, m)) && Reach(HeardOn(d, m), symbol, side) == Reach(d, symbol, side)
    ensures HeardOn(d, m).held.inflight.Keys + HeardOn(d, m).unread.Keys
            == d.held.inflight.Keys + d.unread.Keys - {m.id}
  {
    hide Total, Lots, Reach;
    var b, sent, after := d.held.book, d.held.inflight + d.unread, HeardOn(d, m);
    assert after.held.book.open == b.open[m.id := m.order.value];
    assert after.held.inflight + after.unread == sent - {m.id};
    LotsPut(b.open, m.id, m.order.value);
    LotsKeys(b.open);
    TotalPut(Lots(b.open), m.id, sent[m.id], symbol, side);
    TotalDrop(sent, m.id, symbol, side);
    ReachIs(d, symbol, side);
    ReachIs(after, symbol, side);
  }

  lemma LotsKeys(open: map<nat, OpenOrder>)
    ensures Lots(open).Keys == open.Keys
  {}

  lemma FillSide(d: Desk, symbol: string, side: Side) returns (events: seq<Event>, m: Message)
    requires Sane(d) && d.held.inflight + d.unread == map[]
    ensures HonestOn(d, m) && Signed(HeardOn(d, m).held.book, symbol, side) == Reach(d, symbol, side)
  {
    hide Total, Reach, Worst, HappenAll, AllLegal;
    events := WorstIsReached(d.held.book, symbol, side);
    var id := FreshId(d.held.mine + d.held.book.open.Keys);
    m := Message(id, None, events);
    ReachIs(d, symbol, side);
    NothingTotals(symbol, side);
  }

  /** Whatever messages the log holds next, the position stays within the cap if and only
      if the bot's own count leaves room for every order it does not count. */
  lemma CapHoldsIffUnnotedFit(d: Desk, symbol: string, cap: int)
    requires Sane(d)
    ensures (forall ms | AllHonest(d, ms) :: -cap <= PositionOf(Read(d, ms).held.book, symbol) <= cap)
            <==> forall side :: Committed(d.held, symbol, side) + Unnoted(d, symbol, side) <= cap
  {
    hide Exposure, Unnoted, Sane, AllHonest, Read;
    var buys := ReachIsReached(d, symbol, Buy);
    var sells := ReachIsReached(d, symbol, Sell);
    assert PositionOf(Read(d, buys).held.book, symbol) == Reach(d, symbol, Buy);
    assert -PositionOf(Read(d, sells).held.book, symbol) == Reach(d, symbol, Sell);
    forall ms | AllHonest(d, ms)
      ensures -Reach(d, symbol, Sell) <= PositionOf(Read(d, ms).held.book, symbol) <= Reach(d, symbol, Buy)
    {
      ReadBounds(d, ms, symbol, Buy);
      ReadBounds(d, ms, symbol, Sell);
    }
    if Reach(d, symbol, Buy) <= cap && Reach(d, symbol, Sell) <= cap {
      forall side: Side ensures Committed(d.held, symbol, side) + Unnoted(d, symbol, side) <= cap {
        if side == Buy { assert Reach(d, symbol, Buy) <= cap; } else { assert Reach(d, symbol, Sell) <= cap; }
      }
    }
  }

  // ---------------------------------------------------------------------------
  // A lost answer
  // ---------------------------------------------------------------------------

  /** One market that offers `k` at `ask`, to a bot that buys up to `limit`. */
  function OneMarket(symbol: string, k: int, limit: int, ask: int): string -> Option<View> {
    m => if m == symbol then Some(View(k, limit, limit + 1, 1, Some(ask), None, k, 0, k, false, 0, 0, 0)) else None
  }

  /** A bot that counts nothing takes all of it. */
  lemma TakesWhole(s: Life, symbol: string, k: int, limit: int, ask: int)
    requires symbol in SYMBOLS && k > 0 && ask <= limit && s.mine == {} && Committed(s, symbol, Buy) == 0
    ensures var view := OneMarket(symbol, k, limit, ask);
            Views(view) && Decided(s, view, [Submit(symbol, Buy, limit, k)], SYMBOLS)
  {
    hide Exposure;
    var view, a := OneMarket(symbol, k, limit, ask), Submit(symbol, Buy, limit, k);
    assert [] + [a] == [a];
    var v := view(symbol).value;
    assert Limit(v, Buy) == limit;
    forall m, side ensures Planned([a], m, side) == Weigh(Lot(symbol, Buy, k), m, side) {
      PlannedPush([], a, m, side);
    }
    forall m, side ensures RoomKept(s, view, [a], m, side) {}
    forall side ensures Taken([a], symbol, v, k - Committed(s, symbol, side), side) {
      if side == Buy { assert TakesAll(v, k - Committed(s, symbol, side), a) && a in [a]; }
    }
  }

  /** A flat bot that has noted nothing counts nothing. */
  lemma FlatTakesWhole(s: Life, symbol: string, k: int, limit: int, ask: int)
    requires symbol in SYMBOLS && k > 0 && ask <= limit
    requires s.mine == {} && s.inflight == map[] && PositionOf(s.book, symbol) == 0
    ensures var view := OneMarket(symbol, k, limit, ask);
            Views(view) && Decided(s, view, [Submit(symbol, Buy, limit, k)], SYMBOLS)
  {
    hide Decided, Total, Lots, Mine;
    NoneNoted(s.book.open, symbol);
    NothingTotals(symbol, Buy);
    TakesWhole(s, symbol, k, limit, ask);
  }

  lemma NoneNoted(open: map<nat, OpenOrder>, symbol: string)
    ensures Total(Lots(Mine(open, {})), symbol, Buy) == 0
  {
    assert Lots(Mine(open, {})).Keys == {};
  }

  lemma OneStep(d: Desk, step: Step, rest: seq<Step>, cap: map<string, int>)
    requires Possible(d, step, cap) && IsRun(After(d, step, cap), rest, cap)
    ensures IsRun(d, [step] + rest, cap) && End(d, [step] + rest, cap) == End(After(d, step, cap), rest, cap)
  {
    hide Possible, After;
    assert ([step] + rest)[1..] == rest;
  }

  /** The desk once an order for `k` rests that the bot never noted. */
  function Resting(symbol: string, k: int, cents: int): Desk {
    var lot, a := Lot(symbol, Buy, k), Submit(symbol, Buy, cents, k);
    Desk(Life(Book(map[], map[1 := OpenOrder(lot, cents)]), {}, map[]), [], map[], [a])
  }

  /** A decision, a request whose answer is lost, and the order coming to rest. */
  lemma FirstOrder(symbol: string, cents: int, cap: map<string, int>) returns (steps: seq<Step>)
    requires symbol in SYMBOLS && symbol in cap && cap[symbol] > 0
    ensures |steps| == 3 && steps[0].Decide? && IsRun(NewBot, steps, cap)
    ensures End(NewBot, steps, cap) == Resting(symbol, cap[symbol], cents)
  {
    hide Decided, HonestOn, IsRun, End, Lots, Mine, Total;
    var k := cap[symbol];
    var a, lot, view := Submit(symbol, Buy, cents, k), Lot(symbol, Buy, k), OneMarket(symbol, k, cents, cents);
    var decide, m := Decide(view, [a]), Message(1, Some(OpenOrder(lot, cents)), []);
    FlatTakesWhole(NewBot.held, symbol, k, cents, cents);
    var d1 := After(NewBot, decide, cap);
    assert d1.held == NewBot.held && d1.pending[0] == a;
    var d2 := After(d1, Request(Silent(1)), cap);
    assert d2.held == NewBot.held && d2.pending == [] && d2.unread == map[1 := lot] && d2.gone == [a];
    RestsHonestly(d2, m);
    NoMoreSteps(HeardOn(d2, m), cap);
    OneStep(d2, Hear(m), [], cap);
    OneStep(d1, Request(Silent(1)), [Hear(m)] + [], cap);
    OneStep(NewBot, decide, [Request(Silent(1))] + ([Hear(m)] + []), cap);
    steps := [decide] + ([Request(Silent(1))] + ([Hear(m)] + []));
  }

  lemma NoMoreSteps(d: Desk, cap: map<string, int>)
    ensures IsRun(d, [], cap) && End(d, [], cap) == d
  {}

  lemma RestsHonestly(d: Desk, m: Message)
    requires m.order.Some? && m.events == [] && d.held == NewBot.held && d.unread == map[m.id := m.order.value.lot]
    ensures HonestOn(d, m)
    ensures HeardOn(d, m) == d.(held := Life(Book(map[], map[m.id := m.order.value]), {}, map[]), unread := map[])
  {
    hide Lots, Mine, Total;
    assert NewBot.held.inflight + d.unread == d.unread;
    assert NewBot.held.inflight - {m.id} == map[] && d.unread - {m.id} == map[];
  }

  /** The next decision finds the whole cap free, and then both orders fill. */
  lemma SecondOrder(symbol: string, cents: int, cap: map<string, int>) returns (steps: seq<Step>)
    requires symbol in SYMBOLS && symbol in cap && cap[symbol] > 0
    ensures |steps| == 4 && steps[0].Decide? && IsRun(Resting(symbol, cap[symbol], cents), steps, cap)
    ensures var d := End(Resting(symbol, cap[symbol], cents), steps, cap);
            PositionOf(d.held.book, symbol) == 2 * cap[symbol] && d.gone == Resting(symbol, cap[symbol], cents).gone
  {
    hide Decided, HonestOn, IsRun, End, Lots, Mine, Total, HeardOn;
    var k, d3 := cap[symbol], Resting(symbol, cap[symbol], cents);
    var a, lot := Submit(symbol, Buy, cents + 2, k), Lot(symbol, Buy, k);
    var decide := Decide(OneMarket(symbol, k, cents + 2, cents + 1), [a]);
    var m := Message(2, Some(OpenOrder(lot, cents + 2)), [Fill(2, k)]);
    var last := Message(3, None, [Fill(1, k)]);
    FlatTakesWhole(d3.held, symbol, k, cents + 2, cents + 1);
    var d4 := After(d3, decide, cap);
    assert d4.held == d3.held && d4.pending[0] == a;
    var d5 := After(d4, Request(Numbered(2)), cap);
    assert d5 == d3.(held := d3.held.(inflight := map[2 := lot]));
    BothFill(symbol, k, cents, d5, m, last);
    var d6 := After(d5, Hear(m), cap);
    var d7 := After(d6, Hear(last), cap);
    NoMoreSteps(d7, cap);
    OneStep(d6, Hear(last), [], cap);
    OneStep(d5, Hear(m), [Hear(last)] + [], cap);
    OneStep(d4, Request(Numbered(2)), [Hear(m)] + ([Hear(last)] + []), cap);
    OneStep(d3, decide, [Request(Numbered(2))] + ([Hear(m)] + ([Hear(last)] + [])), cap);
    steps := [decide] + ([Request(Numbered(2))] + ([Hear(m)] + ([Hear(last)] + [])));
  }

  lemma BothFill(symbol: string, k: int, cents: int, d: Desk, m: Message, last: Message)
    requires k > 0 && m == Message(2, Some(OpenOrder(Lot(symbol, Buy, k), cents + 2)), [Fill(2, k)])
    requires last == Message(3, None, [Fill(1, k)])
    requires d == Resting(symbol, k, cents).(
                    held := Resting(symbol, k, cents).held.(inflight := map[2 := Lot(symbol, Buy, k)]))
    ensures HonestOn(d, m) && HonestOn(HeardOn(d, m), last)
    ensures var end := HeardOn(HeardOn(d, m), last);
            PositionOf(end.held.book, symbol) == 2 * k && end.gone == d.gone
  {
    hide Lots, Mine, Total;
    var entered := Entered(d.held.book, m);
    assert [Fill(2, k)][1..] == [] && [Fill(1, k)][1..] == [];
    assert AllLegal(Happen(entered, Fill(2, k)), []);
    assert AllLegal(entered, m.events);
    var after := Happen(entered, Fill(2, k));
    assert HappenAll(entered, m.events) == HappenAll(after, []) == after;
    assert after.open == map[1 := OpenOrder(Lot(symbol, Buy, k), cents)];
    assert Entered(after, last) == after;
    assert AllLegal(Happen(after, Fill(1, k)), []);
    assert AllLegal(after, last.events);
    assert HappenAll(after, last.events) == HappenAll(Happen(after, Fill(1, k)), []);
  }

  /** Why every answer has to be read: in every traded market, under every cap, one lost
      answer between two decisions lets the position reach twice the cap. */
  lemma LostAnswerPassesCap(symbol: string, cents: int, cap: map<string, int>) returns (steps: seq<Step>)
    requires symbol in SYMBOLS && symbol in cap && cap[symbol] > 0
    ensures IsRun(NewBot, steps, cap) && |steps| == 7 && steps[0].Decide? && steps[3].Decide?
    ensures var d := End(NewBot, steps, cap);
            PositionOf(d.held.book, symbol) == 2 * cap[symbol] && Planned(d.gone, symbol, Buy) == cap[symbol]
  {
    hide IsRun, End;
    var first := FirstOrder(symbol, cents, cap);
    var second := SecondOrder(symbol, cents, cap);
    RunJoin(NewBot, first, second, cap);
    steps := first + second;
    var a := Submit(symbol, Buy, cents, cap[symbol]);
    assert [] + [a] == [a];
    PlannedPush([], a, symbol, Buy);
  }

  lemma {:induction false} RunJoin(d: Desk, a: seq<Step>, b: seq<Step>, cap: map<string, int>)
    requires IsRun(d, a, cap) && IsRun(End(d, a, cap), b, cap)
    ensures IsRun(d, a + b, cap) && End(d, a + b, cap) == End(End(d, a, cap), b, cap)
    decreases |a|
  {
    hide Possible, After;
    if a == [] {
      assert a + b == b;
    } else {
      RunJoin(After(d, a[0], cap), a[1..], b, cap);
      assert (a + b)[1..] == a[1..] + b;
    }
  }
}
