/** The funded spot ledger as a value: its rules, its invariant, and the effect of
    each operation in unbounded arithmetic. */
module LedgerModel {
  import opened Common
  import opened Sums

  datatype Mode = SyntheticLegacy | FundedSimulation

  datatype Side = Buy | Sell

  datatype MarketAssets = MarketAssets(symbol: string, baseAsset: string, quoteAsset: string)

  datatype Funding = Funding(account: nat, asset: string, units: int)

  datatype FundingConfig = FundingConfig(markets: seq<MarketAssets>, funding: seq<Funding>, feeUnits: int)

  datatype Balance = Balance(available: int, reserved: int)

  datatype Reservation = Reservation(
    orderId: nat, account: nat, symbol: string, side: Side, limitCents: int, remainingTenths: int,
    asset: string, units: int)

  /** `(account, asset)`. */
  type Key = (nat, string)

  type Balances = map<Key, Balance>

  type Reservations = map<nat, Reservation>

  datatype State = State(
    mode: Mode, config: Option<FundingConfig>, lastSequence: nat, balances: Balances, reservations: Reservations)

  /** A fill from the matching plan. */
  datatype Fill = Fill(maker: nat, taker: nat, priceCents: int, qtyTenths: int)

  // ---------------------------------------------------------------------------
  // Configuration
  // ---------------------------------------------------------------------------

  /** The first mapping named `symbol`. */
  function FindMarket(markets: seq<MarketAssets>, symbol: string): (m: Option<MarketAssets>)
    ensures m.Some? ==> m.value in markets && m.value.symbol == symbol
    ensures m.None? ==> forall i | 0 <= i < |markets| :: markets[i].symbol != symbol
  {
    if markets == [] then None
    else if markets[0].symbol == symbol then Some(markets[0])
    else FindMarket(markets[1..], symbol)
  }

  function Market(s: State, symbol: string): Option<MarketAssets> {
    if s.config.None? then None else FindMarket(s.config.value.markets, symbol)
  }

  /** The asset an order of this side sets aside. */
  function SideAsset(m: MarketAssets, side: Side): string {
    match side
    case Buy => m.quoteAsset
    case Sell => m.baseAsset
  }

  predicate Configured(markets: seq<MarketAssets>, asset: string) {
    exists i | 0 <= i < |markets| :: markets[i].baseAsset == asset || markets[i].quoteAsset == asset
  }

  predicate ValidName(name: string, extra: char) {
    0 < |name| <= 32 && forall c | c in name :: 'A' <= c <= 'Z' || '0' <= c <= '9' || c == extra
  }

  /** What `validate_config` accepts. */
  predicate ValidConfig(c: FundingConfig) {
    && c.feeUnits == 0 && c.markets != []
    && (forall i | 0 <= i < |c.markets| ::
          && ValidName(c.markets[i].symbol, '-')
          && ValidName(c.markets[i].baseAsset, '_') && ValidName(c.markets[i].quoteAsset, '_')
          && c.markets[i].baseAsset != c.markets[i].quoteAsset)
    && (forall i, j | 0 <= i < j < |c.markets| :: c.markets[i].symbol != c.markets[j].symbol)
    && (forall i | 0 <= i < |c.funding| ::
          0 < c.funding[i].units <= I64_MAX && Configured(c.markets, c.funding[i].asset))
    && (forall i, j | 0 <= i < j < |c.funding| ::
          (c.funding[i].account, c.funding[i].asset) != (c.funding[j].account, c.funding[j].asset))
  }

  // ---------------------------------------------------------------------------
  // Totals
  // ---------------------------------------------------------------------------

  function BalanceOf(balances: Balances, k: Key): Balance {
    if k in balances then balances[k] else Balance(0, 0)
  }

  function Weight(balances: Balances, asset: string): Key -> int {
    (k: Key) => if k.1 == asset then BalanceOf(balances, k).available + BalanceOf(balances, k).reserved else 0
  }

  /** All units of one asset, over all accounts. */
  ghost function Total(balances: Balances, asset: string): int {
    SumOver(balances.Keys, Weight(balances, asset))
  }

  /** Genesis funding of one asset. */
  function Granted(funding: seq<Funding>, asset: string): int {
    if funding == [] then 0
    else (if funding[0].asset == asset then funding[0].units else 0) + Granted(funding[1..], asset)
  }

  function KeyOf(r: Reservation): Key {
    (r.account, r.asset)
  }

  function Claim(reservations: Reservations, k: Key): nat -> int {
    (id: nat) => if id in reservations && KeyOf(reservations[id]) == k then reservations[id].units else 0
  }

  /** The units active reservations set aside for one account and asset. */
  ghost function Backing(reservations: Reservations, k: Key): int {
    SumOver(reservations.Keys, Claim(reservations, k))
  }

  // ---------------------------------------------------------------------------
  // The invariant
  // ---------------------------------------------------------------------------

  predicate GoodBalance(b: Balance) {
    b.available >= 0 && b.reserved >= 0 && b.available + b.reserved <= I64_MAX
  }

  function Units(side: Side, limitCents: int, qtyTenths: int): int {
    match side
    case Buy => limitCents * qtyTenths
    case Sell => qtyTenths * 100
  }

  /** The terms of a reservation make its units and name its asset. */
  predicate GoodReservation(markets: seq<MarketAssets>, r: Reservation) {
    && r.limitCents > 0 && r.remainingTenths > 0
    && r.units == Units(r.side, r.limitCents, r.remainingTenths) && FitsI64(r.units)
    && FindMarket(markets, r.symbol).Some? && r.asset == SideAsset(FindMarket(markets, r.symbol).value, r.side)
  }

  /** No negative balance, none past i64, none in an unmapped asset. */
  ghost predicate GoodBalances(markets: seq<MarketAssets>, balances: Balances) {
    forall k | k in balances :: GoodBalance(balances[k]) && Configured(markets, k.1)
  }

  /** Every asset's total is its genesis funding. */
  ghost predicate Conserved(funding: seq<Funding>, balances: Balances) {
    forall asset :: Total(balances, asset) == Granted(funding, asset)
  }

  ghost predicate GoodReservations(markets: seq<MarketAssets>, reservations: Reservations) {
    forall id | id in reservations :: GoodReservation(markets, reservations[id])
  }

  /** Every reserved balance is the sum of the active reservations behind it. */
  ghost predicate Backed(balances: Balances, reservations: Reservations) {
    forall k :: BalanceOf(balances, k).reserved == Backing(reservations, k)
  }

  /** What `validate` checks, declaratively. */
  ghost predicate Sound(s: State) {
    && s.config.Some?
    && GoodBalances(s.config.value.markets, s.balances)
    && Conserved(s.config.value.funding, s.balances)
    && GoodReservations(s.config.value.markets, s.reservations)
    && Backed(s.balances, s.reservations)
  }

  /** Every reservation stands under its own id, of an applied or the current message. */
  ghost predicate GoodIds(reservations: Reservations, last: nat) {
    forall id | id in reservations :: reservations[id].orderId == id && 1 <= id <= last
  }

  /** The invariant of a funded ledger. */
  ghost predicate Inv(s: State) {
    Sound(s) && ValidConfig(s.config.value) && s.lastSequence <= U64_MAX && GoodIds(s.reservations, s.lastSequence + 1)
  }

  ghost predicate Valid(s: State) {
    match s.mode
    case SyntheticLegacy => s.config.None? && s.balances == map[] && s.reservations == map[] && s.lastSequence <= U64_MAX
    case FundedSimulation => Inv(s)
  }

  // ---------------------------------------------------------------------------
  // The operations, in unbounded arithmetic
  // ---------------------------------------------------------------------------

  /** One balance moved by two amounts. */
  function Adjust(balances: Balances, k: Key, available: int, reserved: int): Balances {
    var b := BalanceOf(balances, k);
    balances[k := Balance(b.available + available, b.reserved + reserved)]
  }

  /** Whether `reserve` is allowed: the current message's id, used once, in a mapped
      market, with positive terms the account can cover. */
  predicate MayReserve(s: State, id: nat, account: nat, symbol: string, side: Side, limitCents: int, qtyTenths: int) {
    && s.lastSequence < U64_MAX && id == s.lastSequence + 1 && id !in s.reservations
    && Market(s, symbol).Some? && limitCents > 0 && qtyTenths > 0
    && var units := Units(side, limitCents, qtyTenths);
    && FitsI64(units)
    && units <= BalanceOf(s.balances, (account, SideAsset(Market(s, symbol).value, side))).available
  }

  function AfterReserve(s: State, id: nat, account: nat, symbol: string, side: Side, limitCents: int,
                        qtyTenths: int): State
    requires MayReserve(s, id, account, symbol, side, limitCents, qtyTenths)
  {
    var asset, units := SideAsset(Market(s, symbol).value, side), Units(side, limitCents, qtyTenths);
    s.(balances := Adjust(s.balances, (account, asset), -units, units),
       reservations := s.reservations[id := Reservation(id, account, symbol, side, limitCents, qtyTenths, asset, units)])
  }

  /** The identity, side, limit and quantity guards of `settle_fill`. */
  predicate MayFill(s: State, f: Fill) {
    && s.lastSequence < U64_MAX && f.taker == s.lastSequence + 1
    && f.maker != f.taker && f.priceCents > 0 && f.qtyTenths > 0
    && f.maker in s.reservations && f.taker in s.reservations
    && var (maker, taker) := (s.reservations[f.maker], s.reservations[f.taker]);
    && maker.symbol == taker.symbol && maker.side != taker.side && Market(s, maker.symbol).Some?
    && Seller(s, f).limitCents <= f.priceCents <= Buyer(s, f).limitCents
    && f.qtyTenths <= maker.remainingTenths && f.qtyTenths <= taker.remainingTenths
  }

  function Buyer(s: State, f: Fill): Reservation
    requires f.maker in s.reservations && f.taker in s.reservations
  {
    if s.reservations[f.maker].side == Buy then s.reservations[f.maker] else s.reservations[f.taker]
  }

  function Seller(s: State, f: Fill): Reservation
    requires f.maker in s.reservations && f.taker in s.reservations
  {
    if s.reservations[f.maker].side == Buy then s.reservations[f.taker] else s.reservations[f.maker]
  }

  /** The four movements of one fill: the buyer's reserve turns into the price paid
      and the improvement given back, the seller is paid, and the base changes hands. */
  function FilledBalances(s: State, f: Fill): Balances
    requires MayFill(s, f)
  {
    var buyer, seller, m := Buyer(s, f), Seller(s, f), Market(s, s.reservations[f.maker].symbol).value;
    var cash, setAside, base := f.priceCents * f.qtyTenths, buyer.limitCents * f.qtyTenths, f.qtyTenths * 100;
    var b1 := Adjust(s.balances, (buyer.account, m.quoteAsset), setAside - cash, -setAside);
    var b2 := Adjust(b1, (seller.account, m.quoteAsset), cash, 0);
    var b3 := Adjust(b2, (seller.account, m.baseAsset), 0, -base);
    Adjust(b3, (buyer.account, m.baseAsset), base, 0)
  }

  /** One order after a fill: gone when nothing remains. */
  function Reduce(reservations: Reservations, id: nat, qtyTenths: int): Reservations
    requires id in reservations
  {
    var r := reservations[id];
    var left := r.remainingTenths - qtyTenths;
    if left == 0 then reservations - {id}
    else reservations[id := r.(remainingTenths := left, units := Units(r.side, r.limitCents, left))]
  }

  function AfterFill(s: State, f: Fill): State
    requires MayFill(s, f)
  {
    s.(balances := FilledBalances(s, f),
       reservations := Reduce(Reduce(s.reservations, f.maker, f.qtyTenths), f.taker, f.qtyTenths))
  }

  /** The two credits of a fill stay inside an i64. */
  predicate CreditsFit(s: State, f: Fill)
    requires MayFill(s, f)
  {
    var m := Market(s, s.reservations[f.maker].symbol).value;
    var paid := BalanceOf(FilledBalances(s, f), (Seller(s, f).account, m.quoteAsset));
    var received := BalanceOf(FilledBalances(s, f), (Buyer(s, f).account, m.baseAsset));
    paid.available + paid.reserved <= I64_MAX && received.available + received.reserved <= I64_MAX
  }

  function AfterRelease(s: State, id: nat): State
    requires id in s.reservations
  {
    var r := s.reservations[id];
    s.(balances := Adjust(s.balances, KeyOf(r), r.units, -r.units), reservations := s.reservations - {id})
  }

  // ---------------------------------------------------------------------------
  // How totals and backing move
  // ---------------------------------------------------------------------------

  lemma TotalAdjust(balances: Balances, k: Key, available: int, reserved: int, asset: string)
    ensures Total(Adjust(balances, k, available, reserved), asset)
            == Total(balances, asset) + (if k.1 == asset then available + reserved else 0)
  {
    var after := Adjust(balances, k, available, reserved);
    var all := balances.Keys + {k};
    assert after.Keys == all;
    SumOfZeros(balances.Keys, all, Weight(balances, asset));
    SumPull(all, Weight(balances, asset), k);
    SumPull(all, Weight(after, asset), k);
    SumSame(all - {k}, Weight(balances, asset), Weight(after, asset));
  }

  function UnitsFor(reservations: Reservations, id: nat, k: Key): int {
    if id in reservations && KeyOf(reservations[id]) == k then reservations[id].units else 0
  }

  lemma BackingRemove(reservations: Reservations, id: nat, k: Key)
    ensures Backing(reservations - {id}, k) == Backing(reservations, k) - UnitsFor(reservations, id, k)
  {
    var after := reservations - {id};
    assert after.Keys == reservations.Keys - {id};
    SumSame(after.Keys, Claim(reservations, k), Claim(after, k));
    if id in reservations {
      SumPull(reservations.Keys, Claim(reservations, k), id);
    } else {
      assert after == reservations;
    }
  }

  lemma BackingPut(reservations: Reservations, id: nat, r: Reservation, k: Key)
    ensures Backing(reservations[id := r], k)
            == Backing(reservations, k) - UnitsFor(reservations, id, k) + (if KeyOf(r) == k then r.units else 0)
  {
    var after := reservations[id := r];
    BackingRemove(reservations, id, k);
    BackingRemove(after, id, k);
    assert after - {id} == reservations - {id};
  }

  lemma BackingCovers(reservations: Reservations, id: nat)
    requires id in reservations && forall i | i in reservations :: reservations[i].units >= 0
    ensures Backing(reservations, KeyOf(reservations[id])) >= reservations[id].units
  {
    SumAtLeast(reservations.Keys, Claim(reservations, KeyOf(reservations[id])), id);
  }
}
