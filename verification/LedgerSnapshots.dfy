/** Genesis, snapshots, and recovery: `funded`, `snapshot` and `from_snapshot`. */
module LedgerSnapshots {
  import opened Common
  import opened Sums
  import opened Orders
  import opened LedgerModel
  import opened LedgerProofs
  import opened LedgerRuns
  import opened LedgerChecks

  const LEDGER_VERSION: nat := 1
  const ASSET_SCALE: int := 1_000

  datatype BalanceRow = BalanceRow(account: nat, asset: string, balance: Balance)

  datatype LedgerSnapshot = LedgerSnapshot(
    version: nat, mode: Mode, assetScale: int, config: Option<FundingConfig>, lastSequence: nat,
    balances: seq<BalanceRow>, reservations: seq<Reservation>)

  // ---------------------------------------------------------------------------
  // Genesis
  // ---------------------------------------------------------------------------

  predicate MarketBefore(a: MarketAssets, b: MarketAssets) { Before(a.symbol, b.symbol) }

  predicate GrantBefore(a: Funding, b: Funding) { KeyBefore((a.account, a.asset), (b.account, b.asset)) }

  function SortConfig(c: FundingConfig): FundingConfig {
    c.(markets := SortBy(c.markets, MarketBefore), funding := SortBy(c.funding, GrantBefore))
  }

  /** The rows of a config are in the order `funded` puts them in. */
  ghost predicate CanonicalConfig(c: FundingConfig) {
    NotAfter(c.markets, MarketBefore) && NotAfter(c.funding, GrantBefore)
  }

  lemma CanonicalStays(c: FundingConfig)
    requires CanonicalConfig(c)
    ensures SortConfig(c) == c
  {
    SortByKeepsSorted(c.markets, MarketBefore);
    SortByKeepsSorted(c.funding, GrantBefore);
  }

  lemma WeakOrders()
    ensures WeakOrder(MarketBefore) && WeakOrder(GrantBefore)
  {
    forall a: string, b: string, c: string
      ensures !Before(a, a) && (Before(a, b) && Before(b, c) ==> Before(a, c))
      ensures !Before(b, a) && !Before(c, b) ==> !Before(c, a)
    {
      NotBeforeItself(a);
      BeforeTotal(a, b);
      BeforeTotal(b, c);
      if Before(a, b) && Before(b, c) { BeforeTransitive(a, b, c); }
      if Before(c, a) && Before(a, b) { BeforeTransitive(c, a, b); }
      if Before(b, c) && Before(c, a) { BeforeTransitive(b, c, a); }
    }
  }

  lemma SortConfigIsCanonical(c: FundingConfig)
    ensures CanonicalConfig(SortConfig(c))
  {
    WeakOrders();
    SortBySorts(c.markets, MarketBefore);
    SortBySorts(c.funding, GrantBefore);
  }

  /** The balances genesis funding makes. */
  function Genesis(funding: seq<Funding>): Balances {
    if funding == [] then map[]
    else
      var g := funding[|funding| - 1];
      Genesis(funding[..|funding| - 1])[(g.account, g.asset) := Balance(g.units, 0)]
  }

  /** `validate_config`. */
  method ValidateConfig(c: FundingConfig) returns (ok: bool)
    ensures ok <==> ValidConfig(c)
  {
    hide Configured, ValidName;
    if c.feeUnits != 0 || c.markets == [] { return false; }
    var symbols: set<string>, assets: set<string> := {}, {};
    for i := 0 to |c.markets|
      invariant forall x :: x in symbols <==> exists j :: 0 <= j < i && c.markets[j].symbol == x
      invariant forall x :: x in assets
                            <==> exists j :: 0 <= j < i && (c.markets[j].baseAsset == x || c.markets[j].quoteAsset == x)
      invariant forall j | 0 <= j < i ::
                  && ValidName(c.markets[j].symbol, '-')
                  && ValidName(c.markets[j].baseAsset, '_') && ValidName(c.markets[j].quoteAsset, '_')
                  && c.markets[j].baseAsset != c.markets[j].quoteAsset
      invariant forall j, k | 0 <= j < k < i :: c.markets[j].symbol != c.markets[k].symbol
    {
      var m := c.markets[i];
      if !ValidName(m.symbol, '-') || m.symbol in symbols || !ValidName(m.baseAsset, '_')
         || !ValidName(m.quoteAsset, '_') || m.baseAsset == m.quoteAsset {
        return false;
      }
      symbols := symbols + {m.symbol};
      assets := assets + {m.baseAsset, m.quoteAsset};
    }
    AssetsAreConfigured(c.markets, assets);
    var funded: set<Key> := {};
    for i := 0 to |c.funding|
      invariant forall x :: x in funded <==> exists j :: 0 <= j < i && (c.funding[j].account, c.funding[j].asset) == x
      invariant forall j | 0 <= j < i :: 0 < c.funding[j].units <= I64_MAX && Configured(c.markets, c.funding[j].asset)
      invariant forall j, k | 0 <= j < k < i ::
                  (c.funding[j].account, c.funding[j].asset) != (c.funding[k].account, c.funding[k].asset)
    {
      var grant := c.funding[i];
      if grant.units <= 0 || grant.units > I64_MAX || grant.asset !in assets || (grant.account, grant.asset) in funded {
        return false;
      }
      funded := funded + {(grant.account, grant.asset)};
    }
    return true;
  }

  lemma AssetsAreConfigured(markets: seq<MarketAssets>, assets: set<string>)
    requires forall x :: x in assets
                         <==> exists j :: 0 <= j < |markets| && (markets[j].baseAsset == x || markets[j].quoteAsset == x)
    ensures forall x :: x in assets <==> Configured(markets, x)
  {}

  /** `funded`. */
  method Funded(config: FundingConfig) returns (r: Result<State>)
    ensures r.Ok? <==> ValidConfig(SortConfig(config))
    ensures r.Ok? ==> r.value == GenesisState(config)
  {
    hide ValidConfig, SortBy;
    var c := SortConfig(config);
    var ok := ValidateConfig(c);
    if !ok { return Err("invalid funding configuration"); }
    var balances: Balances := map[];
    for i := 0 to |c.funding|
      invariant balances == Genesis(c.funding[..i])
    {
      var g := c.funding[i];
      assert c.funding[..i + 1][..i] == c.funding[..i];
      balances := balances[(g.account, g.asset) := Balance(g.units, 0)];
    }
    assert c.funding[..|c.funding|] == c.funding;
    return Ok(State(FundedSimulation, Some(c), 0, balances, map[]));
  }

  function GenesisState(config: FundingConfig): State {
    State(FundedSimulation, Some(SortConfig(config)), 0, Genesis(SortConfig(config).funding), map[])
  }

  lemma {:induction false} GenesisHolds(funding: seq<Funding>)
    requires forall i, j | 0 <= i < j < |funding| ::
               (funding[i].account, funding[i].asset) != (funding[j].account, funding[j].asset)
    ensures forall k | k in Genesis(funding) ::
              exists i :: 0 <= i < |funding| && (funding[i].account, funding[i].asset) == k
                          && Genesis(funding)[k] == Balance(funding[i].units, 0)
    ensures Conserved(funding, Genesis(funding))
  {
    if funding == [] {
      forall asset ensures Total(Genesis(funding), asset) == 0 {}
    } else {
      var rest, g := funding[..|funding| - 1], funding[|funding| - 1];
      GenesisHolds(rest);
      var k := (g.account, g.asset);
      assert k !in Genesis(rest);
      assert funding == rest + [g];
      assert Genesis(funding) == Adjust(Genesis(rest), k, g.units, 0);
      forall asset ensures Total(Genesis(funding), asset) == Granted(funding, asset) {
        TotalAdjust(Genesis(rest), k, g.units, 0, asset);
        GrantedSnoc(rest, g, asset);
      }
    }
  }

  /** A funded ledger starts valid, at a message boundary, in canonical order. */
  lemma GenesisIsValid(config: FundingConfig)
    requires ValidConfig(SortConfig(config))
    ensures Valid(GenesisState(config)) && CanonicalConfig(GenesisState(config).config.value)
    ensures AtBoundary(GenesisState(config))
  {
    hide Total, Granted, Configured, SortConfig, CanonicalConfig;
    var c := SortConfig(config);
    GenesisHolds(c.funding);
    SortConfigIsCanonical(config);
    var none: Reservations := map[];
    NoClaims(none);
    assert GoodBalances(c.markets, Genesis(c.funding));
    forall k ensures BalanceOf(Genesis(c.funding), k).reserved == Backing(none, k) {}
  }

  // ---------------------------------------------------------------------------
  // Snapshots
  // ---------------------------------------------------------------------------

  /** Between two messages: no reservation is past the applied history. */
  ghost predicate AtBoundary(s: State) {
    GoodIds(s.reservations, s.lastSequence)
  }

  lemma FinishReachesBoundary(s: State, sequence: nat)
    requires s.mode.FundedSimulation? ==> Inv(s)
    requires s.mode.SyntheticLegacy? ==> s.reservations == map[]
    requires Apply(s, Finish(sequence)).Some?
    ensures AtBoundary(Do(s, Finish(sequence)))
  {
    hide Sound, ValidConfig;
  }

  function RowKey(row: BalanceRow): Key { (row.account, row.asset) }

  function BalanceRows(balances: Balances, keys: seq<Key>): (rows: seq<BalanceRow>)
    requires forall k | k in keys :: k in balances
    ensures |rows| == |keys|
  {
    seq(|keys|, i requires 0 <= i < |keys| => BalanceRow(keys[i].0, keys[i].1, balances[keys[i]]))
  }

  function ReservationRows(reservations: Reservations, ids: seq<nat>): (rows: seq<Reservation>)
    requires forall id | id in ids :: id in reservations
    ensures |rows| == |ids|
  {
    seq(|ids|, i requires 0 <= i < |ids| => reservations[ids[i]])
  }

  ghost function SortedKeys(balances: Balances): (keys: seq<Key>)
    ensures Sorted(keys, KeyBefore) && forall k :: k in keys <==> k in balances
  {
    KeyBeforeIsStrictTotal();
    InOrderSorts(balances.Keys, KeyBefore);
    InOrder(balances.Keys, KeyBefore)
  }

  ghost function SortedIds(reservations: Reservations): (ids: seq<nat>)
    ensures Sorted(ids, IdBefore) && forall id :: id in ids <==> id in reservations
  {
    IdBeforeIsStrictTotal();
    InOrderSorts(reservations.Keys, IdBefore);
    InOrder(reservations.Keys, IdBefore)
  }

  /** `snapshot`: the rows of the two sorted maps. */
  ghost function Snapshot(s: State): LedgerSnapshot {
    LedgerSnapshot(LEDGER_VERSION, s.mode, ASSET_SCALE, s.config, s.lastSequence,
                   BalanceRows(s.balances, SortedKeys(s.balances)),
                   ReservationRows(s.reservations, SortedIds(s.reservations)))
  }

  predicate DistinctKeys(rows: seq<BalanceRow>) {
    forall i, j | 0 <= i < j < |rows| :: RowKey(rows[i]) != RowKey(rows[j])
  }

  predicate DistinctOrders(rows: seq<Reservation>) {
    forall i, j | 0 <= i < j < |rows| :: rows[i].orderId != rows[j].orderId
  }

  /** What the rows say, inserted one after the other. */
  function BalancesIn(rows: seq<BalanceRow>): Balances {
    if rows == [] then map[]
    else BalancesIn(rows[..|rows| - 1])[RowKey(rows[|rows| - 1]) := rows[|rows| - 1].balance]
  }

  function ReservationsIn(rows: seq<Reservation>): Reservations {
    if rows == [] then map[]
    else ReservationsIn(rows[..|rows| - 1])[rows[|rows| - 1].orderId := rows[|rows| - 1]]
  }

  lemma {:induction false} BalancesInRows(rows: seq<BalanceRow>)
    ensures forall k :: k in BalancesIn(rows) <==> exists i :: 0 <= i < |rows| && RowKey(rows[i]) == k
    ensures DistinctKeys(rows) ==> forall i | 0 <= i < |rows| :: BalancesIn(rows)[RowKey(rows[i])] == rows[i].balance
  {
    if rows != [] { BalancesInRows(rows[..|rows| - 1]); }
  }

  lemma {:induction false} ReservationsInRows(rows: seq<Reservation>)
    ensures forall id :: id in ReservationsIn(rows) <==> exists i :: 0 <= i < |rows| && rows[i].orderId == id
    ensures DistinctOrders(rows) ==> forall i | 0 <= i < |rows| :: ReservationsIn(rows)[rows[i].orderId] == rows[i]
  {
    if rows != [] { ReservationsInRows(rows[..|rows| - 1]); }
  }

  /** The state a snapshot describes. */
  function StateIn(snap: LedgerSnapshot): State {
    if snap.mode.SyntheticLegacy? || snap.config.None? then State(SyntheticLegacy, None, snap.lastSequence, map[], map[])
    else State(FundedSimulation, Some(SortConfig(snap.config.value)), snap.lastSequence,
               BalancesIn(snap.balances), ReservationsIn(snap.reservations))
  }

  /** What `from_snapshot` accepts. */
  ghost predicate Acceptable(snap: LedgerSnapshot) {
    && snap.version == LEDGER_VERSION && snap.assetScale == ASSET_SCALE
    && match snap.mode
       case SyntheticLegacy => snap.config.None? && snap.balances == [] && snap.reservations == []
       case FundedSimulation =>
         && snap.config.Some? && ValidConfig(SortConfig(snap.config.value))
         && DistinctKeys(snap.balances) && DistinctOrders(snap.reservations)
         && (forall i | 0 <= i < |snap.reservations| :: 0 < snap.reservations[i].orderId <= snap.lastSequence)
         && Sound(StateIn(snap))
  }

  /** The rows as `from_snapshot` inserts them; None where a key repeats. */
  method InsertBalances(rows: seq<BalanceRow>) returns (r: Option<Balances>)
    ensures r == if DistinctKeys(rows) then Some(BalancesIn(rows)) else None
  {
    var balances: Balances := map[];
    for i := 0 to |rows|
      invariant balances == BalancesIn(rows[..i]) && DistinctKeys(rows[..i])
    {
      assert rows[..i + 1][..i] == rows[..i];
      BalancesInRows(rows[..i]);
      var key := RowKey(rows[i]);
      if key in balances {
        var j :| 0 <= j < i && RowKey(rows[..i][j]) == key;
        assert RowKey(rows[j]) == RowKey(rows[i]);
        return None;
      }
      balances := balances[key := rows[i].balance];
    }
    assert rows[..|rows|] == rows;
    return Some(balances);
  }

  lemma ReservationsInPrefix(rows: seq<Reservation>, n: nat)
    requires n <= |rows|
    ensures ReservationsIn(rows[..n])
            == if n == 0 then map[] else ReservationsIn(rows[..n - 1])[rows[n - 1].orderId := rows[n - 1]]
  {
    if n > 0 { assert rows[..n][..n - 1] == rows[..n - 1]; }
  }

  method InsertReservations(rows: seq<Reservation>, lastSequence: nat) returns (r: Option<Reservations>)
    ensures r == if DistinctOrders(rows) && (forall i | 0 <= i < |rows| :: 0 < rows[i].orderId <= lastSequence)
                 then Some(ReservationsIn(rows)) else None
  {
    hide ReservationsIn;
    var reservations: Reservations := map[];
    ReservationsInPrefix(rows, 0);
    for i := 0 to |rows|
      invariant reservations == ReservationsIn(rows[..i]) && DistinctOrders(rows[..i])
      invariant forall j | 0 <= j < i :: 0 < rows[j].orderId <= lastSequence
    {
      ReservationsInPrefix(rows, i + 1);
      ReservationsInRows(rows[..i]);
      var row := rows[i];
      if row.orderId == 0 || row.orderId > lastSequence { return None; }
      if row.orderId in reservations {
        var j :| 0 <= j < i && rows[..i][j].orderId == row.orderId;
        assert rows[j].orderId == rows[i].orderId;
        return None;
      }
      reservations := reservations[row.orderId := row];
    }
    assert rows[..|rows|] == rows;
    return Some(reservations);
  }

  /** `from_snapshot`. */
  method FromSnapshot(snap: LedgerSnapshot) returns (r: Result<State>)
    ensures r.Ok? <==> Acceptable(snap)
    ensures r.Ok? ==> r.value == StateIn(snap)
  {
    hide Sound, ValidConfig, SortConfig, BalancesIn, ReservationsIn, GenesisState;
    if snap.version != LEDGER_VERSION || snap.assetScale != ASSET_SCALE {
      return Err("unsupported ledger version or asset scale");
    }
    if snap.mode.SyntheticLegacy? {
      if snap.config.Some? || snap.balances != [] || snap.reservations != [] {
        return Err("synthetic ledger cannot contain funded state");
      }
      return Ok(State(SyntheticLegacy, None, snap.lastSequence, map[], map[]));
    }
    if snap.config.None? { return Err("funded config missing"); }
    var funded := Funded(snap.config.value);
    if funded.Err? { return Err(funded.reason); }
    var balances := InsertBalances(snap.balances);
    if balances.None? { return Err("duplicate balance row"); }
    var reservations := InsertReservations(snap.reservations, snap.lastSequence);
    if reservations.None? { return Err("duplicate reservation row, or outside applied history"); }
    var ledger := State(FundedSimulation, Some(SortConfig(snap.config.value)), snap.lastSequence,
                        balances.value, reservations.value);
    var valid := Validate(ledger);
    if valid.Err? { return Err(valid.reason); }
    return Ok(ledger);
  }

  // ---------------------------------------------------------------------------
  // Round trips
  // ---------------------------------------------------------------------------

  lemma RowsRebuildBalances(balances: Balances)
    ensures var rows := BalanceRows(balances, SortedKeys(balances));
            DistinctKeys(rows) && BalancesIn(rows) == balances
  {
    hide SortedKeys, BalancesIn;
    var keys := SortedKeys(balances);
    var rows := BalanceRows(balances, keys);
    KeyBeforeIsStrictTotal();
    forall i, j | 0 <= i < j < |rows| ensures RowKey(rows[i]) != RowKey(rows[j]) {
      assert KeyBefore(keys[i], keys[j]);
    }
    BalancesInRows(rows);
    forall i | 0 <= i < |rows| ensures RowKey(rows[i]) == keys[i] {}
    assert forall k :: k in BalancesIn(rows) <==> k in keys;
  }

  lemma DistinctIdRows(reservations: Reservations, ids: seq<nat>, last: nat)
    requires GoodIds(reservations, last) && Sorted(ids, IdBefore)
    requires forall id | id in ids :: id in reservations
    ensures var rows := ReservationRows(reservations, ids);
            && DistinctOrders(rows)
            && forall i | 0 <= i < |rows| :: rows[i].orderId == ids[i] && 0 < ids[i] <= last
  {
    var rows := ReservationRows(reservations, ids);
    forall i | 0 <= i < |rows| ensures rows[i].orderId == ids[i] && 0 < ids[i] <= last {}
    forall i, j | 0 <= i < j < |rows| ensures rows[i].orderId != rows[j].orderId {
      assert IdBefore(ids[i], ids[j]);
    }
  }

  lemma RowsRebuildReservations(reservations: Reservations, last: nat)
    requires GoodIds(reservations, last)
    ensures var rows := ReservationRows(reservations, SortedIds(reservations));
            && DistinctOrders(rows) && ReservationsIn(rows) == reservations
            && forall i | 0 <= i < |rows| :: 0 < rows[i].orderId <= last
  {
    hide SortedIds, ReservationsIn, GoodIds, DistinctOrders, Sorted;
    var ids := SortedIds(reservations);
    var rows := ReservationRows(reservations, ids);
    DistinctIdRows(reservations, ids, last);
    ReservationsInRows(rows);
    assert forall id :: id in ReservationsIn(rows) <==> id in ids;
  }

  lemma ConfigKnown(s: State)
    requires Valid(s)
    ensures s.config.Some? <==> s.mode.FundedSimulation?
  {}

  /** A valid ledger at a message boundary survives the round trip exactly. */
  lemma SnapshotRoundTrip(s: State)
    requires Valid(s) && AtBoundary(s) && (s.config.Some? ==> CanonicalConfig(s.config.value))
    ensures Acceptable(Snapshot(s)) && StateIn(Snapshot(s)) == s
  {
    hide Sound, ValidConfig, CanonicalConfig, SortConfig, SortedKeys, SortedIds, BalanceRows, ReservationRows;
    RowsRebuildBalances(s.balances);
    RowsRebuildReservations(s.reservations, s.lastSequence);
    ConfigKnown(s);
    if s.mode.FundedSimulation? {
      CanonicalStays(s.config.value);
    } else {
      EmptyRows();
    }
  }

  lemma EmptyRows()
    ensures var none: Balances := map[]; BalanceRows(none, SortedKeys(none)) == []
    ensures var none: Reservations := map[]; ReservationRows(none, SortedIds(none)) == []
  {
    var b: Balances, r: Reservations := map[], map[];
    KeyBeforeIsStrictTotal();
    IdBeforeIsStrictTotal();
    assert b.Keys == {} && r.Keys == {};
    assert InOrder(b.Keys, KeyBefore) == [] && InOrder(r.Keys, IdBefore) == [];
  }

  /** The rows and the config stand in the order `snapshot` writes them. */
  ghost predicate CanonicalSnapshot(snap: LedgerSnapshot) {
    && (forall i, j | 0 <= i < j < |snap.balances| :: KeyBefore(RowKey(snap.balances[i]), RowKey(snap.balances[j])))
    && (forall i, j | 0 <= i < j < |snap.reservations| :: snap.reservations[i].orderId < snap.reservations[j].orderId)
    && (snap.config.Some? ==> CanonicalConfig(snap.config.value))
  }

  lemma BalanceRowsReproduced(rows: seq<BalanceRow>)
    requires forall i, j | 0 <= i < j < |rows| :: KeyBefore(RowKey(rows[i]), RowKey(rows[j]))
    requires DistinctKeys(rows)
    ensures BalanceRows(BalancesIn(rows), SortedKeys(BalancesIn(rows))) == rows
  {
    hide BalancesIn, InOrder;
    BalancesInRows(rows);
    KeyBeforeIsStrictTotal();
    var keys := seq(|rows|, i requires 0 <= i < |rows| => RowKey(rows[i]));
    forall k ensures k in keys <==> k in BalancesIn(rows) {
      if k in BalancesIn(rows) {
        var i :| 0 <= i < |rows| && RowKey(rows[i]) == k;
        assert keys[i] == k;
      }
    }
    SortedUnique(SortedKeys(BalancesIn(rows)), keys, KeyBefore);
  }

  lemma ReservationRowsReproduced(rows: seq<Reservation>)
    requires forall i, j | 0 <= i < j < |rows| :: rows[i].orderId < rows[j].orderId
    ensures ReservationRows(ReservationsIn(rows), SortedIds(ReservationsIn(rows))) == rows
  {
    hide ReservationsIn, InOrder;
    ReservationsInRows(rows);
    IdBeforeIsStrictTotal();
    var ids := seq(|rows|, i requires 0 <= i < |rows| => rows[i].orderId);
    forall id ensures id in ids <==> id in ReservationsIn(rows) {
      if id in ReservationsIn(rows) {
        var i :| 0 <= i < |rows| && rows[i].orderId == id;
        assert ids[i] == id;
      }
    }
    SortedUnique<nat>(SortedIds(ReservationsIn(rows)), ids, IdBefore);
  }

  /** An accepted snapshot describes a ledger that satisfies the full invariant, and
      if its rows are in canonical order that ledger writes the same snapshot. */
  lemma AcceptedSnapshotIsReproduced(snap: LedgerSnapshot)
    requires Acceptable(snap) && snap.lastSequence <= U64_MAX
    ensures Valid(StateIn(snap)) && AtBoundary(StateIn(snap))
    ensures CanonicalSnapshot(snap) ==> Snapshot(StateIn(snap)) == snap
  {
    hide Sound, ValidConfig, CanonicalConfig, SortConfig, SortedKeys, SortedIds, BalanceRows, ReservationRows;
    if snap.mode.FundedSimulation? {
      ReservationsInRows(snap.reservations);
      if CanonicalSnapshot(snap) {
        CanonicalStays(snap.config.value);
        BalanceRowsReproduced(snap.balances);
        ReservationRowsReproduced(snap.reservations);
      }
    } else {
      EmptyRows();
    }
  }

  /** Every ledger reachable from genesis at the end of a message comes back from its
      own snapshot unchanged. */
  lemma ReachableRoundTrip(config: FundingConfig, ops: seq<Op>, sequence: nat)
    requires ValidConfig(SortConfig(config))
    requires Apply(Run(GenesisState(config), ops), Finish(sequence)).Some?
    ensures var s := Do(Run(GenesisState(config), ops), Finish(sequence));
            Acceptable(Snapshot(s)) && StateIn(Snapshot(s)) == s
  {
    hide Inv, ValidConfig, SortConfig, CanonicalConfig, GenesisState, Run, Acceptable, StateIn, Snapshot, AtBoundary;
    GenesisIsValid(config);
    RunKeepsValid(GenesisState(config), ops);
    var before := Run(GenesisState(config), ops);
    DoKeepsValid(before, Finish(sequence));
    FinishReachesBoundary(before, sequence);
    SnapshotRoundTrip(Do(before, Finish(sequence)));
  }
}
