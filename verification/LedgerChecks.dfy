/** `validate` and `validate_obligations`: the checkers decide the declarative
    conditions, on any state. */
module LedgerChecks {
  import opened Common
  import opened Sums
  import opened LedgerModel
  import opened LedgerProofs

  type Totals = map<string, int>

  function At(totals: Totals, asset: string): int {
    if asset in totals then totals[asset] else 0
  }

  function NonZero(totals: Totals): Totals {
    map asset | asset in totals && totals[asset] != 0 :: totals[asset]
  }

  /** Dropping the zero entries of both sides and comparing compares every asset. */
  lemma NonZeroEqual(a: Totals, b: Totals)
    ensures NonZero(a) == NonZero(b) <==> forall asset :: At(a, asset) == At(b, asset)
  {
    if NonZero(a) == NonZero(b) {
      forall asset ensures At(a, asset) == At(b, asset) {
        assert asset in NonZero(a) <==> asset in NonZero(b);
      }
    }
    if forall asset :: At(a, asset) == At(b, asset) {
      assert forall asset :: asset in NonZero(a) ==> At(a, asset) == At(b, asset);
      assert forall asset :: asset in NonZero(b) ==> At(a, asset) == At(b, asset);
    }
  }

  lemma {:induction false} GrantedSnoc(funding: seq<Funding>, grant: Funding, asset: string)
    ensures Granted(funding + [grant], asset)
            == Granted(funding, asset) + (if grant.asset == asset then grant.units else 0)
  {
    if funding != [] {
      assert (funding + [grant])[1..] == funding[1..] + [grant];
      GrantedSnoc(funding[1..], grant, asset);
    }
  }

  /** The first accumulator of `validate`. */
  method ExpectedTotals(funding: seq<Funding>) returns (expected: Totals)
    ensures forall asset :: At(expected, asset) == Granted(funding, asset)
  {
    expected := map[];
    for i := 0 to |funding|
      invariant forall asset :: At(expected, asset) == Granted(funding[..i], asset)
    {
      var grant := funding[i];
      ghost var before := expected;
      expected := expected[grant.asset := At(expected, grant.asset) + grant.units];
      assert funding[..i + 1] == funding[..i] + [grant];
      forall asset ensures At(expected, asset) == Granted(funding[..i + 1], asset) {
        assert At(before, asset) == Granted(funding[..i], asset);
        GrantedSnoc(funding[..i], grant, asset);
      }
    }
    assert funding[..|funding|] == funding;
  }

  /** The second: every balance good and mapped, and the totals they make. */
  method ActualTotals(markets: seq<MarketAssets>, balances: Balances) returns (r: Result<Totals>)
    ensures r.Ok? <==> GoodBalances(markets, balances)
    ensures r.Ok? ==> forall asset :: At(r.value, asset) == Total(balances, asset)
  {
    var todo, actual: Totals := balances.Keys, map[];
    ghost var done: set<Key> := {};
    while todo != {}
      invariant done + todo == balances.Keys && done !! todo
      invariant forall k | k in done :: GoodBalance(balances[k]) && Configured(markets, k.1)
      invariant forall asset :: At(actual, asset) == SumOver(done, Weight(balances, asset))
      decreases todo
    {
      var k :| k in todo;
      if !GoodBalance(balances[k]) { return Err("negative or overflowing asset balance"); }
      if !Configured(markets, k.1) { return Err("balance names an unconfigured asset"); }
      forall asset ensures SumOver(done + {k}, Weight(balances, asset))
                           == SumOver(done, Weight(balances, asset)) + Weight(balances, asset)(k) {
        SumPull(done + {k}, Weight(balances, asset), k);
        assert done + {k} - {k} == done;
      }
      actual := actual[k.1 := At(actual, k.1) + balances[k].available + balances[k].reserved];
      todo, done := todo - {k}, done + {k};
    }
    assert done == balances.Keys;
    return Ok(actual);
  }

  type Obligations = map<Key, int>

  function Owed(obligations: Obligations, k: Key): int {
    if k in obligations then obligations[k] else 0
  }

  lemma {:induction false} SumSubset<T(!new)>(s: set<T>, t: set<T>, f: T -> int)
    requires s <= t && forall x | x in t :: f(x) >= 0
    ensures SumOver(s, f) <= SumOver(t, f)
    decreases t
  {
    if x :| x in t && x !in s {
      SumPull(t, f, x);
      SumSubset(s, t - {x}, f);
    } else {
      assert s == t;
    }
  }

  /** On a sound state no partial sum of obligations is past i64. */
  lemma PartialSumFits(s: State, done: set<nat>, k: Key)
    requires done <= s.reservations.Keys && Sound(s)
    ensures SumOver(done, Claim(s.reservations, k)) <= I64_MAX
  {
    hide Conserved, Configured, GoodReservation;
    AllUnitsPositive(s.config.value.markets, s.reservations);
    SumSubset(done, s.reservations.Keys, Claim(s.reservations, k));
    assert BalanceOf(s.balances, k).reserved == Backing(s.reservations, k);
  }

  lemma NoClaims(reservations: Reservations)
    ensures var none: set<nat> := {}; forall k :: SumOver(none, Claim(reservations, k)) == 0
  {}

  lemma ClaimAdds(reservations: Reservations, done: set<nat>, id: nat, k: Key)
    requires id !in done
    ensures SumOver(done + {id}, Claim(reservations, k))
            == SumOver(done, Claim(reservations, k)) + UnitsFor(reservations, id, k)
  {
    SumPull(done + {id}, Claim(reservations, k), id);
    assert done + {id} - {id} == done;
  }

  /** The third: every reservation's terms, and what they add up to by balance. An
      error says the state is not sound. */
  method SumObligations(s: State) returns (r: Result<Obligations>)
    requires s.config.Some?
    ensures Sound(s) ==> r.Ok?
    ensures r.Ok? ==> GoodReservations(s.config.value.markets, s.reservations)
    ensures r.Ok? ==> forall k :: Owed(r.value, k) == Backing(s.reservations, k)
    ensures r.Ok? ==> forall k | k in r.value :: r.value[k] > 0
  {
    hide FindMarket, Units, SumOver, Conserved, Backed, GoodBalances;
    var todo, obligations: Obligations := s.reservations.Keys, map[];
    ghost var done: set<nat> := {};
    NoClaims(s.reservations);
    while todo != {}
      invariant done + todo == s.reservations.Keys && done !! todo
      invariant forall id | id in done :: GoodReservation(s.config.value.markets, s.reservations[id])
      invariant forall k :: Owed(obligations, k) == SumOver(done, Claim(s.reservations, k))
      invariant forall k | k in obligations :: obligations[k] > 0
      decreases todo
    {
      var id :| id in todo;
      var row := s.reservations[id];
      if !GoodReservation(s.config.value.markets, row) { return Err("reservation terms or units disagree"); }
      PositiveUnits(row.side, row.limitCents, row.remainingTenths);
      forall k ensures SumOver(done + {id}, Claim(s.reservations, k))
                       == SumOver(done, Claim(s.reservations, k)) + UnitsFor(s.reservations, id, k) {
        ClaimAdds(s.reservations, done, id, k);
      }
      var key := KeyOf(row);
      var sum := Owed(obligations, key) + row.units;
      if Sound(s) { PartialSumFits(s, done + {id}, key); }
      if !FitsI64(sum) { return Err("obligations overflow"); }
      obligations := obligations[key := sum];
      todo, done := todo - {id}, done + {id};
    }
    assert done == s.reservations.Keys;
    return Ok(obligations);
  }

  /** The last: every reserved balance is its obligations, and none is left over. */
  method CheckReserved(balances: Balances, owed: Obligations) returns (ok: bool)
    requires forall k | k in owed :: owed[k] > 0
    ensures ok <==> forall k :: BalanceOf(balances, k).reserved == Owed(owed, k)
  {
    var todo, obligations := balances.Keys, owed;
    while todo != {}
      invariant todo <= balances.Keys
      invariant obligations == owed - (balances.Keys - todo)
      invariant forall k | k in balances && k !in todo :: balances[k].reserved == Owed(owed, k)
      decreases todo
    {
      var k :| k in todo;
      if balances[k].reserved != Owed(obligations, k) {
        assert BalanceOf(balances, k).reserved != Owed(owed, k);
        return false;
      }
      obligations := obligations - {k};
      todo := todo - {k};
    }
    if obligations != map[] {
      var k :| k in obligations;
      assert BalanceOf(balances, k).reserved != Owed(owed, k);
      return false;
    }
    forall k | k in owed ensures k in balances { assert k !in obligations; }
    return true;
  }

  /** `validate`. */
  method Validate(s: State) returns (r: Result<()>)
    ensures r.Ok? <==> s.mode.SyntheticLegacy? || Sound(s)
  {
    hide Total, Backing, Granted, GoodReservation, Configured, GoodBalance;
    if s.mode.SyntheticLegacy? { return Ok(()); }
    if s.config.None? { return Err("funded config missing"); }
    var config := s.config.value;
    var expected := ExpectedTotals(config.funding);
    var actual := ActualTotals(config.markets, s.balances);
    if actual.Err? { return Err(actual.reason); }
    NonZeroEqual(expected, actual.value);
    if NonZero(expected) != NonZero(actual.value) { return Err("asset total differs from explicit funding"); }
    var obligations := SumObligations(s);
    if obligations.Err? { return Err(obligations.reason); }
    var backed := CheckReserved(s.balances, obligations.value);
    if !backed { return Err("reserved balance differs from active obligations"); }
    return Ok(());
  }

  // ---------------------------------------------------------------------------
  // Open orders against reservations
  // ---------------------------------------------------------------------------

  datatype OrderRow = OrderRow(orderId: nat, account: nat, symbol: string, side: Side, priceCents: int, qtyTenths: int)

  /** The open order a reservation stands for. */
  function RowOf(id: nat, r: Reservation): OrderRow {
    OrderRow(id, r.account, r.symbol, r.side, r.limitCents, r.remainingTenths)
  }

  function RowsOf(reservations: Reservations): set<OrderRow> {
    set id | id in reservations :: RowOf(id, reservations[id])
  }

  lemma InRowsOf(reservations: Reservations)
    ensures forall row :: row in RowsOf(reservations)
                          <==> row.orderId in reservations && row == RowOf(row.orderId, reservations[row.orderId])
  {}

  lemma {:induction false} RowsOfSize(reservations: Reservations)
    ensures |RowsOf(reservations)| == |reservations|
    decreases reservations.Keys
  {
    if id :| id in reservations {
      var rest := reservations - {id};
      RowsOfSize(rest);
      assert rest.Keys == reservations.Keys - {id} && |rest| == |reservations| - 1;
      InRowsOf(reservations);
      InRowsOf(rest);
      hide RowsOf;
      assert RowsOf(reservations) == RowsOf(rest) + {RowOf(id, reservations[id])};
    } else {
      assert reservations == map[] && RowsOf(reservations) == {};
    }
  }

  /** The ids of the rows are all different. */
  predicate DistinctIds(rows: seq<OrderRow>) {
    forall i, j | 0 <= i < j < |rows| :: rows[i].orderId != rows[j].orderId
  }

  predicate AllReserved(rows: seq<OrderRow>, reservations: Reservations) {
    forall i | 0 <= i < |rows| ::
      rows[i].orderId in reservations && rows[i] == RowOf(rows[i].orderId, reservations[rows[i].orderId])
  }

  lemma {:induction false} DistinctSize(rows: seq<OrderRow>)
    requires DistinctIds(rows)
    ensures |set row | row in rows| == |rows|
    ensures multiset(rows) == multiset(set row | row in rows)
  {
    if rows != [] {
      var rest, last := rows[..|rows| - 1], rows[|rows| - 1];
      DistinctSize(rest);
      assert rows == rest + [last];
      assert (set row | row in rows) == (set row | row in rest) + {last};
      assert last !in rest;
    }
  }

  lemma SubsetOfSize<T>(s: set<T>, t: set<T>)
    requires s <= t && |s| == |t|
    ensures s == t
  {
    if s != t {
      var x :| x in t && x !in s;
      assert s <= t - {x};
      SubsetSize(s, t - {x});
    }
  }

  lemma {:induction false} SubsetSize<T>(s: set<T>, t: set<T>)
    requires s <= t
    ensures |s| <= |t|
    decreases s
  {
    if x :| x in s { SubsetSize(s - {x}, t - {x}); }
  }

  /** As many distinct rows as reservations, each matching one, are exactly the
      active reservations, in some order. */
  lemma CountingIsPermutation(rows: seq<OrderRow>, reservations: Reservations)
    ensures (|rows| == |reservations| && DistinctIds(rows) && AllReserved(rows, reservations))
            <==> multiset(rows) == multiset(RowsOf(reservations))
  {
    RowsOfSize(reservations);
    if |rows| == |reservations| && DistinctIds(rows) && AllReserved(rows, reservations) {
      DistinctSize(rows);
      SubsetOfSize((set row | row in rows), RowsOf(reservations));
    }
    if multiset(rows) == multiset(RowsOf(reservations)) {
      assert |multiset(rows)| == |rows|;
      forall i | 0 <= i < |rows| ensures rows[i] in RowsOf(reservations) {
        assert rows[i] in multiset(rows);
      }
      forall i, j | 0 <= i < j < |rows| ensures rows[i].orderId != rows[j].orderId {
        if rows[i].orderId == rows[j].orderId {
          assert rows[i] == rows[j];
          TwiceInMultiset(rows, i, j);
        }
      }
    }
  }

  lemma TwiceInMultiset(rows: seq<OrderRow>, i: nat, j: nat)
    requires i < j < |rows| && rows[i] == rows[j]
    ensures multiset(rows)[rows[i]] >= 2
  {
    assert rows == rows[..i] + [rows[i]] + rows[i + 1..j] + [rows[j]] + rows[j + 1..];
  }

  /** `validate_obligations`: a sound ledger whose open orders are a permutation of
      its active reservations. */
  method ValidateObligations(s: State, rows: seq<OrderRow>) returns (r: Result<()>)
    ensures r.Ok? <==> s.mode.SyntheticLegacy? || (Sound(s) && multiset(rows) == multiset(RowsOf(s.reservations)))
  {
    hide Sound, RowsOf;
    CountingIsPermutation(rows, s.reservations);
    var valid := Validate(s);
    if valid.Err? { return Err(valid.reason); }
    if s.mode.SyntheticLegacy? { return Ok(()); }
    if |rows| != |s.reservations| { return Err("open orders and reservations differ"); }
    var seen: set<nat> := {};
    for i := 0 to |rows|
      invariant forall id :: id in seen <==> exists j :: 0 <= j < i && rows[j].orderId == id
      invariant DistinctIds(rows[..i]) && AllReserved(rows[..i], s.reservations)
    {
      var row := rows[i];
      if row.orderId in seen {
        var j :| 0 <= j < i && rows[j].orderId == row.orderId;
        return Err("duplicate open order");
      }
      seen := seen + {row.orderId};
      if row.orderId !in s.reservations { return Err("open order lacks reservation"); }
      var reservation := s.reservations[row.orderId];
      if row.account != reservation.account || row.symbol != reservation.symbol || row.side != reservation.side
         || row.priceCents != reservation.limitCents || row.qtyTenths != reservation.remainingTenths {
        assert row != RowOf(row.orderId, reservation);
        return Err("open order differs from reserved obligation");
      }
    }
    assert rows[..|rows|] == rows;
    return Ok(());
  }
}
