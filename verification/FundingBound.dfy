/** Why a fill's overflow branches are there: funding past an i64 reaches them. */
module FundingBound {
  import opened Common
  import opened Orders
  import opened LedgerModel
  import opened LedgerProofs
  import opened LedgerRuns
  import opened LedgerSnapshots

  const XBQ := MarketAssets("X", "B", "Q")

  /** Two accounts that each hold the largest i64 of one asset. */
  const LargeFunding :=
    FundingConfig([XBQ], [Funding(1, "Q", I64_MAX), Funding(2, "B", 100), Funding(2, "Q", I64_MAX)], 0)

  const Sold := Reservation(1, 2, "X", Sell, 1, 1, "B", 100)

  const Bought := Reservation(2, 1, "X", Buy, 1, 1, "Q", 1)

  function Start(): State {
    State(FundedSimulation, Some(LargeFunding), 0,
          map[(1, "Q") := Balance(I64_MAX, 0), (2, "B") := Balance(100, 0), (2, "Q") := Balance(I64_MAX, 0)], map[])
  }

  function WithSell(): State {
    Start().(balances := map[(1, "Q") := Balance(I64_MAX, 0), (2, "B") := Balance(0, 100),
                             (2, "Q") := Balance(I64_MAX, 0)],
             reservations := map[1 := Sold])
  }

  function WithBoth(): State {
    WithSell().(
      lastSequence := 1,
      balances := map[(1, "Q") := Balance(I64_MAX - 1, 1), (2, "B") := Balance(0, 100), (2, "Q") := Balance(I64_MAX, 0)],
      reservations := map[1 := Sold, 2 := Bought])
  }

  const Ops := [Op.Reserve(1, 2, "X", Sell, 1, 1), Finish(1), Op.Reserve(2, 1, "X", Buy, 1, 1)]

  lemma LargeFundingIsValid()
    ensures ValidConfig(LargeFunding) && SortConfig(LargeFunding) == LargeFunding
    ensures GenesisState(LargeFunding) == Start()
  {
    var c := LargeFunding;
    assert CanonicalConfig(c) by {
      assert Before("B", "Q") && !Before("Q", "B");
    }
    CanonicalStays(c);
    hide SortConfig;
    assert Configured(c.markets, "Q") && Configured(c.markets, "B") by {
      assert c.markets[0].quoteAsset == "Q" && c.markets[0].baseAsset == "B";
    }
    var f := c.funding;
    assert f[..|f| - 1] == [f[0], f[1]] && f[..|f| - 1][..1] == [f[0]] && [f[0]][..0] == [];
    assert Genesis([f[0]]) == map[(1, "Q") := Balance(I64_MAX, 0)];
    assert Genesis([f[0], f[1]]) == map[(1, "Q") := Balance(I64_MAX, 0), (2, "B") := Balance(100, 0)];
  }

  lemma MarketX(s: State)
    requires s.config == Some(LargeFunding)
    ensures Market(s, "X") == Some(XBQ)
  {}

  lemma Steps()
    ensures Do(Start(), Ops[0]) == WithSell()
    ensures Do(WithSell(), Ops[1]) == WithSell().(lastSequence := 1)
    ensures Do(WithSell().(lastSequence := 1), Ops[2]) == WithBoth()
  {
    MarketX(Start());
    MarketX(WithSell().(lastSequence := 1));
    hide FindMarket;
  }

  /** Without the bound a fill that passes every guard can be refused: here the
      seller's credit does not fit. */
  lemma CreditsCanOverflow()
    ensures ValidConfig(LargeFunding) && !FundingFits(LargeFunding)
    ensures var s, f := Run(GenesisState(LargeFunding), Ops), Fill(1, 2, 1, 1);
            MayFill(s, f) && Apply(s, Settle(f)).None?
  {
    LargeFundingIsValid();
    Steps();
    assert Ops[..2] == [Ops[0], Ops[1]] && Ops[..2][..1] == [Ops[0]] && [Ops[0]][..0] == [];
    hide Do;
    assert Run(Start(), [Ops[0]]) == WithSell();
    assert Run(Start(), Ops[..2]) == WithSell().(lastSequence := 1);
    assert Run(Start(), Ops) == WithBoth();
    FillOverflows();
    assert !FundingFits(LargeFunding) by {
      var f := LargeFunding.funding;
      assert f[1..] == [f[1], f[2]] && f[1..][1..] == [f[2]] && [f[2]][1..] == [];
      assert Granted([f[2]], "Q") == I64_MAX;
      assert Granted(f, "Q") > I64_MAX;
    }
  }

  lemma FillOverflows()
    ensures var s, f := WithBoth(), Fill(1, 2, 1, 1); MayFill(s, f) && Apply(s, Settle(f)).None?
  {
    var s, f := WithBoth(), Fill(1, 2, 1, 1);
    MarketX(s);
    hide FindMarket;
    assert BalanceOf(FilledBalances(s, f), (2, "Q")).available == I64_MAX + 1;
  }
}
