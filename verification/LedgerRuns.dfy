/** The ledger's operations as steps, and what every run of them keeps. */
module LedgerRuns {
  import opened Common
  import opened LedgerModel
  import opened LedgerProofs

  datatype Op =
    | Reserve(id: nat, account: nat, symbol: string, side: Side, limitCents: int, qtyTenths: int)
    | Settle(fill: Fill)
    | Release(id: nat)
    | Finish(sequence: nat)

  /** The state an operation leads to; None where it is refused. */
  function Apply(s: State, op: Op): Option<State> {
    match op
    case Reserve(id, account, symbol, side, limitCents, qtyTenths) =>
      if s.mode.SyntheticLegacy? then Some(s)
      else if MayReserve(s, id, account, symbol, side, limitCents, qtyTenths)
      then Some(AfterReserve(s, id, account, symbol, side, limitCents, qtyTenths))
      else None
    case Settle(fill) =>
      if s.mode.SyntheticLegacy? then Some(s)
      else if MayFill(s, fill) && CreditsFit(s, fill) then Some(AfterFill(s, fill))
      else None
    case Release(id) =>
      Some(if id in s.reservations then AfterRelease(s, id) else s)
    case Finish(sequence) =>
      if s.lastSequence < U64_MAX && sequence == s.lastSequence + 1 then Some(s.(lastSequence := sequence)) else None
  }

  /** One operation: a refused one changes nothing. */
  function Do(s: State, op: Op): State {
    if Apply(s, op).Some? then Apply(s, op).value else s
  }

  function Run(s: State, ops: seq<Op>): State
    decreases |ops|
  {
    if ops == [] then s else Do(Run(s, ops[..|ops| - 1]), ops[|ops| - 1])
  }

  lemma DoKeepsValid(s: State, op: Op)
    requires Valid(s)
    ensures Valid(Do(s, op))
    ensures Do(s, op).config == s.config && Do(s, op).mode == s.mode
  {
    hide Sound, ValidConfig, MayReserve, MayFill, AfterReserve, AfterFill, AfterRelease, CreditsFit;
    if s.mode.FundedSimulation? {
      match op
      case Reserve(id, account, symbol, side, limitCents, qtyTenths) =>
        if MayReserve(s, id, account, symbol, side, limitCents, qtyTenths) {
          ReserveKeepsInv(s, id, account, symbol, side, limitCents, qtyTenths);
          SameConfig(s, op);
        }
      case Settle(fill) =>
        if MayFill(s, fill) && CreditsFit(s, fill) { FillKeepsInv(s, fill); SameConfig(s, op); }
      case Release(id) =>
        if id in s.reservations { ReleaseKeepsInv(s, id); SameConfig(s, op); }
      case Finish(sequence) => FinishKeepsInv(s, sequence);
    }
  }

  lemma SameConfig(s: State, op: Op)
    ensures Do(s, op).config == s.config && Do(s, op).mode == s.mode
  {
    hide MayReserve, MayFill, CreditsFit, FilledBalances;
  }

  lemma FinishKeepsInv(s: State, sequence: nat)
    requires Inv(s)
    ensures Inv(Do(s, Finish(sequence)))
  {
    hide Conserved, Backed, GoodReservations, GoodBalances, ValidConfig;
  }

  /** Every run keeps the balances nonnegative, the totals at genesis funding, and
      every reserved balance backed. */
  lemma {:induction false} RunKeepsValid(s: State, ops: seq<Op>)
    requires Valid(s)
    ensures Valid(Run(s, ops)) && Run(s, ops).config == s.config && Run(s, ops).mode == s.mode
    decreases |ops|
  {
    hide Valid, Do;
    if ops != [] {
      RunKeepsValid(s, ops[..|ops| - 1]);
      DoKeepsValid(Run(s, ops[..|ops| - 1]), ops[|ops| - 1]);
    }
  }

  /** If each asset's funding fits, then in every reachable state the guards of a
      fill are its only ways to fail. */
  lemma NoSpuriousFailure(s: State, ops: seq<Op>, fill: Fill)
    requires Valid(s) && s.mode.FundedSimulation? && FundingFits(s.config.value)
    ensures Apply(Run(s, ops), Settle(fill)).Some? <==> MayFill(Run(s, ops), fill)
  {
    hide Run, MayFill, CreditsFit, Inv, AfterFill, FundingFits;
    RunKeepsValid(s, ops);
    var now := Run(s, ops);
    if MayFill(now, fill) { FundingFitsMakesCreditsFit(now, fill); }
  }
}
