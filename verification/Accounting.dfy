/** The single-leg ledger, its legal fills, and the next-open execution of a policy target. */
module Accounting {
  import opened Outcomes
  import opened ProductFacts
  import opened Market

  datatype Target = Long | Flat | Short

  datatype Config = Config(initialCash: real, positionQuantity: real)

  datatype AccountState =
    AccountState(cash: real, quantity: real, entry: Option<real>, realizedPnl: real)

  /** The entry price is absent exactly when the account is flat. */
  ghost predicate ValidAccount(s: AccountState) {
    s.quantity == 0.0 <==> s.entry.None?
  }

  function NewAccount(config: Config): AccountState {
    AccountState(config.initialCash, 0.0, None, 0.0)
  }

  // ----- fills

  datatype FillError = NoChange | IllegalTransition

  predicate LegalFill(before: real, delta: real) {
    delta != 0.0 && (before == 0.0 || before + delta == 0.0 || (before > 0.0) != (before + delta > 0.0))
  }

  function ApplyFill(s: AccountState, delta: real, price: real, cost: real): (r: Result<AccountState, FillError>)
    requires ValidAccount(s)
    ensures r.Ok? <==> LegalFill(s.quantity, delta)
    ensures r.Ok? ==> ValidAccount(r.value)
    ensures r.Ok? ==>
              && r.value.quantity == s.quantity + delta
              && r.value.cash + delta * price + cost == s.cash
              && (r.value.quantity != 0.0 ==> r.value.entry == Some(price))
              && r.value.realizedPnl - s.realizedPnl == if s.quantity == 0.0 then 0.0 else s.quantity * (price - s.entry.value)
  {
    if delta == 0.0 then Err(NoChange)
    else
      var cash := s.cash - delta * price - cost;
      var after := s.quantity + delta;
      if s.quantity == 0.0 then
        Ok(AccountState(cash, after, Some(price), s.realizedPnl))
      else if after == 0.0 then
        Ok(AccountState(cash, after, None, s.realizedPnl + ClosedPnl(s.quantity, s.entry.value, price)))
      else if (s.quantity > 0.0) != (after > 0.0) then
        Ok(AccountState(cash, after, Some(price), s.realizedPnl + ClosedPnl(s.quantity, s.entry.value, price)))
      else
        Err(IllegalTransition)
  }

  function ClosedPnl(quantity: real, entry: real, price: real): real {
    if quantity > 0.0 then Abs(quantity) * (price - entry) else Abs(quantity) * (entry - price)
  }

  function ApplyCashCost(s: AccountState, cost: real): AccountState {
    s.(cash := s.cash - cost)
  }

  function UnrealizedPnl(s: AccountState, mark: real): real
    requires ValidAccount(s)
  {
    if s.quantity == 0.0 then 0.0 else (mark - s.entry.value) * s.quantity
  }

  function Equity(s: AccountState, mark: real): real {
    s.cash + s.quantity * mark
  }

  /** The ledger invariant: cash, minus what the open position cost, is initial cash plus
      realized profit minus every cost charged so far. */
  ghost predicate Balanced(s: AccountState, initialCash: real, totalCost: real)
    requires ValidAccount(s)
  {
    s.cash + EntryValue(s) == initialCash + s.realizedPnl - totalCost
  }

  function EntryValue(s: AccountState): real
    requires ValidAccount(s)
  {
    if s.quantity == 0.0 then 0.0 else s.quantity * s.entry.value
  }

  lemma FillKeepsBalance(s: AccountState, delta: real, price: real, cost: real, initialCash: real, totalCost: real)
    requires ValidAccount(s) && Balanced(s, initialCash, totalCost) && LegalFill(s.quantity, delta)
    ensures Balanced(ApplyFill(s, delta, price, cost).value, initialCash, totalCost + cost)
  {
    var q := s.quantity;
    if q != 0.0 {
      var e := s.entry.value;
      assert ClosedPnl(q, e, price) == q * price - q * e;
    }
    assert (q + delta) * price == q * price + delta * price;
  }

  lemma CashCostKeepsBalance(s: AccountState, cost: real, initialCash: real, totalCost: real)
    requires ValidAccount(s) && Balanced(s, initialCash, totalCost)
    ensures Balanced(ApplyCashCost(s, cost), initialCash, totalCost + cost)
  {
  }

  /** A balanced ledger makes equity and the profit decomposition agree at every mark. */
  lemma BalancedEquity(s: AccountState, mark: real, initialCash: real, totalCost: real)
    requires ValidAccount(s) && Balanced(s, initialCash, totalCost)
    ensures Equity(s, mark) - initialCash == s.realizedPnl + UnrealizedPnl(s, mark) - totalCost
  {
    if s.quantity != 0.0 {
      var q, e := s.quantity, s.entry.value;
      assert (mark - e) * q == q * mark - q * e;
    }
  }

  // ----- targets and execution

  function TargetQuantity(target: Target, quantity: real): real {
    match target
    case Long => quantity
    case Short => -quantity
    case Flat => 0.0
  }

  predicate AtTarget(s: AccountState, quantity: real) {
    s.quantity == -quantity || s.quantity == 0.0 || s.quantity == quantity
  }

  datatype Execution = Execution(state: AccountState, delta: real, price: real, cost: real)

  datatype ExecutionError =
    | OffTargetPosition
    | CandleMismatch
    | NotSuccessor
    | FillRejected(why: FillError)

  function ExecuteTarget(s: AccountState, target: Target, config: Config, signal: Candle, next: Candle,
                         costModel: (real, real) -> real): (r: Result<Option<Execution>, ExecutionError>)
    requires ValidAccount(s)
    requires Supported(signal.timeframe)
    ensures r.Ok? && r.value.Some? ==>
              && ValidAccount(r.value.value.state)
              && r.value.value.state.quantity == TargetQuantity(target, config.positionQuantity)
  {
    var q := config.positionQuantity;
    if !AtTarget(s, q) then Err(OffTargetPosition)
    else if signal.symbol != next.symbol || signal.timeframe != next.timeframe then Err(CandleMismatch)
    else if Availability(signal) != next.openTime then Err(NotSuccessor)
    else
      var delta := TargetQuantity(target, q) - s.quantity;
      if delta == 0.0 then Ok(None)
      else
        var cost := costModel(Abs(delta), next.open);
        match ApplyFill(s, delta, next.open, cost)
        case Err(e) => Err(FillRejected(e))
        case Ok(state) => Ok(Some(Execution(state, delta, next.open, cost)))
  }

  /** Between target positions the only moves are opening, closing and reversing. */
  lemma TargetsAreLegal(before: real, target: Target, quantity: real)
    requires quantity > 0.0 && (before == -quantity || before == 0.0 || before == quantity)
    ensures var delta := TargetQuantity(target, quantity) - before;
            delta == 0.0 || LegalFill(before, delta)
  {
  }

  // ----- the trade-transition count of one fill

  datatype TransitionError = SameDirectionResize

  function TradeCount(before: real, after: real): Result<nat, TransitionError> {
    if before == after then Ok(0)
    else if before == 0.0 || after == 0.0 then Ok(1)
    else if (before > 0.0) != (after > 0.0) then Ok(2)
    else Err(SameDirectionResize)
  }
}
