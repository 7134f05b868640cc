/** The cross-margin settlement engine as a pure state transition.

    `Settle` takes the stored position, the stored collateral, the position's
    account address and the two instruction arguments, and yields either the
    failure that aborts the instruction or the new position, the new
    collateral and the event that is emitted. It follows the instruction
    handler `settle_cross_margin` step by step: the same checks in the same
    order, the same checked operations at the same widths. */
module Settlement {
  import opened CheckedMath

  /** The program's error codes. */
  datatype SettlementError =
    | InvalidOraclePrice
    | InvalidEntryPrice
    | CalculationOverflow
    | FundingRateOutOfBounds

  /** Why a settlement aborts: one of the program's error codes, or the panic
      of `i64::abs` on `i64::MIN`. Either way no account is written. */
  datatype Failure = Rejected(error: SettlementError) | AbsOverflowPanic

  datatype Result<T> = Ok(value: T) | Err(failure: Failure) {
    predicate IsFailure() { Err? }

    function PropagateFailure<U>(): Result<U>
      requires Err?
    {
      Err(failure)
    }

    function Extract(): T
      requires Ok?
    {
      value
    }
  }

  /** Rust's `ok_or(f)?`: the value of `Some`, or the failure `f` for `None`. */
  function OkOr<T>(o: Option<T>, f: Failure): (r: Result<T>)
    ensures r.Ok? <==> o.Some?
    ensures r.Ok? ==> r.value == o.value
    ensures r.Err? ==> r.failure == f
  {
    match o
    case Some(v) => Ok(v)
    case None => Err(f)
  }

  /** An account address; the engine only copies it into the event. */
  type Pubkey = seq<bv8>

  /** The stored fields of a `Position` account. `size` is signed: positive
      is long, negative is short, zero is flat. */
  datatype PositionState = PositionState(size: Int64, entryPrice: Int64, lastFundingRate: Int64)

  /** The record emitted after a settlement of a non-flat position. */
  datatype SettlementEvent = SettlementEvent(
    positionKey: Pubkey,
    oraclePrice: Int64,
    fundingRate: Int64,
    unrealizedPnl: Int128,
    fundingPayment: Int128,
    netSettlement: Int128,
    newCollateral: Int128)

  /** What a successful settlement leaves behind: the new position fields,
      the new collateral, and the event if one is emitted. */
  datatype Settled = Settled(position: PositionState, collateral: Int128, event: Option<SettlementEvent>)

  /** The bound on a funding rate's magnitude, `i64::MAX / 1_000_000`. */
  const MaxFundingRate: Int64 := Int64Max / 1_000_000

  predicate WithinFundingBound(rate: int) {
    -MaxFundingRate <= rate <= MaxFundingRate
  }

  /** Profit of the position when the price moves from its entry price to
      `oraclePrice`; the sign of `size` makes a rise a gain for a long and a
      loss for a short. */
  function UnrealizedPnl(p: PositionState, oraclePrice: int): int {
    (oraclePrice - p.entryPrice) * p.size
  }

  /** Funding the position owes for the rate moving from its checkpoint to
      `fundingRate`; positive means the position pays. */
  function FundingPayment(p: PositionState, fundingRate: int): int {
    (fundingRate - p.lastFundingRate) * p.size
  }

  /** The amount credited to the collateral. */
  function NetSettlement(p: PositionState, oraclePrice: int, fundingRate: int): int {
    UnrealizedPnl(p, oraclePrice) - FundingPayment(p, fundingRate)
  }

  /** The inputs pass every check that precedes the arithmetic of a non-flat
      settlement. */
  predicate PassesValidation(p: PositionState, oraclePrice: int, fundingRate: int) {
    oraclePrice > 0 && p.entryPrice > 0 && p.size != 0
    && WithinFundingBound(fundingRate) && WithinFundingBound(p.lastFundingRate)
  }

  /** One call of `settle_cross_margin`. */
  function Settle(p: PositionState, collateral: Int128, key: Pubkey, oraclePrice: Int64, fundingRate: Int64)
    : (r: Result<Settled>)
    // Settlement never resizes a position, and always advances the funding checkpoint.
    ensures r.Ok? ==> r.value.position.size == p.size && r.value.position.lastFundingRate == fundingRate
    // Only valid prices get through.
    ensures r.Ok? ==> oraclePrice > 0 && p.entryPrice > 0
    // An event is emitted exactly for a non-flat position.
    ensures r.Ok? ==> (r.value.event.Some? <==> p.size != 0)
    // A non-flat position is marked to market, and its rates were in bounds.
    ensures r.Ok? && p.size != 0 ==>
      r.value.position.entryPrice == oraclePrice && PassesValidation(p, oraclePrice, fundingRate)
    // A flat position keeps its entry price and its collateral.
    ensures r.Ok? && p.size == 0 ==>
      r.value.position.entryPrice == p.entryPrice && r.value.collateral == collateral
  {
    if oraclePrice <= 0 then Err(Rejected(InvalidOraclePrice))
    else if p.entryPrice <= 0 then Err(Rejected(InvalidEntryPrice))
    else if p.size == 0 then Ok(Settled(p.(lastFundingRate := fundingRate), collateral, None))
    else
      var rateMagnitude :- OkOr(Abs64(fundingRate), AbsOverflowPanic);
      if rateMagnitude > MaxFundingRate then Err(Rejected(FundingRateOutOfBounds))
      else
      var lastRateMagnitude :- OkOr(Abs64(p.lastFundingRate), AbsOverflowPanic);
      if lastRateMagnitude > MaxFundingRate then Err(Rejected(FundingRateOutOfBounds))
      else
      var priceDelta :- OkOr(CheckedSub64(oraclePrice, p.entryPrice), Rejected(CalculationOverflow));
      var unrealizedPnl :- OkOr(CheckedMul128(priceDelta, p.size), Rejected(CalculationOverflow));
      var fundingDelta :- OkOr(CheckedSub64(fundingRate, p.lastFundingRate), Rejected(CalculationOverflow));
      var fundingPayment :- OkOr(CheckedMul128(fundingDelta, p.size), Rejected(CalculationOverflow));
      var netSettlement :- OkOr(CheckedSub128(unrealizedPnl, fundingPayment), Rejected(CalculationOverflow));
      var newCollateral :- OkOr(CheckedAdd128(collateral, netSettlement), Rejected(CalculationOverflow));
      var event := SettlementEvent(key, oraclePrice, fundingRate,
                                   unrealizedPnl, fundingPayment, netSettlement, newCollateral);
      Ok(Settled(PositionState(p.size, oraclePrice, fundingRate), newCollateral, Some(event)))
  }

  /** The (price, rate) arguments of one settlement call. */
  datatype SettleInput = SettleInput(oraclePrice: Int64, fundingRate: Int64)

  /** A run of settlements applied one after another, each from the state
      the previous one left; the result is the final position and
      collateral. The run is cut short by the first failing call, so it
      describes runs in which every call succeeds. */
  function SettleAll(p: PositionState, collateral: Int128, key: Pubkey, inputs: seq<SettleInput>)
    : (r: Result<(PositionState, Int128)>)
    // An empty run changes nothing, and no run resizes the position.
    ensures inputs == [] ==> r == Ok((p, collateral))
    ensures r.Ok? ==> r.value.0.size == p.size
    decreases |inputs|
  {
    if inputs == [] then Ok((p, collateral))
    else
      var s :- Settle(p, collateral, key, inputs[0].oraclePrice, inputs[0].fundingRate);
      SettleAll(s.position, s.collateral, key, inputs[1..])
  }
}
