/** The settlement instruction as the program runs it: it updates the two
    accounts it is handed in place, after a straight line of checks and
    checked arithmetic, and reports what the pure `Settle` transition says. */
module SettlementProgram {
  import opened CheckedMath
  import opened Settlement

  /** A `Position` account. `key` is the account's address. */
  class Position {
    const key: Pubkey
    var size: Int64
    var entryPrice: Int64
    var lastFundingRate: Int64

    constructor (key: Pubkey, size: Int64, entryPrice: Int64, lastFundingRate: Int64)
      ensures this.key == key
      ensures State() == PositionState(size, entryPrice, lastFundingRate)
    {
      this.key := key;
      this.size := size;
      this.entryPrice := entryPrice;
      this.lastFundingRate := lastFundingRate;
    }

    /** The account's stored fields as a value. */
    function State(): PositionState
      reads this
    {
      PositionState(size, entryPrice, lastFundingRate)
    }
  }

  /** A `UserBalance` account: the shared collateral, which may be negative. */
  class UserBalance {
    var collateral: Int128

    constructor (collateral: Int128)
      ensures this.collateral == collateral
    {
      this.collateral := collateral;
    }
  }

  /** The `settle_cross_margin` instruction. On success it yields the event
      to emit (none for a flat position); on failure neither account has
      been written. */
  method SettleCrossMargin(position: Position, balance: UserBalance, oraclePrice: Int64, fundingRate: Int64)
    returns (r: Result<Option<SettlementEvent>>)
    modifies position, balance
    ensures var before := old(position.State());
            match Settle(before, old(balance.collateral), position.key, oraclePrice, fundingRate)
            case Ok(s) =>
              r == Ok(s.event) && position.State() == s.position && balance.collateral == s.collateral
            case Err(f) =>
              r == Err(f) && position.State() == before && balance.collateral == old(balance.collateral)
    ensures r.Err? ==> unchanged(position, balance)
  {
    if oraclePrice <= 0 {
      return Err(Rejected(InvalidOraclePrice));
    }
    if position.entryPrice <= 0 {
      return Err(Rejected(InvalidEntryPrice));
    }
    if position.size == 0 {
      // A flat position only has its funding checkpoint moved.
      position.lastFundingRate := fundingRate;
      return Ok(None);
    }

    var rateMagnitude :- OkOr(Abs64(fundingRate), AbsOverflowPanic);
    if rateMagnitude > MaxFundingRate {
      return Err(Rejected(FundingRateOutOfBounds));
    }
    var lastRateMagnitude :- OkOr(Abs64(position.lastFundingRate), AbsOverflowPanic);
    if lastRateMagnitude > MaxFundingRate {
      return Err(Rejected(FundingRateOutOfBounds));
    }

    var priceDelta :- OkOr(CheckedSub64(oraclePrice, position.entryPrice), Rejected(CalculationOverflow));
    var unrealizedPnl :- OkOr(CheckedMul128(priceDelta, position.size), Rejected(CalculationOverflow));
    var fundingDelta :- OkOr(CheckedSub64(fundingRate, position.lastFundingRate), Rejected(CalculationOverflow));
    var fundingPayment :- OkOr(CheckedMul128(fundingDelta, position.size), Rejected(CalculationOverflow));
    var netSettlement :- OkOr(CheckedSub128(unrealizedPnl, fundingPayment), Rejected(CalculationOverflow));
    var newCollateral :- OkOr(CheckedAdd128(balance.collateral, netSettlement), Rejected(CalculationOverflow));

    balance.collateral := newCollateral;
    // Mark to market and advance the funding checkpoint, so that the next
    // settlement charges only what has moved since this one.
    position.entryPrice := oraclePrice;
    position.lastFundingRate := fundingRate;

    r := Ok(Some(SettlementEvent(position.key, oraclePrice, fundingRate,
                                 unrealizedPnl, fundingPayment, netSettlement, newCollateral)));
  }

  /** A long settled twice at the same price and rate, as in the
      double-settlement test: the second call credits nothing. */
  method DoubleSettlementScenario(key: Pubkey) returns (firstPnl: int, secondPnl: int, collateral: int)
    ensures firstPnl == 10000 && secondPnl == 0 && collateral == 20000
  {
    var position := new Position(key, 100, 1000, 0);
    var balance := new UserBalance(10000);
    var first := SettleCrossMargin(position, balance, 1100, 0);
    assert first.Ok? && first.value.Some?;
    assert position.entryPrice == 1100;
    firstPnl := first.value.value.unrealizedPnl;
    var second := SettleCrossMargin(position, balance, 1100, 0);
    assert second.Ok? && second.value.Some?;
    secondPnl := second.value.value.unrealizedPnl;
    collateral := balance.collateral;
  }

  /** A flat position, as in the zero-size test: the call succeeds without
      an event, only the funding checkpoint moves, and the collateral stays. */
  method FlatPositionScenario(key: Pubkey) returns (r: Result<Option<SettlementEvent>>, lastFundingRate: int, entryPrice: int, collateral: int)
    ensures r == Ok(None) && lastFundingRate == 10 && entryPrice == 1000 && collateral == 10000
  {
    var position := new Position(key, 0, 1000, 0);
    var balance := new UserBalance(10000);
    r := SettleCrossMargin(position, balance, 1100, 10);
    lastFundingRate, entryPrice, collateral := position.lastFundingRate, position.entryPrice, balance.collateral;
  }
}
