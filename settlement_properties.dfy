/** What the settlement transition guarantees: its error cases, that the
    checked arithmetic can fail only at the final collateral update, its
    post-state, that settling again at the same price and rate changes
    nothing, that successive settlements telescope, and its sign
    conventions. */
module SettlementProperties {
  import opened CheckedMath
  import opened Settlement

  /** A non-positive oracle price is rejected before anything else. */
  lemma InvalidOraclePriceRejected(p: PositionState, c: Int128, key: Pubkey, oraclePrice: Int64, fundingRate: Int64)
    requires oraclePrice <= 0
    ensures Settle(p, c, key, oraclePrice, fundingRate) == Err(Rejected(InvalidOraclePrice))
  {
  }

  /** A non-positive stored entry price is rejected whatever the size, once
      the oracle price has passed. */
  lemma InvalidEntryPriceRejected(p: PositionState, c: Int128, key: Pubkey, oraclePrice: Int64, fundingRate: Int64)
    requires oraclePrice > 0 && p.entryPrice <= 0
    ensures Settle(p, c, key, oraclePrice, fundingRate) == Err(Rejected(InvalidEntryPrice))
  {
  }

  /** With valid prices, a flat position only has its funding checkpoint
      moved, to any rate at all: no bound check, no collateral change, no
      event. */
  lemma FlatPositionMovesOnlyFundingCheckpoint(p: PositionState, c: Int128, key: Pubkey, oraclePrice: Int64, fundingRate: Int64)
    requires oraclePrice > 0 && p.entryPrice > 0 && p.size == 0
    ensures Settle(p, c, key, oraclePrice, fundingRate)
            == Ok(Settled(PositionState(0, p.entryPrice, fundingRate), c, None))
  {
  }

  /** For a non-flat position with valid prices, a rate whose magnitude
      exceeds the bound is rejected (the new rate checked first), and a rate
      of `i64::MIN` makes `abs` panic when it is reached. */
  lemma FundingRateBoundEnforced(p: PositionState, c: Int128, key: Pubkey, oraclePrice: Int64, fundingRate: Int64)
    requires oraclePrice > 0 && p.entryPrice > 0 && p.size != 0
    ensures Settle(p, c, key, oraclePrice, fundingRate) == Err(Rejected(FundingRateOutOfBounds))
            <==> (fundingRate != Int64Min && !WithinFundingBound(fundingRate))
                 || (WithinFundingBound(fundingRate) && p.lastFundingRate != Int64Min
                     && !WithinFundingBound(p.lastFundingRate))
    ensures Settle(p, c, key, oraclePrice, fundingRate) == Err(AbsOverflowPanic)
            <==> fundingRate == Int64Min || (WithinFundingBound(fundingRate) && p.lastFundingRate == Int64Min)
  {
    if WithinFundingBound(fundingRate) && WithinFundingBound(p.lastFundingRate) {
      CalculationOverflowOnlyAtCollateral(p, c, key, oraclePrice, fundingRate);
    }
  }

  /** Once the checks have passed, the two i64 subtractions, the two i128
      multiplications and the i128 subtraction all succeed, with the exact
      mathematical results. */
  lemma IntermediateArithmeticCannotOverflow(p: PositionState, oraclePrice: Int64, fundingRate: Int64)
    requires PassesValidation(p, oraclePrice, fundingRate)
    ensures IsInt64(oraclePrice - p.entryPrice) && IsInt64(fundingRate - p.lastFundingRate)
    ensures IsInt128(UnrealizedPnl(p, oraclePrice)) && IsInt128(FundingPayment(p, fundingRate))
    ensures CheckedSub64(oraclePrice, p.entryPrice) == Some(oraclePrice - p.entryPrice)
    ensures CheckedMul128(oraclePrice - p.entryPrice, p.size) == Some(UnrealizedPnl(p, oraclePrice))
    ensures CheckedSub64(fundingRate, p.lastFundingRate) == Some(fundingRate - p.lastFundingRate)
    ensures CheckedMul128(fundingRate - p.lastFundingRate, p.size) == Some(FundingPayment(p, fundingRate))
    ensures CheckedSub128(UnrealizedPnl(p, oraclePrice), FundingPayment(p, fundingRate))
            == Some(NetSettlement(p, oraclePrice, fundingRate))
  {
    // Both prices are positive i64 values, so their difference is at most
    // i64::MAX - 1 in magnitude; the rates are bounded by MaxFundingRate.
    var priceBound := Int64Max - 1;
    var rateBound := 2 * MaxFundingRate;
    MulBounded(oraclePrice - p.entryPrice, p.size, priceBound, Pow63);
    MulBounded(fundingRate - p.lastFundingRate, p.size, rateBound, Pow63);
    assert priceBound * Pow63 + rateBound * Pow63 <= Int128Max;
  }

  /** Once the checks have passed, the settlement fails only when the new
      collateral leaves the i128 range, and then with `CalculationOverflow`. */
  lemma CalculationOverflowOnlyAtCollateral(p: PositionState, c: Int128, key: Pubkey, oraclePrice: Int64, fundingRate: Int64)
    requires PassesValidation(p, oraclePrice, fundingRate)
    ensures Settle(p, c, key, oraclePrice, fundingRate).Err?
            <==> !IsInt128(c + NetSettlement(p, oraclePrice, fundingRate))
    ensures Settle(p, c, key, oraclePrice, fundingRate).Err?
            ==> Settle(p, c, key, oraclePrice, fundingRate) == Err(Rejected(CalculationOverflow))
  {
    IntermediateArithmeticCannotOverflow(p, oraclePrice, fundingRate);
  }

  /** After a successful settlement of a non-flat position the collateral has
      gained the price PnL less the funding, the position is marked to the
      oracle price with the new funding checkpoint and the same size, and the
      event carries exactly these amounts. */
  lemma SettledPostState(p: PositionState, c: Int128, key: Pubkey, oraclePrice: Int64, fundingRate: Int64)
    requires Settle(p, c, key, oraclePrice, fundingRate).Ok? && p.size != 0
    ensures var s := Settle(p, c, key, oraclePrice, fundingRate).value;
      && s.collateral == c + (oraclePrice - p.entryPrice) * p.size - (fundingRate - p.lastFundingRate) * p.size
      && s.position == PositionState(p.size, oraclePrice, fundingRate)
      && s.event == Some(SettlementEvent(key, oraclePrice, fundingRate,
                                         UnrealizedPnl(p, oraclePrice), FundingPayment(p, fundingRate),
                                         NetSettlement(p, oraclePrice, fundingRate), s.collateral))
  {
  }

  /** Whatever the size, a successful settlement leaves the collateral
      changed by exactly the net settlement (zero for a flat position). */
  lemma CollateralChangeIsNetSettlement(p: PositionState, c: Int128, key: Pubkey, oraclePrice: Int64, fundingRate: Int64)
    requires Settle(p, c, key, oraclePrice, fundingRate).Ok?
    ensures Settle(p, c, key, oraclePrice, fundingRate).value.collateral == c + NetSettlement(p, oraclePrice, fundingRate)
  {
    if p.size != 0 {
      SettledPostState(p, c, key, oraclePrice, fundingRate);
    }
  }

  /** No double counting: settling again at the same price and rate succeeds,
      credits nothing and leaves both accounts as they are. */
  lemma ResettleIsNoOp(p: PositionState, c: Int128, key: Pubkey, oraclePrice: Int64, fundingRate: Int64)
    requires Settle(p, c, key, oraclePrice, fundingRate).Ok?
    ensures var s := Settle(p, c, key, oraclePrice, fundingRate).value;
      var again := Settle(s.position, s.collateral, key, oraclePrice, fundingRate);
      && again.Ok?
      && again.value.position == s.position
      && again.value.collateral == s.collateral
      && (p.size != 0 ==> again.value.event == Some(SettlementEvent(key, oraclePrice, fundingRate, 0, 0, 0, s.collateral)))
  {
    var s := Settle(p, c, key, oraclePrice, fundingRate).value;
    if p.size != 0 {
      SettledPostState(p, c, key, oraclePrice, fundingRate);
      CalculationOverflowOnlyAtCollateral(s.position, s.collateral, key, oraclePrice, fundingRate);
      SettledPostState(s.position, s.collateral, key, oraclePrice, fundingRate);
    }
  }

  /** The net settlement telescopes across a checkpoint. */
  lemma NetSettlementTelescopes(p: PositionState, o1: Int64, f1: Int64, o2: int, f2: int)
    ensures NetSettlement(p, o1, f1) + NetSettlement(PositionState(p.size, o1, f1), o2, f2)
            == NetSettlement(p, o2, f2)
  {
    var s := p.size;
    assert (o1 - p.entryPrice) * s + (o2 - o1) * s == (o2 - p.entryPrice) * s;
    assert (f1 - p.lastFundingRate) * s + (f2 - f1) * s == (f2 - p.lastFundingRate) * s;
  }

  /** Two successful settlements in a row leave the same position and
      collateral as settling once, directly at the second price and rate. */
  lemma SuccessiveSettlementsCompose(p: PositionState, c: Int128, key: Pubkey,
                                     o1: Int64, f1: Int64, o2: Int64, f2: Int64)
    requires Settle(p, c, key, o1, f1).Ok?
    requires var s1 := Settle(p, c, key, o1, f1).value;
             Settle(s1.position, s1.collateral, key, o2, f2).Ok?
    ensures var s1 := Settle(p, c, key, o1, f1).value;
      var s2 := Settle(s1.position, s1.collateral, key, o2, f2).value;
      var direct := Settle(p, c, key, o2, f2);
      direct.Ok? && direct.value.position == s2.position && direct.value.collateral == s2.collateral
  {
    var s1 := Settle(p, c, key, o1, f1).value;
    var s2 := Settle(s1.position, s1.collateral, key, o2, f2).value;
    if p.size != 0 {
      SettledPostState(p, c, key, o1, f1);
      SettledPostState(s1.position, s1.collateral, key, o2, f2);
      NetSettlementTelescopes(p, o1, f1, o2, f2);
      CalculationOverflowOnlyAtCollateral(p, c, key, o2, f2);
      SettledPostState(p, c, key, o2, f2);
    }
  }

  /** A run of successful settlements leaves the position where one
      settlement at the last price and rate would: same size, funding
      checkpoint at the last rate, entry price at the last price (unchanged
      for a flat position). */
  lemma {:induction false} SettleAllCheckpoints(p: PositionState, c: Int128, key: Pubkey, inputs: seq<SettleInput>)
    requires inputs != []
    requires SettleAll(p, c, key, inputs).Ok?
    ensures var q := SettleAll(p, c, key, inputs).value.0;
      var last := inputs[|inputs| - 1];
      && q.size == p.size
      && q.lastFundingRate == last.fundingRate
      && q.entryPrice == (if p.size == 0 then p.entryPrice else last.oraclePrice)
    decreases |inputs|
  {
    var first := inputs[0];
    var s := Settle(p, c, key, first.oraclePrice, first.fundingRate).value;
    var rest := inputs[1..];
    if rest == [] {
      assert SettleAll(s.position, s.collateral, key, rest) == Ok((s.position, s.collateral));
    } else {
      SettleAllCheckpoints(s.position, s.collateral, key, rest);
      assert rest[|rest| - 1] == inputs[|inputs| - 1];
    }
  }

  /** A run of successful settlements changes the collateral by the net
      settlement measured from the starting checkpoints to the last price
      and rate: nothing is counted twice and nothing is lost in between. */
  lemma {:induction false} SettleAllCollateral(p: PositionState, c: Int128, key: Pubkey, inputs: seq<SettleInput>)
    requires inputs != []
    requires SettleAll(p, c, key, inputs).Ok?
    ensures var last := inputs[|inputs| - 1];
      SettleAll(p, c, key, inputs).value.1 == c + NetSettlement(p, last.oraclePrice, last.fundingRate)
    decreases |inputs|
  {
    var first := inputs[0];
    var s := Settle(p, c, key, first.oraclePrice, first.fundingRate).value;
    CollateralChangeIsNetSettlement(p, c, key, first.oraclePrice, first.fundingRate);
    var rest := inputs[1..];
    if rest == [] {
      assert SettleAll(s.position, s.collateral, key, rest) == Ok((s.position, s.collateral));
    } else {
      SettleAllCollateral(s.position, s.collateral, key, rest);
      var last := inputs[|inputs| - 1];
      assert rest[|rest| - 1] == last;
      if p.size != 0 {
        NetSettlementTelescopes(p, first.oraclePrice, first.fundingRate, last.oraclePrice, last.fundingRate);
      }
    }
  }

  /** A long and a short of the same magnitude, settled from the same
      checkpoints to the same price and rate, see exactly opposite amounts. */
  lemma OppositePositionsSettleOppositely(p: PositionState, c: Int128, key: Pubkey, oraclePrice: Int64, fundingRate: Int64)
    requires p.size != Int64Min
    requires Settle(p, c, key, oraclePrice, fundingRate).Ok?
    requires Settle(p.(size := -(p.size as int)), c, key, oraclePrice, fundingRate).Ok?
    ensures var mirror := p.(size := -(p.size as int));
      && UnrealizedPnl(mirror, oraclePrice) == -UnrealizedPnl(p, oraclePrice)
      && FundingPayment(mirror, fundingRate) == -FundingPayment(p, fundingRate)
      && Settle(mirror, c, key, oraclePrice, fundingRate).value.collateral - c
         == -(Settle(p, c, key, oraclePrice, fundingRate).value.collateral - c)
  {
    var mirror := p.(size := -(p.size as int));
    CollateralChangeIsNetSettlement(p, c, key, oraclePrice, fundingRate);
    CollateralChangeIsNetSettlement(mirror, c, key, oraclePrice, fundingRate);
    NegatedFactor(oraclePrice - p.entryPrice, p.size);
    NegatedFactor(fundingRate - p.lastFundingRate, p.size);
  }

  /** Negating one factor negates the product. */
  lemma NegatedFactor(a: int, b: int)
    ensures a * -b == -(a * b)
  {
  }

  /** The sign of a product of two non-zero factors. */
  lemma ProductSign(a: int, b: int)
    ensures a > 0 && b > 0 ==> a * b > 0
    ensures a > 0 && b < 0 ==> a * b < 0
    ensures a < 0 && b > 0 ==> a * b < 0
    ensures a < 0 && b < 0 ==> a * b > 0
  {
  }

  /** With the funding rate unchanged, a price rise credits a long and
      debits a short, and a price fall does the reverse. */
  lemma PriceMoveSign(p: PositionState, c: Int128, key: Pubkey, oraclePrice: Int64)
    requires Settle(p, c, key, oraclePrice, p.lastFundingRate).Ok?
    ensures var after := Settle(p, c, key, oraclePrice, p.lastFundingRate).value.collateral;
      && (p.size > 0 && oraclePrice > p.entryPrice ==> after > c)
      && (p.size > 0 && oraclePrice < p.entryPrice ==> after < c)
      && (p.size < 0 && oraclePrice > p.entryPrice ==> after < c)
      && (p.size < 0 && oraclePrice < p.entryPrice ==> after > c)
  {
    CollateralChangeIsNetSettlement(p, c, key, oraclePrice, p.lastFundingRate);
    ProductSign(oraclePrice - p.entryPrice, p.size);
  }

  /** With the price unchanged, a rise in the funding rate debits a long and
      credits a short, and a fall does the reverse. */
  lemma FundingMoveSign(p: PositionState, c: Int128, key: Pubkey, fundingRate: Int64)
    requires Settle(p, c, key, p.entryPrice, fundingRate).Ok?
    ensures var after := Settle(p, c, key, p.entryPrice, fundingRate).value.collateral;
      && (p.size > 0 && fundingRate > p.lastFundingRate ==> after < c)
      && (p.size > 0 && fundingRate < p.lastFundingRate ==> after > c)
      && (p.size < 0 && fundingRate > p.lastFundingRate ==> after > c)
      && (p.size < 0 && fundingRate < p.lastFundingRate ==> after < c)
  {
    CollateralChangeIsNetSettlement(p, c, key, p.entryPrice, fundingRate);
    ProductSign(fundingRate - p.lastFundingRate, p.size);
  }

  /** Collateral may become negative: a long losing more than its
      collateral is settled, not rejected. */
  lemma CollateralMayGoNegative(key: Pubkey)
    ensures Settle(PositionState(100, 1000, 0), 5000, key, 900, 0)
            == Ok(Settled(PositionState(100, 900, 0), -5000,
                          Some(SettlementEvent(key, 900, 0, -10000, 0, -10000, -5000))))
  {
  }

  /** The test module's settlement scenarios, each as one call: a long
      profiting and losing, a short profiting, a long paying funding, a
      billion-unit position with a PnL of 10^12, a long with both a price and
      a funding move, and a long receiving negative funding. */
  lemma WorkedExamples(key: Pubkey)
    ensures Settle(PositionState(100, 1000, 0), 10000, key, 1100, 0)
            == Ok(Settled(PositionState(100, 1100, 0), 20000,
                          Some(SettlementEvent(key, 1100, 0, 10000, 0, 10000, 20000))))
    ensures Settle(PositionState(100, 1000, 0), 10000, key, 900, 0).value.collateral == 0
    ensures Settle(PositionState(-100, 1000, 0), 10000, key, 900, 0).value.collateral == 20000
    ensures Settle(PositionState(100, 1000, 10), 10000, key, 1000, 20)
            == Ok(Settled(PositionState(100, 1000, 20), 9000,
                          Some(SettlementEvent(key, 1000, 20, 0, 1000, -1000, 9000))))
    ensures Settle(PositionState(1_000_000_000, 1000, 0), 0, key, 2000, 0)
            == Ok(Settled(PositionState(1_000_000_000, 2000, 0), 1_000_000_000_000,
                          Some(SettlementEvent(key, 2000, 0, 1_000_000_000_000, 0,
                                               1_000_000_000_000, 1_000_000_000_000))))
    ensures Settle(PositionState(100, 1000, 5), 10000, key, 1050, 15)
            == Ok(Settled(PositionState(100, 1050, 15), 14000,
                          Some(SettlementEvent(key, 1050, 15, 5000, 1000, 4000, 14000))))
    ensures Settle(PositionState(100, 1000, 5), 10000, key, 1000, -5).value.collateral == 11000
  {
  }
}
