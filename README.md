# Cross-margin settlement engine in Dafny

This project models the `settle_cross_margin` instruction of the Solana program
`solana-cross-margin-settlement` and proves properties of the model. The
instruction settles one signed perpetual position against a shared
(cross-margin) collateral balance, given an oracle price and a funding rate.
It runs in four steps:

1. It validates the inputs.
2. It computes the unrealised PnL `(oracle_price - entry_price) * size` and the
   funding payment `(funding_rate - last_funding_rate) * size` with checked
   arithmetic.
3. It adds the difference to the `i128` collateral.
4. It moves the position's checkpoints: it marks the position to market
   (`entry_price := oracle_price`) and advances `last_funding_rate`. Then it
   emits a `SettlementEvent`.

The model has four modules:

- `CheckedMath` (`checked_math.dfy`): `Int64` and `Int128` are subset types of
  `int`. Rust's `checked_sub`, `checked_mul`, `checked_add` and `i64::abs`
  become functions that return `None` exactly where Rust fails.
- `Settlement` (`settlement.dfy`): the account records, the error codes and
  the event. It also holds `Settle`, the instruction as a pure transition.
  `Settle` makes the same checks in the same order as the instruction, and
  each arithmetic step fails in the same way (Rust's `?` becomes Dafny's
  `:-`). `SettleAll` applies `Settle` to a sequence of inputs, in order.
- `SettlementProgram` (`settlement_program.dfy`): the `Position` and
  `UserBalance` accounts as classes. `SettleCrossMargin` is the instruction as
  a method that updates both accounts in place, in the source's order. Its
  postcondition ties its result and the new account fields to `Settle`. On
  failure it states that neither account changed.
- `SettlementProperties` (`settlement_properties.dfy`): lemmas about `Settle`.
  They cover the error cases, overflow reachability, the post-state,
  idempotence, composition and the sign conventions.

Modelling choices:

- `i64::abs(i64::MIN)` is modelled as a panic (`Failure.AbsOverflowPanic`).
  This assumes a build with overflow checks on, which is the default
  release profile of an Anchor workspace. Like every error, the panic aborts
  the transaction and writes no account.
- `position.key()` is the constant `key` of the `Position` class. The pure
  `Settle` takes the key as a parameter. The engine only copies it into the
  event.
- The event is a returned value (`Option<SettlementEvent>`). It is `None` on
  the flat-position path, which emits nothing.

## Behaviour as coded

Points of `settle_cross_margin` that are easy to misread, all modelled as
written:

- The entry-price check (`lib.rs:37`) applies to every position, flat ones
  included, and fails with `InvalidEntryPrice`.
- A flat position (`size == 0`) returns early (`lib.rs:40-44`):
  - only `last_funding_rate` changes, and it may take any value;
  - `entry_price` and the collateral stay as they are;
  - no event is emitted;
  - the funding-rate bound is not checked.
- The bound `MaxFundingRate = i64::MAX / 1_000_000 = 9223372036854` is checked
  only for non-flat positions. The new rate is checked before the stored one.
- The price and rate differences are `i64` `checked_sub`s (`lib.rs:63-65`,
  `lib.rs:79-81`); only the products and what follows are `i128`.
- Collateral is stored as `i128`, and nothing narrows it. The only arithmetic
  failure reachable after validation is the final `checked_add`
  (`CalculationOverflow`).
- The event carries `position_key`, `oracle_price`, `funding_rate`,
  `unrealized_pnl`, `funding_payment`, `net_settlement` and `new_collateral`.

## Model

| member | source | states |
|---|---|---|
| `CheckedMath.CheckedSub64` | programs/solana-cross-margin-settlement/src/lib.rs:63-65 | `i64::checked_sub`: succeeds exactly when the exact difference is an `i64`, and then yields it |
| `CheckedMath.CheckedMul128` | programs/solana-cross-margin-settlement/src/lib.rs:69-71 | `i128::checked_mul`: succeeds exactly when the exact product is an `i128`, and then yields it |
| `CheckedMath.CheckedSub128` | programs/solana-cross-margin-settlement/src/lib.rs:97-99 | `i128::checked_sub`: succeeds exactly when the exact difference is an `i128`, and then yields it |
| `CheckedMath.CheckedAdd128` | programs/solana-cross-margin-settlement/src/lib.rs:102-104 | `i128::checked_add`: succeeds exactly when the exact sum is an `i128`, and then yields it |
| `CheckedMath.Abs64` | programs/solana-cross-margin-settlement/src/lib.rs:50 | `i64::abs` fails (panics) exactly on `i64::MIN`; otherwise it yields a non-negative value equal to `x` or `-x` |
| `Settlement.Settle` | programs/solana-cross-margin-settlement/src/lib.rs:21-135 | on success: the size is unchanged, the funding checkpoint equals the new rate, and both prices were positive. An event exists exactly for a non-flat position. A non-flat position is marked to the oracle price and passed the funding bounds. A flat one keeps its entry price and collateral |
| `SettlementProgram.SettleCrossMargin` | programs/solana-cross-margin-settlement/src/lib.rs:21-135 | updates the two accounts in place to exactly what `Settle` gives and returns its event. On any failure it returns that failure and leaves both accounts unchanged |
| `SettlementProgram.Position.constructor` | programs/solana-cross-margin-settlement/src/lib.rs:142-150 | a `Position` account holds the given key, signed size, entry price and funding checkpoint |
| `SettlementProgram.UserBalance.constructor` | programs/solana-cross-margin-settlement/src/lib.rs:152-156 | a `UserBalance` account holds the given signed `i128` collateral |
| `SettlementProperties.InvalidOraclePriceRejected` | programs/solana-cross-margin-settlement/src/lib.rs:34 | a non-positive oracle price fails with `InvalidOraclePrice`, whatever the position |
| `SettlementProperties.InvalidEntryPriceRejected` | programs/solana-cross-margin-settlement/src/lib.rs:37 | after a valid oracle price, a non-positive stored entry price fails with `InvalidEntryPrice` for every size, flat included |
| `SettlementProperties.FlatPositionMovesOnlyFundingCheckpoint` | programs/solana-cross-margin-settlement/src/lib.rs:40-44 | with valid prices, a flat position succeeds for any funding rate. Only `last_funding_rate` changes (to the new rate); entry price, size and collateral are kept, and no event is emitted |
| `SettlementProperties.FundingRateBoundEnforced` | programs/solana-cross-margin-settlement/src/lib.rs:46-56 | for a non-flat position with valid prices: `FundingRateOutOfBounds` exactly when the new rate, or else the stored rate, exceeds `MaxFundingRate` in magnitude. The `abs` panic happens exactly when `i64::MIN` is reached |
| `SettlementProperties.IntermediateArithmeticCannotOverflow` | programs/solana-cross-margin-settlement/src/lib.rs:63-99 | once validation passes, both `i64` subtractions, both `i128` multiplications and the `i128` net subtraction succeed, with the exact results |
| `SettlementProperties.CalculationOverflowOnlyAtCollateral` | programs/solana-cross-margin-settlement/src/lib.rs:63-109 | once validation passes, settlement fails exactly when `collateral + net` leaves the `i128` range, and then only with `CalculationOverflow` |
| `SettlementProperties.SettledPostState` | programs/solana-cross-margin-settlement/src/lib.rs:63-132 | on success with non-zero size: collateral' = collateral + (oracle - entry)·size - (rate - last_rate)·size. The position becomes (size, oracle_price, funding_rate), and the event carries exactly these PnL, funding, net and collateral values |
| `SettlementProperties.CollateralChangeIsNetSettlement` | programs/solana-cross-margin-settlement/src/lib.rs:94-109 | for every size, a successful settlement changes the collateral by exactly PnL minus funding (zero when flat) |
| `SettlementProperties.ResettleIsNoOp` | programs/solana-cross-margin-settlement/src/lib.rs:115-118 | no double counting: after a success, settling again at the same price and rate succeeds and leaves position and collateral unchanged. For a non-flat position its event has zero PnL, funding and net |
| `SettlementProperties.SuccessiveSettlementsCompose` | programs/solana-cross-margin-settlement/src/lib.rs:111-118 | two successful settlements in a row end in the same position and collateral as one settlement at the second price and rate, which also succeeds |
| `SettlementProperties.NetSettlementTelescopes` | programs/solana-cross-margin-settlement/src/lib.rs:94-99 | net settlement is additive across a checkpoint: settling to (o1, f1) and then on to (o2, f2) nets the same as settling to (o2, f2) at once |
| `SettlementProperties.SettleAllCheckpoints` | programs/solana-cross-margin-settlement/src/lib.rs:115-118 | after a run of successful settlements the size is kept, the funding checkpoint is the last rate, and the entry price is the last price (unchanged when flat) |
| `SettlementProperties.SettleAllCollateral` | programs/solana-cross-margin-settlement/src/lib.rs:18-20 | after a run of successful settlements the collateral has changed by exactly the net settlement from the starting checkpoints to the last price and rate, so nothing is counted twice or lost |
| `SettlementProperties.OppositePositionsSettleOppositely` | programs/solana-cross-margin-settlement/src/lib.rs:94-96 | a long and a short of equal magnitude with the same checkpoints get negated PnL and funding, and opposite collateral changes |
| `SettlementProperties.PriceMoveSign` | programs/solana-cross-margin-settlement/src/lib.rs:67-71 | with the rate unchanged, a price rise credits a long and debits a short; a fall does the reverse |
| `SettlementProperties.FundingMoveSign` | programs/solana-cross-margin-settlement/src/lib.rs:83-88 | with the price unchanged, a funding-rate rise debits a long and credits a short; a fall (negative funding move) credits the long |
| `SettlementProperties.CollateralMayGoNegative` | programs/solana-cross-margin-settlement/src/lib.rs:106-109 | a long with 5000 collateral losing 10000 is settled to -5000 collateral, not rejected |
| `SettlementProperties.WorkedExamples` | tests/settlement_tests.rs:22-257 | the test module's scenarios as single calls. Long 100 @1000: to 1100 gives collateral 10000→20000 with PnL 10000, and to 900 gives 10000→0. The short at 900 gives 20000. The long paying funding 10→20 gives 9000 with checkpoint 20. The billion-unit long moved 1000→2000 gives PnL 10^12 (well inside `i64`) and collateral 0→10^12. The combined move (price 1050, rate 5→15) gives 14000 (PnL 5000, funding 1000). The negative funding move 5→-5 gives 11000 |
| `Settlement.OkOr` | programs/solana-cross-margin-settlement/src/lib.rs:63-104 | `.ok_or(CalculationOverflow)?`: succeeds exactly for `Some`, with its value, and otherwise fails with the given error |
| `Settlement.SettleAll` | programs/solana-cross-margin-settlement/src/lib.rs:18 | settlement called repeatedly, each call from the state the previous one left: an empty run changes nothing, and no successful run resizes the position |
| `SettlementProgram.DoubleSettlementScenario` | tests/settlement_tests.rs:126-150 | on the account objects, settling long 100 @1000 twice at 1100: the first PnL is 10000, the second is 0, and the collateral ends at 20000 |
| `SettlementProgram.FlatPositionScenario` | tests/settlement_tests.rs:175-191 | on the account objects, a flat position settled at price 1100 and rate 10: succeeds with no event. The checkpoint becomes 10, and the entry price 1000 and collateral 10000 are kept |

## Left out

- Anchor plumbing: the program id, the `#[program]` module, the `Context`, the
  `#[derive(Accounts)]` struct and the `Signer` authority. Account loading,
  serialization and authorization are done by the runtime. The model starts
  from two account objects.
- `emit!` transport: the event is returned as a value. `position.key()` is an
  opaque byte sequence fixed when the account object is made.
- `i64::abs` in a build without overflow checks, where `abs(i64::MIN)` wraps to
  `i64::MIN` and passes the bound check. That build is not modelled.
- Oracle staleness, maintenance margin and liquidation. The comments mention
  them, but the code does not implement them.
- Concurrent or same-slot settlement ordering: the runtime serializes
  transactions on the same accounts. `SettleAll` models a serial run in which
  every call succeeds. It stops at the first failure, whereas the program
  would go on from the unchanged accounts; the lemmas speak only of
  all-successful runs.
- The Rust test module. It never calls the instruction, so it is not modelled
  as code. Each of its ten scenarios appears instead: in `WorkedExamples`, in
  `CollateralMayGoNegative`, or as a client method of `SettlementProgram`.
