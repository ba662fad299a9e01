# Team betting contract — a Dafny model

This project models `TeamBettingContract`, a NEAR smart contract for a
two-team, time-weighted betting round:

- An admin sets a prize pot (in whole NEAR) and a commission rate (0–50 %).
  The admin opens a round and later closes it.
- While the round is open, any account may stake NEAR on team "A" or "B".
  A bet earns points: the whole NEAR staked times a rate. The rate depends on
  the hour since the round opened: 24 in the first hour, then 23, down to 15
  in the tenth hour, and 1 after that.
  A repeat bet on the same team adds to the account's record on that team.
  Each team keeps a running points counter.
- Closing the round refuses a tie. Otherwise the team with strictly more
  points wins, and every bet is settled:
  - each winner gets the stake back plus a points-proportional share of the pot net of commission;
  - the losers owe the pot plus the commission; if their stakes cover it, each loses a stake-proportional part of it, otherwise all lose everything;
  - the commission goes to the admin.

  The contract only logs these payouts; it does not store or transfer them.

Modules:

- `Wrappers` (`wrappers.dfy`): `Option`, and `Result`/`Outcome` for the
  contract's raised exceptions, with one `Error` constructor per exception.
- `Ledger` (`ledger.dfy`): a bet record `Bet(amount, points)` and a team's bet
  map `map<AccountId, Bet>`. `Record` is the accumulate-on-repeat update.
  `Total`, `SumPoints` and `SumAmounts` are the `sum(...)` aggregates; they are
  ghost functions over maps, with lemmas that the sum does not depend on key
  order.
- `PointSchedule` (`schedule.dfy`): the constants `ONE_NEAR`, `HOUR_NS` and the
  default rate table, the hour index, the rate lookup and the points formula.
- `Settlement` (`settlement.dfy`): `_distribute_payouts` as a pure (ghost)
  function `Distribute`. It maps the winning and losing bet maps, the pot and
  the rate to the logged winner payouts, loser payouts and commission.
  Lemmas state its bounds.
- `Betting` (`betting.dfy`): the class `TeamBetting`. Its fields are the
  contract's storage keys, typed. Its methods are the state-changing calls.
  `Valid()` is the invariant every call keeps. It includes "each team's
  points counter equals the sum of the points in that team's bet map".

Host inputs are parameters:

- `caller` stands for `predecessor_account_id`;
- `deposit` stands for `attached_deposit`, in yoctoNEAR;
- `now` stands for `block_timestamp`, in nanoseconds.

A raised exception aborts the call with no state change, so every method
returns `Fail`/`Err` with the exception's reason and leaves the object
unchanged. Python integers are unbounded, and so are the model's `int`/`nat`.
Floor division on the non-negative operands used here is Dafny's `/`.
`HoursElapsed` also takes negative times, and there Dafny's Euclidean `/` by a
positive divisor is Python's floor.

Notes on the contract's behaviour:

- The pot is set in whole NEAR and scaled by `ONE_NEAR` at settlement.
  Elapsed time is in nanoseconds.
- A winner's share is taken from the pot net of commission.
- A tie is refused: `end_game` raises and the round stays open.
- The commission and the payouts are only logged. Nothing is transferred or
  stored as withdrawable.
- A repeat bet on the same team always accumulates. Any non-zero deposit is
  accepted; a deposit below one NEAR earns no points.
- If `block_timestamp` is before the recorded start, the hour index is
  negative. Python then indexes the rate table from its end. Below minus the
  table length it raises IndexError. `PointRate` models both cases.

## Model

| member | source | states |
|---|---|---|
| `Betting.TeamBetting.constructor` | contract.py:17-31 | `initialize`: given admin, no round, pot 0, 10 % commission, empty ledger, zero counters, no winner, default rate table; establishes the invariant |
| `Betting.TeamBetting.AssertAdmin` | contract.py:33-37 | passes exactly when the caller is the stored admin, otherwise fails with the admin error |
| `Betting.TeamBetting.SetPotSize` | contract.py:39-47 | non-admin refused; refused while a round is open; otherwise only the pot changes, to any integer given; a refusal changes nothing |
| `Betting.TeamBetting.SetCommissionRate` | contract.py:49-57 | non-admin refused; a rate outside [0, 50] refused; otherwise only the rate changes; allowed during a round |
| `Betting.TeamBetting.StartGame` | contract.py:59-82 | admin only, no open round, pot > 0 (each with its own error, in that order); then active and started, start time is `now`, both bet maps empty, both counters 0, no winner; pot, rate and admin kept |
| `Betting.ParseTeam` | contract.py:90-91 | the team argument is accepted exactly when it is "A" or "B" |
| `Betting.TeamBetting.BetOnTeam` | contract.py:84-142 | rejects with no change when no round is open, the team is not A/B, the deposit is 0 or the rate lookup raises; otherwise the caller's record on that team becomes the old record plus this bet, that team's counter rises by exactly the points earned, the other team is untouched; the invariant "counter = sum of the map's points" is kept |
| `Ledger.Record` | contract.py:111-129 | a repeat bet adds amount and points to the existing record, a first bet creates one, no other record changes |
| `Ledger.RecordAddsPoints` | contract.py:131-134 | recording a bet raises the sum of the team's points by exactly the points earned, which is why the running counter equals the sum |
| `Ledger.RecordAddsAmount` | contract.py:115-127 | recording a bet raises the team's total stake by exactly the amount attached |
| `Ledger.PointsAtMostTotal` | contract.py:187 | a record's points never exceed its team's total points |
| `Ledger.AmountAtMostTotal` | contract.py:183-184 | a record's stake never exceeds its team's total stake |
| `PointSchedule.HoursElapsed` | contract.py:100-101 | the hour index is the floor of elapsed nanoseconds over one hour: `h * HOUR_NS <= elapsed < (h + 1) * HOUR_NS` |
| `PointSchedule.PointRate` | contract.py:103-107 | defined for every non-negative elapsed time, and the rate is always the floor rate 1 or an entry of the table |
| `PointSchedule.RateInHour` | contract.py:100-107 | during hour `i` of the table the rate is `rates[i]` |
| `PointSchedule.RateAfterTable` | contract.py:104-105 | once the table's hours have passed the rate is 1 |
| `PointSchedule.RateNonIncreasing` | contract.py:99-107 | for a non-increasing table at or above 1, a later bet never earns a higher rate |
| `PointSchedule.DefaultTableDecays` | contract.py:31 | the default table has 10 entries, `24 - i` at hour `i`, non-increasing and at least 1 |
| `PointSchedule.DefaultRateBounds` | contract.py:100-107 | with the default table every defined rate is in [1, 24], and the first hour gives 24 |
| `PointSchedule.PointsEarned` | contract.py:109 | a deposit below one NEAR earns 0 points; points never exceed deposit × rate / ONE_NEAR (the exact value is stated by `FractionEarnsNothing`) |
| `PointSchedule.FractionEarnsNothing` | contract.py:109 | a deposit of `n` whole NEAR plus any fraction of a NEAR earns exactly `n * rate` points: the points are the floored NEAR count times the rate |
| `PointSchedule.WholeNearPoints` | contract.py:109 | a deposit of exactly `n` NEAR earns `n * rate` points |
| `PointSchedule.PointsMonotone` | contract.py:109 | a larger deposit at the same rate never earns fewer points |
| `Betting.TeamBetting.EndGame` | contract.py:144-168 | admin only, open round, no tie (each with its own error); winner is A iff A's points strictly exceed B's; round closed, winner stored, ledger untouched; the settlement is `Distribute` of the winner's and loser's maps with the stored pot, rate and admin |
| `Settlement.Commission` | contract.py:189-190 | the commission is the floor of pot × rate / 100 and at most half the pot |
| `Settlement.NetPot` | contract.py:191 | net pot plus commission is exactly the pot |
| `Settlement.TotalToPay` | contract.py:212 | what losers owe is between the pot and one and a half pots |
| `Settlement.WinnerPayoutFor` | contract.py:194-201 | a winner's payout is the stake plus the floored share `points * net_pot / total_points`, and just the stake when the winners have no points |
| `Settlement.LoserPayoutFor` | contract.py:211-235 | a loser's loss plus refund is the stake; when losers cover their obligation the loss is the floored stake-proportional share of it, otherwise the refund is 0 |
| `Settlement.Distribute` | contract.py:170-242 | every winner and every loser gets exactly one logged payout, and the commission goes to the admin |
| `Settlement.WinnerPayoutBounds` | contract.py:194-201 | each winner's payout is at least the stake and at most the stake plus the net pot |
| `Settlement.ZeroPointsWinnersGetStake` | contract.py:196-201 | when the winners' total points are 0, each winner gets exactly the stake back |
| `Betting.TeamBetting.WinnerHasPoints` | contract.py:151-157 | in a round `end_game` can close (valid state, no tie), the winning team's total points are positive and exceed the loser's, so the zero-points branch of settlement is not reached from `end_game` |
| `Settlement.WinnerSharesWithinNetPot` | contract.py:187-201 | the winners' pot shares sum to at most the net pot |
| `Settlement.LoserRefundBounds` | contract.py:211-235 | each refund is between 0 and the stake, loss plus refund is the stake, and when the losers cannot cover the pot plus commission every refund is 0 |
| `Settlement.LossesWithinObligation` | contract.py:214-219 | when the losers cover the obligation, their losses sum to at most the pot plus commission |
| `Settlement.SettlementCovered` | contract.py:170-242 | all winner payouts, loser refunds and the commission together are at most the pot plus every stake on both sides |
| `Betting.TeamBetting.GetGameStatus` | contract.py:244-256 | the reported counters are the sums over each team's bet map; an open round has a positive pot, is started and has no winner |
| `Betting.TeamBetting.GetTeamBets` | contract.py:258-265 | team A's or B's map, and no bets for any other team name |
| `Betting.TeamBetting.GetUserBet` | contract.py:267-275 | a record is returned exactly when the team is known and the user bet on it, and it is that user's record |
| `Betting.TeamBetting.CalculateCurrentPoints` | contract.py:277-291 | 0 outside a round; during a round and at or after its start, always a value |
| `Betting.TeamBetting.PreviewMatchesBet` | contract.py:277-291 | the preview for `n` NEAR equals the points a bet of exactly `n` NEAR placed at the same time earns, and lies between `n` and `24 * n` |

## Left out

- Event logging (`log_event`): the values of the `bet_placed`, `game_ended`
  and payout events are returned instead. `bet_placed` is `BetPlaced`,
  `game_ended` is `GameEnded`, and the payout events are the `Settlement`
  value. `pot_size_set` (contract.py:47), `commission_rate_set`
  (contract.py:57) and `game_started` (contract.py:79-82) are not returned;
  their values are the new `potSize`, `commissionRate` and `gameStartTime`
  (with the unchanged `potSize`) that the methods' postconditions state.
- Token transfers: the contract makes none. The payouts are only logged.
- Storage persistence and the host SDK (`near_sdk_py`): storage is the class's
  fields, and host inputs are parameters.
- The order of the logged payout events. The contract logs them in its
  dicts' insertion order; the model's bet maps are Dafny `map`s, which have
  no order. For the same reason the sums over them are ghost functions, so
  `Settlement.Distribute` is a ghost function and `EndGame` returns the
  settlement as a ghost out-parameter.
- `build/export_wrappers.c` is generated glue. The functions it names are not
  part of this model.
- Withdrawals, forced refunds, tie refunds, ban lists, betting windows and
  lottery-style winner selection have no code in this contract and are not
  modelled.
