/**
 * End-of-round settlement (`_distribute_payouts`): from the winning and losing
 * team's bet maps, the pot and the commission rate, the payouts the contract
 * logs for every winner and loser and the commission it logs for the admin.
 * Nothing is transferred or stored, so settlement is a pure function.
 */
module Settlement {
  import opened Ledger
  import opened PointSchedule

  /** A `winner_payout` event: the stake returned plus a share of the net pot. */
  datatype WinnerPayout = WinnerPayout(originalBet: nat, potShare: nat, totalPayout: nat)

  /** A `loser_payout` event: the part of the stake lost and the part refunded. */
  datatype LoserPayout = LoserPayout(originalBet: nat, loss: nat, refund: nat)

  /** Everything one settlement logs, the `commission_payout` event included. */
  datatype Settlement = Settlement(
    winners: map<AccountId, WinnerPayout>,
    losers: map<AccountId, LoserPayout>,
    admin: AccountId,
    commission: nat)

  /** The commission on a pot at a percentage rate, rounded down; at most half the pot. */
  function Commission(pot: nat, rate: int): (c: nat)
    requires 0 <= rate <= 50
    ensures c * 100 <= pot * rate < c * 100 + 100
    ensures 2 * c <= pot
  {
    MulMono(rate, 50, pot);
    pot * rate / 100
  }

  /**
   * One winner's payout: the stake back, plus its points' share of the net pot,
   * rounded down, when the winning side earned any points at all.
   */
  function WinnerPayoutFor(bet: Bet, netPot: nat, totalPoints: nat): (w: WinnerPayout)
    ensures w.originalBet == bet.amount && w.totalPayout == bet.amount + w.potShare
    ensures totalPoints == 0 ==> w.potShare == 0
    ensures totalPoints > 0 ==>
      w.potShare * totalPoints <= bet.points * netPot < w.potShare * totalPoints + totalPoints
  {
    var share := if totalPoints > 0 then bet.points * netPot / totalPoints else 0;
    WinnerPayout(bet.amount, share, bet.amount + share)
  }

  /**
   * One loser's payout. When the losing side's stake covers what it owes, the
   * loser pays a stake-proportional part of it, rounded down, and keeps the
   * rest; otherwise the whole stake is lost.
   */
  function LoserPayoutFor(bet: Bet, totalToPay: nat, losingTotal: nat): (l: LoserPayout)
    requires totalToPay > 0
    ensures l.originalBet == bet.amount && l.loss + l.refund == bet.amount
    ensures losingTotal < totalToPay ==> l.refund == 0
    ensures totalToPay <= losingTotal ==>
      l.loss * losingTotal <= bet.amount * totalToPay < l.loss * losingTotal + losingTotal
  {
    if losingTotal >= totalToPay then
      MulMono(totalToPay, losingTotal, bet.amount);
      var loss := bet.amount * totalToPay / losingTotal;
      LossAtMostStake(bet.amount, totalToPay, losingTotal);
      LoserPayout(bet.amount, loss, bet.amount - loss)
    else
      LoserPayout(bet.amount, bet.amount, 0)
  }

  lemma LossAtMostStake(amount: nat, totalToPay: nat, losingTotal: nat)
    requires 0 < totalToPay <= losingTotal
    ensures amount * totalToPay / losingTotal <= amount
  {
    MulMono(totalToPay, losingTotal, amount);
    DivBound(amount * totalToPay, amount, losingTotal);
  }

  /** x <= y * d implies x / d <= y. */
  lemma DivBound(x: nat, y: nat, d: nat)
    requires d > 0 && x <= d * y
    ensures x / d <= y
  {
    var q := x / d;
    assert q * d <= x;
    if q > y {
      MulMono(y + 1, q, d);
    }
  }

  /** The pot in yoctoNEAR: `pot_size * ONE_NEAR`. */
  function PotYocto(potNear: nat): nat
  {
    potNear * ONE_NEAR
  }

  /** Every winner's payout, given the net pot. */
  ghost function WinnerPayouts(winning: map<AccountId, Bet>, netPot: nat): (ws: map<AccountId, WinnerPayout>)
    ensures ws.Keys == winning.Keys
  {
    var totalPoints := SumPoints(winning);
    map u | u in winning :: WinnerPayoutFor(winning[u], netPot, totalPoints)
  }

  /** Every loser's payout, given what the losing side owes. */
  ghost function LoserPayouts(losing: map<AccountId, Bet>, totalToPay: nat): (ls: map<AccountId, LoserPayout>)
    requires totalToPay > 0
    ensures ls.Keys == losing.Keys
  {
    var losingTotal := SumAmounts(losing);
    map u | u in losing :: LoserPayoutFor(losing[u], totalToPay, losingTotal)
  }

  /**
   * `_distribute_payouts`: every winner's and every loser's logged payout and
   * the commission, for a round whose winning side is `winning`.
   */
  ghost function Distribute(
    winning: map<AccountId, Bet>, losing: map<AccountId, Bet>,
    potNear: nat, rate: int, admin: AccountId): (s: Settlement)
    requires potNear > 0 && 0 <= rate <= 50
    ensures s.winners.Keys == winning.Keys && s.losers.Keys == losing.Keys
    ensures s.admin == admin
  {
    Settlement(
      WinnerPayouts(winning, NetPot(potNear, rate)),
      LoserPayouts(losing, TotalToPay(potNear, rate)),
      admin,
      Commission(PotYocto(potNear), rate))
  }

  /** The pot left for the winners once the commission is taken. */
  function NetPot(potNear: nat, rate: int): (n: nat)
    requires 0 <= rate <= 50
    ensures n + Commission(PotYocto(potNear), rate) == PotYocto(potNear)
  {
    PotYocto(potNear) - Commission(PotYocto(potNear), rate)
  }

  /** What the losing side owes: the pot plus the commission. */
  function TotalToPay(potNear: nat, rate: int): (t: nat)
    requires 0 <= rate <= 50
    ensures PotYocto(potNear) <= t <= PotYocto(potNear) + PotYocto(potNear) / 2
  {
    PotYocto(potNear) + Commission(PotYocto(potNear), rate)
  }

  function SharesOf(ws: map<AccountId, WinnerPayout>): (r: map<AccountId, nat>)
    ensures r.Keys == ws.Keys
  {
    map u | u in ws :: ws[u].potShare
  }

  function WinnerTotalsOf(ws: map<AccountId, WinnerPayout>): (r: map<AccountId, nat>)
    ensures r.Keys == ws.Keys
  {
    map u | u in ws :: ws[u].totalPayout
  }

  function LossesOf(ls: map<AccountId, LoserPayout>): (r: map<AccountId, nat>)
    ensures r.Keys == ls.Keys
  {
    map u | u in ls :: ls[u].loss
  }

  function RefundsOf(ls: map<AccountId, LoserPayout>): (r: map<AccountId, nat>)
    ensures r.Keys == ls.Keys
  {
    map u | u in ls :: ls[u].refund
  }

  /**
   * Every winner gets back at least the stake, and at most the stake plus the
   * whole net pot; a winner's pot share is its points' floored share of it.
   */
  lemma WinnerPayoutBounds(
    winning: map<AccountId, Bet>, losing: map<AccountId, Bet>,
    potNear: nat, rate: int, admin: AccountId, u: AccountId)
    requires potNear > 0 && 0 <= rate <= 50
    requires u in winning
    ensures var w := Distribute(winning, losing, potNear, rate, admin).winners[u];
      w.originalBet == winning[u].amount &&
      winning[u].amount <= w.totalPayout <= winning[u].amount + NetPot(potNear, rate)
  {
    var w := Distribute(winning, losing, potNear, rate, admin).winners[u];
    var net, t := NetPot(potNear, rate), SumPoints(winning);
    if t > 0 {
      PointsAtMostTotal(winning, u);
      MulMono(winning[u].points, t, net);
      DivBound(winning[u].points * net, net, t);
    }
  }

  /** When the winning side earned no points, every winner gets exactly the stake back. */
  lemma ZeroPointsWinnersGetStake(
    winning: map<AccountId, Bet>, losing: map<AccountId, Bet>,
    potNear: nat, rate: int, admin: AccountId, u: AccountId)
    requires potNear > 0 && 0 <= rate <= 50
    requires u in winning && SumPoints(winning) == 0
    ensures Distribute(winning, losing, potNear, rate, admin).winners[u].totalPayout == winning[u].amount
  {
  }

  /** The winners' pot shares together never exceed the net pot: rounding only ever loses. */
  lemma WinnerSharesWithinNetPot(
    winning: map<AccountId, Bet>, losing: map<AccountId, Bet>,
    potNear: nat, rate: int, admin: AccountId)
    requires potNear > 0 && 0 <= rate <= 50
    ensures Total(SharesOf(Distribute(winning, losing, potNear, rate, admin).winners)) <= NetPot(potNear, rate)
  {
    SharesWithin(winning, NetPot(potNear, rate));
  }

  lemma SharesWithin(winning: map<AccountId, Bet>, net: nat)
    ensures Total(SharesOf(WinnerPayouts(winning, net))) <= net
  {
    var t := SumPoints(winning);
    var shares, points := SharesOf(WinnerPayouts(winning, net)), PointsOf(winning);
    if t > 0 {
      forall u | u in shares
        ensures t * shares[u] <= net * points[u]
      {
        var w := WinnerPayoutFor(winning[u], net, t);
        assert shares[u] == w.potShare && points[u] == winning[u].points;
        assert w.potShare * t <= winning[u].points * net;
      }
      TotalScaledBound(shares, points, t, net);
      CancelBound(Total(shares), net, t);
    } else {
      TotalZero(shares);
    }
  }

  /** t * a <= b * t with t > 0 gives a <= b. */
  lemma CancelBound(a: nat, b: nat, t: nat)
    requires t > 0 && t * a <= b * t
    ensures a <= b
  {
    if a > b {
      MulMono(b + 1, a, t);
    }
  }

  /** A map whose values are all zero sums to zero. */
  lemma {:induction false} TotalZero<K>(m: map<K, nat>)
    requires forall k :: k in m ==> m[k] == 0
    ensures Total(m) == 0
    decreases m.Keys
  {
    if m.Keys != {} {
      var k := Pick(m.Keys);
      TotalZero(m - {k});
    }
  }

  /**
   * Every loser's refund is between nothing and the stake. If the losing side
   * cannot cover the pot plus commission, every loser forfeits the whole stake.
   */
  lemma LoserRefundBounds(
    winning: map<AccountId, Bet>, losing: map<AccountId, Bet>,
    potNear: nat, rate: int, admin: AccountId, u: AccountId)
    requires potNear > 0 && 0 <= rate <= 50
    requires u in losing
    ensures var l := Distribute(winning, losing, potNear, rate, admin).losers[u];
      l.originalBet == losing[u].amount && l.refund <= losing[u].amount &&
      l.loss + l.refund == losing[u].amount &&
      (SumAmounts(losing) < TotalToPay(potNear, rate) ==> l.refund == 0)
  {
  }

  /** When the losers cover their obligation, their losses together stay within it. */
  lemma LossesWithinObligation(
    winning: map<AccountId, Bet>, losing: map<AccountId, Bet>,
    potNear: nat, rate: int, admin: AccountId)
    requires potNear > 0 && 0 <= rate <= 50
    requires SumAmounts(losing) >= TotalToPay(potNear, rate)
    ensures Total(LossesOf(Distribute(winning, losing, potNear, rate, admin).losers)) <= TotalToPay(potNear, rate)
  {
    LossesWithin(losing, TotalToPay(potNear, rate));
  }

  lemma LossesWithin(losing: map<AccountId, Bet>, owed: nat)
    requires 0 < owed <= SumAmounts(losing)
    ensures Total(LossesOf(LoserPayouts(losing, owed))) <= owed
  {
    var lt := SumAmounts(losing);
    var losses, amounts := LossesOf(LoserPayouts(losing, owed)), AmountsOf(losing);
    forall u | u in losses
      ensures lt * losses[u] <= owed * amounts[u]
    {
      var l := LoserPayoutFor(losing[u], owed, lt);
      assert losses[u] == l.loss && amounts[u] == losing[u].amount;
      assert l.loss * lt <= losing[u].amount * owed;
    }
    TotalScaledBound(losses, amounts, lt, owed);
    CancelBound(Total(losses), owed, lt);
  }

  /** Sums distribute over a key-by-key sum of two maps. */
  lemma {:induction false} TotalAdd<K>(a: map<K, nat>, b: map<K, nat>, c: map<K, nat>)
    requires a.Keys == b.Keys == c.Keys
    requires forall k :: k in c ==> c[k] == a[k] + b[k]
    ensures Total(c) == Total(a) + Total(b)
    decreases c.Keys
  {
    if c.Keys != {} {
      var k := Pick(c.Keys);
      TotalRemove(a, k);
      TotalRemove(b, k);
      TotalAdd(a - {k}, b - {k}, c - {k});
    }
  }

  /**
   * The contract never promises more than it holds: all winner payouts, all
   * loser refunds and the commission together are at most the pot plus every
   * stake placed on either side.
   */
  lemma SettlementCovered(
    winning: map<AccountId, Bet>, losing: map<AccountId, Bet>,
    potNear: nat, rate: int, admin: AccountId)
    requires potNear > 0 && 0 <= rate <= 50
    ensures var s := Distribute(winning, losing, potNear, rate, admin);
      Total(WinnerTotalsOf(s.winners)) + Total(RefundsOf(s.losers)) + s.commission
        <= PotYocto(potNear) + SumAmounts(winning) + SumAmounts(losing)
  {
    var s := Distribute(winning, losing, potNear, rate, admin);
    TotalAdd(AmountsOf(winning), SharesOf(s.winners), WinnerTotalsOf(s.winners));
    TotalAdd(RefundsOf(s.losers), LossesOf(s.losers), AmountsOf(losing));
    WinnerSharesWithinNetPot(winning, losing, potNear, rate, admin);
  }
}
