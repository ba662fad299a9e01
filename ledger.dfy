/**
 * The per-team bet ledger: a map from account to its accumulated bet, and the
 * aggregates (total stake, total points) the contract keeps or recomputes.
 */
module Ledger {

  type AccountId = string

  /** One user's accumulated record on one team: total stake and total points. */
  datatype Bet = Bet(amount: nat, points: nat)

  /** Some key of a non-empty key set; which one is left unspecified. */
  ghost function Pick<K>(keys: set<K>): (k: K)
    requires keys != {}
    ensures k in keys
  {
    var k :| k in keys; k
  }

  /** The sum of the values of a map, in no particular key order. */
  ghost function Total<K>(m: map<K, nat>): nat
    decreases m.Keys
  {
    if m.Keys == {} then 0
    else
      var k := Pick(m.Keys);
      m[k] + Total(m - {k})
  }

  /** Any key may be the one taken out first: the sum does not depend on the order. */
  lemma {:induction false} TotalRemove<K>(m: map<K, nat>, k: K)
    requires k in m
    ensures Total(m) == m[k] + Total(m - {k})
    decreases m.Keys
  {
    var j := Pick(m.Keys);
    if j != k {
      var mj, mk := m - {j}, m - {k};
      assert mj - {k} == mk - {j};
      TotalRemove(mj, k);
      TotalRemove(mk, j);
    }
  }

  /** Overwriting (or adding) one key changes the sum by exactly the difference. */
  lemma TotalUpdate<K>(m: map<K, nat>, k: K, v: nat)
    ensures Total(m[k := v]) + (if k in m then m[k] else 0) == Total(m) + v
  {
    var m' := m[k := v];
    TotalRemove(m', k);
    if k in m {
      TotalRemove(m, k);
      assert m' - {k} == m - {k};
    } else {
      assert m' - {k} == m;
    }
  }

  /** No single value exceeds the sum. */
  lemma TotalAtLeastElement<K>(m: map<K, nat>, k: K)
    requires k in m
    ensures m[k] <= Total(m)
  {
    TotalRemove(m, k);
  }

  /**
   * Scaling bound: if x * a[k] <= y * b[k] holds key by key, it holds of the sums.
   * This is what bounds a sum of floored proportional shares.
   */
  lemma {:induction false} TotalScaledBound<K>(a: map<K, nat>, b: map<K, nat>, x: nat, y: nat)
    requires a.Keys == b.Keys
    requires forall k :: k in a ==> x * a[k] <= y * b[k]
    ensures x * Total(a) <= y * Total(b)
    decreases a.Keys
  {
    if a.Keys != {} {
      var k := Pick(a.Keys);
      TotalRemove(a, k);
      TotalRemove(b, k);
      var ra, rb := a - {k}, b - {k};
      TotalScaledBound(ra, rb, x, y);
      var ta, tb := Total(ra), Total(rb);
      assert Total(a) == a[k] + ta;
      assert Total(b) == b[k] + tb;
      assert x * ta <= y * tb;
      assert x * a[k] <= y * b[k];
      MulAddBound(x, y, a[k], ta, b[k], tb);
    }
  }

  lemma MulAddBound(x: nat, y: nat, p: nat, q: nat, r: nat, s: nat)
    requires x * p <= y * r && x * q <= y * s
    ensures x * (p + q) <= y * (r + s)
  {
  }

  /** The points of every record of a team. */
  function PointsOf(bets: map<AccountId, Bet>): (r: map<AccountId, nat>)
    ensures r.Keys == bets.Keys
  {
    map u | u in bets :: bets[u].points
  }

  /** The stake of every record of a team. */
  function AmountsOf(bets: map<AccountId, Bet>): (r: map<AccountId, nat>)
    ensures r.Keys == bets.Keys
  {
    map u | u in bets :: bets[u].amount
  }

  /** A team's total points, over all its records. */
  ghost function SumPoints(bets: map<AccountId, Bet>): nat
  {
    Total(PointsOf(bets))
  }

  /** A team's total stake, over all its records. */
  ghost function SumAmounts(bets: map<AccountId, Bet>): nat
  {
    Total(AmountsOf(bets))
  }

  /**
   * Records a bet of `amount` earning `points` for `user`: a repeat bet adds to
   * the existing record, a first bet creates one. No other record changes.
   */
  function Record(bets: map<AccountId, Bet>, user: AccountId, amount: nat, points: nat): (r: map<AccountId, Bet>)
    ensures r.Keys == bets.Keys + {user}
    ensures user in bets ==> r[user] == Bet(bets[user].amount + amount, bets[user].points + points)
    ensures user !in bets ==> r[user] == Bet(amount, points)
    ensures forall u :: u in bets && u != user ==> r[u] == bets[u]
  {
    if user in bets then
      bets[user := Bet(bets[user].amount + amount, bets[user].points + points)]
    else
      bets[user := Bet(amount, points)]
  }

  /** Recording a bet raises the team's total points by exactly the points it earned. */
  lemma RecordAddsPoints(bets: map<AccountId, Bet>, user: AccountId, amount: nat, points: nat)
    ensures SumPoints(Record(bets, user, amount, points)) == SumPoints(bets) + points
  {
    var r := Record(bets, user, amount, points);
    assert PointsOf(r) == PointsOf(bets)[user := r[user].points];
    TotalUpdate(PointsOf(bets), user, r[user].points);
  }

  /** Recording a bet raises the team's total stake by exactly the amount attached. */
  lemma RecordAddsAmount(bets: map<AccountId, Bet>, user: AccountId, amount: nat, points: nat)
    ensures SumAmounts(Record(bets, user, amount, points)) == SumAmounts(bets) + amount
  {
    var r := Record(bets, user, amount, points);
    assert AmountsOf(r) == AmountsOf(bets)[user := r[user].amount];
    TotalUpdate(AmountsOf(bets), user, r[user].amount);
  }

  /** A record's points never exceed its team's total. */
  lemma PointsAtMostTotal(bets: map<AccountId, Bet>, user: AccountId)
    requires user in bets
    ensures bets[user].points <= SumPoints(bets)
  {
    TotalAtLeastElement(PointsOf(bets), user);
  }

  /** A record's stake never exceeds its team's total stake. */
  lemma AmountAtMostTotal(bets: map<AccountId, Bet>, user: AccountId)
    requires user in bets
    ensures bets[user].amount <= SumAmounts(bets)
  {
    TotalAtLeastElement(AmountsOf(bets), user);
  }
}
