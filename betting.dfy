/**
 * The `TeamBettingContract`: a round with two teams, A and B. Only the admin
 * sets it up, opens and closes it. Users stake NEAR on a team and earn points
 * by the hour they bet in. Closing the round picks the team with more points
 * and settles every bet.
 *
 * Host inputs are parameters: `caller` is `predecessor_account_id`, `deposit`
 * is `attached_deposit` (yoctoNEAR) and `now` is `block_timestamp`
 * (nanoseconds). A call that raises changes nothing, so every failing method
 * leaves the object unchanged.
 */
module Betting {
  import opened Wrappers
  import opened Ledger
  import opened PointSchedule
  import opened Settlement

  datatype Team = A | B {
    function Other(): Team
    {
      if this == A then B else A
    }
  }

  /** The team argument as the contract accepts it: exactly "A" or "B". */
  function ParseTeam(team: string): (t: Option<Team>)
    ensures t == Some(A) <==> team == "A"
    ensures t == Some(B) <==> team == "B"
  {
    if team == "A" then Some(A)
    else if team == "B" then Some(B)
    else None
  }

  /** The `bet_placed` event. */
  datatype BetPlaced = BetPlaced(user: AccountId, team: Team, amount: nat, points: nat, pointRate: nat)

  /** The `game_ended` event. */
  datatype GameEnded = GameEnded(winningTeam: Team, teamAPoints: nat, teamBPoints: nat)

  /** What `get_game_status` reports. */
  datatype GameStatus = GameStatus(
    active: bool, started: bool, startTime: nat, potSize: int, commissionRate: int,
    teamAPoints: nat, teamBPoints: nat, winningTeam: Option<Team>)

  class TeamBetting {
    var admin: AccountId
    var gameActive: bool
    var gameStarted: bool
    var gameStartTime: nat
    var potSize: int            // whole NEAR; `set_pot_size` accepts any integer
    var commissionRate: int     // percent
    var teamABets: map<AccountId, Bet>
    var teamBBets: map<AccountId, Bet>
    var teamAPoints: nat
    var teamBPoints: nat
    var winningTeam: Option<Team>   // None: the empty string the contract stores before a round ends
    var pointRates: seq<nat>

    /**
     * The contract's invariant: the commission rate stays in range, an open
     * round has a positive pot and no winner yet, every record holds a stake,
     * and each team's running points counter is the sum of its records' points.
     */
    ghost predicate Valid()
      reads this
    {
      && 0 <= commissionRate <= 50
      && (gameActive ==> potSize > 0 && gameStarted && winningTeam == None)
      && (forall u :: u in teamABets ==> teamABets[u].amount > 0)
      && (forall u :: u in teamBBets ==> teamBBets[u].amount > 0)
      && teamAPoints == SumPoints(teamABets)
      && teamBPoints == SumPoints(teamBBets)
      && pointRates == DEFAULT_POINT_RATES
    }

    /** One team's bet map. */
    function Bets(t: Team): map<AccountId, Bet>
      reads this
    {
      if t == A then teamABets else teamBBets
    }

    /** One team's running points counter. */
    function Points(t: Team): nat
      reads this
    {
      if t == A then teamAPoints else teamBPoints
    }

    /** `initialize`: no round yet, a 10% commission and the default rate table. */
    constructor (adminId: AccountId)
      ensures Valid()
      ensures admin == adminId
      ensures !gameActive && !gameStarted && gameStartTime == 0
      ensures potSize == 0 && commissionRate == 10
      ensures teamABets == map[] && teamBBets == map[]
      ensures teamAPoints == 0 && teamBPoints == 0
      ensures winningTeam == None && pointRates == DEFAULT_POINT_RATES
    {
      admin := adminId;
      gameActive := false;
      gameStarted := false;
      gameStartTime := 0;
      potSize := 0;
      commissionRate := 10;
      teamABets := map[];
      teamBBets := map[];
      teamAPoints := 0;
      teamBPoints := 0;
      winningTeam := None;
      pointRates := DEFAULT_POINT_RATES;
    }

    /** `assert_admin`: only the admin passes. */
    function AssertAdmin(caller: AccountId): (r: Outcome)
      reads this
      ensures r == Pass <==> caller == admin
      ensures r != Pass ==> r == Fail(NotAdmin)
    {
      if caller != admin then Fail(NotAdmin) else Pass
    }

    /** `set_pot_size`: the admin sets the pot, in whole NEAR, outside a round. */
    method SetPotSize(caller: AccountId, size: int) returns (r: Outcome)
      requires Valid()
      modifies this
      ensures Valid()
      ensures caller != old(admin) ==> r == Fail(NotAdmin)
      ensures caller == old(admin) && old(gameActive) ==> r == Fail(PotChangeDuringGame)
      ensures r == Pass <==> caller == old(admin) && !old(gameActive)
      ensures r.Fail? ==> unchanged(this)
      ensures r == Pass ==> potSize == size && unchanged(
        `admin, `gameActive, `gameStarted, `gameStartTime, `commissionRate,
        `teamABets, `teamBBets, `teamAPoints, `teamBPoints, `winningTeam, `pointRates)
    {
      r := AssertAdmin(caller);
      if r.Fail? {
        return;
      }
      if gameActive {
        return Fail(PotChangeDuringGame);
      }
      potSize := size;
    }

    /** `set_commission_rate`: the admin sets a percentage in [0, 50], at any time. */
    method SetCommissionRate(caller: AccountId, rate: int) returns (r: Outcome)
      requires Valid()
      modifies this
      ensures Valid()
      ensures caller != old(admin) ==> r == Fail(NotAdmin)
      ensures caller == old(admin) && (rate < 0 || rate > 50) ==> r == Fail(CommissionOutOfRange)
      ensures r == Pass <==> caller == old(admin) && 0 <= rate <= 50
      ensures r.Fail? ==> unchanged(this)
      ensures r == Pass ==> commissionRate == rate && unchanged(
        `admin, `gameActive, `gameStarted, `gameStartTime, `potSize,
        `teamABets, `teamBBets, `teamAPoints, `teamBPoints, `winningTeam, `pointRates)
    {
      r := AssertAdmin(caller);
      if r.Fail? {
        return;
      }
      if rate < 0 || rate > 50 {
        return Fail(CommissionOutOfRange);
      }
      commissionRate := rate;
    }

    /**
     * `start_game`: the admin opens a round once a positive pot is set. The
     * ledger, both points counters and the winner are reset.
     */
    method StartGame(caller: AccountId, now: nat) returns (r: Outcome)
      requires Valid()
      modifies this
      ensures Valid()
      ensures caller != old(admin) ==> r == Fail(NotAdmin)
      ensures caller == old(admin) && old(gameActive) ==> r == Fail(GameAlreadyActive)
      ensures caller == old(admin) && !old(gameActive) && old(potSize) <= 0 ==> r == Fail(PotNotSet)
      ensures r == Pass <==> caller == old(admin) && !old(gameActive) && old(potSize) > 0
      ensures r.Fail? ==> unchanged(this)
      ensures r == Pass ==>
        && gameActive && gameStarted && gameStartTime == now
        && teamABets == map[] && teamBBets == map[]
        && teamAPoints == 0 && teamBPoints == 0 && winningTeam == None
        && unchanged(`admin, `potSize, `commissionRate, `pointRates)
    {
      r := AssertAdmin(caller);
      if r.Fail? {
        return;
      }
      if gameActive {
        return Fail(GameAlreadyActive);
      }
      if potSize <= 0 {
        return Fail(PotNotSet);
      }
      gameActive := true;
      gameStarted := true;
      gameStartTime := now;
      teamABets := map[];
      teamBBets := map[];
      teamAPoints := 0;
      teamBPoints := 0;
      winningTeam := None;
    }

    /**
     * `bet_on_team`: `caller` stakes `deposit` on `team` at time `now`. The
     * points earned are the whole NEAR staked times the rate of the hour since
     * the round opened; they are added to the caller's record on that team and
     * to that team's counter. The other team is untouched.
     */
    method BetOnTeam(caller: AccountId, team: string, deposit: nat, now: nat) returns (r: Result<BetPlaced>)
      requires Valid()
      modifies this
      ensures Valid()
      ensures !old(gameActive) ==> r == Err(NoActiveGame)
      ensures old(gameActive) && ParseTeam(team) == None ==> r == Err(InvalidTeam)
      ensures old(gameActive) && ParseTeam(team) != None && deposit == 0 ==> r == Err(NoDeposit)
      ensures (old(gameActive) && ParseTeam(team) != None && deposit > 0 &&
               PointRate(old(pointRates), now - old(gameStartTime)) == None) ==> r == Err(RateIndexOutOfRange)
      ensures r.Ok? <==> (old(gameActive) && ParseTeam(team) != None && deposit > 0 &&
                          PointRate(old(pointRates), now - old(gameStartTime)) != None)
      ensures r.Err? ==> unchanged(this)
      ensures r.Ok? ==>
        var t := ParseTeam(team).value;
        var rate := PointRate(old(pointRates), now - old(gameStartTime)).value;
        var earned := PointsEarned(deposit, rate);
        && r.value == BetPlaced(caller, t, deposit, earned, rate)
        && Bets(t) == Record(old(Bets(t)), caller, deposit, earned)
        && Points(t) == old(Points(t)) + earned
        && Bets(t.Other()) == old(Bets(t.Other())) && Points(t.Other()) == old(Points(t.Other()))
        && unchanged(`admin, `gameActive, `gameStarted, `gameStartTime, `potSize,
                     `commissionRate, `winningTeam, `pointRates)
    {
      if !gameActive {
        return Err(NoActiveGame);
      }
      var parsed := ParseTeam(team);
      if parsed.None? {
        return Err(InvalidTeam);
      }
      if deposit == 0 {
        return Err(NoDeposit);
      }
      var rate := PointRate(pointRates, now - gameStartTime);
      if rate.None? {
        return Err(RateIndexOutOfRange);
      }
      var earned := PointsEarned(deposit, rate.value);
      if parsed.value == A {
        RecordAddsPoints(teamABets, caller, deposit, earned);
        teamABets := Record(teamABets, caller, deposit, earned);
        teamAPoints := teamAPoints + earned;
      } else {
        RecordAddsPoints(teamBBets, caller, deposit, earned);
        teamBBets := Record(teamBBets, caller, deposit, earned);
        teamBPoints := teamBPoints + earned;
      }
      r := Ok(BetPlaced(caller, parsed.value, deposit, earned, rate.value));
    }

    /**
     * `end_game`: the admin closes the open round. A tie is refused; otherwise
     * the team with strictly more points wins and every bet is settled. The
     * settlement is only logged, so it is returned (as a ghost value) and does
     * not change the ledger.
     */
    method EndGame(caller: AccountId) returns (r: Result<GameEnded>, ghost settlement: Option<Settlement>)
      requires Valid()
      modifies this
      ensures Valid()
      ensures caller != old(admin) ==> r == Err(NotAdmin)
      ensures caller == old(admin) && !old(gameActive) ==> r == Err(NoActiveGame)
      ensures caller == old(admin) && old(gameActive) && old(teamAPoints) == old(teamBPoints) ==>
        r == Err(TieScore)
      ensures r.Ok? <==> caller == old(admin) && old(gameActive) && old(teamAPoints) != old(teamBPoints)
      ensures r.Err? ==> unchanged(this) && settlement == None
      ensures r.Ok? ==>
        var w := r.value.winningTeam;
        && (w == A <==> old(teamAPoints) > old(teamBPoints))
        && old(Points(w)) > old(Points(w.Other()))
        && r.value == GameEnded(w, old(teamAPoints), old(teamBPoints))
        && winningTeam == Some(w) && !gameActive
        && settlement == Some(Distribute(old(Bets(w)), old(Bets(w.Other())),
                                         old(potSize), old(commissionRate), old(admin)))
        && unchanged(`admin, `gameStarted, `gameStartTime, `potSize, `commissionRate,
                     `teamABets, `teamBBets, `teamAPoints, `teamBPoints, `pointRates)
    {
      var check := AssertAdmin(caller);
      if check.Fail? {
        return Err(check.error), None;
      }
      if !gameActive {
        return Err(NoActiveGame), None;
      }
      if teamAPoints == teamBPoints {
        return Err(TieScore), None;
      }
      var w := if teamAPoints > teamBPoints then A else B;
      winningTeam := Some(w);
      gameActive := false;
      r := Ok(GameEnded(w, teamAPoints, teamBPoints));
      settlement := Some(Distribute(Bets(w), Bets(w.Other()), potSize, commissionRate, admin));
    }

    /**
     * In a round `end_game` can close, the winning team has earned points, so
     * the zero-points case of the winners' settlement never arises from it.
     */
    lemma WinnerHasPoints()
      requires Valid() && teamAPoints != teamBPoints
      ensures var w := if teamAPoints > teamBPoints then A else B;
        SumPoints(Bets(w)) > 0 && SumPoints(Bets(w)) > SumPoints(Bets(w.Other()))
    {
    }

    /** `get_game_status`: the counters it reports are the sums over the ledger. */
    function GetGameStatus(): (s: GameStatus)
      reads this
      requires Valid()
      ensures s.teamAPoints == SumPoints(teamABets) && s.teamBPoints == SumPoints(teamBBets)
      ensures s.active ==> s.started && s.potSize > 0 && s.winningTeam == None
      ensures 0 <= s.commissionRate <= 50
    {
      GameStatus(gameActive, gameStarted, gameStartTime, potSize, commissionRate,
                 teamAPoints, teamBPoints, winningTeam)
    }

    /** `get_team_bets`: a team's whole map; an unknown team has none. */
    function GetTeamBets(team: string): (m: map<AccountId, Bet>)
      reads this
      ensures team == "A" ==> m == teamABets
      ensures team == "B" ==> m == teamBBets
      ensures team != "A" && team != "B" ==> m == map[]
    {
      match ParseTeam(team)
      case Some(t) => Bets(t)
      case None => map[]
    }

    /** `get_user_bet`: a user's record on a team, if the team is known and the user bet on it. */
    function GetUserBet(user: AccountId, team: string): (b: Option<Bet>)
      reads this
      ensures b.Some? <==> ParseTeam(team).Some? && user in Bets(ParseTeam(team).value)
      ensures b.Some? ==> b.value == Bets(ParseTeam(team).value)[user]
    {
      var bets := GetTeamBets(team);
      if user in bets then Some(bets[user]) else None
    }

    /**
     * `calculate_current_points`: the points a bet of `amountNear` whole NEAR
     * placed now would earn; 0 outside a round.
     */
    function CalculateCurrentPoints(amountNear: int, now: nat): (p: Option<int>)
      reads this
      ensures !gameActive ==> p == Some(0)
      ensures gameActive && now >= gameStartTime ==> p.Some?
    {
      if !gameActive then Some(0)
      else
        match PointRate(pointRates, now - gameStartTime)
        case Some(rate) => Some(amountNear * rate)
        case None => None
    }

    /**
     * The preview agrees with the bet: during a round, a bet of exactly `n`
     * whole NEAR placed at `now` earns the points the preview shows, and with
     * the default table that is between `n` and `24 * n`.
     */
    lemma PreviewMatchesBet(n: nat, now: nat)
      requires Valid() && gameActive && now >= gameStartTime
      ensures var rate := PointRate(pointRates, now - gameStartTime).value;
        && CalculateCurrentPoints(n, now) == Some(PointsEarned(n * ONE_NEAR, rate))
        && n <= PointsEarned(n * ONE_NEAR, rate) <= 24 * n
    {
      var rate := PointRate(pointRates, now - gameStartTime).value;
      WholeNearPoints(n, rate);
      DefaultRateBounds(now - gameStartTime);
      MulMono(1, rate, n);
      MulMono(rate, 24, n);
    }
  }
}
