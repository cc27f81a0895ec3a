/** The coin flip: a bet is allowed once per six hours when the balance
    covers it; a correct call pays twice the bet, a wrong one loses the bet;
    every flip grants XP (15 on a win, 5 on a loss) and logs the game. */
module CoinFlip {
  import opened Types
  import opened Progression
  import opened Store

  datatype Side = Heads | Tails

  const COOLDOWN_MS: int := 6 * HOUR_MS

  /** The stake settlement: a win adds twice the bet to the balance and to
      the winnings counter, a loss removes the bet. */
  function Staked(u: User, bet: int, won: bool): (r: User)
    ensures r.points == u.points + (if won then 2 * bet else -bet)
    ensures r.totalWinnings == u.totalWinnings + (if won then 2 * bet else 0)
    ensures r == u.(points := r.points, totalWinnings := r.totalWinnings)
  {
    if won then u.(points := u.points + bet * 2, totalWinnings := u.totalWinnings + bet * 2)
    else u.(points := u.points - bet)
  }

  /** XP for a flip: 5, plus 10 for a win. */
  function FlipXp(won: bool): (xp: int)
    ensures xp >= 5
    ensures xp == 15 <==> won
  {
    5 + (if won then 10 else 0)
  }

  /** The game entry: GAME_WIN of twice the bet, or GAME_LOSS of the bet
      itself (a positive amount). */
  function GameTx(u: User, bet: int, won: bool, now: int): (t: Transaction)
    ensures t.kind == (if won then GAME_WIN else GAME_LOSS)
    ensures t.amount == (if won then 2 * bet else bet)
    ensures t.userId == u.id && t.timestamp == now
  {
    Tx(u.id, u.username, if won then GAME_WIN else GAME_LOSS, if won then bet * 2 else bet, now)
  }

  /** Whether the flip starts: someone is signed in, the gate is open, no
      flip is in progress and the balance covers the bet. */
  predicate Plays(user: Option<User>, flipping: bool, lastPlay: map<int, int>, bet: int, now: int)
  {
    user.Some? && Ready(lastPlay, user.value.id, now, COOLDOWN_MS) && !flipping && user.value.points >= bet
  }

  /** A balance that covers the bet stays non-negative whatever the outcome. */
  lemma SettlementKeepsBalance(u: User, bet: nat, won: bool, multiplier: real)
    requires u.points >= bet
    ensures Rewarded(Staked(u, bet, won), FlipXp(won), multiplier).points >= 0
  {
    RewardedKeepsPoints(Staked(u, bet, won), FlipXp(won), multiplier);
  }

  /** 100 points, bet 10, a win: 120 points and 15 XP. */
  lemma WinScenario(u: User)
    requires u.points == 100 && u.xp == 0 && u.level == 1
    ensures Rewarded(Staked(u, 10, true), FlipXp(true), 1.0).points == 120
    ensures Rewarded(Staked(u, 10, true), FlipXp(true), 1.0).xp == 15
  {
    assert XpGained(15, 1.0) == 15;
    LevelOneIff(15);
  }

  /** The ledger side of a settled flip: the stake is settled on the
      stored account, XP is granted with its bonus, and the game entry is
      logged after the bonus entry. A missing account changes nothing. */
  method Settle(ledger: Ledger, u: User, bet: nat, won: bool, now: int)
    requires Current(ledger.users, Some(u))
    requires u.points >= bet
    modifies ledger`users, ledger`transactions
    ensures IndexOf(old(ledger.users), u.id) == -1 ==>
              ledger.users == old(ledger.users) && ledger.transactions == old(ledger.transactions)
    ensures IndexOf(old(ledger.users), u.id) >= 0 ==>
              var i := IndexOf(old(ledger.users), u.id);
              var staked := Staked(old(ledger.users)[i], bet, won);
              var m := old(ledger.Settings()).xpMultiplier;
              ledger.users == old(ledger.users)[i := Rewarded(staked, FlipXp(won), m)] &&
              ledger.transactions == [GameTx(u, bet, won, now)] + BonusLog(staked, FlipXp(won), m, now)
                                     + old(ledger.transactions)
    ensures PointsNonNegative(old(ledger.users)) ==> PointsNonNegative(ledger.users)
  {
    var userIndex := IndexOf(ledger.users, u.id);
    if userIndex != -1 {
      var rec := Staked(ledger.users[userIndex], bet, won);
      ledger.users := ledger.users[userIndex := rec];
      var xpGain := 5 + (if won then 10 else 0);
      ledger.GrantXp(userIndex, xpGain, now);
      SettlementKeepsBalance(u, bet, won, old(ledger.Settings()).xpMultiplier);
      assert ledger.users == old(ledger.users)[userIndex := Rewarded(rec, FlipXp(won), old(ledger.Settings()).xpMultiplier)];
      ghost var entry := GameTx(u, bet, won, now);
      ledger.AddTransaction(u.id, u.username, if won then GAME_WIN else GAME_LOSS, if won then bet * 2 else bet, now);
      assert ledger.transactions[0] == entry;
    }
  }

  method HandleFlip(ledger: Ledger, user: Option<User>, flipping: bool, bet: nat,
                    choice: Side, outcome: Side, now: int)
    requires Current(ledger.users, user)
    modifies ledger`users, ledger`transactions, ledger`lastCoinFlip
    ensures !Plays(user, flipping, old(ledger.lastCoinFlip), bet, now) ==>
              ledger.users == old(ledger.users) && ledger.transactions == old(ledger.transactions) &&
              ledger.lastCoinFlip == old(ledger.lastCoinFlip)
    ensures Plays(user, flipping, old(ledger.lastCoinFlip), bet, now) ==>
              ledger.lastCoinFlip == old(ledger.lastCoinFlip)[user.value.id := now]
    ensures Plays(user, flipping, old(ledger.lastCoinFlip), bet, now) &&
            IndexOf(old(ledger.users), user.value.id) == -1 ==>
              ledger.users == old(ledger.users) && ledger.transactions == old(ledger.transactions)
    ensures Plays(user, flipping, old(ledger.lastCoinFlip), bet, now) &&
            IndexOf(old(ledger.users), user.value.id) >= 0 ==>
              var i := IndexOf(old(ledger.users), user.value.id);
              var won := choice == outcome;
              var staked := Staked(old(ledger.users)[i], bet, won);
              var m := old(ledger.Settings()).xpMultiplier;
              ledger.users == old(ledger.users)[i := Rewarded(staked, FlipXp(won), m)] &&
              ledger.transactions == [GameTx(user.value, bet, won, now)] + BonusLog(staked, FlipXp(won), m, now)
                                     + old(ledger.transactions)
    ensures PointsNonNegative(old(ledger.users)) ==> PointsNonNegative(ledger.users)
  {
    if user.None? || !Ready(ledger.lastCoinFlip, user.value.id, now, COOLDOWN_MS) || flipping {
      return;
    }
    var u := user.value;
    if u.points < bet {
      return;
    }
    var won := choice == outcome;
    ledger.lastCoinFlip := ledger.lastCoinFlip[u.id := now];
    Settle(ledger, u, bet, won, now);
  }
}
