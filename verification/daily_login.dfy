/** The daily login reward: at most one grant per calendar day; the streak
    continues when the previous grant was the day before and otherwise
    restarts at 1; the reward is ten points per streak day, capped at 100. */
module DailyLogin {
  import opened Types
  import opened Store

  datatype Grant = Grant(streak: int, reward: int)

  /** The streak and reward a check on `today` grants to `u`. */
  function StreakGrant(u: User, today: int): (g: Grant)
    ensures u.lastLoginDate == Some(today - 1) ==> g.streak == u.loginStreak + 1
    ensures u.lastLoginDate != Some(today - 1) ==> g == Grant(1, 10)
    ensures g.reward <= 100
    ensures g.streak <= 10 ==> g.reward == 10 * g.streak
    ensures g.streak >= 10 ==> g.reward == 100
  {
    var newStreak := if u.lastLoginDate == Some(today - 1) then u.loginStreak + 1 else 1;
    var reward := if u.lastLoginDate == Some(today - 1)
                  then (if newStreak * 10 < 100 then newStreak * 10 else 100)
                  else 10;
    Grant(newStreak, reward)
  }

  /** With a non-negative stored streak the reward lies in [10, 100]. */
  lemma RewardBounds(u: User, today: int)
    requires u.loginStreak >= 0
    ensures 10 <= StreakGrant(u, today).reward <= 100
    ensures StreakGrant(u, today).streak >= 1
  {
  }

  /** Day D after a login on D - 1 with streak 3: streak 4, reward 40. */
  lemma StreakScenario(u: User, d: int)
    requires u.lastLoginDate == Some(d - 1) && u.loginStreak == 3
    ensures StreakGrant(u, d) == Grant(4, 40)
  {
  }

  /** Whether a check on `today` grants anything. */
  predicate Grants(users: seq<User>, user: Option<User>, today: int)
  {
    user.Some? && user.value.lastLoginDate != Some(today) && IndexOf(users, user.value.id) >= 0
  }

  /** The record after a grant on `today`. */
  function LoggedIn(u: User, today: int): (r: User)
    ensures r.lastLoginDate == Some(today)
    ensures r.points == u.points + StreakGrant(u, today).reward
    ensures r.loginStreak == StreakGrant(u, today).streak
    ensures r == u.(lastLoginDate := r.lastLoginDate, loginStreak := r.loginStreak, points := r.points)
  {
    var g := StreakGrant(u, today);
    u.(lastLoginDate := Some(today), loginStreak := g.streak, points := u.points + g.reward)
  }

  /** A second check on the same day grants nothing. */
  lemma SecondCheckSameDay(users: seq<User>, u: User, today: int)
    ensures !Grants(users, Some(LoggedIn(u, today)), today)
  {
  }

  method CheckLoginStreak(ledger: Ledger, user: Option<User>, today: int, now: int)
    requires Current(ledger.users, user)
    modifies ledger`users, ledger`transactions
    ensures !Grants(old(ledger.users), user, today) ==>
              ledger.users == old(ledger.users) && ledger.transactions == old(ledger.transactions)
    ensures Grants(old(ledger.users), user, today) ==>
              var i := IndexOf(old(ledger.users), user.value.id);
              ledger.users == old(ledger.users)[i := LoggedIn(old(ledger.users)[i], today)] &&
              ledger.transactions ==
                [Tx(user.value.id, user.value.username, DAILY_LOGIN, StreakGrant(user.value, today).reward, now)]
                + old(ledger.transactions)
    ensures PointsNonNegative(old(ledger.users)) && (user.Some? ==> user.value.loginStreak >= 0) ==>
              PointsNonNegative(ledger.users)
  {
    if user.None? {
      return;
    }
    var u := user.value;
    var lastLogin := u.lastLoginDate;
    if lastLogin == Some(today) {
      return;
    }
    var userIndex := IndexOf(ledger.users, u.id);
    if userIndex == -1 {
      return;
    }
    var yesterday := today - 1;
    var newStreak := 1;
    var reward := 10;
    if lastLogin == Some(yesterday) {
      newStreak := u.loginStreak + 1;
      reward := if newStreak * 10 < 100 then newStreak * 10 else 100;
    }
    var rec := ledger.users[userIndex];
    rec := rec.(lastLoginDate := Some(today));
    rec := rec.(loginStreak := newStreak);
    rec := rec.(points := rec.points + reward);
    ledger.users := ledger.users[userIndex := rec];
    if u.loginStreak >= 0 {
      RewardBounds(u, today);
    }
    ledger.AddTransaction(u.id, u.username, DAILY_LOGIN, reward, now);
  }
}
