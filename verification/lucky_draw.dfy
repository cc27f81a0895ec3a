/** The lucky draw: one draw per 12 hours from a fixed table of five
    rewards; every draw is recorded as a `lucky_draw` engagement, a points
    reward is credited and logged as a game win, and an entry reward only
    shows its label. XP is never granted here. */
module LuckyDraw {
  import opened Types
  import opened Store

  datatype RewardKind = PointsReward | EntryReward

  datatype Reward = Reward(kind: RewardKind, value: int, name: string)

  const REWARDS: seq<Reward> := [
    Reward(PointsReward, 10, "10 Points"),
    Reward(PointsReward, 25, "25 Points"),
    Reward(PointsReward, 50, "50 Points"),
    Reward(EntryReward, 1, "Extra Giveaway Entry"),
    Reward(PointsReward, 5, "5 Points")
  ]

  const COOLDOWN_MS: int := 12 * HOUR_MS

  /** Five rewards; every points reward is positive and at most 50. */
  lemma RewardTable()
    ensures |REWARDS| == 5
    ensures forall k :: 0 <= k < |REWARDS| && REWARDS[k].kind == PointsReward ==> 0 < REWARDS[k].value <= 50
    ensures forall k :: 0 <= k < |REWARDS| ==> (REWARDS[k].kind == EntryReward <==> k == 3)
  {
  }

  /** Whether the draw starts: someone is signed in, the gate is open and
      no draw is in progress. */
  predicate Draws(user: Option<User>, drawing: bool, lastDraw: map<int, int>, now: int)
  {
    user.Some? && Ready(lastDraw, user.value.id, now, COOLDOWN_MS) && !drawing
  }

  /** `pick` is the table index the random draw produced. */
  method HandleDraw(ledger: Ledger, user: Option<User>, drawing: bool, pick: int, now: int)
    requires 0 <= pick < |REWARDS|
    modifies ledger`users, ledger`transactions, ledger`interactions, ledger`lastDraw
    ensures !Draws(user, drawing, old(ledger.lastDraw), now) ==>
              ledger.users == old(ledger.users) && ledger.transactions == old(ledger.transactions) &&
              ledger.interactions == old(ledger.interactions) && ledger.lastDraw == old(ledger.lastDraw)
    ensures Draws(user, drawing, old(ledger.lastDraw), now) ==>
              ledger.lastDraw == old(ledger.lastDraw)[user.value.id := now] &&
              ledger.interactions ==
                old(ledger.interactions) + [Interaction(user.value.id, user.value.username, "lucky_draw", Some(REWARDS[pick].name), now)]
    ensures Draws(user, drawing, old(ledger.lastDraw), now) && REWARDS[pick].kind == PointsReward &&
            IndexOf(old(ledger.users), user.value.id) >= 0 ==>
              var i := IndexOf(old(ledger.users), user.value.id);
              ledger.users == old(ledger.users)[i := old(ledger.users)[i].(points := old(ledger.users)[i].points + REWARDS[pick].value)] &&
              ledger.transactions == [Tx(user.value.id, user.value.username, GAME_WIN, REWARDS[pick].value, now)] + old(ledger.transactions)
    ensures REWARDS[pick].kind == EntryReward || (user.Some? && IndexOf(old(ledger.users), user.value.id) == -1) ==>
              ledger.users == old(ledger.users) && ledger.transactions == old(ledger.transactions)
    ensures |ledger.users| == |old(ledger.users)|
    ensures forall k :: 0 <= k < |ledger.users| ==>
              ledger.users[k].xp == old(ledger.users)[k].xp && ledger.users[k].level == old(ledger.users)[k].level &&
              ledger.users[k].points >= old(ledger.users)[k].points
  {
    if user.None? || !Ready(ledger.lastDraw, user.value.id, now, COOLDOWN_MS) || drawing {
      return;
    }
    var u := user.value;
    var reward := REWARDS[pick];
    ledger.lastDraw := ledger.lastDraw[u.id := now];
    ledger.interactions := ledger.interactions + [Interaction(u.id, u.username, "lucky_draw", Some(reward.name), now)];
    if reward.kind == PointsReward {
      var userIndex := IndexOf(ledger.users, u.id);
      if userIndex != -1 {
        var rec := ledger.users[userIndex];
        ledger.users := ledger.users[userIndex := rec.(points := rec.points + reward.value)];
        ledger.AddTransaction(u.id, u.username, GAME_WIN, reward.value, now);
      }
    }
  }
}
