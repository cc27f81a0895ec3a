/** The daily spin wheel: eight equal slices, one spin per 24 hours; a
    positive prize is credited with the spin and winnings counters, 15 XP
    and a `spin_win` engagement record, and logged as a game win. */
module SpinWheel {
  import opened Types
  import opened Progression
  import opened Store

  datatype Prize = Prize(name: string, value: int)

  const PRIZES: seq<Prize> := [
    Prize("10 Points", 10), Prize("25 Points", 25), Prize("50 Points", 50),
    Prize("15 Points", 15), Prize("100 Points", 100), Prize("Try Again", 0),
    Prize("5 Points", 5), Prize("Jackpot!", 500)
  ]

  const COOLDOWN_MS: int := 24 * HOUR_MS

  /** Eight slices of 45 degrees; exactly one of them pays nothing. */
  lemma PrizeTable()
    ensures |PRIZES| == 8 && 360 / |PRIZES| == 45
    ensures forall k :: 0 <= k < |PRIZES| ==> PRIZES[k].value >= 0
    ensures forall k :: 0 <= k < |PRIZES| ==> (PRIZES[k].value == 0 <==> k == 5)
    ensures PRIZES[7].value == 500
  {
  }

  /** The slice under the pointer once the wheel rests at `rotation`
      degrees: the angle is folded into [0, 360), measured back from the
      pointer and divided into 45-degree slices. */
  function SliceIndex(rotation: nat): (k: int)
    ensures 0 <= k < |PRIZES|
    ensures 45 * k <= (360 - rotation % 360) % 360 < 45 * (k + 1)
  {
    ((360 - rotation % 360) % 360) / 45
  }

  /** Whole turns do not move the pointer. */
  lemma SliceIgnoresWholeTurns(rotation: nat, turns: nat)
    ensures SliceIndex(rotation + 360 * turns) == SliceIndex(rotation)
  {
    assert (rotation + 360 * turns) % 360 == rotation % 360;
  }

  /** Every slice, the jackpot included, is under the pointer for some rest angle. */
  lemma EverySliceReachable(k: int)
    requires 0 <= k < |PRIZES|
    ensures SliceIndex(359 - 45 * k) == k
  {
  }

  /** The time left on the gate, split into hours and minutes, or none when
      the wheel may be spun. */
  datatype Wait = Wait(hours: int, minutes: int)

  function TimeLeft(lastSpin: map<int, int>, id: int, now: int): (w: Option<Wait>)
    ensures w.None? <==> Ready(lastSpin, id, now, COOLDOWN_MS)
    ensures w.Some? ==>
              var diff := lastSpin[id] + COOLDOWN_MS - now;
              0 <= w.value.hours && 0 <= w.value.minutes < 60 &&
              (lastSpin[id] <= now ==> w.value.hours <= 24) &&
              w.value.hours * HOUR_MS + w.value.minutes * MINUTE_MS <= diff <
              w.value.hours * HOUR_MS + (w.value.minutes + 1) * MINUTE_MS
  {
    if id in lastSpin && now < lastSpin[id] + COOLDOWN_MS then
      var diff := lastSpin[id] + COOLDOWN_MS - now;
      var hours := diff / HOUR_MS;
      var minutes := (diff % HOUR_MS) / MINUTE_MS;
      assert diff == hours * HOUR_MS + diff % HOUR_MS;
      assert diff % HOUR_MS == minutes * MINUTE_MS + (diff % HOUR_MS) % MINUTE_MS;
      assert hours >= 25 ==> hours * HOUR_MS >= 25 * HOUR_MS;
      Some(Wait(hours, minutes))
    else None
  }

  /** The record after a winning spin, before its XP. */
  function Won(u: User, value: int): (r: User)
    ensures r.points == u.points + value
    ensures r.totalSpins == u.totalSpins + 1
    ensures r.totalWinnings == u.totalWinnings + value
    ensures r == u.(points := r.points, totalSpins := r.totalSpins, totalWinnings := r.totalWinnings)
  {
    u.(points := u.points + value, totalSpins := u.totalSpins + 1, totalWinnings := u.totalWinnings + value)
  }

  /** XP for a spin: 10, plus 5 for a positive prize. */
  function SpinXp(value: int): (xp: int)
    ensures xp >= 10
    ensures xp == 15 <==> value > 0
  {
    10 + (if value > 0 then 5 else 0)
  }

  /** Whether the spin starts: someone is signed in, the gate is open and no
      spin is in progress. */
  predicate Spins(user: Option<User>, spinning: bool, lastSpin: map<int, int>, now: int)
  {
    user.Some? && Ready(lastSpin, user.value.id, now, COOLDOWN_MS) && !spinning
  }

  /** Whether the spin pays out: it starts, lands on a positive prize, and
      the account is in the list. */
  predicate Pays(users: seq<User>, user: Option<User>, spinning: bool, lastSpin: map<int, int>,
                 rotation: nat, now: int)
  {
    Spins(user, spinning, lastSpin, now) && PRIZES[SliceIndex(rotation)].value > 0 &&
    IndexOf(users, user.value.id) >= 0
  }

  method HandleSpin(ledger: Ledger, user: Option<User>, spinning: bool, rotation: nat, now: int)
    requires Current(ledger.users, user)
    modifies ledger`users, ledger`transactions, ledger`interactions, ledger`lastSpin
    ensures ledger.lastSpin == if Spins(user, spinning, old(ledger.lastSpin), now)
                               then old(ledger.lastSpin)[user.value.id := now] else old(ledger.lastSpin)
    ensures !Pays(old(ledger.users), user, spinning, old(ledger.lastSpin), rotation, now) ==>
              ledger.users == old(ledger.users) && ledger.transactions == old(ledger.transactions) &&
              ledger.interactions == old(ledger.interactions)
    ensures Pays(old(ledger.users), user, spinning, old(ledger.lastSpin), rotation, now) ==>
              var i := IndexOf(old(ledger.users), user.value.id);
              var prize := PRIZES[SliceIndex(rotation)];
              var won := Won(old(ledger.users)[i], prize.value);
              var m := old(ledger.Settings()).xpMultiplier;
              ledger.users == old(ledger.users)[i := Rewarded(won, SpinXp(prize.value), m)] &&
              ledger.interactions ==
                old(ledger.interactions) + [Interaction(user.value.id, user.value.username, "spin_win", Some(prize.name), now)] &&
              ledger.transactions ==
                [Tx(user.value.id, user.value.username, GAME_WIN, prize.value, now)] +
                BonusLog(won, SpinXp(prize.value), m, now) + old(ledger.transactions)
    ensures PointsNonNegative(old(ledger.users)) ==> PointsNonNegative(ledger.users)
  {
    if user.None? {
      return;
    }
    var u := user.value;
    if !Ready(ledger.lastSpin, u.id, now, COOLDOWN_MS) || spinning {
      return;
    }
    var prizeIndex := SliceIndex(rotation);
    var prize := PRIZES[prizeIndex];
    ledger.lastSpin := ledger.lastSpin[u.id := now];
    if prize.value > 0 {
      var userIndex := IndexOf(ledger.users, u.id);
      if userIndex != -1 {
        var rec := ledger.users[userIndex];
        rec := rec.(points := rec.points + prize.value);
        rec := rec.(totalSpins := rec.totalSpins + 1);
        rec := rec.(totalWinnings := rec.totalWinnings + prize.value);
        assert rec == Won(u, prize.value);
        ledger.users := ledger.users[userIndex := rec];
        var xpGain := 10 + (if prize.value > 0 then 5 else 0);
        ledger.GrantXp(userIndex, xpGain, now);
        RewardedKeepsPoints(rec, xpGain, old(ledger.Settings()).xpMultiplier);
        ledger.interactions := ledger.interactions + [Interaction(u.id, u.username, "spin_win", Some(prize.name), now)];
        ledger.AddTransaction(u.id, u.username, GAME_WIN, prize.value, now);
      }
    }
  }
}
