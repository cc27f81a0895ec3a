/** The Kingdom Miner: each click spends 10 energy (refused below 10) and
    credits the mining rate plus 1 XP; energy regenerates by 5 up to 100;
    every tenth click is logged as a claim of ten times the rate. */
module KingdomMiner {
  import opened Types
  import opened Progression
  import opened Store
  import opened Shop

  const MAX_ENERGY: int := 100
  const CLICK_COST: int := 10
  const REGEN: int := 5

  /** Points per click: the configured rate, plus 1 for an Iron Pickaxe and
      5 for a Diamond Drill, however many of each are held. */
  function MiningRate(minerRate: int, inventory: seq<InventoryItem>): (r: int)
    ensures minerRate <= r <= minerRate + 6
    ensures r == minerRate <==> !Owns(inventory, "miner_mk2") && !Owns(inventory, "miner_mk3")
    ensures Owns(inventory, "miner_mk3") <==> r >= minerRate + 5
    ensures Owns(inventory, "miner_mk2") && !Owns(inventory, "miner_mk3") ==> r == minerRate + 1
    ensures !Owns(inventory, "miner_mk2") && Owns(inventory, "miner_mk3") ==> r == minerRate + 5
    ensures Owns(inventory, "miner_mk2") && Owns(inventory, "miner_mk3") ==> r == minerRate + 6
  {
    var withPickaxe := if Owns(inventory, "miner_mk2") then minerRate + 1 else minerRate;
    if Owns(inventory, "miner_mk3") then withPickaxe + 5 else withPickaxe
  }

  /** The rate depends only on which items are held, not on how many. */
  lemma {:induction false} OwnsIgnoresQuantity(inventory: seq<InventoryItem>, k: int, q: int, id: string)
    requires 0 <= k < |inventory|
    ensures Owns(inventory[k := inventory[k].(quantity := q)], id) <==> Owns(inventory, id)
  {
    var other := inventory[k := inventory[k].(quantity := q)];
    assert forall j :: 0 <= j < |other| ==> other[j].itemId == inventory[j].itemId;
    if Owns(inventory, id) {
      assert other[ItemIndex(inventory, id)].itemId == id;
    }
    if Owns(other, id) {
      assert inventory[ItemIndex(other, id)].itemId == id;
    }
  }

  lemma RateIgnoresQuantity(minerRate: int, inventory: seq<InventoryItem>, k: int, q: int)
    requires 0 <= k < |inventory|
    ensures MiningRate(minerRate, inventory[k := inventory[k].(quantity := q)]) == MiningRate(minerRate, inventory)
  {
    OwnsIgnoresQuantity(inventory, k, q, "miner_mk2");
    OwnsIgnoresQuantity(inventory, k, q, "miner_mk3");
  }

  /** Buying an upgrade raises the rate by its bonus the first time only;
      other purchases leave the rate alone. */
  lemma UpgradeRaisesRate(minerRate: int, inventory: seq<InventoryItem>, item: ShopItem, now: int)
    ensures var after := MiningRate(minerRate, AddToInventory(inventory, item, now));
      after == MiningRate(minerRate, inventory) +
               (if item.id == "miner_mk2" && !Owns(inventory, "miner_mk2") then 1 else 0) +
               (if item.id == "miner_mk3" && !Owns(inventory, "miner_mk3") then 5 else 0)
  {
    AddKeepsOwnership(inventory, item, now, "miner_mk2");
    AddKeepsOwnership(inventory, item, now, "miner_mk3");
  }

  /** The record after a click, before its XP. */
  function Mined(u: User, rate: int): (r: User)
    ensures r.points == u.points + rate
    ensures r == u.(points := r.points)
  {
    u.(points := u.points + rate)
  }

  /** The claim a click logs: one MINER_CLAIM of ten times the rate when the
      click count before it is a multiple of ten, otherwise nothing. */
  function ClaimLog(u: User, clicks: int, rate: int, now: int): (log: seq<Transaction>)
    ensures |log| <= 1
    ensures |log| == 1 <==> clicks % 10 == 0
    ensures |log| == 1 ==> log[0].kind == MINER_CLAIM && log[0].amount == rate * 10 && log[0].userId == u.id
  {
    if clicks % 10 == 0 then [Tx(u.id, u.username, MINER_CLAIM, rate * 10, now)] else []
  }

  /** Of any ten consecutive clicks, exactly one logs a claim: `Mine` counts
      one click per successful call and logs `ClaimLog` of the count before
      it, so ten successful calls see the counts `c` to `c + 9`. */
  lemma OneClaimPerTenClicks(u: User, c: int, rate: int, now: int)
    ensures exists j :: c <= j < c + 10 && |ClaimLog(u, j, rate, now)| == 1
    ensures forall j, k :: c <= j < k < c + 10 && |ClaimLog(u, j, rate, now)| == 1 ==>
              ClaimLog(u, k, rate, now) == []
  {
    var j := c + (10 - c % 10) % 10;
    assert j % 10 == 0;
    assert |ClaimLog(u, j, rate, now)| == 1;
  }

  /** The ledger side of a click: credit the rate and 1 XP to the account
      and log the claim on every tenth click. */
  method Credit(ledger: Ledger, u: User, rate: int, clicksBefore: int, now: int)
    modifies ledger`users, ledger`transactions
    ensures IndexOf(old(ledger.users), u.id) == -1 ==>
              ledger.users == old(ledger.users) && ledger.transactions == old(ledger.transactions)
    ensures IndexOf(old(ledger.users), u.id) >= 0 ==>
              var i := IndexOf(old(ledger.users), u.id);
              var mined := Mined(old(ledger.users)[i], rate);
              var m := old(ledger.Settings()).xpMultiplier;
              ledger.users == old(ledger.users)[i := Rewarded(mined, 1, m)] &&
              ledger.transactions == ClaimLog(u, clicksBefore, rate, now) + BonusLog(mined, 1, m, now)
                                     + old(ledger.transactions)
  {
    var userIndex := IndexOf(ledger.users, u.id);
    if userIndex != -1 {
      var rec := ledger.users[userIndex];
      ledger.users := ledger.users[userIndex := Mined(rec, rate)];
      ledger.GrantXp(userIndex, 1, now);
      if clicksBefore % 10 == 0 {
        ledger.AddTransaction(u.id, u.username, MINER_CLAIM, rate * 10, now);
      }
    }
  }

  /** The miner panel: its energy gauge and click counter. */
  class Miner {
    var energy: int
    var clicks: int

    predicate Valid()
      reads this
    {
      0 <= energy <= MAX_ENERGY && clicks >= 0
    }

    constructor ()
      ensures Valid() && energy == MAX_ENERGY && clicks == 0
    {
      energy := MAX_ENERGY;
      clicks := 0;
    }

    /** One regeneration tick. */
    method Regenerate()
      requires Valid()
      modifies this`energy
      ensures Valid()
      ensures energy == if old(energy) + REGEN < MAX_ENERGY then old(energy) + REGEN else MAX_ENERGY
      ensures energy >= old(energy)
    {
      energy := if energy + REGEN < MAX_ENERGY then energy + REGEN else MAX_ENERGY;
    }

    /** One click on the rock. */
    method Mine(ledger: Ledger, user: Option<User>, now: int)
      requires Valid() && Current(ledger.users, user)
      modifies this, ledger`users, ledger`transactions
      ensures Valid()
      ensures user.None? || old(energy) < CLICK_COST ==>
                energy == old(energy) && clicks == old(clicks) &&
                ledger.users == old(ledger.users) && ledger.transactions == old(ledger.transactions)
      ensures user.Some? && old(energy) >= CLICK_COST ==>
                energy == old(energy) - CLICK_COST && clicks == old(clicks) + 1
      ensures user.Some? && old(energy) >= CLICK_COST && IndexOf(old(ledger.users), user.value.id) == -1 ==>
                ledger.users == old(ledger.users) && ledger.transactions == old(ledger.transactions)
      ensures user.Some? && old(energy) >= CLICK_COST && IndexOf(old(ledger.users), user.value.id) >= 0 ==>
                var i := IndexOf(old(ledger.users), user.value.id);
                var rate := MiningRate(old(ledger.Settings()).minerRate, user.value.inventory);
                var mined := Mined(old(ledger.users)[i], rate);
                var m := old(ledger.Settings()).xpMultiplier;
                ledger.users == old(ledger.users)[i := Rewarded(mined, 1, m)] &&
                ledger.transactions == ClaimLog(user.value, old(clicks), rate, now) + BonusLog(mined, 1, m, now)
                                       + old(ledger.transactions)
    {
      if user.None? {
        return;
      }
      var u := user.value;
      if energy < CLICK_COST {
        return;
      }
      var clicksBefore := clicks;
      energy := energy - CLICK_COST;
      clicks := clicks + 1;
      var miningRate := ledger.Settings().minerRate;
      if Owns(u.inventory, "miner_mk2") {
        miningRate := miningRate + 1;
      }
      if Owns(u.inventory, "miner_mk3") {
        miningRate := miningRate + 5;
      }
      assert miningRate == MiningRate(ledger.Settings().minerRate, u.inventory);
      Credit(ledger, u, miningRate, clicksBefore, now);
    }
  }
}
