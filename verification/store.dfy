/** The in-memory store: the account list, the audit log (most recent
    first), giveaways and their entries, the engagement log, the persisted
    configuration and the per-account cooldown timestamps, together with the
    shared helpers every handler uses: looking an account up, recording a
    transaction, granting XP, and the first-run seeding. */
module Store {
  import opened Types
  import opened Progression
  import opened Config

  /** The catalogue of the Royal Shop. */
  const SHOP_ITEMS: seq<ShopItem> := [
    ShopItem("miner_mk2", "Iron Pickaxe", 500, MinerUpgrade, 1, None),
    ShopItem("miner_mk3", "Diamond Drill", 2500, MinerUpgrade, 5, None),
    ShopItem("xp_boost_2x", "2x Point Potion", 1000, Boost, 2, Some(1)),
    ShopItem("crown_badge", "Golden Crown", 10000, Cosmetic, 0, None)
  ]

  /** Catalogue facts the shop relies on: ids are distinct, prices are
      positive, and only the boost has a duration. */
  lemma CatalogFacts()
    ensures forall i, j :: 0 <= i < j < |SHOP_ITEMS| ==> SHOP_ITEMS[i].id != SHOP_ITEMS[j].id
    ensures forall i :: 0 <= i < |SHOP_ITEMS| ==> SHOP_ITEMS[i].price > 0
    ensures forall i :: 0 <= i < |SHOP_ITEMS| ==> (SHOP_ITEMS[i].duration.Some? <==> SHOP_ITEMS[i].kind == Boost)
  {
  }

  /** Position of the first account with `id`, or -1 when there is none. */
  function IndexOf(users: seq<User>, id: int): (i: int)
    ensures -1 <= i < |users|
    ensures i == -1 <==> forall k :: 0 <= k < |users| ==> users[k].id != id
    ensures i >= 0 ==> users[i].id == id && forall k :: 0 <= k < i ==> users[k].id != id
  {
    if |users| == 0 then -1
    else if users[0].id == id then 0
    else
      var j := IndexOf(users[1..], id);
      if j == -1 then -1 else j + 1
  }

  /** The signed-in account (a component's `user` snapshot) is the record
      the list holds for its id, when the list holds one. */
  predicate Current(users: seq<User>, user: Option<User>)
  {
    user.Some? ==>
      var i := IndexOf(users, user.value.id);
      i >= 0 ==> users[i] == user.value
  }

  predicate HasUserNamed(users: seq<User>, name: string)
  {
    exists i :: 0 <= i < |users| && users[i].username == name
  }

  predicate PointsNonNegative(users: seq<User>)
  {
    forall i :: 0 <= i < |users| ==> users[i].points >= 0
  }

  /** The cooldown gate of the timed games: no play was recorded for `id`
      in the `period` milliseconds before `now`. */
  predicate Ready(lastPlay: map<int, int>, id: int, now: int, period: int)
    ensures id !in lastPlay ==> Ready(lastPlay, id, now, period)
    ensures id in lastPlay ==> (Ready(lastPlay, id, now, period) <==> lastPlay[id] + period <= now)
  {
    !(id in lastPlay && now < lastPlay[id] + period)
  }

  /** Recording a play at `now` closes the gate for exactly `period`. */
  lemma RecordedPlayCloses(lastPlay: map<int, int>, id: int, now: int, later: int, period: int)
    requires now <= later
    ensures Ready(lastPlay[id := now], id, later, period) <==> later >= now + period
    ensures forall other :: other != id ==>
              (Ready(lastPlay[id := now], other, later, period) <==> Ready(lastPlay, other, later, period))
  {
  }

  /** A transaction as recorded at time `now`. */
  function Tx(userId: int, username: string, kind: TxKind, amount: int, now: int): Transaction
  {
    Transaction(now, userId, username, kind, amount, now, COMPLETED)
  }

  /** The level-up bonus entry an XP grant to `u` logs: none, or one
      MANUAL_ADJUSTMENT of the bonus for the level reached. */
  function BonusLog(u: User, amount: int, multiplier: real, now: int): (log: seq<Transaction>)
    ensures |log| <= 1
    ensures |log| == 1 <==> AddXp(u, amount, multiplier).leveledUp
    ensures |log| == 1 ==> log[0].kind == MANUAL_ADJUSTMENT && log[0].userId == u.id &&
                           log[0].amount + u.points == Rewarded(u, amount, multiplier).points
  {
    var g := AddXp(u, amount, multiplier);
    if g.leveledUp then [Tx(u.id, u.username, MANUAL_ADJUSTMENT, LevelUpBonus(g.user.level), now)] else []
  }

  /** The administrative account seeded on first run. */
  function AdminUser(now: int): (r: User)
    ensures r.username == ADMIN_NAME && r.id == 1 && r.points == 999999
    ensures Consistent(r) && r.level == 1 && r.xp == 0
    ensures !r.blocked && r.inventory == [] && r.wallet.None? && r.lastLoginDate.None?
    ensures r.joinedAt == now
  {
    User(1, ADMIN_NAME, Some("admin@kingskingdom.com"), Some("password123"), None, 999999,
         "KING", None, 0, 0, now, false, None, 0, [], 1, 0)
  }

  /** The two giveaways seeded into an empty list. */
  function DemoGiveaways(now: int): (r: seq<Giveaway>)
    ensures |r| == 2 && r[0].id != r[1].id
    ensures forall i :: 0 <= i < |r| ==> r[i].active && r[i].maxEntries == 5 && r[i].id > now
    ensures r[0].entryCost == 50 && r[1].entryCost == 25
  {
    [ Giveaway(now + 1, "Genesis King Giveaway", "5 SOL + Exclusive NFT", "2025-01-31", true,
               "https://twitter.com/KingsKingdom/status/123456789", 5, 50,
               Some("Follow @AlgoKingX, RT & Like the pinned tweet to enter!")),
      Giveaway(now + 2, "Diamond Hands Challenge", "2 SOL + Whitelist Spot", "2025-01-25", true,
               "https://twitter.com/KingsKingdom/status/987654321", 5, 25,
               Some("Exclusive whitelist spot for the upcoming mint. Must be Level 5+ to enter.")) ]
  }

  /** Account seeding: append the administrator only when no account has its name. */
  function SeedUsers(users: seq<User>, now: int): (r: seq<User>)
    ensures HasUserNamed(r, ADMIN_NAME)
    ensures HasUserNamed(users, ADMIN_NAME) ==> r == users
    ensures !HasUserNamed(users, ADMIN_NAME) ==> r == users + [AdminUser(now)]
  {
    if HasUserNamed(users, ADMIN_NAME) then users
    else
      var r := users + [AdminUser(now)];
      assert r[|users|].username == ADMIN_NAME;
      r
  }

  /** Giveaway seeding: only an empty list is filled. */
  function SeedGiveaways(giveaways: seq<Giveaway>, now: int): (r: seq<Giveaway>)
    ensures |r| > 0
    ensures |giveaways| > 0 ==> r == giveaways
  {
    if |giveaways| == 0 then DemoGiveaways(now) else giveaways
  }

  /** Seeding twice, at any two times, is the same as seeding once. */
  lemma SeedingIdempotent(users: seq<User>, giveaways: seq<Giveaway>, now1: int, now2: int)
    ensures SeedUsers(SeedUsers(users, now1), now2) == SeedUsers(users, now1)
    ensures SeedGiveaways(SeedGiveaways(giveaways, now1), now2) == SeedGiveaways(giveaways, now1)
  {
  }

  /** The administrator is seeded only once: seeding never adds a second
      account with that name, and an existing administrator is kept as is. */
  lemma SeedingKeepsOneAdmin(users: seq<User>, now: int)
    requires forall i, j :: 0 <= i < j < |users| && users[i].username == ADMIN_NAME ==> users[j].username != ADMIN_NAME
    ensures var r := SeedUsers(users, now);
      forall i, j :: 0 <= i < j < |r| && r[i].username == ADMIN_NAME ==> r[j].username != ADMIN_NAME
  {
  }

  class Ledger {
    var users: seq<User>
    /** Most recent first. */
    var transactions: seq<Transaction>
    var giveaways: seq<Giveaway>
    var entries: seq<GiveawayEntry>
    var interactions: seq<Interaction>
    var storedConfig: StoredConfig
    /** Per-account time of the last coin flip, spin and lucky draw. */
    var lastCoinFlip: map<int, int>
    var lastSpin: map<int, int>
    var lastDraw: map<int, int>

    constructor ()
      ensures users == [] && transactions == [] && giveaways == [] && entries == []
      ensures interactions == [] && storedConfig == NOTHING_STORED
      ensures lastCoinFlip == map[] && lastSpin == map[] && lastDraw == map[]
    {
      users := [];
      transactions := [];
      giveaways := [];
      entries := [];
      interactions := [];
      storedConfig := NOTHING_STORED;
      lastCoinFlip := map[];
      lastSpin := map[];
      lastDraw := map[];
    }

    /** The configuration every read sees: the stored fields over the defaults. */
    function Settings(): GameConfig
      reads this
    {
      GetGameConfig(storedConfig)
    }

    /** Persists a full configuration; every later read returns it. */
    method SaveGameConfig(c: GameConfig)
      modifies this`storedConfig
      ensures storedConfig == ToStored(c)
      ensures Settings() == c
    {
      storedConfig := ToStored(c);
      SaveThenLoad(c);
    }

    /** Records a transaction at the head of the log; earlier entries keep
        their order. */
    method AddTransaction(userId: int, username: string, kind: TxKind, amount: int, now: int)
      modifies this`transactions
      ensures transactions == Record(old(transactions), Tx(userId, username, kind, amount, now))
    {
      var t := Tx(userId, username, kind, amount, now);
      transactions := [t] + transactions;
    }

    /** First-run seeding of the giveaway list and the administrator account. */
    method InitializeDemo(now: int)
      modifies this`users, this`giveaways
      ensures giveaways == SeedGiveaways(old(giveaways), now)
      ensures users == SeedUsers(old(users), now)
      ensures HasUserNamed(users, ADMIN_NAME) && |giveaways| > 0
    {
      if |giveaways| == 0 {
        giveaways := DemoGiveaways(now);
      }
      if !HasUserNamed(users, ADMIN_NAME) {
        users := users + [AdminUser(now)];
      }
    }

    /** Grants XP to the account at `idx` and, on a level-up, credits and
        logs one bonus for the level reached. */
    method GrantXp(idx: int, amount: int, now: int)
      requires 0 <= idx < |users|
      modifies this`users, this`transactions
      ensures users == old(users)[idx := Rewarded(old(users)[idx], amount, old(Settings()).xpMultiplier)]
      ensures transactions == BonusLog(old(users)[idx], amount, old(Settings()).xpMultiplier, now) + old(transactions)
    {
      var u := users[idx];
      var grant := AddXp(u, amount, Settings().xpMultiplier);
      users := users[idx := grant.user];
      if grant.leveledUp {
        AddTransaction(u.id, u.username, MANUAL_ADJUSTMENT, LevelUpBonus(grant.user.level), now);
        users := users[idx := users[idx].(points := users[idx].points + LevelUpBonus(grant.user.level))];
      }
    }
  }

  /** The log after one more record: the record at the head. */
  function Record(log: seq<Transaction>, t: Transaction): (r: seq<Transaction>)
    ensures |r| == |log| + 1 && r[0] == t && r[1..] == log
  {
    [t] + log
  }

  /** The log after recording `ts` one after the other, `ts[0]` first. */
  function RecordAll(log: seq<Transaction>, ts: seq<Transaction>): seq<Transaction>
    decreases |ts|
  {
    if ts == [] then log else RecordAll(Record(log, ts[0]), ts[1..])
  }

  /** Any run of records leaves them ahead of the old log, the latest
      first: the log reads most recent first. */
  lemma {:induction false} LogIsMostRecentFirst(log: seq<Transaction>, ts: seq<Transaction>)
    ensures |RecordAll(log, ts)| == |ts| + |log|
    ensures forall i :: 0 <= i < |ts| ==> RecordAll(log, ts)[i] == ts[|ts| - 1 - i]
    ensures RecordAll(log, ts)[|ts|..] == log
    decreases |ts|
  {
    if ts != [] {
      var log1 := Record(log, ts[0]);
      var rest := ts[1..];
      LogIsMostRecentFirst(log1, rest);
      var r := RecordAll(log, ts);
      assert r == RecordAll(log1, rest);
      assert r[|rest|..] == log1;
      assert r[|ts| - 1] == ts[0];
      assert r[|ts|..] == log1[1..];
      forall i | 0 <= i < |ts| ensures r[i] == ts[|ts| - 1 - i] {
        if i < |rest| {
          assert r[i] == rest[|rest| - 1 - i];
        }
      }
    }
  }

  /** Timestamps never increase along the log. */
  predicate NewestFirst(log: seq<Transaction>)
  {
    forall i, j :: 0 <= i < j < |log| ==> log[j].timestamp <= log[i].timestamp
  }

  /** Recording at a time no earlier than the latest entry keeps the log
      ordered newest first. */
  lemma RecordKeepsNewestFirst(log: seq<Transaction>, t: Transaction)
    requires NewestFirst(log)
    requires log == [] || log[0].timestamp <= t.timestamp
    ensures NewestFirst(Record(log, t))
  {
    var r := Record(log, t);
    forall i, j | 0 <= i < j < |r| ensures r[j].timestamp <= r[i].timestamp {
      assert r[j] == log[j - 1];
      if 0 < i {
        assert r[i] == log[i - 1];
      }
    }
  }
}
