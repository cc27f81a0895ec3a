/** The records shared by every part of the points economy: accounts and
    their inventories, catalogue items, giveaways and their entries, the
    audit log and the engagement log. Timestamps are integer milliseconds
    and calendar dates are integer day numbers. */
module Types {

  datatype Option<+T> = None | Some(value: T)

  /** One owned shop item; `activeUntil` is absent for permanent items. */
  datatype InventoryItem = InventoryItem(itemId: string, quantity: int, activeUntil: Option<int>)

  /** An account record as persisted in the users list. */
  datatype User = User(
    id: int,
    username: string,
    email: Option<string>,
    password: Option<string>,
    wallet: Option<string>,
    points: int,
    referralCode: string,
    referredBy: Option<string>,
    totalSpins: int,
    totalWinnings: int,
    joinedAt: int,
    blocked: bool,
    lastLoginDate: Option<int>,
    loginStreak: int,
    inventory: seq<InventoryItem>,
    level: int,
    xp: int)

  datatype ItemKind = Boost | MinerUpgrade | Cosmetic

  /** A catalogue entry; `duration` is in hours and only boosts have one. */
  datatype ShopItem = ShopItem(id: string, name: string, price: int, kind: ItemKind,
                               effectValue: int, duration: Option<int>)

  datatype Giveaway = Giveaway(id: int, title: string, prize: string, endDate: string,
                               active: bool, tweetLink: string, maxEntries: int,
                               entryCost: int, description: Option<string>)

  datatype GiveawayEntry = GiveawayEntry(id: int, userId: int, giveawayId: int,
                                         proofLink: Option<string>, timestamp: int)

  /** The lightweight engagement log (`spin_win`, `lucky_draw`). */
  datatype Interaction = Interaction(userId: int, username: string, kind: string,
                                     reward: Option<string>, timestamp: int)

  /** The closed set of audit-log kinds, spelled as the persisted values. */
  datatype TxKind = AIRDROP | GAME_WIN | GAME_LOSS | MANUAL_ADJUSTMENT | PAYOUT
                  | GIVEAWAY_ENTRY | MINER_CLAIM | DAILY_LOGIN | SHOP_PURCHASE

  datatype TxStatus = COMPLETED | PENDING | FAILED

  /** An audit-log record; its id and timestamp are both the creation time. */
  datatype Transaction = Transaction(id: int, userId: int, username: string, kind: TxKind,
                                     amount: int, timestamp: int, status: TxStatus)

  /** The privileged administrative account is recognised by this name. */
  const ADMIN_NAME: string := "AlgoKingX"

  const MINUTE_MS: int := 60 * 1000
  const HOUR_MS: int := 60 * 60 * 1000
}
