# Kings Kingdom points economy, in Dafny

This project models the points economy and progression engine of the Kings
Kingdom game hub. Players earn **points** and **XP** through these actions:

- the spin wheel;
- the coin flip;
- the lucky draw;
- the Kingdom Miner clicker;
- the daily login streak.

They spend points in the Royal Shop and on giveaway entries. The
administrator (`AlgoKingX`) can edit, block and delete accounts, airdrop
points to everyone, and manage giveaways. Each action is a read-modify-write
of one account record, followed by an entry in the audit log, which keeps
the most recent entry first.

The model is organised as follows:

- One Dafny module per source file.
- The browser store becomes the class `Store.Ledger`. Its fields are the
  account list, the audit log, the giveaways and their entries, the
  engagement log, the saved configuration, and per-account timestamps for
  the last coin flip, spin and draw.
- Each handler is a method that changes only the ledger fields it names.
  It is specified against pure functions: `Progression.Rewarded` for an
  XP grant with its level-up bonus, `Store.BonusLog` for the bonus entry,
  `Shop.AddToInventory` for an inventory update, and so on. The
  properties the game promises are proved about those functions as lemmas.
- The XP-to-level calculator (`Progression.CalculateLevel`) and the level
  progress bar (`Progression.LevelProgress`) keep their loops. Both are
  proved against the greedy specification `Progression.LevelFor` and the
  closed form `XpToReach(L) = 50·L·(L−1)`.

Several things become parameters of the handlers:

- randomness: the coin outcome, the wheel's rest angle in whole degrees,
  and the lucky-draw table index;
- the player's answers to confirm and prompt dialogs;
- the clock: `now` in milliseconds, and `today` as a day number, with
  yesterday = `today − 1`;
- the signed-in account snapshot.

Where the code and the design intent differ, the model follows the code:

- A level-up bonus is paid once per XP grant, sized by the final level, even
  when a grant crosses several levels (`Progression.BonusPaidOncePerGrant`).
- The airdrop log amount multiplies by the number of all accounts, the
  skipped administrator included (`Admin.AirdropLogCountsAdmin`).
- A winning coin flip grants 15 XP (5 for the flip plus 10 for the win),
  not 5.
- The spin and lucky-draw cooldowns are fixed at 24 h and 12 h. The
  configured `spinCooldown` and `luckyDrawCooldown` values are never read.
- A cooldown is recorded when the game resolves, before the account is
  looked up. A spin that lands on "Try Again" records it too.
- The spin counter only moves on a winning spin.
- Admin edits do not check that points stay non-negative
  (`Admin.EditCanMakePointsNegative`).
- Balance guards read the signed-in snapshot. There is no central check that
  refuses a debit.
- Level 2 starts at 100 XP. The comment beside the calculator says 101, but
  the loop's `xp >= requiredXp` gives 100.

## Model

| member | source | states |
|---|---|---|
| `Progression.LevelFrom` | client/src/lib/store.ts:231-238 | the greedy descent never goes below its starting level and stops there when the remaining XP is under that level's bucket |
| `Progression.LevelFor` | client/src/lib/store.ts:225-241 | every XP amount, negative included, maps to a level of at least 1 |
| `Progression.CalculateLevel` | client/src/lib/store.ts:225-241 | the loop returns the greedy level: it is at least 1, it is 1 exactly when xp < 100, and for xp ≥ 0 the xp lies in that level's bracket |
| `Progression.XpToReach` | client/src/lib/store.ts:231-238 | the XP consumed on the way to a level is non-negative |
| `Progression.LevelFromBracket` | client/src/lib/store.ts:231-238 | from any level, the greedy descent ends in the bracket that contains the remaining XP |
| `Progression.LevelBracket` | client/src/lib/store.ts:231-238 | XpToReach(L) ≤ xp < XpToReach(L+1) for L = level of xp |
| `Progression.XpToReachMonotone` | client/src/lib/store.ts:234-237 | the buckets grow, so the XP needed to reach a level strictly increases with the level |
| `Progression.LevelUnique` | client/src/lib/store.ts:231-238 | the bracket that contains xp determines the level: no other level qualifies |
| `Progression.LevelMonotone` | client/src/lib/store.ts:225-241 | more XP never gives a lower level |
| `Progression.LevelOneIff` | client/src/lib/store.ts:231-234 | the level is 1 exactly when xp < 100 |
| `Progression.XpToReachClosedForm` | client/src/lib/store.ts:231-238 | the XP needed to reach level L is 50·L·(L−1) |
| `Progression.LevelBracketClosedForm` | client/src/lib/store.ts:231-238 | 50·L·(L−1) ≤ xp < 50·L·(L+1) for the level L of xp |
| `Progression.XpForNextLevel` | client/src/lib/store.ts:243-245 | the XP still needed to pass a level is exactly the gap between its bracket and the next, and at least 100 |
| `Progression.LevelProgress` | client/src/lib/store.ts:247-254 | the percentage is clamped to [0, 100]: 0 at or below the level's start, 100 at or past its end, and in between exactly the share of the bucket consumed |
| `Progression.RatioFacts` | client/src/lib/store.ts:252-253 | the percentage ratio is ≤ 0 for no progress, ≥ 100 for a full bucket, < 100 otherwise, and scales back to the consumed XP |
| `Progression.EffectiveMultiplier` | client/src/lib/store.ts:258 | a zero multiplier counts as exactly 1; any other is used as is; the result is never zero |
| `Progression.XpGained` | client/src/lib/store.ts:259 | the credited XP is the amount times the multiplier, rounded down |
| `Progression.AddXp` | client/src/lib/store.ts:256-273 | only xp and level change; xp grows by the credited gain; the level is recomputed from the new xp; the flag is set exactly when the new level exceeds the old one (an unset old level counts as 1) |
| `Progression.AddXpMonotone` | client/src/lib/store.ts:256-273 | a non-negative grant to an account whose level matches its xp keeps them matched, never lowers the level, and levels up exactly when the new xp reaches the next bracket |
| `Progression.LevelUpBonus` | client/src/components/game/CoinFlipGame.tsx:74-79 | the level-up bonus is 50 points per level reached: a whole multiple of 50, at least 50 from level 1 on |
| `Progression.Rewarded` | client/src/components/game/CoinFlipGame.tsx:63-80 | after a grant and the handler's level-up step, xp and level are as for the grant, points rise by one bonus of 50 × new level only on a level-up, and nothing else changes |
| `Progression.RewardedKeepsPoints` | client/src/components/game/CoinFlipGame.tsx:79 | an XP grant never lowers the balance |
| `Progression.BonusPaidOncePerGrant` | client/src/components/game/CoinFlipGame.tsx:66-80 | one grant of 300 XP from level 1 reaches level 3 and pays a single bonus of 150, less than the 100 + 150 that one bonus per level would pay |
| `Config.GetGameConfig` | client/src/lib/store.ts:101-113 | every field is the saved value when there is one and otherwise the default (40, 50, 12, 24, 1, 1, 1) |
| `Config.ToStored` | client/src/lib/store.ts:114 | saving a full configuration writes every field |
| `Config.NothingStoredGivesDefaults` | client/src/lib/store.ts:102-112 | with nothing saved, the configuration is the defaults |
| `Config.SaveThenLoad` | client/src/lib/store.ts:112-114 | reading after saving returns exactly what was saved |
| `Config.MergeIdempotent` | client/src/lib/store.ts:112 | saving what was read and reading again changes nothing |
| `Store.CatalogFacts` | client/src/lib/store.ts:130-168 | the four shop items have distinct ids and positive prices, and only the boost has a duration |
| `Store.IndexOf` | client/src/components/game/Shop.tsx:32 | the result is the first position holding the id, or −1 exactly when no account has it |
| `Store.Ready` | client/src/components/game/CoinFlipGame.tsx:20-23 | the gate is open when the account has no recorded play, and otherwise exactly when the recorded time plus the cooldown is at or before `now` |
| `Store.RecordedPlayCloses` | client/src/components/game/CoinFlipGame.tsx:21-47 | recording a play at `now` closes that account's gate for exactly the cooldown and leaves other accounts' gates as they were |
| `Store.BonusLog` | client/src/components/game/CoinFlipGame.tsx:66-80 | an XP grant logs at most one entry, exactly when it levels up; that entry is a MANUAL_ADJUSTMENT for the account, equal to the points the bonus adds |
| `Store.AdminUser` | client/src/lib/store.ts:202-219 | the seeded administrator is account 1 named AlgoKingX with 999999 points, level 1 and 0 XP (a consistent level), not blocked, with no wallet, no items and no login date, joined at `now` |
| `Store.DemoGiveaways` | client/src/lib/store.ts:173-196 | two active giveaways with distinct ids after `now`, 5 entries each, costing 50 and 25 points |
| `Store.SeedUsers` | client/src/lib/store.ts:199-221 | the administrator is appended exactly when no account has its name, and is present afterwards |
| `Store.SeedGiveaways` | client/src/lib/store.ts:172-197 | only an empty giveaway list is filled; afterwards it is never empty |
| `Store.SeedingIdempotent` | client/src/lib/store.ts:171-222 | seeding twice, at any two times, is the same as seeding once |
| `Store.SeedingKeepsOneAdmin` | client/src/lib/store.ts:200-221 | seeding never creates a second administrator account |
| `Store.Record` | client/src/lib/store.ts:119-127 | one record puts the entry at the head of the log, one longer, with the old log behind it |
| `Store.LogIsMostRecentFirst` | client/src/lib/store.ts:119-127 | any run of records (`Store.RecordAll`, what successive `AddTransaction` calls produce) leaves them ahead of the old log in reverse order of recording, the latest at position 0, with the old log unchanged behind them |
| `Store.RecordKeepsNewestFirst` | client/src/lib/store.ts:119-127 | recording at a time no earlier than the newest entry keeps the log ordered by timestamp, newest first |
| `Store.Ledger.constructor` | client/src/lib/store.ts:89-117 | empty storage reads as empty lists and no saved configuration |
| `Store.Ledger.SaveGameConfig` | client/src/lib/store.ts:114 | after a save, every read returns the saved configuration |
| `Store.Ledger.AddTransaction` | client/src/lib/store.ts:119-127 | the log becomes `Record` of the old log and the new entry, stamped with `now` as id and time and marked COMPLETED (so `Store.RecordKeepsNewestFirst` applies to it) |
| `Store.Ledger.InitializeDemo` | client/src/lib/store.ts:171-222 | the first-run seeding of giveaways and the administrator |
| `Store.Ledger.GrantXp` | client/src/components/game/CoinFlipGame.tsx:62-80 | the account becomes its rewarded record and the log gains exactly the bonus entry of that grant |
| `Admin.UpdateUser` | client/src/pages/Admin.tsx:45 | every account with the edited id is replaced by the edit; all others and the order are kept |
| `Admin.Adjustment` | client/src/pages/Admin.tsx:51-63 | an edit is logged exactly when its account exists and its points changed, as a MANUAL_ADJUSTMENT of new minus old points |
| `Admin.NonPointEditLogsNothing` | client/src/pages/Admin.tsx:51-52 | editing only the wallet or the block flag logs nothing |
| `Admin.EditCanMakePointsNegative` | client/src/pages/Admin.tsx:44-48 | an edit to −1 points is accepted and stored |
| `Admin.HandleUpdateUser` | client/src/pages/Admin.tsx:44-66 | the list becomes the edited list and the log gains the adjustment entry, if any |
| `Admin.ToggledBlock` | client/src/pages/Admin.tsx:78 | the block flag flips and nothing else changes |
| `Admin.ToggleBlockLogsNothing` | client/src/pages/Admin.tsx:77-79 | blocking or unblocking never logs an adjustment |
| `Admin.ToggleBlockUser` | client/src/pages/Admin.tsx:77-79 | the account's block flag flips and the log is untouched |
| `Admin.DeleteUser` | client/src/pages/Admin.tsx:70 | the result holds exactly the accounts without that id |
| `Admin.DeleteUserDistributes` | client/src/pages/Admin.tsx:70 | deleting from a concatenation deletes from each part, so the survivors keep their order |
| `Admin.DeleteAbsentUser` | client/src/pages/Admin.tsx:70 | deleting an id nobody has leaves the list as it was |
| `Admin.HandleDeleteUser` | client/src/pages/Admin.tsx:68-75 | a confirmed delete filters the list; a declined one changes nothing; the log is never touched |
| `Admin.Airdrop` | client/src/pages/Admin.tsx:84-87 | every account not named AlgoKingX gains exactly the amount; the administrator's record is unchanged |
| `Admin.NonAdminCount` | client/src/pages/Admin.tsx:85 | the number of accounts the airdrop credits is at most the list length |
| `Admin.AirdropTotal` | client/src/pages/Admin.tsx:84-87 | the airdrop adds amount × (number of non-admin accounts) to the total points |
| `Admin.AirdropLogAmount` | client/src/pages/Admin.tsx:96 | the logged aggregate is 0 for an empty list, never below the amount times the number of non-administrative accounts for a non-negative amount, and strictly above it when a positive amount is logged over a list holding an administrator |
| `Admin.AirdropLogCountsAdmin` | client/src/pages/Admin.tsx:92-99 | the logged amount exceeds the points actually credited by amount × (number of administrator accounts) |
| `Admin.AirdropScenario` | client/src/pages/Admin.tsx:84-99 | with the administrator and three players, 50 each credits 150 but logs 200 |
| `Admin.HandleGlobalAirdrop` | client/src/pages/Admin.tsx:82-104 | a confirmed airdrop credits the non-admin accounts and logs one AIRDROP by SYSTEM (id 0) of amount × all accounts; a declined one changes nothing |
| `Admin.ReplaceGiveaway` | client/src/pages/Admin.tsx:116 | each giveaway with the saved id is replaced in place; the others are kept (the giveaway counterpart of `UpdateUser`) |
| `Admin.SaveGiveaway` | client/src/pages/Admin.tsx:114-119 | a giveaway with a known id replaces it in place, otherwise it is appended; either way it is in the list |
| `Admin.SaveGiveawayIdempotent` | client/src/pages/Admin.tsx:113-124 | saving the same giveaway twice is the same as saving it once |
| `Admin.DeleteGiveaway` | client/src/pages/Admin.tsx:128 | the result is no longer than the list, and a giveaway is in it exactly when it is in the list without that id |
| `Admin.DeleteGiveawayDistributes` | client/src/pages/Admin.tsx:128 | deleting from a concatenation is deleting from each part, so the survivors keep their order |
| `Admin.DeleteOneGiveaway` | client/src/pages/Admin.tsx:128 | a single giveaway is dropped exactly when it carries the id; with the previous row this pins the result down to the filter of the list |
| `Admin.DeleteAbsentGiveaway` | client/src/pages/Admin.tsx:128 | deleting an id no giveaway has leaves the list as it was |
| `Admin.HandleSaveGiveaway` | client/src/pages/Admin.tsx:113-124 | the giveaway list becomes the saved list |
| `Admin.HandleDeleteGiveaway` | client/src/pages/Admin.tsx:126-133 | a confirmed delete filters the giveaways; a declined one changes nothing |
| `Admin.ToLower` | client/src/pages/Admin.tsx:136-137 | ASCII lower-casing: the result has the input's length and holds, at each position, the input character with `A`–`Z` mapped to `a`–`z` |
| `Admin.SearchUsers` | client/src/pages/Admin.tsx:135-138 | no longer than the list; an account is in the result exactly when it is in the list and its lower-cased name, or its lower-cased wallet if it has one, contains the lower-cased term |
| `Admin.SearchUsersDistributes` | client/src/pages/Admin.tsx:135-138 | searching a concatenation is searching each part, so the hits keep the list's order |
| `Admin.SearchOneUser` | client/src/pages/Admin.tsx:135-138 | a single account is kept exactly when it matches; with the previous row this pins the result down to the filter of the list |
| `Admin.SearchEmptyTermKeepsAll` | client/src/pages/Admin.tsx:135-138 | an empty search term keeps every account, in order |
| `Admin.FoldedTermsMatchAlike` | client/src/pages/Admin.tsx:135-138 | two terms that lower-case alike select exactly the same accounts |
| `Admin.SearchIgnoresTermCase` | client/src/pages/Admin.tsx:135-138 | lower-casing the term, or upper-casing it (ASCII `Admin.ToUpper`), never changes whether an account matches |
| `Shop.ItemIndex` | client/src/components/game/Shop.tsx:40 | the result is the first inventory position for the item, or −1 exactly when it is not held |
| `Shop.ActiveUntil` | client/src/components/game/Shop.tsx:48-50 | an item with a non-zero duration expires `now` + duration hours; any other has no expiry |
| `Shop.AddToInventory` | client/src/components/game/Shop.tsx:39-53 | a held item's quantity grows by one with its expiry and other entries unchanged; a new item is appended with quantity 1 and its expiry |
| `Shop.AddKeepsItemsUnique` | client/src/components/game/Shop.tsx:40-53 | a purchase never creates a second inventory entry for the same item |
| `Shop.AddKeepsOwnership` | client/src/components/game/Shop.tsx:40-53 | after a purchase the buyer holds the bought item, still holds everything held before, and holds nothing else new |
| `Shop.PurchaseAllowed` | client/src/components/game/Shop.tsx:18-28 | an allowed purchase leaves a non-negative balance; a boost is allowed exactly when the balance covers it; a held non-boost item is refused |
| `Shop.Bought` | client/src/components/game/Shop.tsx:35-53 | the buyer's record loses the price and gains the item in its inventory (so it owns it, and an inventory free of duplicates stays so); nothing else changes |
| `Shop.HandlePurchase` | client/src/components/game/Shop.tsx:12-71 | refused (nothing changes) when signed out, the balance is short, a non-boost item is already held, the buyer declines or the account is missing; otherwise the account becomes its `Bought` record with the balance staying ≥ 0, one SHOP_PURCHASE of −price is logged, and inventories stay free of duplicates |
| `DailyLogin.StreakGrant` | client/src/components/game/DailyLoginStreak.tsx:26-37 | a grant the day after the last one continues the streak; any other day restarts it at 1 with reward 10; the reward is 10 per streak day, capped at 100 |
| `DailyLogin.RewardBounds` | client/src/components/game/DailyLoginStreak.tsx:30-37 | the reward always lies in [10, 100] |
| `DailyLogin.StreakScenario` | client/src/components/game/DailyLoginStreak.tsx:34-37 | a day-3 streak continued the next day becomes day 4 with reward 40 |
| `DailyLogin.LoggedIn` | client/src/components/game/DailyLoginStreak.tsx:40-42 | after a grant the last login is today, the streak is the granted one, points rise by the reward, and nothing else changes |
| `DailyLogin.SecondCheckSameDay` | client/src/components/game/DailyLoginStreak.tsx:20-42 | a second check on the same day grants nothing |
| `DailyLogin.CheckLoginStreak` | client/src/components/game/DailyLoginStreak.tsx:15-58 | when signed out, already rewarded today, or the account is missing, nothing changes; otherwise the account is updated and one DAILY_LOGIN of the reward is logged; balances stay non-negative |
| `CoinFlip.FlipXp` | client/src/components/game/CoinFlipGame.tsx:62 | a flip earns at least 5 XP, and 15 exactly when it is won |
| `CoinFlip.Staked` | client/src/components/game/CoinFlipGame.tsx:52-58 | a win adds twice the bet to points and winnings; a loss removes the bet from points and leaves winnings alone |
| `CoinFlip.GameTx` | client/src/components/game/CoinFlipGame.tsx:86-95 | the game entry is GAME_WIN of twice the bet or GAME_LOSS of the bet itself |
| `CoinFlip.SettlementKeepsBalance` | client/src/components/game/CoinFlipGame.tsx:29-80 | a balance that covers the bet stays non-negative after either outcome and the XP step |
| `CoinFlip.WinScenario` | client/src/components/game/CoinFlipGame.tsx:52-64 | 100 points, bet 10 and a win end at 120 points and 15 XP |
| `CoinFlip.Settle` | client/src/components/game/CoinFlipGame.tsx:48-96 | a missing account changes nothing; otherwise the stored account's stake is settled, XP of 15 for a win or 5 for a loss is granted with its bonus, the game entry is logged after the bonus entry, and balances stay non-negative |
| `CoinFlip.HandleFlip` | client/src/components/game/CoinFlipGame.tsx:27-98 | signed out, on cooldown, mid-flip or short of the bet: nothing changes; otherwise the cooldown is recorded, and if the account exists its stake is settled, XP of 15 for a win or 5 for a loss is granted with its bonus, and the game entry is logged after the bonus; balances stay non-negative |
| `SpinWheel.PrizeTable` | client/src/components/game/SpinWheel.tsx:20-29 | eight 45-degree slices with non-negative values, one of them zero, and a jackpot of 500 |
| `SpinWheel.SliceIndex` | client/src/components/game/SpinWheel.tsx:70-73 | the slice lies in 0..7 and is the 45-degree band holding the angle folded back from the pointer |
| `SpinWheel.SliceIgnoresWholeTurns` | client/src/components/game/SpinWheel.tsx:70-72 | adding whole turns to the rest angle never changes the slice |
| `SpinWheel.EverySliceReachable` | client/src/components/game/SpinWheel.tsx:70-73 | every slice, the jackpot included, is under the pointer for some rest angle |
| `SpinWheel.TimeLeft` | client/src/components/game/SpinWheel.tsx:33-47 | a wait is shown exactly while the gate is closed; it is whole hours and minutes (minutes < 60) rounding the remaining time down, and at most 24 hours after a past spin |
| `SpinWheel.SpinXp` | client/src/components/game/SpinWheel.tsx:90 | a spin earns at least 10 XP, and 15 exactly when the prize is positive |
| `SpinWheel.Won` | client/src/components/game/SpinWheel.tsx:85-87 | a winning spin adds the prize to points and winnings and one to the spin counter, and changes nothing else |
| `SpinWheel.HandleSpin` | client/src/components/game/SpinWheel.tsx:56-140 | a started spin always records the cooldown; a zero prize or a missing account changes no account and logs nothing; a positive prize credits the win, grants 15 XP with its bonus, appends one spin_win engagement and logs one GAME_WIN of the prize after the bonus |
| `KingdomMiner.MiningRate` | client/src/components/game/KingdomMiner.tsx:53-60 | the rate lies between the configured rate and 6 above it: exactly the configured rate with neither upgrade, 1 above with the Iron Pickaxe only, 5 above with the Diamond Drill only, and 6 above with both; 5 or more above exactly when the Drill is held |
| `KingdomMiner.OwnsIgnoresQuantity` | client/src/components/game/KingdomMiner.tsx:55-56 | changing a held item's quantity never changes which items are held |
| `KingdomMiner.RateIgnoresQuantity` | client/src/components/game/KingdomMiner.tsx:53-60 | the mining rate depends on which upgrades are held, not on how many |
| `KingdomMiner.UpgradeRaisesRate` | client/src/components/game/KingdomMiner.tsx:53-60 | buying the Iron Pickaxe or the Diamond Drill raises the rate by 1 or 5 the first time only, and other purchases leave it alone |
| `KingdomMiner.Mined` | client/src/components/game/KingdomMiner.tsx:66 | a click adds the rate to points and changes nothing else |
| `KingdomMiner.ClaimLog` | client/src/components/game/KingdomMiner.tsx:91-102 | a MINER_CLAIM of ten times the rate is logged exactly when the click count before the click is a multiple of ten |
| `KingdomMiner.OneClaimPerTenClicks` | client/src/components/game/KingdomMiner.tsx:91 | over any ten consecutive click counts, `ClaimLog` is non-empty for some count and, after that one, empty for the rest: exactly one claim per ten clicks |
| `KingdomMiner.Credit` | client/src/components/game/KingdomMiner.tsx:62-103 | a missing account changes nothing; otherwise the account gets the rate and 1 XP with its bonus, and the log gains the bonus and then the claim, if any |
| `KingdomMiner.Miner.constructor` | client/src/components/game/KingdomMiner.tsx:13-14 | the panel starts with full energy and no clicks |
| `KingdomMiner.Miner.Regenerate` | client/src/components/game/KingdomMiner.tsx:19-21 | energy rises by 5 up to 100 and stays within [0, 100] |
| `KingdomMiner.Miner.Mine` | client/src/components/game/KingdomMiner.tsx:25-106 | when signed out or below 10 energy nothing changes; otherwise energy drops by 10, the click counter rises by one, and the ledger is credited as in Credit; energy stays within [0, 100] |
| `LuckyDraw.RewardTable` | client/src/components/game/LuckyDraw.tsx:32-38 | five rewards; the points rewards lie in (0, 50]; only the fourth is an entry reward |
| `LuckyDraw.HandleDraw` | client/src/components/game/LuckyDraw.tsx:25-81 | signed out, on cooldown or mid-draw: nothing changes; otherwise the cooldown is recorded and one lucky_draw engagement is appended; a points reward is credited and logged as GAME_WIN; an entry reward or a missing account changes no account; XP and level never change and no balance falls |
| `Giveaways.EntriesCount` | client/src/components/game/GiveawaysSection.tsx:17 | the count is 0 exactly when no entry has both that account and that giveaway, and never exceeds the number of entries |
| `Giveaways.CountAppend` | client/src/components/game/GiveawaysSection.tsx:53-61 | appending an entry adds one to its own account's count in its own giveaway and leaves all other counts alone |
| `Giveaways.UserEntriesCount` | client/src/components/game/GiveawaysSection.tsx:15-18 | the count is 0 when signed out and otherwise the account's entries in that giveaway |
| `Giveaways.HandleEnter` | client/src/components/game/GiveawaysSection.tsx:20-75 | nothing changes when signed out, at the entry limit, short of the cost, missing from the list or without a proof link; otherwise the cost is debited with the balance staying ≥ 0, one entry is appended so the count grows by one and stays within the limit, and one GIVEAWAY_ENTRY of −cost is logged |
| `Leaderboard.Contenders` | client/src/components/game/Leaderboard.tsx:12 | every record appears exactly as many times as in the list unless it is the administrator's, which does not appear at all; nothing else is added |
| `Leaderboard.Insert` | client/src/components/game/Leaderboard.tsx:13 | inserting adds exactly one copy of the account, at the head or after the old head |
| `Leaderboard.InsertKeepsSorted` | client/src/components/game/Leaderboard.tsx:13 | inserting into a ranking keeps it ranked |
| `Leaderboard.SortByPointsDesc` | client/src/components/game/Leaderboard.tsx:13 | the result is a permutation of the input with points non-increasing |
| `Leaderboard.PrefixDominates` | client/src/components/game/Leaderboard.tsx:13-14 | in a ranking, an account outside a prefix has no more points than any account in it |
| `Leaderboard.TopUsers` | client/src/components/game/Leaderboard.tsx:11-14 | at most ten accounts, points non-increasing |
| `Leaderboard.TopUsersFromInput` | client/src/components/game/Leaderboard.tsx:11-14 | every listed account comes from the list (with multiplicity), and the administrator is never listed |
| `Leaderboard.TopUsersLeftOutRankLower` | client/src/components/game/Leaderboard.tsx:11-14 | a non-admin account is left off only when the board is full, and then has no more points than anyone listed |
| `Leaderboard.FewContendersAllListed` | client/src/components/game/Leaderboard.tsx:14 | with fewer than ten non-admin accounts, all of them are listed |
| `Auth.CredentialsIndex` | client/src/components/modals/AuthModal.tsx:56 | the result is the first account whose name and password both match, or −1 exactly when none does |
| `Auth.Login` | client/src/components/modals/AuthModal.tsx:18-64 | empty credentials are refused; a sign-in succeeds only with an account whose name and password match and which is not blocked; "invalid" means exactly that no account matches; a blocked match is refused |
| `Auth.LoginFindsOwnAccount` | client/src/components/modals/AuthModal.tsx:56-64 | with unique names, an account's own credentials sign into that account, unless it is blocked |
| `Auth.LoginIsCaseSensitive` | client/src/components/modals/AuthModal.tsx:56 | "algokingx" does not sign into the AlgoKingX account |
| `Auth.NewUser` | client/src/components/modals/AuthModal.tsx:31-49 | a new account has 100 points, a one-day streak from today, level 1 with 0 XP, an empty inventory, no wallet or referrer, zero counters, and is not blocked |
| `Auth.NewUserConsistent` | client/src/components/modals/AuthModal.tsx:47-48 | a new account's level matches its XP |
| `Auth.HandleSubmit` | client/src/components/modals/AuthModal.tsx:17-68 | empty credentials and taken names change nothing; sign-up appends exactly the new account; sign-in is Login and changes nothing; unique names stay unique |
| `Wallet.HandleConnect` | client/src/components/modals/WalletConnectModal.tsx:15-29 | an address shorter than 32 characters, or a missing account, changes nothing; otherwise only that account's wallet becomes the address |
| `Wallet.BoundWalletIsSearchable` | client/src/components/modals/WalletConnectModal.tsx:24 | once bound, the account turns up in the administrator's search for any query that lower-cases like the address |

## Left out

- Rendering, toasts, confetti, the miner's floating text, routing and the session cookie are presentation, so they are not modelled.
- Browser storage and JSON encoding are I/O. The store is the in-memory `Store.Ledger`, and empty storage is its constructor.
- Transaction descriptions are free display text, so they are not modelled; giveaway descriptions are carried as an optional string. Timestamps written as ISO strings (`joinedAt`, `activeUntil`, engagement and entry times) are integer milliseconds.
- Random draws, the referral-code generator and the confirm/prompt answers are handler parameters. The wheel's rest angle is in whole degrees rather than a float.
- The delays before a game resolves, and the asynchronous import that writes some log entries, are not modelled. Each handler is one atomic step, and its log entries appear in program order.
- The game panels read a `user` snapshot that may be stale against the stored list. The model assumes one record per account (`Store.Current`). The administrator page works on its own copy of the list; the model uses the ledger's.
- Admin.HandleUpdateUser and Admin.HandleGlobalAirdrop: the points from the edit form's number field and the airdrop amount are integers. Both fields go through `parseInt`, so a cleared field gives NaN in the source, which would then be stored as a balance, credited to every non-administrative account and logged; that NaN is not modelled.
- Multipliers are reals. NaN, infinities and double rounding are not modelled, and "falsy" multipliers are modelled only as 0.
- Progression.LevelProgress: requires level ≥ 1. For lower levels the source divides by a zero or negative bucket.
- Absent optional fields are not modelled: `xp || 0`, `loginStreak || 0` and `inventory || []`. Every record carries them; `lastLoginDate` is an `Option`, absent on the seeded administrator. An unset level (0) counts as 1 in `Progression.AddXp`.
- Saved configuration fields are either present or absent. Other JSON values are not modelled. `spinWinRate`, `coinFlipWinRate`, `globalMultiplier`, `spinCooldown` and `luckyDrawCooldown` are read by no handler in the code.
- CoinFlip.HandleFlip: the bet is a natural number, because the bet field's validation is part of the page.
- Leaderboard.SortByPointsDesc: the browser's stable sort keeps tied accounts in list order. The model's insertion sort does too, but stability is not proved.
- The 2x Point Potion's effect is not modelled. No handler reads it; buying it only updates the inventory.
- The miner's `mining` animation flag is not modelled.
- SpinWheel.HandleSpin: the panel re-reads the cooldown only on mount and every 60 seconds, and that refresh sets both the countdown display and the `canSpin` flag the spin reads. In the source a spin can therefore be refused for up to 60 s after the cooldown ends; the model evaluates `Store.Ready` at the click and opens the gate at once. `SpinWheel.TimeLeft` is the display's value at any given `now`.
- CoinFlip.HandleFlip and LuckyDraw.HandleDraw: the panels' `canPlay`/`canDraw` flags are set from the cooldown only when the signed-in user changes, and cleared after a play. The model evaluates the cooldown gate (`Store.Ready`) at each click instead, so a panel left open past the end of the cooldown refuses in the source until the user record changes, but plays in the model.
- Admin.ToLower: case folding is ASCII-only. JavaScript's `toLowerCase` folds all of Unicode and may change the length of a string; those mappings are not modelled, so `Admin.SearchUsers`, `Admin.SearchIgnoresTermCase` (with its ASCII `Admin.ToUpper`) and `Wallet.BoundWalletIsSearchable` hold for ASCII folding only.
- Admin.SearchUsers: inherits the ASCII-only case folding of `Admin.ToLower`; a name or term with non-ASCII capitals may match in the source but not in the model.
