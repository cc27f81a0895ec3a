/** The tunable economy parameters and the default merge applied on every
    read: a field present in the stored object wins, any other field takes
    its default, so a partially saved object never yields a missing field. */
module Config {
  import opened Types

  datatype GameConfig = GameConfig(
    spinWinRate: int,
    coinFlipWinRate: int,
    luckyDrawCooldown: int,
    spinCooldown: int,
    globalMultiplier: real,
    minerRate: int,
    xpMultiplier: real)

  /** The persisted object, in which any field may be absent. */
  datatype StoredConfig = StoredConfig(
    spinWinRate: Option<int>,
    coinFlipWinRate: Option<int>,
    luckyDrawCooldown: Option<int>,
    spinCooldown: Option<int>,
    globalMultiplier: Option<real>,
    minerRate: Option<int>,
    xpMultiplier: Option<real>)

  const DEFAULTS: GameConfig := GameConfig(40, 50, 12, 24, 1.0, 1, 1.0)

  /** What is read when nothing was ever saved. */
  const NOTHING_STORED: StoredConfig := StoredConfig(None, None, None, None, None, None, None)

  function Pick<T>(stored: Option<T>, default: T): T
  {
    if stored.Some? then stored.value else default
  }

  /** The defaults overlaid with whatever fields are stored. */
  function GetGameConfig(s: StoredConfig): (c: GameConfig)
    ensures s.spinWinRate.Some? ==> c.spinWinRate == s.spinWinRate.value
    ensures s.spinWinRate.None? ==> c.spinWinRate == 40
    ensures s.coinFlipWinRate.Some? ==> c.coinFlipWinRate == s.coinFlipWinRate.value
    ensures s.coinFlipWinRate.None? ==> c.coinFlipWinRate == 50
    ensures s.luckyDrawCooldown.Some? ==> c.luckyDrawCooldown == s.luckyDrawCooldown.value
    ensures s.luckyDrawCooldown.None? ==> c.luckyDrawCooldown == 12
    ensures s.spinCooldown.Some? ==> c.spinCooldown == s.spinCooldown.value
    ensures s.spinCooldown.None? ==> c.spinCooldown == 24
    ensures s.globalMultiplier.Some? ==> c.globalMultiplier == s.globalMultiplier.value
    ensures s.globalMultiplier.None? ==> c.globalMultiplier == 1.0
    ensures s.minerRate.Some? ==> c.minerRate == s.minerRate.value
    ensures s.minerRate.None? ==> c.minerRate == 1
    ensures s.xpMultiplier.Some? ==> c.xpMultiplier == s.xpMultiplier.value
    ensures s.xpMultiplier.None? ==> c.xpMultiplier == 1.0
  {
    GameConfig(
      Pick(s.spinWinRate, DEFAULTS.spinWinRate),
      Pick(s.coinFlipWinRate, DEFAULTS.coinFlipWinRate),
      Pick(s.luckyDrawCooldown, DEFAULTS.luckyDrawCooldown),
      Pick(s.spinCooldown, DEFAULTS.spinCooldown),
      Pick(s.globalMultiplier, DEFAULTS.globalMultiplier),
      Pick(s.minerRate, DEFAULTS.minerRate),
      Pick(s.xpMultiplier, DEFAULTS.xpMultiplier))
  }

  /** Saving writes every field of a complete configuration. */
  function ToStored(c: GameConfig): (s: StoredConfig)
    ensures s.spinWinRate.Some? && s.coinFlipWinRate.Some? && s.luckyDrawCooldown.Some?
    ensures s.spinCooldown.Some? && s.globalMultiplier.Some? && s.minerRate.Some? && s.xpMultiplier.Some?
  {
    StoredConfig(Some(c.spinWinRate), Some(c.coinFlipWinRate), Some(c.luckyDrawCooldown),
                 Some(c.spinCooldown), Some(c.globalMultiplier), Some(c.minerRate),
                 Some(c.xpMultiplier))
  }

  /** With nothing stored, every field is its default. */
  lemma NothingStoredGivesDefaults()
    ensures GetGameConfig(NOTHING_STORED) == DEFAULTS
  {
  }

  /** A saved configuration reads back unchanged. */
  lemma SaveThenLoad(c: GameConfig)
    ensures GetGameConfig(ToStored(c)) == c
  {
  }

  /** Merging is idempotent: saving what was read and reading again gives
      the same configuration. */
  lemma MergeIdempotent(s: StoredConfig)
    ensures GetGameConfig(ToStored(GetGameConfig(s))) == GetGameConfig(s)
  {
  }
}
