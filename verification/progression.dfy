/** The XP-to-level calculator and the helpers built on it: XP needed for
    the next level, progress within a level, and granting XP to an account
    (with the level-up bonus the game handlers add on top). */
module Progression {
  import opened Types

  /** XP consumed on the way to `level`: 100 + 200 + ... + (level - 1) * 100. */
  function XpToReach(level: int): (r: int)
    ensures r >= 0
    decreases level
  {
    if level <= 1 then 0 else XpToReach(level - 1) + (level - 1) * 100
  }

  /** Greedy descent from `level` with `rem` XP left: pass a level while the
      remaining XP covers its bucket of `level * 100`. */
  function LevelFrom(level: int, rem: int): (r: int)
    requires level >= 1
    ensures r >= level
    ensures rem < level * 100 ==> r == level
    decreases rem
  {
    if rem < level * 100 then level else LevelFrom(level + 1, rem - level * 100)
  }

  /** The level an account with `xp` experience has. */
  function LevelFor(xp: int): (level: int)
    ensures level >= 1
  {
    LevelFrom(1, xp)
  }

  /** The loop of the calculator: subtract growing buckets from the XP. */
  method CalculateLevel(xp0: int) returns (level: int)
    ensures level == LevelFor(xp0)
    ensures level >= 1
    ensures level == 1 <==> xp0 < 100
    ensures xp0 >= 0 ==> XpToReach(level) <= xp0 < XpToReach(level + 1)
  {
    var xp := xp0;
    level := 1;
    var requiredXp := 100;
    while xp >= requiredXp
      invariant level >= 1 && requiredXp == level * 100
      invariant LevelFrom(level, xp) == LevelFor(xp0)
      decreases xp
    {
      xp := xp - requiredXp;
      level := level + 1;
      requiredXp := level * 100;
    }
    LevelOneIff(xp0);
    if xp0 >= 0 {
      LevelBracket(xp0);
    }
  }

  lemma {:induction false} LevelFromBracket(level: int, rem: int)
    requires level >= 1 && rem >= 0
    ensures XpToReach(LevelFrom(level, rem)) - XpToReach(level) <= rem
    ensures rem < XpToReach(LevelFrom(level, rem) + 1) - XpToReach(level)
    decreases rem
  {
    if rem >= level * 100 {
      LevelFromBracket(level + 1, rem - level * 100);
    }
  }

  /** The level of `xp` is the bracket that contains it. */
  lemma LevelBracket(xp: int)
    requires xp >= 0
    ensures XpToReach(LevelFor(xp)) <= xp < XpToReach(LevelFor(xp) + 1)
  {
    LevelFromBracket(1, xp);
  }

  lemma {:induction false} XpToReachMonotone(a: int, b: int)
    requires 1 <= a <= b
    ensures XpToReach(a) <= XpToReach(b)
    ensures a < b ==> XpToReach(a) < XpToReach(b)
    decreases b - a
  {
    if a < b {
      XpToReachMonotone(a, b - 1);
    }
  }

  /** The bracket determines the level: no other level contains `xp`. */
  lemma LevelUnique(xp: int, level: int)
    requires level >= 1
    requires XpToReach(level) <= xp < XpToReach(level + 1)
    ensures LevelFor(xp) == level
  {
    var l := LevelFor(xp);
    LevelBracket(xp);
    if l < level {
      XpToReachMonotone(l + 1, level);
    } else if l > level {
      XpToReachMonotone(level + 1, l);
    }
  }

  /** More XP never means a lower level. */
  lemma LevelMonotone(x: int, y: int)
    requires x <= y
    ensures LevelFor(x) <= LevelFor(y)
  {
    if x >= 0 {
      LevelBracket(x);
      LevelBracket(y);
      if LevelFor(x) > LevelFor(y) {
        XpToReachMonotone(LevelFor(y) + 1, LevelFor(x));
      }
    } else {
      assert LevelFor(x) == 1;
    }
  }

  /** Level 1 is exactly the XP below the first bucket. */
  lemma LevelOneIff(xp: int)
    ensures LevelFor(xp) == 1 <==> xp < 100
  {
    if xp >= 100 {
      assert LevelFrom(1, xp) == LevelFrom(2, xp - 100);
    }
  }

  lemma {:induction false} XpToReachClosedForm(level: int)
    requires level >= 1
    ensures XpToReach(level) == 50 * level * (level - 1)
    decreases level
  {
    if level > 1 {
      XpToReachClosedForm(level - 1);
      calc {
        XpToReach(level);
        XpToReach(level - 1) + (level - 1) * 100;
        50 * (level - 1) * (level - 2) + (level - 1) * 100;
        { assert 50 * (level - 1) * (level - 2) + (level - 1) * 100 == (level - 1) * (50 * (level - 2) + 100); }
        (level - 1) * (50 * level);
      }
    }
  }

  /** Level L covers the XP range [50 L (L - 1), 50 L (L + 1)). */
  lemma LevelBracketClosedForm(xp: int)
    requires xp >= 0
    ensures 50 * LevelFor(xp) * (LevelFor(xp) - 1) <= xp < 50 * LevelFor(xp) * (LevelFor(xp) + 1)
  {
    var l := LevelFor(xp);
    LevelBracket(xp);
    XpToReachClosedForm(l);
    XpToReachClosedForm(l + 1);
    assert 50 * (l + 1) * l == 50 * l * (l + 1);
  }

  /** XP still needed to pass `level`: the size of its bucket. */
  function XpForNextLevel(level: int): (r: int)
    ensures level >= 1 ==> XpToReach(level) + r == XpToReach(level + 1)
    ensures level >= 1 ==> r >= 100
  {
    level * 100
  }

  /** Progress through the current level, as a percentage clamped to [0, 100]. */
  method LevelProgress(xp: int, level: int) returns (pct: real)
    requires level >= 1
    ensures 0.0 <= pct <= 100.0
    ensures xp <= XpToReach(level) ==> pct == 0.0
    ensures xp >= XpToReach(level + 1) ==> pct == 100.0
    ensures XpToReach(level) <= xp < XpToReach(level + 1) ==>
              pct < 100.0 && pct * (level * 100) as real == (xp - XpToReach(level)) as real * 100.0
  {
    var currentLevelXp := xp;
    for i := 1 to level
      invariant currentLevelXp == xp - XpToReach(i)
    {
      currentLevelXp := currentLevelXp - i * 100;
    }
    var required := level * 100;
    var ratio := currentLevelXp as real / required as real * 100.0;
    RatioFacts(currentLevelXp, required);
    pct := if ratio < 0.0 then 0.0 else ratio;
    pct := if pct > 100.0 then 100.0 else pct;
  }

  lemma RatioFacts(c: int, q: int)
    requires q > 0
    ensures c <= 0 ==> c as real / q as real * 100.0 <= 0.0
    ensures c >= q ==> c as real / q as real * 100.0 >= 100.0
    ensures c < q ==> c as real / q as real * 100.0 < 100.0
    ensures (c as real / q as real * 100.0) * q as real == c as real * 100.0
  {
    var d := c as real / q as real;
    assert d * q as real == c as real;
    if c >= q {
      assert d >= 1.0;
    }
    if c < q {
      assert d < 1.0;
    }
    if c <= 0 {
      assert d <= 0.0;
    }
  }

  /** The result of granting XP: the updated record and whether it levelled up. */
  datatype XpGrant = XpGrant(user: User, leveledUp: bool)

  /** A falsy multiplier (zero) counts as 1. */
  function EffectiveMultiplier(multiplier: real): (m: real)
    ensures m != 0.0
    ensures multiplier != 0.0 ==> m == multiplier
    ensures multiplier == 0.0 ==> m == 1.0
  {
    if multiplier == 0.0 then 1.0 else multiplier
  }

  /** The XP actually credited: amount times the multiplier, rounded down. */
  function XpGained(amount: int, multiplier: real): (gain: int)
    ensures gain as real <= amount as real * EffectiveMultiplier(multiplier) < gain as real + 1.0
  {
    (amount as real * EffectiveMultiplier(multiplier)).Floor
  }

  /** Grants `amount` XP: only xp and level change, the level is recomputed
      from the new xp, and the flag reports a level above the old one (an
      unset old level counts as 1). */
  function AddXp(u: User, amount: int, multiplier: real): (r: XpGrant)
    ensures r.user.xp == u.xp + XpGained(amount, multiplier)
    ensures r.user.level == LevelFor(r.user.xp)
    ensures r.user == u.(xp := r.user.xp, level := r.user.level)
    ensures r.leveledUp <==> r.user.level > (if u.level == 0 then 1 else u.level)
  {
    var newXp := u.xp + XpGained(amount, multiplier);
    var newLevel := LevelFor(newXp);
    XpGrant(u.(xp := newXp, level := newLevel), newLevel > (if u.level == 0 then 1 else u.level))
  }

  /** An account whose cached level matches its xp. */
  predicate Consistent(u: User)
  {
    u.level == LevelFor(u.xp)
  }

  /** A non-negative grant to a consistent account keeps it consistent, never
      lowers its level, and levels it up exactly when the new xp reaches the
      next bracket. */
  lemma AddXpMonotone(u: User, amount: int, multiplier: real)
    requires Consistent(u) && u.xp >= 0
    requires amount >= 0 && multiplier >= 0.0
    ensures Consistent(AddXp(u, amount, multiplier).user)
    ensures AddXp(u, amount, multiplier).user.level >= u.level
    ensures AddXp(u, amount, multiplier).leveledUp <==>
              u.xp + XpGained(amount, multiplier) >= XpToReach(u.level + 1)
  {
    var gain := XpGained(amount, multiplier);
    assert amount as real * EffectiveMultiplier(multiplier) >= 0.0;
    assert gain >= 0;
    var newXp := u.xp + gain;
    LevelMonotone(u.xp, newXp);
    LevelBracket(u.xp);
    LevelBracket(newXp);
    if newXp >= XpToReach(u.level + 1) {
      if LevelFor(newXp) <= u.level {
        XpToReachMonotone(LevelFor(newXp) + 1, u.level + 1);
      }
    } else {
      if LevelFor(newXp) > u.level {
        XpToReachMonotone(u.level + 1, LevelFor(newXp));
      }
    }
  }

  /** Points credited on a level-up, sized by the level reached. */
  function LevelUpBonus(level: int): (b: int)
    ensures level >= 1 ==> b >= 50
    ensures b % 50 == 0
    ensures b / 50 == level
  {
    level * 50
  }

  /** The record after an XP grant followed by the handlers' level-up step:
      one bonus of `LevelUpBonus(new level)` when the grant levelled up. */
  function Rewarded(u: User, amount: int, multiplier: real): (r: User)
    ensures r.xp == u.xp + XpGained(amount, multiplier)
    ensures r.level == LevelFor(r.xp)
    ensures r.points == u.points + (if AddXp(u, amount, multiplier).leveledUp then LevelUpBonus(r.level) else 0)
    ensures r == u.(xp := r.xp, level := r.level, points := r.points)
  {
    var g := AddXp(u, amount, multiplier);
    if g.leveledUp then g.user.(points := g.user.points + LevelUpBonus(g.user.level)) else g.user
  }

  /** Points never fall through an XP grant with a non-negative level. */
  lemma RewardedKeepsPoints(u: User, amount: int, multiplier: real)
    ensures Rewarded(u, amount, multiplier).points >= u.points
  {
  }

  /** One grant that crosses two levels pays one bonus, sized by the final
      level, instead of one bonus per level crossed. */
  lemma BonusPaidOncePerGrant(u: User)
    requires u.xp == 0 && u.level == 1 && u.points == 0
    ensures AddXp(u, 300, 1.0).user.level == 3
    ensures Rewarded(u, 300, 1.0).points == LevelUpBonus(3)
    ensures Rewarded(u, 300, 1.0).points < LevelUpBonus(2) + LevelUpBonus(3)
  {
    assert XpGained(300, 1.0) == 300;
    LevelUnique(300, 3);
  }
}
