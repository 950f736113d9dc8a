/**
 * The skill ledger: one (level, xp) pair per skill and the level-up rule.
 * Reaching the next level from `level` costs 100 + (level - 1) * 40 XP.
 */
module Ledger {

  datatype SkillState = SkillState(level: int, xp: int)

  /** The state of every skill in a fresh account. */
  const Fresh := SkillState(1, 0)

  /** XP needed to leave `level`. */
  function XpToNext(level: int): (r: int)
    ensures level >= 1 ==> r >= 100
  {
    100 + (level - 1) * 40
  }

  /** A skill with its XP overflow resolved. */
  predicate Settled(s: SkillState)
  {
    s.level >= 1 && 0 <= s.xp < XpToNext(s.level)
  }

  /** Every skill in the map is at level 1 or above. */
  predicate LevelsPositive(skills: map<string, SkillState>)
  {
    forall k :: k in skills ==> skills[k].level >= 1
  }

  /** XP it costs to climb from level `lo` to level `hi` (zero when hi <= lo). */
  function XpBetween(lo: int, hi: int): int
    decreases hi - lo
  {
    if hi <= lo then 0 else XpToNext(lo) + XpBetween(lo + 1, hi)
  }

  /** All the XP a skill has ever earned: the cost of the levels it climbed plus what it holds. */
  function TotalXp(s: SkillState): int
  {
    XpBetween(1, s.level) + s.xp
  }

  /**
   * Resolves overflow: while the XP held reaches the cost of the current
   * level, pay it and go up one level.
   */
  function Settle(level: int, xp: int): (r: SkillState)
    requires level >= 1
    ensures r.level >= level
    decreases xp
  {
    if xp < XpToNext(level) then SkillState(level, xp)
    else Settle(level + 1, xp - XpToNext(level))
  }

  /**
   * Settling never lowers the level, leaves no overflow, keeps the XP
   * non-negative when it started so, and conserves XP: the levels paid for
   * plus the XP left equal the XP it started with.
   */
  lemma {:induction false} SettleSpec(level: int, xp: int)
    requires level >= 1
    ensures Settle(level, xp).level >= level
    ensures Settle(level, xp).xp < XpToNext(Settle(level, xp).level)
    ensures xp >= 0 ==> Settle(level, xp).xp >= 0
    ensures XpBetween(level, Settle(level, xp).level) + Settle(level, xp).xp == xp
    decreases xp
  {
    if xp >= XpToNext(level) {
      SettleSpec(level + 1, xp - XpToNext(level));
    }
  }

  lemma {:induction false} XpBetweenSplit(a: int, b: int, c: int)
    requires a <= b <= c
    ensures XpBetween(a, c) == XpBetween(a, b) + XpBetween(b, c)
    decreases b - a
  {
    if a < b {
      XpBetweenSplit(a + 1, b, c);
    }
  }

  /** Closed form of the cost of reaching `level` from level 1. */
  lemma {:induction false} XpBetweenClosedForm(level: int)
    requires level >= 1
    ensures XpBetween(1, level) == 100 * (level - 1) + 20 * (level - 1) * (level - 2)
    decreases level
  {
    if level > 1 {
      XpBetweenClosedForm(level - 1);
      XpBetweenSplit(1, level - 1, level);
    }
  }

  /**
   * Adding XP to a skill, as the ledger does it: add the amount, then pay
   * for levels while the XP held reaches the cost of the current level.
   */
  method AddXP(s: SkillState, amount: int) returns (r: SkillState)
    requires s.level >= 1
    ensures r == Settle(s.level, s.xp + amount)
    ensures r.level >= s.level
    ensures r.xp < XpToNext(r.level)
    ensures s.xp + amount >= 0 ==> r.xp >= 0
    ensures XpBetween(s.level, r.level) + r.xp == s.xp + amount
    ensures TotalXp(r) == TotalXp(s) + amount
  {
    var level, xp := s.level, s.xp + amount;
    while xp >= XpToNext(level)
      invariant level >= s.level
      invariant Settle(level, xp) == Settle(s.level, s.xp + amount)
      invariant XpBetween(s.level, level) + xp == s.xp + amount
      invariant s.xp + amount >= 0 ==> xp >= 0
      decreases xp
    {
      XpBetweenSplit(s.level, level, level + 1);
      xp := xp - XpToNext(level);
      level := level + 1;
    }
    r := SkillState(level, xp);
    XpBetweenSplit(1, s.level, level);
  }

  /**
   * A settled skill is recovered from its lifetime XP alone: settling that
   * total from level 1 gives the skill back.
   */
  lemma SettleTotalXp(s: SkillState)
    requires Settled(s)
    ensures Settle(1, TotalXp(s)) == s
  {
    SettleFrom(1, s);
  }

  lemma {:induction false} SettleFrom(k: int, s: SkillState)
    requires Settled(s) && 1 <= k <= s.level
    ensures Settle(k, XpBetween(k, s.level) + s.xp) == s
    decreases s.level - k
  {
    if k < s.level {
      SettleFrom(k + 1, s);
      assert XpBetween(k + 1, s.level) >= 0 by { XpBetweenNonNegative(k + 1, s.level); }
    }
  }

  lemma {:induction false} XpBetweenNonNegative(lo: int, hi: int)
    requires lo >= 1
    ensures XpBetween(lo, hi) >= 0
    decreases hi - lo
  {
    if lo < hi {
      XpBetweenNonNegative(lo + 1, hi);
    }
  }

  /** Two settled skills with the same lifetime XP are the same skill state. */
  lemma TotalXpInjective(s: SkillState, t: SkillState)
    requires Settled(s) && Settled(t)
    requires TotalXp(s) == TotalXp(t)
    ensures s == t
  {
    SettleTotalXp(s);
    SettleTotalXp(t);
  }
}
