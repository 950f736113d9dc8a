/**
 * Per-skill distribution of an activity's base XP: each (skill, weight) pair
 * of the activity's weight list grants round(base * weight) to that skill,
 * skipping grants that round to zero or less and skills the ledger lacks.
 * Weights are independent multipliers, so the total may exceed the base.
 */
module Distribution {
  import opened Wrappers
  import opened Catalog
  import opened Ledger
  import XpCalc

  /** What applying an activity leaves: the new skills, the XP granted in all, and per skill. */
  datatype Gain = Gain(skills: map<string, SkillState>, total: int, gainedBySkill: map<string, int>)

  /** XP one weight (in tenths) grants out of `xpBase`. */
  function Grant(xpBase: int, w: int): int
  {
    XpCalc.RoundHalfUp(xpBase * w, 10)
  }

  /** One entry of the weight list: grant its rounded share to the skill, unless it is not positive or the ledger lacks the skill. */
  function Visit(g: Gain, entry: (string, int), xpBase: int): (r: Gain)
    requires LevelsPositive(g.skills)
    ensures LevelsPositive(r.skills) && r.skills.Keys == g.skills.Keys
  {
    var (id, w) := entry;
    var x := Grant(xpBase, w);
    if x <= 0 || id !in g.skills then g
    else
      var s := g.skills[id];
      Gain(g.skills[id := Settle(s.level, s.xp + x)], g.total + x, g.gainedBySkill[id := x])
  }

  /** The effect of visiting the weight list `ws` in order, starting from `skills`. */
  function Distribute(skills: map<string, SkillState>, ws: Weights, xpBase: int): (g: Gain)
    requires LevelsPositive(skills)
    ensures LevelsPositive(g.skills) && g.skills.Keys == skills.Keys
    decreases |ws|
  {
    if ws == [] then Gain(skills, 0, map[])
    else Visit(Distribute(skills, ws[..|ws| - 1], xpBase), ws[|ws| - 1], xpBase)
  }

  /** The effect of an activity, looked up by its label; an unknown label grants nothing. */
  function ActivityGain(skills: map<string, SkillState>, name: string, xpBase: int): (g: Gain)
    requires LevelsPositive(skills)
    ensures WeightsFor(name).None? ==> g == Gain(skills, 0, map[])
  {
    match WeightsFor(name)
    case Some(ws) => Distribute(skills, ws, xpBase)
    case None => Gain(skills, 0, map[])
  }

  /** Sum of the grants recorded for the ids of `ks` (ids without a grant add nothing). */
  function SumGained(gained: map<string, int>, ks: seq<string>): int
    decreases |ks|
  {
    if ks == [] then 0
    else SumGained(gained, ks[..|ks| - 1])
         + (if ks[|ks| - 1] in gained then gained[ks[|ks| - 1]] else 0)
  }

  lemma {:induction false} SumGainedIgnores(gained: map<string, int>, ks: seq<string>, id: string, x: int)
    requires id !in ks
    ensures SumGained(gained[id := x], ks) == SumGained(gained, ks)
    decreases |ks|
  {
    if ks != [] {
      SumGainedIgnores(gained, ks[..|ks| - 1], id, x);
    }
  }

  /** The last key of a non-empty weight list does not occur earlier in it. */
  lemma LastKeyFresh(ws: Weights)
    requires DistinctKeys(ws) && ws != []
    ensures ws[|ws| - 1].0 !in WeightKeys(ws[..|ws| - 1])
    ensures DistinctKeys(ws[..|ws| - 1])
  {
    var n := |ws|;
    var p := ws[..n - 1];
    forall i | 0 <= i < n - 1 ensures WeightKeys(p)[i] != ws[n - 1].0 {
      assert p[i] == ws[i];
    }
  }

  lemma WeightKeysSnoc(ws: Weights)
    requires ws != []
    ensures WeightKeys(ws) == WeightKeys(ws[..|ws| - 1]) + [ws[|ws| - 1].0]
  {
  }

  /** Only listed skills the ledger has are granted anything, and every grant is positive. */
  lemma {:induction false} GrantedKeys(skills: map<string, SkillState>, ws: Weights, xpBase: int)
    requires LevelsPositive(skills)
    ensures var g := Distribute(skills, ws, xpBase);
      forall k :: k in g.gainedBySkill ==> k in skills && k in WeightKeys(ws) && g.gainedBySkill[k] > 0
    decreases |ws|
  {
    if ws != [] {
      GrantedKeys(skills, ws[..|ws| - 1], xpBase);
      WeightKeysSnoc(ws);
    }
  }

  /**
   * With distinct keys, a listed skill is granted XP iff the ledger has it and
   * its rounded grant is positive, and the grant recorded is that rounded value.
   */
  lemma {:induction false} GrantedExactly(skills: map<string, SkillState>, ws: Weights, xpBase: int)
    requires LevelsPositive(skills) && DistinctKeys(ws)
    ensures var g := Distribute(skills, ws, xpBase);
      forall i :: 0 <= i < |ws| ==>
        && (ws[i].0 in g.gainedBySkill <==> ws[i].0 in skills && Grant(xpBase, ws[i].1) > 0)
        && (ws[i].0 in g.gainedBySkill ==> g.gainedBySkill[ws[i].0] == Grant(xpBase, ws[i].1))
    decreases |ws|
  {
    if ws != [] {
      var n := |ws|;
      var p := ws[..n - 1];
      LastKeyFresh(ws);
      GrantedExactly(skills, p, xpBase);
      GrantedKeys(skills, p, xpBase);
      forall i | 0 <= i < n - 1 ensures ws[i] == p[i] && ws[i].0 != ws[n - 1].0 { }
    }
  }

  /**
   * With distinct keys, a granted skill ends settled with its grant added, and
   * every skill that was granted nothing is unchanged.
   */
  lemma {:induction false} SkillsAfterGrant(skills: map<string, SkillState>, ws: Weights, xpBase: int)
    requires LevelsPositive(skills) && DistinctKeys(ws)
    ensures SkillsFollowGrants(skills, Distribute(skills, ws, xpBase))
    decreases |ws|
  {
    if ws != [] {
      var n := |ws|;
      var p := ws[..n - 1];
      LastKeyFresh(ws);
      SkillsAfterGrant(skills, p, xpBase);
      GrantedKeys(skills, p, xpBase);
      VisitFollowsGrants(skills, Distribute(skills, p, xpBase), ws[n - 1], xpBase);
    }
  }

  /** Every skill is settled with its grant added if it was granted XP, and untouched otherwise. */
  ghost predicate SkillsFollowGrants(skills: map<string, SkillState>, g: Gain)
    requires LevelsPositive(skills)
  {
    && g.skills.Keys == skills.Keys
    && forall k :: k in skills ==>
         g.skills[k] == if k in g.gainedBySkill
                        then Settle(skills[k].level, skills[k].xp + g.gainedBySkill[k])
                        else skills[k]
  }

  lemma VisitFollowsGrants(skills: map<string, SkillState>, g: Gain, entry: (string, int), xpBase: int)
    requires LevelsPositive(skills) && LevelsPositive(g.skills)
    requires SkillsFollowGrants(skills, g)
    requires entry.0 !in g.gainedBySkill
    ensures SkillsFollowGrants(skills, Visit(g, entry, xpBase))
  {
    var id, x := entry.0, Grant(xpBase, entry.1);
    var r := Visit(g, entry, xpBase);
    if x > 0 && id in g.skills {
      assert g.skills[id] == skills[id];
      forall k | k in skills
        ensures r.skills[k] == if k in r.gainedBySkill
                               then Settle(skills[k].level, skills[k].xp + r.gainedBySkill[k])
                               else skills[k]
      {
        if k != id {
          assert r.skills[k] == g.skills[k];
        }
      }
    }
  }

  /** With distinct keys, the total granted is the sum of the per-skill grants. */
  lemma {:induction false} TotalIsSumOfGrants(skills: map<string, SkillState>, ws: Weights, xpBase: int)
    requires LevelsPositive(skills) && DistinctKeys(ws)
    ensures var g := Distribute(skills, ws, xpBase);
      g.total == SumGained(g.gainedBySkill, WeightKeys(ws))
    decreases |ws|
  {
    if ws != [] {
      var n := |ws|;
      var p := ws[..n - 1];
      var id, x := ws[n - 1].0, Grant(xpBase, ws[n - 1].1);
      LastKeyFresh(ws);
      WeightKeysSnoc(ws);
      TotalIsSumOfGrants(skills, p, xpBase);
      GrantedKeys(skills, p, xpBase);
      var g0 := Distribute(skills, p, xpBase);
      if x > 0 && id in g0.skills {
        SumGainedIgnores(g0.gainedBySkill, WeightKeys(p), id, x);
      }
    }
  }

  /**
   * Applying an activity never lowers a level and adds to each granted
   * skill's lifetime XP exactly its grant; all other skills keep theirs.
   */
  lemma DistributeConservesXp(skills: map<string, SkillState>, ws: Weights, xpBase: int, k: string)
    requires LevelsPositive(skills) && DistinctKeys(ws) && k in skills
    ensures var g := Distribute(skills, ws, xpBase);
      && g.skills[k].level >= skills[k].level
      && TotalXp(g.skills[k]) == TotalXp(skills[k]) + (if k in g.gainedBySkill then g.gainedBySkill[k] else 0)
  {
    SkillsAfterGrant(skills, ws, xpBase);
    var g := Distribute(skills, ws, xpBase);
    if k in g.gainedBySkill {
      var s := skills[k];
      SettleSpec(s.level, s.xp + g.gainedBySkill[k]);
      XpBetweenSplit(1, s.level, g.skills[k].level);
    }
  }
}
