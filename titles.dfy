/**
 * Ranking and title resolution: the overall level (sum of the catalog
 * skills' levels) and the title tier it reaches.
 */
module Titles {
  import opened Wrappers
  import opened Catalog
  import opened Ledger

  /** The level a skill map records for `id`, a missing skill counting as 0. */
  function LevelOf(skills: map<string, SkillState>, id: string): int
  {
    if id in skills then skills[id].level else 0
  }

  /** Sum of the levels of the ids in `ids`. */
  function LevelSum(skills: map<string, SkillState>, ids: seq<string>): int
    decreases |ids|
  {
    if ids == [] then 0 else LevelSum(skills, ids[..|ids| - 1]) + LevelOf(skills, ids[|ids| - 1])
  }

  /** The overall level: the levels of the eight catalog skills added up. */
  function OverallLevel(skills: map<string, SkillState>): int
  {
    LevelSum(skills, Skills)
  }

  /** The levels of `ids` added up, one id at a time, as the summing loop does. */
  method SumLevels(skills: map<string, SkillState>, ids: seq<string>) returns (sum: int)
    ensures sum == LevelSum(skills, ids)
  {
    sum := 0;
    for i := 0 to |ids|
      invariant sum == LevelSum(skills, ids[..i])
    {
      assert ids[..i + 1][..i] == ids[..i];
      sum := sum + LevelOf(skills, ids[i]);
    }
    assert ids[..|ids|] == ids;
  }

  /** Raising no level of the listed ids cannot lower their sum. */
  lemma {:induction false} LevelSumMonotonic(s: map<string, SkillState>, t: map<string, SkillState>, ids: seq<string>)
    requires forall i :: 0 <= i < |ids| ==> LevelOf(s, ids[i]) <= LevelOf(t, ids[i])
    ensures LevelSum(s, ids) <= LevelSum(t, ids)
    decreases |ids|
  {
    if ids != [] {
      LevelSumMonotonic(s, t, ids[..|ids| - 1]);
    }
  }

  /** Only the catalog skills count; other keys (legacy ids, say) do not change the overall level. */
  lemma {:induction false} LevelSumIgnoresOthers(s: map<string, SkillState>, id: string, v: SkillState, ids: seq<string>)
    requires id !in ids
    ensures LevelSum(s[id := v], ids) == LevelSum(s, ids)
    decreases |ids|
  {
    if ids != [] {
      LevelSumIgnoresOthers(s, id, v, ids[..|ids| - 1]);
    }
  }

  datatype Tier = Tier(min: int, title: string)

  /** The title table, by ascending minimum overall level. */
  const Tiers: seq<Tier> := [
    Tier(0, "Beta"),
    Tier(10, "Iniciante"),
    Tier(20, "Em progresso"),
    Tier(35, "Intermediário"),
    Tier(50, "Avançado"),
    Tier(70, "Elite"),
    Tier(100, "Alfa"),
    Tier(130, "Lendário"),
    Tier(170, "mestre"),
    Tier(220, "aura ♾️")
  ]

  lemma TiersAscending()
    ensures forall i, j :: 0 <= i < j < |Tiers| ==> Tiers[i].min < Tiers[j].min
  {
  }

  /**
   * The scan over tiers i.. that keeps the last one whose minimum the total
   * reaches, starting from the tier index `best`.
   */
  function ScanTiers(total: int, i: nat, best: nat): (k: nat)
    requires i <= |Tiers| && best < |Tiers|
    ensures k < |Tiers|
    ensures k == best || (i <= k && Tiers[k].min <= total)
    ensures forall j :: i <= j < |Tiers| && k < j ==> Tiers[j].min > total
    ensures (forall j :: i <= j < |Tiers| ==> Tiers[j].min > total) ==> k == best
    decreases |Tiers| - i
  {
    if i == |Tiers| then best
    else ScanTiers(total, i + 1, if total >= Tiers[i].min then i else best)
  }

  /**
   * The index of the tier reached: the last whose minimum is at most the
   * total, or the first tier when the total is below every minimum.
   */
  function TierIndex(total: int): (k: nat)
    ensures k < |Tiers|
    ensures k == 0 || Tiers[k].min <= total
    ensures total >= 0 ==> Tiers[k].min <= total
    ensures forall j :: k < j < |Tiers| ==> Tiers[j].min > total
  {
    ScanTiers(total, 0, 0)
  }

  /** The first tier from index i on whose minimum exceeds m, if any. */
  function FirstAbove(m: int, i: nat): (r: Option<nat>)
    requires i <= |Tiers|
    ensures r.Some? ==> i <= r.value < |Tiers| && Tiers[r.value].min > m
    ensures r.Some? ==> forall j :: i <= j < r.value ==> Tiers[j].min <= m
    ensures r.None? ==> forall j :: i <= j < |Tiers| ==> Tiers[j].min <= m
    decreases |Tiers| - i
  {
    if i == |Tiers| then None
    else if Tiers[i].min > m then Some(i)
    else FirstAbove(m, i + 1)
  }

  /** In the ascending table, the first tier above tier k's minimum is tier k + 1. */
  lemma {:induction false} FirstAboveNext(k: nat, i: nat)
    requires k < |Tiers| && i <= k + 1
    ensures FirstAbove(Tiers[k].min, i) == if k + 1 < |Tiers| then Some(k + 1) else None
    decreases k + 1 - i
  {
    TiersAscending();
    if i <= k {
      FirstAboveNext(k, i + 1);
    }
  }

  datatype TitleInfo = TitleInfo(current: string, nextMin: Option<int>, nextTitle: Option<string>)

  /** The title of an overall level, with the next tier's minimum and title (none at the top). */
  function PersonalTitle(total: int): (t: TitleInfo)
    ensures t.current == Tiers[TierIndex(total)].title
    ensures t.nextMin.Some? ==> t.nextMin.value > total
    ensures t.nextMin.None? <==> TierIndex(total) == |Tiers| - 1
    ensures t.nextMin.Some? ==>
              t.nextMin == Some(Tiers[TierIndex(total) + 1].min)
              && t.nextTitle == Some(Tiers[TierIndex(total) + 1].title)
    ensures t.nextMin.None? <==> t.nextTitle.None?
  {
    var best := TierIndex(total);
    var next := FirstAbove(Tiers[best].min, 0);
    FirstAboveNext(best, 0);
    match next
    case Some(n) => TitleInfo(Tiers[best].title, Some(Tiers[n].min), Some(Tiers[n].title))
    case None => TitleInfo(Tiers[best].title, None, None)
  }

  /**
   * The title lookup as a scan: keep the last tier whose minimum the total
   * reaches (the first tier when none is), then take the first tier whose
   * minimum is above the kept one's.
   */
  method ResolveTitle(total: int) returns (t: TitleInfo)
    ensures t == PersonalTitle(total)
  {
    var best := 0;
    for i := 0 to |Tiers|
      invariant best < |Tiers|
      invariant ScanTiers(total, i, best) == TierIndex(total)
    {
      if total >= Tiers[i].min {
        best := i;
      }
    }
    var next: Option<nat> := None;
    var i := 0;
    while i < |Tiers| && next.None?
      invariant 0 <= i <= |Tiers|
      invariant next.None? ==> FirstAbove(Tiers[best].min, i) == FirstAbove(Tiers[best].min, 0)
      invariant next.Some? ==> next == FirstAbove(Tiers[best].min, 0)
      decreases |Tiers| - i, if next.None? then 1 else 0
    {
      if Tiers[i].min > Tiers[best].min {
        next := Some(i);
      }
      i := i + 1;
    }
    match next
    case Some(n) => t := TitleInfo(Tiers[best].title, Some(Tiers[n].min), Some(Tiers[n].title));
    case None => t := TitleInfo(Tiers[best].title, None, None);
  }

  /** A higher overall level never reaches a lower tier. */
  lemma TierIndexMonotonic(a: int, b: int)
    requires a <= b
    ensures TierIndex(a) <= TierIndex(b)
  {
    var ka := TierIndex(a);
    if ka != 0 {
      assert Tiers[ka].min <= b;
    }
  }

  /** The listed ids all at level 1 sum to their count. */
  lemma {:induction false} LevelSumOfOnes(skills: map<string, SkillState>, ids: seq<string>)
    requires forall i :: 0 <= i < |ids| ==> ids[i] in skills && skills[ids[i]].level == 1
    ensures LevelSum(skills, ids) == |ids|
    decreases |ids|
  {
    if ids != [] {
      LevelSumOfOnes(skills, ids[..|ids| - 1]);
    }
  }

  /** A fresh account (eight skills at level 1) has overall level 8: "Beta", next "Iniciante" at 10. */
  lemma DefaultTitle(skills: map<string, SkillState>)
    requires forall i :: 0 <= i < |Skills| ==> Skills[i] in skills && skills[Skills[i]].level == 1
    ensures OverallLevel(skills) == 8
    ensures PersonalTitle(OverallLevel(skills)) == TitleInfo("Beta", Some(10), Some("Iniciante"))
  {
    LevelSumOfOnes(skills, Skills);
  }
}
