/**
 * The browser client's progress state and the engine steps that change it:
 * applying an activity's XP, generating and advancing daily quests, the
 * load-time migration and normalisation, and completing an activity.
 * The state is passed explicitly as an object instead of living in a
 * module-level singleton.
 */
module Dashboard {
  import opened Wrappers
  import opened Catalog
  import opened Ledger
  import opened XpCalc
  import opened Distribution
  import opened Records
  import opened Quests
  import opened Migration
  import opened Titles

  /** The skills of a fresh state: every catalog skill at level 1 with 0 XP, and nothing else. */
  function DefaultSkills(): map<string, SkillState>
  {
    map id | id in Skills :: Fresh
  }

  /** The quests of a day after an activity; a day without quests is left alone. */
  function QuestsAdvanced(questsByDay: map<string, seq<Quest>>, day: string, a: LogEntry): (r: map<string, seq<Quest>>)
    ensures r.Keys == questsByDay.Keys
    ensures forall d :: d in r && d != day ==> r[d] == questsByDay[d]
    ensures day in r ==> r[day] == AdvanceAll(questsByDay[day], a)
  {
    if day in questsByDay then questsByDay[day := AdvanceAll(questsByDay[day], a)] else questsByDay
  }

  /** The minutes a completion records: the form's value, at least 1. */
  function ClampMinutes(m: int): (r: int)
    ensures r >= 1 && (m >= 1 ==> r == m) && (m < 1 ==> r == 1)
  {
    if m < 1 then 1 else m
  }

  /** The difficulty a completion records: the form's value, "facil" when empty. */
  function DifficultyOrDefault(d: string): (r: string)
    ensures r != "" && (d != "" ==> r == d) && (d == "" ==> r == "facil")
  {
    if d == "" then "facil" else d
  }

  /**
   * Visits a weight list in order, granting each listed skill that exists its
   * share of `xpBase` through the level-up loop; absent skills and shares
   * that round to 0 are skipped.
   */
  method GrantWeights(skills: map<string, SkillState>, ws: Weights, xpBase: int) returns (g: Gain)
    requires LevelsPositive(skills)
    ensures g == Distribute(skills, ws, xpBase)
    ensures LevelsPositive(g.skills)
  {
    var s, total, gainedBySkill := skills, 0, map[];
    for i := 0 to |ws|
      invariant LevelsPositive(s)
      invariant Distribute(skills, ws[..i], xpBase) == Gain(s, total, gainedBySkill)
    {
      assert ws[..i + 1][..i] == ws[..i];
      var (skillId, peso) := ws[i];
      var xpFinal := Grant(xpBase, peso);
      if xpFinal <= 0 || skillId !in s {
        continue;
      }
      var grown := AddXP(s[skillId], xpFinal);
      s := s[skillId := grown];
      gainedBySkill := gainedBySkill[skillId := xpFinal];
      total := total + xpFinal;
    }
    assert ws[..|ws|] == ws;
    g := Gain(s, total, gainedBySkill);
  }

  /**
   * Renames the legacy skill ids (an existing new-id entry wins), then adds
   * every missing catalog skill at level 1 with 0 XP.
   */
  method MigrateSkillMap(skills: map<string, SkillState>) returns (r: map<string, SkillState>)
    ensures r == MigratedSkills(skills)
  {
    r := RenameLegacy(skills);
    r := FillCatalog(r, Skills);
  }

  /** Adds, id by id, every id of `ids` missing from the map at level 1 with 0 XP. */
  method FillCatalog(skills: map<string, SkillState>, ids: seq<string>) returns (r: map<string, SkillState>)
    ensures r == WithCatalog(skills, ids)
  {
    r := skills;
    for i := 0 to |ids|
      invariant r == WithCatalog(skills, ids[..i])
    {
      assert ids[..i + 1][..i] == ids[..i];
      if ids[i] !in r {
        r := r[ids[i] := Fresh];
      }
    }
    assert ids[..|ids|] == ids;
  }

  /** The legacy renaming step of the migration, statement by statement. */
  method RenameLegacy(skills: map<string, SkillState>) returns (r: map<string, SkillState>)
    ensures r == RenamedSkills(skills)
  {
    r := skills;
    if LegacyFoco in r && "determinacao" !in r {
      r := r["determinacao" := r[LegacyFoco]];
    }
    if LegacyEstudo in r && "inteligencia" !in r {
      r := r["inteligencia" := r[LegacyEstudo]];
    }
    r := r - {LegacyFoco, LegacyEstudo};
  }

  /** Renames the primary skill and the breakdown keys of every log entry, in place. */
  method MigrateLog(log: seq<LogEntry>) returns (r: seq<LogEntry>)
    ensures r == MigratedLog(log)
  {
    r := log;
    for i := 0 to |r|
      invariant |r| == |log|
      invariant forall j :: 0 <= j < i ==> r[j] == MigratedEntry(log[j])
      invariant forall j :: i <= j < |r| ==> r[j] == log[j]
    {
      var entry := r[i];
      entry := entry.(skill := RemapId(entry.skill));
      if entry.gainedBySkill.Some? {
        var mapped := RemapBreakdown(entry.gainedBySkill.value);
        entry := entry.(gainedBySkill := Some(mapped));
      }
      r := r[i := entry];
    }
  }

  class UserState {
    var createdAt: int
    var skills: map<string, SkillState>
    var dailyEarned: map<string, Earned>
    var questsByDay: map<string, seq<Quest>>
    var log: seq<LogEntry>

    /** A fresh state: all catalog skills at level 1 with 0 XP, nothing earned, no quests, empty log. */
    constructor Default(now: int)
      ensures createdAt == now && skills == DefaultSkills()
      ensures dailyEarned == map[] && questsByDay == map[] && log == []
    {
      var s: map<string, SkillState> := map[];
      for i := 0 to |Skills|
        invariant s == map id | id in Skills[..i] :: Fresh
      {
        assert Skills[..i + 1] == Skills[..i] + [Skills[i]];
        s := s[Skills[i] := Fresh];
      }
      assert Skills[..|Skills|] == Skills;
      createdAt, skills, dailyEarned, questsByDay, log := now, s, map[], map[], [];
    }

    /**
     * A stored state as loaded: each missing part is replaced by its
     * default (the default skills, or an empty map or log).
     */
    constructor Stored(at: int, storedSkills: Option<map<string, SkillState>>,
                       storedEarned: Option<map<string, Earned>>,
                       storedQuests: Option<map<string, seq<Quest>>>,
                       storedLog: Option<seq<LogEntry>>)
      ensures createdAt == at
      ensures skills == if storedSkills.Some? then storedSkills.value else DefaultSkills()
      ensures dailyEarned == if storedEarned.Some? then storedEarned.value else map[]
      ensures questsByDay == if storedQuests.Some? then storedQuests.value else map[]
      ensures log == if storedLog.Some? then storedLog.value else []
    {
      createdAt := at;
      skills := if storedSkills.Some? then storedSkills.value else DefaultSkills();
      dailyEarned := if storedEarned.Some? then storedEarned.value else map[];
      questsByDay := if storedQuests.Some? then storedQuests.value else map[];
      log := if storedLog.Some? then storedLog.value else [];
    }

    /**
     * Grants an activity's XP to the skills its label trains, visiting the
     * label's weight list in order; returns the total and the per-skill grants.
     */
    method AplicarXPAtividade(name: string, xpBase: int) returns (total: int, gainedBySkill: map<string, int>)
      requires LevelsPositive(skills)
      modifies this
      ensures skills == ActivityGain(old(skills), name, xpBase).skills
      ensures total == ActivityGain(old(skills), name, xpBase).total
      ensures gainedBySkill == ActivityGain(old(skills), name, xpBase).gainedBySkill
      ensures WeightsFor(name).None? ==> total == 0 && gainedBySkill == map[] && skills == old(skills)
      ensures LevelsPositive(skills)
      ensures createdAt == old(createdAt) && dailyEarned == old(dailyEarned)
      ensures questsByDay == old(questsByDay) && log == old(log)
    {
      var found := WeightsFor(name);
      if found.None? {
        return 0, map[];
      }
      var g := GrantWeights(skills, found.value, xpBase);
      skills, total, gainedBySkill := g.skills, g.total, g.gainedBySkill;
    }

    /**
     * Draws the three quests of `dateKey` (slot i gets id "<dateKey>-i") and
     * replaces that day's quest list with them. `skillIds` lists the keys of
     * the skill map in their enumeration order; `picks` are the random draws.
     */
    method GenerateQuests(dateKey: string, skillIds: seq<string>, picks: seq<Pick>) returns (quests: seq<Quest>)
      requires forall k :: k in skillIds <==> k in skills
      requires |picks| == 3 && forall i :: 0 <= i < 3 ==> ValidPick(picks[i], |skillIds|)
      modifies this
      ensures |quests| == 3
      ensures forall i :: 0 <= i < 3 ==> quests[i] == NewQuest(dateKey, i, skillIds, picks[i])
      ensures forall i :: 0 <= i < 3 ==> quests[i].skill in skills && quests[i].progress == 0 && !quests[i].done
      ensures questsByDay == old(questsByDay)[dateKey := quests]
      ensures createdAt == old(createdAt) && skills == old(skills)
      ensures dailyEarned == old(dailyEarned) && log == old(log)
    {
      quests := [];
      for i := 0 to 3
        invariant |quests| == i
        invariant forall j :: 0 <= j < i ==> quests[j] == NewQuest(dateKey, j, skillIds, picks[j])
      {
        var p := picks[i];
        var skill := skillIds[p.skill];
        var t := Templates[p.template];
        if t == Minutes {
          quests := quests + [Quest(QuestId(dateKey, i), skill, Minutes, MinuteTargets[p.target], 0, false)];
        } else if t == NoDistraction {
          quests := quests + [Quest(QuestId(dateKey, i), skill, NoDistraction, 1, 0, false)];
        } else {
          quests := quests + [Quest(QuestId(dateKey, i), skill, Count, CountTargets[p.target], 0, false)];
        }
      }
      questsByDay := questsByDay[dateKey := quests];
    }

    /**
     * Advances the quests of `dateKey` with a completed activity: quests not
     * done and of the activity's skill gain progress and are marked done once
     * they reach their target. A day without quests is left alone.
     */
    method UpdateQuestsWithActivity(dateKey: string, activity: LogEntry)
      modifies this
      ensures questsByDay == QuestsAdvanced(old(questsByDay), dateKey, activity)
      ensures createdAt == old(createdAt) && skills == old(skills)
      ensures dailyEarned == old(dailyEarned) && log == old(log)
    {
      if dateKey !in questsByDay {
        return;
      }
      var quests := questsByDay[dateKey];
      ghost var before := quests;
      for i := 0 to |quests|
        invariant |quests| == |before|
        invariant forall j :: 0 <= j < i ==> quests[j] == AdvanceQuest(before[j], activity)
        invariant forall j :: i <= j < |quests| ==> quests[j] == before[j]
      {
        var q := quests[i];
        if q.done || q.skill != activity.skill {
          continue;
        }
        var progress := q.progress;
        if q.kind == Minutes {
          progress := progress + activity.minutes;
        }
        if q.kind == Count {
          progress := progress + 1;
        }
        if q.kind == NoDistraction {
          progress := progress + if activity.noDistraction then 1 else 0;
        }
        q := q.(progress := progress);
        if q.progress >= q.target {
          q := q.(done := true);
        }
        quests := quests[i := q];
      }
      assert quests == AdvanceAll(before, activity);
      questsByDay := questsByDay[dateKey := quests];
    }

    /**
     * Renames the legacy skill ids in the skill map (an existing new-id entry
     * wins), adds every missing catalog skill at level 1, and renames the
     * primary skill and the breakdown keys of every log entry.
     */
    method MigrateStateSkills()
      modifies this
      ensures skills == MigratedSkills(old(skills))
      ensures log == MigratedLog(old(log))
      ensures old(LevelsPositive(skills)) ==> LevelsPositive(skills)
      ensures createdAt == old(createdAt) && dailyEarned == old(dailyEarned)
      ensures questsByDay == old(questsByDay)
    {
      if LevelsPositive(skills) {
        MigratedSkillsKeepLevels(skills);
      }
      skills := MigrateSkillMap(skills);
      log := MigrateLog(log);
    }

    /** Keeps only the YYYY-MM-DD keys of the daily-earned map, a non-finite amount read as 0. */
    method NormalizeDailyEarned()
      modifies this
      ensures dailyEarned == NormalizedEarned(old(dailyEarned))
      ensures createdAt == old(createdAt) && skills == old(skills)
      ensures questsByDay == old(questsByDay) && log == old(log)
    {
      var fixed: map<string, Earned> := map[];
      var rest := dailyEarned.Keys;
      while rest != {}
        invariant rest <= dailyEarned.Keys
        invariant fixed == map k | k in dailyEarned.Keys - rest && IsDayKey(k) :: Finite(EarnedOn(dailyEarned, k))
        decreases rest
      {
        var k :| k in rest;
        if IsDayKey(k) {
          var n := dailyEarned[k];
          fixed := fixed[k := if n.Finite? then n else Finite(0)];
        }
        rest := rest - {k};
      }
      dailyEarned := fixed;
    }

    /**
     * Completes an activity: looks it up by id (an unknown id means the first
     * activity), computes its base XP, grants it to the skills, adds the total
     * to today's earned XP, appends one log entry and advances today's quests.
     */
    method CompleteActivity(activityId: string, minutesInput: int, difficultyInput: string,
                            noDistraction: bool, today: string, now: int) returns (gained: int)
      requires LevelsPositive(skills)
      modifies this
      ensures var activity := FindActivity(activityId);
        var minutes := ClampMinutes(minutesInput);
        var difficulty := DifficultyOrDefault(difficultyInput);
        var g := ActivityGain(old(skills), activity.name, ComputeXP(minutes, difficulty, noDistraction));
        var entry := LogEntry(now, activity.skill, minutes, difficulty, noDistraction, g.total, Some(g.gainedBySkill));
        && gained == g.total
        && skills == g.skills
        && log == old(log) + [entry]
        && questsByDay == QuestsAdvanced(old(questsByDay), today, entry)
      ensures dailyEarned == old(dailyEarned)[today := Finite(EarnedOn(old(dailyEarned), today) + gained)]
      ensures |log| == |old(log)| + 1 && log[..|old(log)|] == old(log) && log[|old(log)|].gained == gained
      ensures LevelsPositive(skills) && createdAt == old(createdAt)
    {
      var activity := FindActivity(activityId);
      var skill := activity.skill;
      var minutes := ClampMinutes(minutesInput);
      var difficulty := DifficultyOrDefault(difficultyInput);
      var xpBase := ComputeXP(minutes, difficulty, noDistraction);
      var gainedBySkill;
      gained, gainedBySkill := AplicarXPAtividade(activity.name, xpBase);

      var prev := EarnedOn(dailyEarned, today);
      dailyEarned := dailyEarned[today := Finite(prev + gained)];

      var entry := LogEntry(now, skill, minutes, difficulty, noDistraction, gained, Some(gainedBySkill));
      log := log + [entry];

      UpdateQuestsWithActivity(today, entry);
    }
  }

  /**
   * Completing an activity never lowers the overall level, so never the
   * title tier either.
   */
  lemma ActivityNeverLowersTitle(skills: map<string, SkillState>, name: string, xpBase: int)
    requires LevelsPositive(skills)
    ensures OverallLevel(ActivityGain(skills, name, xpBase).skills) >= OverallLevel(skills)
    ensures TierIndex(OverallLevel(ActivityGain(skills, name, xpBase).skills)) >= TierIndex(OverallLevel(skills))
  {
    var after := ActivityGain(skills, name, xpBase).skills;
    if WeightsFor(name).Some? {
      WeightsWellFormed(name);
      forall i | 0 <= i < |Skills| ensures LevelOf(skills, Skills[i]) <= LevelOf(after, Skills[i]) {
        if Skills[i] in skills {
          DistributeConservesXp(skills, WeightsFor(name).value, xpBase, Skills[i]);
        }
      }
    }
    LevelSumMonotonic(skills, after, Skills);
    TierIndexMonotonic(OverallLevel(skills), OverallLevel(after));
  }

  /**
   * The end-to-end example: from a fresh state, 20 minutes of "Treinar
   * (musculação)" at medium difficulty without focus is worth 46 base XP;
   * saude gains 46, disciplina 23 and energia 18 (87 in all), and a count
   * quest on saude with target 1 is then done.
   */
  lemma TrainingScenario()
    ensures ComputeXP(20, "medio", false) == 46
    ensures var g := ActivityGain(DefaultSkills(), "Treinar (musculação)", 46);
      && g.gainedBySkill == map["saude" := 46, "disciplina" := 23, "energia" := 18]
      && g.total == 87
      && g.skills["saude"] == SkillState(1, 46)
      && AdvanceQuest(Quest("d-0", "saude", Count, 1, 0, false),
                      LogEntry(0, "saude", 20, "medio", false, g.total, Some(g.gainedBySkill))).done
  {
    var ws := ActivitySkillTable[1].1;
    assert WeightsFor("Treinar (musculação)") == Some(ws);
    var s0 := DefaultSkills();
    assert Skills[4] == "saude" && Skills[2] == "disciplina" && Skills[5] == "energia";
    assert "saude" in s0 && "disciplina" in s0 && "energia" in s0;
    assert s0["saude"] == Fresh;
    assert ws == [("saude", 10), ("disciplina", 5), ("energia", 4)];
    assert Grant(46, 10) == 46 && Grant(46, 5) == 23 && Grant(46, 4) == 18;
    assert Settle(1, 46) == SkillState(1, 46);
    var g0 := Gain(s0, 0, map[]);
    assert ws[..0] == [] && ws[..1][..0] == [] && ws[..2][..1] == ws[..1] && ws[..3] == ws;
    var g1 := Visit(g0, ws[0], 46);
    assert Distribute(s0, ws[..1], 46) == g1;
    assert g1.skills["saude"] == SkillState(1, 46);
    var g2 := Visit(g1, ws[1], 46);
    assert Distribute(s0, ws[..2], 46) == g2;
    var g3 := Visit(g2, ws[2], 46);
    assert Distribute(s0, ws, 46) == g3;
    assert g3.gainedBySkill == map["saude" := 46, "disciplina" := 23, "energia" := 18];
  }
}
