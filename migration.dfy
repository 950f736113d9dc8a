/**
 * Load-time normalisation of a stored progress state: renaming the legacy
 * skill ids ("foco" became "determinacao", "estudo" became "inteligencia"),
 * filling in missing catalog skills, and sanitising the daily-earned map.
 */
module Migration {
  import opened Wrappers
  import opened Catalog
  import opened Ledger
  import opened Records

  /** The current id for a possibly legacy skill id. */
  function RemapId(k: string): (nk: string)
    ensures nk != LegacyFoco && nk != LegacyEstudo
    ensures k == LegacyFoco ==> nk == "determinacao"
    ensures k == LegacyEstudo ==> nk == "inteligencia"
    ensures k != LegacyFoco && k != LegacyEstudo ==> nk == k
  {
    if k == LegacyFoco then "determinacao" else if k == LegacyEstudo then "inteligencia" else k
  }

  /**
   * The skill map after the legacy renaming: a legacy entry moves to its new
   * id only when the new id is absent (an existing new entry wins); legacy
   * keys are then deleted.
   */
  function RenamedSkills(skills: map<string, SkillState>): map<string, SkillState>
  {
    var s1 := if LegacyFoco in skills && "determinacao" !in skills
              then skills["determinacao" := skills[LegacyFoco]] else skills;
    var s2 := if LegacyEstudo in s1 && "inteligencia" !in s1
              then s1["inteligencia" := s1[LegacyEstudo]] else s1;
    s2 - {LegacyFoco, LegacyEstudo}
  }

  /** The map with every catalog skill among `ids` that is missing added at level 1 with 0 XP. */
  function WithCatalog(skills: map<string, SkillState>, ids: seq<string>): (r: map<string, SkillState>)
    ensures r.Keys == skills.Keys + set i | 0 <= i < |ids| :: ids[i]
    ensures forall k :: k in skills ==> r[k] == skills[k]
    ensures forall k :: k in r && k !in skills ==> r[k] == Fresh
    decreases |ids|
  {
    if ids == [] then skills
    else
      var r := WithCatalog(skills, ids[..|ids| - 1]);
      var id := ids[|ids| - 1];
      if id in r then r else r[id := Fresh]
  }

  /** The skill map a load produces. */
  function MigratedSkills(skills: map<string, SkillState>): map<string, SkillState>
  {
    WithCatalog(RenamedSkills(skills), Skills)
  }

  /**
   * The renaming removes the legacy ids, keeps an existing new-id entry over
   * the legacy one, moves a legacy entry to a missing new id, and keeps every
   * other entry.
   */
  lemma RenamedSkillsSpec(skills: map<string, SkillState>)
    ensures var r := RenamedSkills(skills);
      && LegacyFoco !in r && LegacyEstudo !in r
      && ("determinacao" in r <==> "determinacao" in skills || LegacyFoco in skills)
      && ("determinacao" in skills ==> r["determinacao"] == skills["determinacao"])
      && ("determinacao" !in skills && LegacyFoco in skills ==> r["determinacao"] == skills[LegacyFoco])
      && ("inteligencia" in r <==> "inteligencia" in skills || LegacyEstudo in skills)
      && ("inteligencia" in skills ==> r["inteligencia"] == skills["inteligencia"])
      && ("inteligencia" !in skills && LegacyEstudo in skills ==> r["inteligencia"] == skills[LegacyEstudo])
      && (forall k :: k != "determinacao" && k != "inteligencia" ==>
            (k in r <==> k in skills && k != LegacyFoco && k != LegacyEstudo))
      && (forall k :: k in r && k != "determinacao" && k != "inteligencia" ==> r[k] == skills[k])
  {
  }

  /**
   * After migration every catalog skill is present and the legacy ids are
   * gone; entries the renaming produced are kept and the catalog skills it
   * lacked start at level 1 with 0 XP.
   */
  lemma MigratedSkillsSpec(skills: map<string, SkillState>)
    ensures var r := MigratedSkills(skills);
      && (forall i :: 0 <= i < |Skills| ==> Skills[i] in r)
      && LegacyFoco !in r && LegacyEstudo !in r
      && (forall k :: k in RenamedSkills(skills) ==> r[k] == RenamedSkills(skills)[k])
      && (forall k :: k in r && k !in RenamedSkills(skills) ==> r[k] == Fresh)
  {
    var r := MigratedSkills(skills);
    RenamedSkillsSpec(skills);
    assert LegacyFoco !in Skills && LegacyEstudo !in Skills;
  }

  /** A migrated skill map has at least one level-1-or-higher entry per catalog skill and keeps positive levels. */
  lemma MigratedSkillsKeepLevels(skills: map<string, SkillState>)
    requires LevelsPositive(skills)
    ensures LevelsPositive(MigratedSkills(skills))
  {
  }

  /** Migrating an already migrated skill map changes nothing. */
  lemma MigratedSkillsIdempotent(skills: map<string, SkillState>)
    ensures MigratedSkills(MigratedSkills(skills)) == MigratedSkills(skills)
  {
    var r := MigratedSkills(skills);
    MigratedSkillsSpec(skills);
    RenamedSkillsFixed(r);
    WithCatalogFixed(r, Skills);
  }

  /** A map without legacy ids is left alone by the renaming. */
  lemma RenamedSkillsFixed(skills: map<string, SkillState>)
    requires LegacyFoco !in skills && LegacyEstudo !in skills
    ensures RenamedSkills(skills) == skills
  {
  }

  /** A map that already holds every id in `ids` is left alone by the catalog fill-in. */
  lemma WithCatalogFixed(skills: map<string, SkillState>, ids: seq<string>)
    requires forall i :: 0 <= i < |ids| ==> ids[i] in skills
    ensures WithCatalog(skills, ids) == skills
  {
    var r := WithCatalog(skills, ids);
    assert r.Keys == skills.Keys;
  }

  /** The skill ids a set of breakdown keys renames to. */
  function RemappedKeys(ks: set<string>): set<string>
  {
    set k | k in ks :: RemapId(k)
  }

  /**
   * The XP a renamed breakdown records under `nk`, counting only the
   * original keys in `seen`: the value of `nk` itself (when it is not a
   * legacy id) plus the value of the legacy id that renames to it.
   */
  function Contribution(m: map<string, int>, seen: set<string>, nk: string): int
  {
    (if nk in seen && nk in m && nk != LegacyFoco && nk != LegacyEstudo then m[nk] else 0)
    + (if nk == "determinacao" && LegacyFoco in seen && LegacyFoco in m then m[LegacyFoco] else 0)
    + (if nk == "inteligencia" && LegacyEstudo in seen && LegacyEstudo in m then m[LegacyEstudo] else 0)
  }

  /** A per-skill breakdown with legacy keys renamed, colliding values summed. */
  function MigratedBreakdown(m: map<string, int>): map<string, int>
  {
    map nk | nk in RemappedKeys(m.Keys) :: Contribution(m, m.Keys, nk)
  }

  /**
   * Renames the keys of a per-skill breakdown, visiting its entries and
   * adding each value to the entry of the renamed key.
   */
  method RemapBreakdown(m: map<string, int>) returns (mapped: map<string, int>)
    ensures mapped == MigratedBreakdown(m)
    ensures LegacyFoco !in mapped && LegacyEstudo !in mapped
    ensures forall k :: k in m ==> RemapId(k) in mapped
    ensures forall k :: (k in m && k != LegacyFoco && k != LegacyEstudo
                         && k != "determinacao" && k != "inteligencia") ==> mapped[k] == m[k]
  {
    mapped := map[];
    var rest := m.Keys;
    while rest != {}
      invariant rest <= m.Keys
      invariant mapped.Keys == RemappedKeys(m.Keys - rest)
      invariant forall nk :: nk in mapped ==> mapped[nk] == Contribution(m, m.Keys - rest, nk)
      decreases rest
    {
      var k :| k in rest;
      var nk := RemapId(k);
      var seen := m.Keys - rest;
      assert nk !in mapped ==> Contribution(m, seen, nk) == 0;
      var prev := if nk in mapped then mapped[nk] else 0;
      mapped := mapped[nk := prev + m[k]];
      rest := rest - {k};
      assert m.Keys - rest == seen + {k};
      assert RemappedKeys(seen + {k}) == RemappedKeys(seen) + {nk};
    }
    assert m.Keys - rest == m.Keys;
  }

  /** A log entry after the renaming: its primary skill and its breakdown's keys. */
  function MigratedEntry(e: LogEntry): LogEntry
  {
    e.(skill := RemapId(e.skill),
       gainedBySkill := match e.gainedBySkill
                        case Some(m) => Some(MigratedBreakdown(m))
                        case None => None)
  }

  /** A breakdown with no legacy keys is left as it is. */
  lemma MigratedBreakdownFixed(m: map<string, int>)
    requires LegacyFoco !in m && LegacyEstudo !in m
    ensures MigratedBreakdown(m) == m
  {
    assert RemappedKeys(m.Keys) == m.Keys by {
      forall k | k in m.Keys ensures RemapId(k) == k { }
    }
  }

  /** Renaming a log entry twice is renaming it once. */
  lemma MigratedEntryIdempotent(e: LogEntry)
    ensures MigratedEntry(MigratedEntry(e)) == MigratedEntry(e)
  {
    match e.gainedBySkill
    case Some(m) =>
      var r := MigratedBreakdown(m);
      assert LegacyFoco !in r && LegacyEstudo !in r;
      MigratedBreakdownFixed(r);
    case None =>
  }

  /** Every entry of a log renamed. */
  function MigratedLog(log: seq<LogEntry>): seq<LogEntry>
  {
    seq(|log|, i requires 0 <= i < |log| => MigratedEntry(log[i]))
  }

  /** Renaming a whole log twice is renaming it once. */
  lemma MigratedLogIdempotent(log: seq<LogEntry>)
    ensures MigratedLog(MigratedLog(log)) == MigratedLog(log)
  {
    forall i | 0 <= i < |log| ensures MigratedEntry(MigratedEntry(log[i])) == MigratedEntry(log[i]) {
      MigratedEntryIdempotent(log[i]);
    }
  }

  predicate IsDigit(c: char)
  {
    '0' <= c <= '9'
  }

  /** A day key of the form YYYY-MM-DD (ten characters, ASCII digits and two dashes). */
  predicate IsDayKey(k: string)
  {
    && |k| == 10
    && IsDigit(k[0]) && IsDigit(k[1]) && IsDigit(k[2]) && IsDigit(k[3])
    && k[4] == '-'
    && IsDigit(k[5]) && IsDigit(k[6])
    && k[7] == '-'
    && IsDigit(k[8]) && IsDigit(k[9])
  }

  /** The daily-earned map a load keeps: only day keys, a non-finite amount read as 0. */
  function NormalizedEarned(m: map<string, Earned>): map<string, Earned>
  {
    map k | k in m && IsDayKey(k) :: Finite(EarnedOn(m, k))
  }

  /** Normalising an already normalised daily-earned map changes nothing. */
  lemma NormalizedEarnedIdempotent(m: map<string, Earned>)
    ensures NormalizedEarned(NormalizedEarned(m)) == NormalizedEarned(m)
  {
  }
}
