/**
 * The fixed catalogs of the gamification engine: the eight skill ids, the
 * activity list (each with its primary skill) and the per-activity skill
 * weights. Weights are kept in tenths (1.0 is 10, 0.4 is 4).
 */
module Catalog {
  import opened Wrappers

  /** The skill catalog, in its display order. */
  const Skills: seq<string> :=
    ["determinacao", "inteligencia", "disciplina", "organizacao",
     "saude", "energia", "criatividade", "social"]

  /** Skill ids of an older catalog, renamed when a stored state is loaded. */
  const LegacyFoco := "foco"
  const LegacyEstudo := "estudo"

  datatype Activity = Activity(id: string, name: string, skill: string)

  /** The activities a user can complete; `skill` is the primary skill used for quests and the log. */
  const Activities: seq<Activity> := [
    Activity("estudar", "Estudar", "inteligencia"),
    Activity("treinar", "Treinar (musculação)", "saude"),
    Activity("cardio", "Cardio / corrida", "energia"),
    Activity("leitura", "Leitura", "determinacao"),
    Activity("meditacao", "Meditação", "disciplina"),
    Activity("organizacao", "Organizar rotina / casa", "organizacao"),
    Activity("criativo", "Projeto criativo", "criatividade"),
    Activity("social", "Socializar / networking", "social"),
    Activity("trabalho", "Trabalho profundo", "determinacao")
  ]

  /** A weight list: (skill id, weight in tenths), in the order the entries are visited. */
  type Weights = seq<(string, int)>

  /**
   * The skills each activity label trains (keyed by label, not by activity
   * id), one row per label, in the order they are declared.
   */
  const ActivitySkillTable: seq<(string, Weights)> := [
    ("Estudar", [("inteligencia", 10), ("determinacao", 6), ("disciplina", 4)]),
    ("Treinar (musculação)", [("saude", 10), ("disciplina", 5), ("energia", 4)]),
    ("Cardio / corrida", [("saude", 10), ("energia", 6), ("disciplina", 3)]),
    ("Leitura", [("inteligencia", 7), ("determinacao", 5)]),
    ("Meditação", [("determinacao", 10), ("energia", 6), ("saude", 4)]),
    ("Projeto criativo", [("criatividade", 10), ("determinacao", 5), ("disciplina", 3)]),
    ("Organizar rotina / casa", [("organizacao", 10), ("disciplina", 6)]),
    ("Socializar / networking", [("social", 10), ("energia", 4)]),
    ("Trabalho profundo", [("determinacao", 10), ("disciplina", 8), ("inteligencia", 4)])
  ]

  /** The weight list of a label, or None for a label the table does not have. */
  function WeightsFor(name: string): (r: Option<Weights>)
    ensures r.Some? ==> exists i :: 0 <= i < |ActivitySkillTable| && ActivitySkillTable[i] == (name, r.value)
    ensures r.None? ==> forall i :: 0 <= i < |ActivitySkillTable| ==> ActivitySkillTable[i].0 != name
  {
    WeightsFrom(name, 0)
  }

  function WeightsFrom(name: string, i: nat): (r: Option<Weights>)
    requires i <= |ActivitySkillTable|
    ensures r.Some? ==> exists j :: i <= j < |ActivitySkillTable| && ActivitySkillTable[j] == (name, r.value)
    ensures r.None? ==> forall j :: i <= j < |ActivitySkillTable| ==> ActivitySkillTable[j].0 != name
    decreases |ActivitySkillTable| - i
  {
    if i == |ActivitySkillTable| then None
    else if ActivitySkillTable[i].0 == name then Some(ActivitySkillTable[i].1)
    else WeightsFrom(name, i + 1)
  }

  /** The skill ids a weight list mentions, in order. */
  function WeightKeys(ws: Weights): (ks: seq<string>)
    ensures |ks| == |ws|
    ensures forall i :: 0 <= i < |ws| ==> ks[i] == ws[i].0
  {
    if ws == [] then [] else [ws[0].0] + WeightKeys(ws[1..])
  }

  /** No skill id occurs twice in the list (an object literal has distinct keys). */
  predicate DistinctKeys(ws: Weights)
  {
    forall i, j :: 0 <= i < j < |ws| ==> ws[i].0 != ws[j].0
  }

  /**
   * The activity with the given id; an unknown id falls back to the first
   * activity, "Estudar".
   */
  function FindActivity(id: string): Activity
  {
    Activities[ActivityIndex(id)]
  }

  /** The position of the first activity with this id, or 0 when there is none. */
  function ActivityIndex(id: string): (i: nat)
    ensures i < |Activities|
    ensures (exists j :: 0 <= j < |Activities| && Activities[j].id == id) ==> Activities[i].id == id
    ensures (forall j :: 0 <= j < |Activities| ==> Activities[j].id != id) ==> i == 0
  {
    ActivityIndexFrom(id, 0)
  }

  function ActivityIndexFrom(id: string, i: nat): (r: nat)
    requires i <= |Activities|
    ensures r < |Activities|
    ensures (exists j :: i <= j < |Activities| && Activities[j].id == id) ==> Activities[r].id == id
    ensures (forall j :: i <= j < |Activities| ==> Activities[j].id != id) ==> r == 0
    decreases |Activities| - i
  {
    if i == |Activities| then 0
    else if Activities[i].id == id then i
    else ActivityIndexFrom(id, i + 1)
  }

  /** Every weight list of the table has distinct keys, catalog skill ids and weights in (0, 1]. */
  lemma TableWeightsWellFormed()
    ensures forall i :: 0 <= i < |ActivitySkillTable| ==>
              && DistinctKeys(ActivitySkillTable[i].1)
              && forall j :: 0 <= j < |ActivitySkillTable[i].1| ==>
                   0 < ActivitySkillTable[i].1[j].1 <= 10 && ActivitySkillTable[i].1[j].0 in Skills
  {
  }

  /** The weight list found for any label is well formed. */
  lemma WeightsWellFormed(name: string)
    requires WeightsFor(name).Some?
    ensures DistinctKeys(WeightsFor(name).value)
    ensures forall j :: 0 <= j < |WeightsFor(name).value| ==>
              0 < WeightsFor(name).value[j].1 <= 10 && WeightsFor(name).value[j].0 in Skills
  {
    TableWeightsWellFormed();
  }

  /** Every activity's name has a weight list, so completing a catalog activity always grants XP. */
  lemma ActivityNamesMapped()
    ensures forall i :: 0 <= i < |Activities| ==> WeightsFor(Activities[i].name).Some?
  {
  }
}
