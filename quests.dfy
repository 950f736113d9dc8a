/**
 * Daily quests: three per day, each tied to one skill, generated from
 * caller-supplied random picks and advanced by completed activities.
 */
module Quests {
  import opened Records

  datatype QuestKind = Minutes | NoDistraction | Count

  datatype Quest = Quest(id: string, skill: string, kind: QuestKind, target: int, progress: int, done: bool)

  /** The quest templates, in the order a template index picks them. */
  const Templates: seq<QuestKind> := [Minutes, NoDistraction, Count]
  const MinuteTargets: seq<int> := [15, 20, 30, 40, 60]
  const CountTargets: seq<int> := [1, 2, 3]

  /**
   * The outcome of the random draws for one slot: an index into the skill
   * ids, one into the templates and one into the template's target list
   * (not drawn, and ignored, for the no-distraction template).
   */
  datatype Pick = Pick(skill: nat, template: nat, target: nat)

  /** A draw that `Math.floor(Math.random() * length)` can produce for each list. */
  predicate ValidPick(p: Pick, skillCount: nat)
  {
    && p.skill < skillCount
    && p.template < |Templates|
    && (Templates[p.template] == Minutes ==> p.target < |MinuteTargets|)
    && (Templates[p.template] == Count ==> p.target < |CountTargets|)
  }

  /** The id of slot `i` on day `dateKey`: the date key, a dash and the slot digit. */
  function QuestId(dateKey: string, i: nat): (id: string)
    requires i < 10
    ensures |id| == |dateKey| + 2 && id[..|dateKey|] == dateKey && id[|dateKey|] == '-'
    ensures id[|dateKey| + 1] == ('0' as int + i) as char && '0' <= id[|dateKey| + 1] <= '9'
  {
    dateKey + "-" + [('0' as int + i) as char]
  }

  /** Slot ids of one day are pairwise distinct. */
  lemma QuestIdsDistinct(dateKey: string, i: nat, j: nat)
    requires i < 10 && j < 10 && i != j
    ensures QuestId(dateKey, i) != QuestId(dateKey, j)
  {
    assert QuestId(dateKey, i)[|dateKey| + 1] != QuestId(dateKey, j)[|dateKey| + 1];
  }

  /** The quest of slot `i`, from the draws of that slot. */
  function NewQuest(dateKey: string, i: nat, skillIds: seq<string>, p: Pick): (q: Quest)
    requires i < 3 && ValidPick(p, |skillIds|)
    ensures q.id == QuestId(dateKey, i) && q.skill in skillIds
    ensures q.progress == 0 && !q.done
    ensures q.kind == Templates[p.template]
    ensures q.kind == Minutes ==> q.target in MinuteTargets
    ensures q.kind == Count ==> q.target in CountTargets
    ensures q.kind == NoDistraction ==> q.target == 1
  {
    var skill := skillIds[p.skill];
    match Templates[p.template]
    case Minutes => Quest(QuestId(dateKey, i), skill, Minutes, MinuteTargets[p.target], 0, false)
    case NoDistraction => Quest(QuestId(dateKey, i), skill, NoDistraction, 1, 0, false)
    case Count => Quest(QuestId(dateKey, i), skill, Count, CountTargets[p.target], 0, false)
  }

  /** How much one activity advances a quest of the given kind. */
  function Increment(kind: QuestKind, a: LogEntry): int
  {
    match kind
    case Minutes => a.minutes
    case Count => 1
    case NoDistraction => if a.noDistraction then 1 else 0
  }

  /**
   * One quest after an activity: a quest already done, or of another skill,
   * is unchanged; otherwise its progress grows by the kind's increment and it
   * becomes done once progress reaches the target.
   */
  function AdvanceQuest(q: Quest, a: LogEntry): (r: Quest)
    ensures q.done || q.skill != a.skill ==> r == q
    ensures r.id == q.id && r.skill == q.skill && r.kind == q.kind && r.target == q.target
    ensures a.minutes >= 0 ==> r.progress >= q.progress
    ensures q.done ==> r.done
    ensures !q.done && q.skill == a.skill ==> (r.done <==> r.progress >= r.target)
    ensures q.kind == NoDistraction && !a.noDistraction ==> r.progress == q.progress
    ensures q.kind == Count && !q.done && q.skill == a.skill ==> r.progress == q.progress + 1
    ensures q.kind == Minutes && !q.done && q.skill == a.skill ==> r.progress == q.progress + a.minutes
    ensures q.kind == NoDistraction && !q.done && q.skill == a.skill && a.noDistraction ==> r.progress == q.progress + 1
  {
    if q.done || q.skill != a.skill then q
    else
      var progress := q.progress + Increment(q.kind, a);
      q.(progress := progress, done := progress >= q.target)
  }

  /** Every quest of a day after an activity, each advanced on its own. */
  function AdvanceAll(qs: seq<Quest>, a: LogEntry): seq<Quest>
  {
    seq(|qs|, i requires 0 <= i < |qs| => AdvanceQuest(qs[i], a))
  }

  /** Number of quests of a list that are done. */
  function DoneCount(qs: seq<Quest>): nat
  {
    if qs == [] then 0 else (if qs[0].done then 1 else 0) + DoneCount(qs[1..])
  }

  /** Completion is sticky: an activity never reduces the number of quests done that day. */
  lemma {:induction false} DoneCountMonotonic(qs: seq<Quest>, a: LogEntry)
    ensures DoneCount(AdvanceAll(qs, a)) >= DoneCount(qs)
  {
    if qs != [] {
      DoneCountMonotonic(qs[1..], a);
      assert AdvanceAll(qs, a)[1..] == AdvanceAll(qs[1..], a);
    }
  }

  /** A quest that is done is a fixed point of every later activity. */
  lemma {:induction false} DoneQuestFixed(q: Quest, acts: seq<LogEntry>)
    requires q.done
    ensures AdvanceMany(q, acts) == q
  {
    if acts != [] {
      DoneQuestFixed(q, acts[1..]);
    }
  }

  /** A quest after a sequence of activities, in order. */
  function AdvanceMany(q: Quest, acts: seq<LogEntry>): Quest
    decreases |acts|
  {
    if acts == [] then q else AdvanceMany(AdvanceQuest(q, acts[0]), acts[1..])
  }

  /**
   * A count quest not yet done, of the activity's skill, is done after as
   * many matching activities as its target asks for beyond its progress.
   */
  lemma {:induction false} CountQuestCompletes(q: Quest, acts: seq<LogEntry>)
    requires q.kind == Count && !q.done && q.progress < q.target
    requires q.progress + |acts| >= q.target
    requires forall i :: 0 <= i < |acts| ==> acts[i].skill == q.skill
    ensures AdvanceMany(q, acts).done
    decreases |acts|
  {
    var r := AdvanceQuest(q, acts[0]);
    if r.done {
      DoneQuestFixed(r, acts[1..]);
    } else {
      CountQuestCompletes(r, acts[1..]);
    }
  }
}
