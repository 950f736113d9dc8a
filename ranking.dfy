/**
 * The server's read-only views over stored states: the per-skill ranking
 * (top ten users per catalog skill) and the public profile summary of one
 * user.
 */
module Ranking {
  import opened Wrappers
  import opened Catalog
  import opened Ledger
  import opened Titles

  /**
   * One stored state as the ranking reads it: the owner's nickname and the
   * state's skill map, None when the state does not parse or has no skills.
   */
  datatype StateRow = StateRow(username: string, skills: Option<map<string, SkillState>>)

  datatype RankEntry = RankEntry(username: string, level: int)

  /** Lexicographic order on strings, character by character. */
  predicate StrLeq(a: string, b: string)
  {
    a == [] || (b != [] && (a[0] < b[0] || (a[0] == b[0] && StrLeq(a[1..], b[1..]))))
  }

  lemma {:induction false} StrLeqTotal(a: string, b: string)
    ensures StrLeq(a, b) || StrLeq(b, a)
  {
    if a != [] && b != [] && a[0] == b[0] {
      StrLeqTotal(a[1..], b[1..]);
    }
  }

  lemma {:induction false} StrLeqReflexive(a: string)
    ensures StrLeq(a, a)
  {
    if a != [] {
      StrLeqReflexive(a[1..]);
    }
  }

  lemma {:induction false} StrLeqTransitive(a: string, b: string, c: string)
    requires StrLeq(a, b) && StrLeq(b, c)
    ensures StrLeq(a, c)
  {
    if a != [] && b != [] && c != [] && a[0] == b[0] && b[0] == c[0] {
      StrLeqTransitive(a[1..], b[1..], c[1..]);
    }
  }

  lemma {:induction false} StrLeqAntisymmetric(a: string, b: string)
    requires StrLeq(a, b) && StrLeq(b, a)
    ensures a == b
  {
    if a != [] && b != [] {
      StrLeqAntisymmetric(a[1..], b[1..]);
      assert a == [a[0]] + a[1..];
      assert b == [b[0]] + b[1..];
    }
  }

  /** The bucket order: higher level first, equal levels by nickname. */
  predicate RanksBefore(a: RankEntry, b: RankEntry)
  {
    a.level > b.level || (a.level == b.level && StrLeq(a.username, b.username))
  }

  lemma RanksBeforeTotal(a: RankEntry, b: RankEntry)
    ensures RanksBefore(a, b) || RanksBefore(b, a)
  {
    StrLeqTotal(a.username, b.username);
  }

  lemma RanksBeforeTransitive(a: RankEntry, b: RankEntry, c: RankEntry)
    requires RanksBefore(a, b) && RanksBefore(b, c)
    ensures RanksBefore(a, c)
  {
    if a.level == b.level == c.level {
      StrLeqTransitive(a.username, b.username, c.username);
    }
  }

  lemma RanksBeforeAntisymmetric(a: RankEntry, b: RankEntry)
    requires RanksBefore(a, b) && RanksBefore(b, a)
    ensures a == b
  {
    StrLeqAntisymmetric(a.username, b.username);
  }

  predicate SortedRank(s: seq<RankEntry>)
  {
    forall i, j :: 0 <= i < j < |s| ==> RanksBefore(s[i], s[j])
  }

  /** Inserts `e` into a bucket before the first entry it ranks before. */
  function Insert(e: RankEntry, s: seq<RankEntry>): (r: seq<RankEntry>)
    ensures multiset(r) == multiset(s) + multiset{e}
  {
    if s == [] then [e]
    else if RanksBefore(e, s[0]) then [e] + s
    else
      assert s == [s[0]] + s[1..];
      [s[0]] + Insert(e, s[1..])
  }

  /** Insertion keeps a bucket sorted. */
  lemma {:induction false} InsertSorted(e: RankEntry, s: seq<RankEntry>)
    requires SortedRank(s)
    ensures SortedRank(Insert(e, s))
  {
    if s == [] {
    } else if RanksBefore(e, s[0]) {
      forall j | 0 < j < |s| ensures RanksBefore(e, s[j]) {
        RanksBeforeTransitive(e, s[0], s[j]);
      }
    } else {
      RanksBeforeTotal(e, s[0]);
      var t := Insert(e, s[1..]);
      InsertSorted(e, s[1..]);
      forall k | 0 <= k < |t| ensures RanksBefore(s[0], t[k]) {
        assert t[k] in multiset(t);
        if t[k] != e {
          assert t[k] in multiset(s[1..]);
          var j :| 0 <= j < |s[1..]| && s[1..][j] == t[k];
          assert s[j + 1] == t[k];
        }
      }
    }
  }

  /** The bucket sorted by the bucket order (the comparator of the sort call). */
  function SortRank(s: seq<RankEntry>): (r: seq<RankEntry>)
    ensures SortedRank(r) && multiset(r) == multiset(s)
  {
    if s == [] then []
    else
      assert s == s[..|s| - 1] + [s[|s| - 1]];
      InsertSorted(s[|s| - 1], SortRank(s[..|s| - 1]));
      Insert(s[|s| - 1], SortRank(s[..|s| - 1]))
  }

  /**
   * Two sorted arrangements of the same entries are equal: entries the
   * comparator calls equal are identical, so the sorted bucket does not
   * depend on the sorting algorithm.
   */
  lemma {:induction false} SortedUnique(a: seq<RankEntry>, b: seq<RankEntry>)
    requires SortedRank(a) && SortedRank(b) && multiset(a) == multiset(b)
    ensures a == b
  {
    if a != [] {
      assert a[0] in multiset(b);
      HeadsEqual(a, b);
      TailMultiset(a);
      TailMultiset(b);
      TailSorted(a);
      TailSorted(b);
      SortedUnique(a[1..], b[1..]);
      assert a == [a[0]] + a[1..];
      assert b == [b[0]] + b[1..];
    }
  }

  /** Two non-empty sorted arrangements of the same entries start with the same entry. */
  lemma HeadsEqual(a: seq<RankEntry>, b: seq<RankEntry>)
    requires SortedRank(a) && SortedRank(b) && multiset(a) == multiset(b) && a != [] && b != []
    ensures a[0] == b[0]
  {
    assert a[0] in multiset(b);
    assert b[0] in multiset(a);
    var i :| 0 <= i < |a| && a[i] == b[0];
    var j :| 0 <= j < |b| && b[j] == a[0];
    FirstRanksBefore(a, i);
    FirstRanksBefore(b, j);
    RanksBeforeAntisymmetric(a[0], b[0]);
  }

  /** The rest of a sorted bucket is sorted. */
  lemma TailSorted(s: seq<RankEntry>)
    requires SortedRank(s) && s != []
    ensures SortedRank(s[1..])
  {
    forall i, j | 0 <= i < j < |s| - 1 ensures RanksBefore(s[1..][i], s[1..][j]) {
      assert s[1..][i] == s[i + 1] && s[1..][j] == s[j + 1];
    }
  }

  /** The first entry of a sorted bucket ranks before (or is) every entry. */
  lemma FirstRanksBefore(s: seq<RankEntry>, i: nat)
    requires SortedRank(s) && i < |s|
    ensures RanksBefore(s[0], s[i])
  {
    if i == 0 {
      StrLeqReflexive(s[0].username);
    }
  }

  /** Dropping the first entry removes exactly one occurrence of it. */
  lemma TailMultiset(s: seq<RankEntry>)
    requires s != []
    ensures multiset(s[1..]) == multiset(s) - multiset{s[0]}
  {
    assert s == [s[0]] + s[1..];
  }

  /** The first ten entries (all of them when there are fewer). */
  function TopTen(s: seq<RankEntry>): (r: seq<RankEntry>)
    ensures |r| == if |s| < 10 then |s| else 10
    ensures r == s[..|r|]
  {
    if |s| <= 10 then s else s[..10]
  }

  /**
   * The users of a skill's bucket, in row order: a readable state's owner
   * with that skill's level (0 when missing) above 0.
   */
  function Bucket(rows: seq<StateRow>, sk: string): (r: seq<RankEntry>)
    decreases |rows|
  {
    if rows == [] then []
    else
      var last := rows[|rows| - 1];
      Bucket(rows[..|rows| - 1], sk)
        + (if last.skills.Some? && LevelOf(last.skills.value, sk) > 0
           then [RankEntry(last.username, LevelOf(last.skills.value, sk))] else [])
  }

  /** An entry is in a bucket iff some readable row has that owner and a positive level of that skill. */
  lemma {:induction false} BucketMembers(rows: seq<StateRow>, sk: string, e: RankEntry)
    ensures e in Bucket(rows, sk) <==>
      exists i :: 0 <= i < |rows| && rows[i].skills.Some? && LevelOf(rows[i].skills.value, sk) > 0
                  && e == RankEntry(rows[i].username, LevelOf(rows[i].skills.value, sk))
  {
    if rows != [] {
      var init := rows[..|rows| - 1];
      BucketMembers(init, sk, e);
      assert forall i :: 0 <= i < |init| ==> init[i] == rows[i];
    }
  }

  /** A bucket has at most one entry per row and only positive levels. */
  lemma {:induction false} BucketBounds(rows: seq<StateRow>, sk: string)
    ensures |Bucket(rows, sk)| <= |rows|
    ensures forall k :: 0 <= k < |Bucket(rows, sk)| ==> Bucket(rows, sk)[k].level > 0
  {
    if rows != [] {
      BucketBounds(rows[..|rows| - 1], sk);
    }
  }

  /** A skill's published ranking: its bucket sorted, cut to ten entries. */
  function RankedBucket(rows: seq<StateRow>, sk: string): seq<RankEntry>
  {
    TopTen(SortRank(Bucket(rows, sk)))
  }

  /**
   * The published ranking is sorted, holds min(10, bucket size) entries of
   * the bucket, and every bucket entry left out ranks after every entry
   * kept.
   */
  lemma RankedBucketSpec(rows: seq<StateRow>, sk: string)
    ensures var b, r := Bucket(rows, sk), RankedBucket(rows, sk);
      && SortedRank(r)
      && |r| == (if |b| < 10 then |b| else 10)
      && multiset(r) <= multiset(b)
      && forall x, y :: x in multiset(r) && y in multiset(b) - multiset(r) ==> RanksBefore(x, y)
  {
    var s := SortRank(Bucket(rows, sk));
    TopTenOfSorted(s);
  }

  /** The first ten of a sorted sequence are sorted, and rank before every entry left out. */
  lemma TopTenOfSorted(s: seq<RankEntry>)
    requires SortedRank(s)
    ensures var r := TopTen(s);
      && SortedRank(r)
      && multiset(r) <= multiset(s)
      && forall x, y :: x in multiset(r) && y in multiset(s) - multiset(r) ==> RanksBefore(x, y)
  {
    var r := TopTen(s);
    var rest := s[|r|..];
    assert s == r + rest;
    assert multiset(s) == multiset(r) + multiset(rest);
    forall x, y | x in multiset(r) && y in multiset(s) - multiset(r)
      ensures RanksBefore(x, y)
    {
      assert y in multiset(rest);
      var i :| 0 <= i < |r| && r[i] == x;
      var j :| 0 <= j < |rest| && rest[j] == y;
      assert s[i] == x && s[|r| + j] == y;
    }
  }

  /** No id occurs twice. */
  predicate DistinctIds(ids: seq<string>)
  {
    forall a, b :: 0 <= a < b < |ids| ==> ids[a] != ids[b]
  }

  lemma SkillsDistinct()
    ensures DistinctIds(Skills)
  {
  }

  /**
   * The ranking of every catalog skill: each readable state's owner joins
   * the bucket of every skill with a positive level, and each bucket is
   * sorted and cut to its top ten.
   */
  method RankSkills(rows: seq<StateRow>) returns (buckets: map<string, seq<RankEntry>>)
    ensures forall k :: k in buckets <==> k in Skills
    ensures forall i :: 0 <= i < |Skills| ==> buckets[Skills[i]] == RankedBucket(rows, Skills[i])
  {
    SkillsDistinct();
    buckets := RankBy(rows, Skills);
  }

  /** The ranking over a list of distinct skill ids, one bucket per id. */
  method RankBy(rows: seq<StateRow>, ids: seq<string>) returns (buckets: map<string, seq<RankEntry>>)
    requires DistinctIds(ids)
    ensures forall k :: k in buckets <==> k in ids
    ensures forall i :: 0 <= i < |ids| ==> buckets[ids[i]] == RankedBucket(rows, ids[i])
  {
    buckets := CollectBuckets(rows, ids);
    for i := 0 to |ids|
      invariant forall k :: k in buckets <==> k in ids
      invariant forall j :: 0 <= j < i ==> buckets[ids[j]] == RankedBucket(rows, ids[j])
      invariant forall j :: i <= j < |ids| ==> buckets[ids[j]] == Bucket(rows, ids[j])
    {
      buckets := buckets[ids[i] := TopTen(SortRank(buckets[ids[i]]))];
    }
  }

  /** The unsorted buckets: every row visited in order, one bucket per id. */
  method CollectBuckets(rows: seq<StateRow>, ids: seq<string>) returns (buckets: map<string, seq<RankEntry>>)
    requires DistinctIds(ids)
    ensures forall k :: k in buckets <==> k in ids
    ensures forall i :: 0 <= i < |ids| ==> buckets[ids[i]] == Bucket(rows, ids[i])
  {
    buckets := map[];
    for i := 0 to |ids|
      invariant forall k :: k in buckets <==> k in ids[..i]
      invariant forall k :: k in buckets ==> buckets[k] == []
    {
      buckets := buckets[ids[i] := []];
    }
    assert ids[..|ids|] == ids;
    for r := 0 to |rows|
      invariant forall k :: k in buckets <==> k in ids
      invariant forall i :: 0 <= i < |ids| ==> buckets[ids[i]] == Bucket(rows[..r], ids[i])
    {
      assert rows[..r + 1][..r] == rows[..r];
      buckets := AddRow(buckets, rows[r], ids);
    }
    assert rows[..|rows|] == rows;
  }

  /** Appends one row's owner to the bucket of every id where the row's level is positive. */
  method AddRow(buckets: map<string, seq<RankEntry>>, row: StateRow, ids: seq<string>)
    returns (out: map<string, seq<RankEntry>>)
    requires DistinctIds(ids)
    requires forall k :: k in buckets <==> k in ids
    ensures forall k :: k in out <==> k in ids
    ensures forall i :: 0 <= i < |ids| ==>
              out[ids[i]] == buckets[ids[i]] + (if row.skills.Some? && LevelOf(row.skills.value, ids[i]) > 0
                                                then [RankEntry(row.username, LevelOf(row.skills.value, ids[i]))] else [])
  {
    out := buckets;
    if row.skills.None? {
      return;
    }
    for i := 0 to |ids|
      invariant forall k :: k in out <==> k in ids
      invariant forall j :: 0 <= j < i ==>
                  out[ids[j]] == buckets[ids[j]] + (if LevelOf(row.skills.value, ids[j]) > 0
                                                    then [RankEntry(row.username, LevelOf(row.skills.value, ids[j]))] else [])
      invariant forall j :: i <= j < |ids| ==> out[ids[j]] == buckets[ids[j]]
    {
      var lvl := LevelOf(row.skills.value, ids[i]);
      if lvl > 0 {
        out := out[ids[i] := out[ids[i]] + [RankEntry(row.username, lvl)]];
      }
    }
  }

  /** What the public profile reports about a user's skills. */
  datatype Profile = Profile(overallLevel: int, topSkill: Option<string>, topSkillLevel: int, levels: map<string, int>)

  /**
   * Summarises a stored skill map (None when the user has no readable
   * state): the sum of the catalog levels, the first catalog skill of
   * maximal level (none when every level is negative) with that level
   * floored at 0, and the level of each catalog skill.
   */
  method PublicProfile(stored: Option<map<string, SkillState>>) returns (p: Profile)
    ensures var skills := if stored.Some? then stored.value else map[];
      && p.overallLevel == OverallLevel(skills)
      && (forall k :: k in p.levels <==> k in Skills)
      && (forall i :: 0 <= i < |Skills| ==> p.levels[Skills[i]] == LevelOf(skills, Skills[i]))
      && p.topSkillLevel >= 0
      && (p.topSkill.None? <==> forall i :: 0 <= i < |Skills| ==> LevelOf(skills, Skills[i]) < 0)
      && (p.topSkill.None? ==> p.topSkillLevel == 0)
      && (p.topSkill.Some? ==> IsFirstTop(skills, Skills, p.topSkill.value, p.topSkillLevel))
  {
    var skills := if stored.Some? then stored.value else map[];
    var overall := SumLevels(skills, Skills);
    var topSkill, topLevel := TopSkill(skills, Skills);
    var levels := LevelTable(skills, Skills);
    p := Profile(overall, topSkill, if topLevel < 0 then 0 else topLevel, levels);
  }

  /** `sk` is the first of `ids` whose level is the maximum `level` of all of them. */
  ghost predicate IsFirstTop(skills: map<string, SkillState>, ids: seq<string>, sk: string, level: int)
  {
    exists t :: 0 <= t < |ids| && sk == ids[t] && level == LevelOf(skills, ids[t])
      && (forall j :: 0 <= j < |ids| ==> LevelOf(skills, ids[j]) <= level)
      && (forall j :: 0 <= j < t ==> LevelOf(skills, ids[j]) < level)
  }

  /**
   * Scans `ids` keeping the first strictly higher level, starting below 0:
   * no skill when every level is negative, else the first of maximal level.
   */
  method TopSkill(skills: map<string, SkillState>, ids: seq<string>) returns (topSkill: Option<string>, topLevel: int)
    ensures topSkill.None? <==> forall i :: 0 <= i < |ids| ==> LevelOf(skills, ids[i]) < 0
    ensures topSkill.None? ==> topLevel == -1
    ensures topSkill.Some? ==> topLevel >= 0 && IsFirstTop(skills, ids, topSkill.value, topLevel)
  {
    topSkill, topLevel := None, -1;
    ghost var t := 0;
    for i := 0 to |ids|
      invariant topSkill.None? ==> topLevel == -1 && forall j :: 0 <= j < i ==> LevelOf(skills, ids[j]) < 0
      invariant topSkill.Some? ==>
                  (&& 0 <= t < i && topSkill.value == ids[t]
                   && topLevel == LevelOf(skills, ids[t]) && topLevel >= 0
                   && (forall j :: 0 <= j < i ==> LevelOf(skills, ids[j]) <= topLevel)
                   && (forall j :: 0 <= j < t ==> LevelOf(skills, ids[j]) < topLevel))
    {
      var lvl := LevelOf(skills, ids[i]);
      if lvl > topLevel {
        topLevel := lvl;
        topSkill := Some(ids[i]);
        t := i;
      }
    }
  }

  /** The level of every id of `ids`. */
  method LevelTable(skills: map<string, SkillState>, ids: seq<string>) returns (levels: map<string, int>)
    ensures forall k :: k in levels <==> k in ids
    ensures forall i :: 0 <= i < |ids| ==> levels[ids[i]] == LevelOf(skills, ids[i])
  {
    levels := map[];
    for i := 0 to |ids|
      invariant forall k :: k in levels <==> k in ids[..i]
      invariant forall k :: k in levels ==> exists j :: 0 <= j < i && k == ids[j] && levels[k] == LevelOf(skills, k)
    {
      levels := levels[ids[i] := LevelOf(skills, ids[i])];
    }
    assert ids[..|ids|] == ids;
  }
}
