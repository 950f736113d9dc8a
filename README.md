# LevelUp-Life skill routine: a verified model of its game rules and social API

LevelUp-Life turns a daily routine into a role-playing character. Each
activity the user completes earns experience points (XP). The points are
shared among eight skills: determinacao, inteligencia, disciplina,
organizacao, saude, energia, criatividade and social. The dashboard
(`skill-routine/server/public/assets/js/dashboard.js`) owns the game rules,
which are:

- the XP formula;
- the level curve;
- the activity → skill weight table;
- daily quests;
- the overall level and personal title;
- migration of states saved by older versions;
- the "complete activity" flow.

The HTTP server (`skill-routine/server/src/server.js`) normalises account
input, checks registrations, builds the per-skill top-10 ranking, serves
public profiles, and stores friend requests.

This project models those rules in Dafny and proves properties of the model.

| module | file | models |
|---|---|---|
| `Wrappers` | wrappers.dfy | `Option` / `Result` |
| `Catalog` | catalog.dfy | the eight skills, the nine activities, the activity → weights table (weights in tenths) |
| `Ledger` | ledger.dfy | `xpToNext`, `addXP`, the level/XP invariant and the total-XP view of a skill |
| `XpCalc` | xpcalc.dfy | `computeXP` with `Math.round` written out on exact rationals |
| `Distribution` | distribution.dfy | the loop of `aplicarXPAtividade` as a fold over the weight list |
| `Records` | records.dfy | log entries and the `dailyEarned` values |
| `Quests` | quests.dfy | `generateQuests`, `updateQuestsWithActivity` on one quest / one day |
| `Titles` | titles.dfy | `overallLevel`, `personalTitle` |
| `Migration` | migration.dfy | `migrateStateSkills`, the `dailyEarned` clean-up |
| `Dashboard` | dashboard.dfy | the user state as a class whose methods update it in place; the loops as methods proved against the functions above |
| `Accounts` | accounts.dfy | `normalizeEmail`, `normalizeUsername`, `validUsername`, the register checks |
| `Ranking` | ranking.dfy | `/api/rank/skills`, `/api/users/public` |
| `Friends` | friends.dfy | `/api/friends/request`, `/api/friends/respond` over a table of requests (class `FriendTable`) |

Modelling choices:

- **Skills as values.** A skill record is a value (`SkillState(level, xp)`),
  so the in-place `addXP` on the shared object becomes a replacement of the
  map entry.
- **Exact multipliers.** Multipliers are exact integers: difficulty and
  focus are in hundredths, and activity weights are in tenths. `Math.round(x)`
  is `floor(x + 1/2)`.
- **Inputs from outside.** JavaScript object key order, random choices,
  clocks and database lookups are parameters supplied by the caller.

## Model

| member | source | states |
|---|---|---|
| Ledger.XpToNext | skill-routine/server/public/assets/js/dashboard.js:353-355 | the XP needed for the next level is at least 100 from level 1 on |
| Ledger.SettleSpec | skill-routine/server/public/assets/js/dashboard.js:357-363 | settling XP at a level never lowers the level, leaves less than one level's worth of XP, keeps XP non-negative for non-negative input, and converts exactly: XP spent on level-ups plus XP left equals XP put in |
| Ledger.AddXP | skill-routine/server/public/assets/js/dashboard.js:357-363 | the while loop ends in the settled state of the function `Settle`, with level monotone, leftover below the threshold, and total XP growing by exactly `amount` |
| Ledger.XpBetweenClosedForm | skill-routine/server/public/assets/js/dashboard.js:353-355 | XP to climb from level 1 to level L is 100(L-1) + 20(L-1)(L-2) |
| Ledger.SettleTotalXp | skill-routine/server/public/assets/js/dashboard.js:357-363 | a settled skill is recovered by adding its total XP to a fresh level-1 skill (level/XP is a faithful encoding of total XP) |
| Ledger.TotalXpInjective | skill-routine/server/public/assets/js/dashboard.js:357-363 | two settled skills with the same total XP are equal |
| Ledger.XpBetweenSplit | skill-routine/server/public/assets/js/dashboard.js:359-362 | the XP to climb a..c is the XP to climb a..b plus b..c |
| XpCalc.RoundHalfUpSpec | skill-routine/server/public/assets/js/dashboard.js:406 | the rounded value is the integer nearest to num/den, ties up |
| XpCalc.RoundHalfUpMonotonic | skill-routine/server/public/assets/js/dashboard.js:406 | rounding is monotone |
| XpCalc.DifficultyPercent | skill-routine/server/public/assets/js/dashboard.js:403 | "dificil" iff 1.35, "medio" iff 1.15, anything else 1.00 |
| XpCalc.BaseXp | skill-routine/server/public/assets/js/dashboard.js:402-405 | base is twice the minutes clamped below at 1, capped at 240 |
| XpCalc.ComputeXP | skill-routine/server/public/assets/js/dashboard.js:401-407 | the XP lies in 2..389 and is the product base×difficulty×focus rounded to the nearest integer |
| XpCalc.ComputeXPExamples | skill-routine/server/public/assets/js/dashboard.js:401-407 | 30 min easy = 60, 30 min hard without distraction = 97, 1 min = 2, 1000 min = 240, 20 min medium = 46 |
| XpCalc.ComputeXPClamps | skill-routine/server/public/assets/js/dashboard.js:402-405 | fewer than 1 minute counts as 1, more than 120 as 120 |
| XpCalc.UnknownDifficultyIsEasy | skill-routine/server/public/assets/js/dashboard.js:403 | an unknown difficulty scores as "facil" |
| XpCalc.ComputeXPMonotonic | skill-routine/server/public/assets/js/dashboard.js:401-407 | more minutes, a harder difficulty or no distraction never earn less |
| Catalog.WeightsFor | skill-routine/server/public/assets/js/dashboard.js:63-106 | a mapped name yields exactly its row of the table; an unmapped name yields nothing |
| Catalog.ActivityIndex | skill-routine/server/public/assets/js/dashboard.js:870-871 | the index of the first activity with that id, or 0 ("estudar") when none has it |
| Catalog.WeightsWellFormed | skill-routine/server/public/assets/js/dashboard.js:63-108 | every weight list has distinct skill ids, each a catalog skill, with weights 1..10 tenths |
| Catalog.ActivityNamesMapped | skill-routine/server/public/assets/js/dashboard.js:51-106 | every activity label of the catalog has a weight entry |
| Distribution.Distribute | skill-routine/server/public/assets/js/dashboard.js:372-385 | granting keeps every level ≥ 1 and the set of skill ids |
| Distribution.ActivityGain | skill-routine/server/public/assets/js/dashboard.js:366-370 | an unmapped activity changes nothing and grants 0 |
| Distribution.GrantedKeys | skill-routine/server/public/assets/js/dashboard.js:376-383 | a skill is credited only if it is in the weight list and exists in the state, and every credit is positive |
| Distribution.GrantedExactly | skill-routine/server/public/assets/js/dashboard.js:376-383 | with distinct ids, every listed, existing skill with a positive grant is credited exactly its grant |
| Distribution.SkillsAfterGrant | skill-routine/server/public/assets/js/dashboard.js:379-382 | a credited skill is its old record after `addXP` of its grant; every other skill is unchanged |
| Distribution.TotalIsSumOfGrants | skill-routine/server/public/assets/js/dashboard.js:383 | `total` is the sum of the per-skill credits |
| Distribution.DistributeConservesXp | skill-routine/server/public/assets/js/dashboard.js:376-383 | every skill's total XP grows by exactly its credit |
| Dashboard.GrantWeights | skill-routine/server/public/assets/js/dashboard.js:372-385 | the for loop with `continue` computes `Distribute` and keeps levels ≥ 1 |
| Dashboard.UserState.AplicarXPAtividade | skill-routine/server/public/assets/js/dashboard.js:365-390 | the state's skills, `total` and `gainedBySkill` are those of `ActivityGain`; an unmapped label changes nothing; the other fields are untouched |
| Dashboard.ActivityNeverLowersTitle | skill-routine/server/public/assets/js/dashboard.js:305-331 | completing an activity never lowers the overall level or the title tier |
| Dashboard.TrainingScenario | skill-routine/server/public/assets/js/dashboard.js:69-73 | 20 min medium "Treinar" on a fresh state grants 46 saude, 23 disciplina, 18 energia (total 87) |
| Dashboard.UserState.Default | skill-routine/server/public/assets/js/dashboard.js:135-146 | default skills, empty earnings, quests and log |
| Dashboard.UserState.Stored | skill-routine/server/public/assets/js/dashboard.js:805-810 | each missing stored part is replaced by its default |
| Quests.QuestId | skill-routine/server/public/assets/js/dashboard.js:427 | the id is the date key, '-' and the slot's digit |
| Quests.QuestIdsDistinct | skill-routine/server/public/assets/js/dashboard.js:421-433 | the quests of one day have distinct ids |
| Quests.NewQuest | skill-routine/server/public/assets/js/dashboard.js:422-433 | a new quest is on one of the state's skills, with progress 0, not done, and its target drawn from its kind's list (1 for no-distraction) |
| Dashboard.UserState.GenerateQuests | skill-routine/server/public/assets/js/dashboard.js:410-438 | the three quests are stored under the date key; the rest of the state is unchanged |
| Quests.AdvanceQuest | skill-routine/server/public/assets/js/dashboard.js:442-451 | done or other-skill quests are unchanged; progress never drops on non-negative minutes; a quest on the activity's skill is done iff progress reaches the target; minutes quests advance by the activity's minutes, count quests by one, no-distraction quests by one for a focused activity and not at all for a distracted one |
| Quests.DoneCountMonotonic | skill-routine/server/public/assets/js/dashboard.js:440-452 | an activity never un-completes a quest |
| Quests.DoneQuestFixed | skill-routine/server/public/assets/js/dashboard.js:443 | a completed quest is never changed again |
| Quests.CountQuestCompletes | skill-routine/server/public/assets/js/dashboard.js:447-450 | a count quest with n activities to go completes after n activities on its skill |
| Dashboard.QuestsAdvanced | skill-routine/server/public/assets/js/dashboard.js:440-452 | only the given day's quests change; a day without quests gets none |
| Dashboard.UserState.UpdateQuestsWithActivity | skill-routine/server/public/assets/js/dashboard.js:440-452 | the day's quests become `QuestsAdvanced`; the rest of the state is unchanged |
| Titles.SumLevels | skill-routine/server/public/assets/js/dashboard.js:305-309 | the loop computes the level sum over the skill ids, a missing skill counting 0 |
| Titles.LevelSumMonotonic | skill-routine/server/public/assets/js/dashboard.js:305-309 | raising levels never lowers the overall level |
| Titles.LevelSumIgnoresOthers | skill-routine/server/public/assets/js/dashboard.js:307 | skills outside the catalog do not count |
| Titles.TiersAscending | skill-routine/server/public/assets/js/dashboard.js:313-324 | the tier minima increase strictly |
| Titles.TierIndex | skill-routine/server/public/assets/js/dashboard.js:326-327 | the current tier is the last one whose minimum the total reaches (the first one below 0) |
| Titles.PersonalTitle | skill-routine/server/public/assets/js/dashboard.js:311-331 | the title is the current tier's; the next tier, when any, is the first with a higher minimum, which lies above the total; none exactly at the top tier |
| Titles.ResolveTitle | skill-routine/server/public/assets/js/dashboard.js:326-330 | the scan loop and the `find` loop compute `PersonalTitle` |
| Titles.TierIndexMonotonic | skill-routine/server/public/assets/js/dashboard.js:311-331 | a higher total never gives a lower tier |
| Titles.DefaultTitle | skill-routine/server/public/assets/js/dashboard.js:135-146 | a fresh state has overall level 8: "Beta", next "Iniciante" at 10 |
| Migration.RemapId | skill-routine/server/public/assets/js/dashboard.js:172-173 | foco becomes "determinacao", estudo becomes "inteligencia", other ids are kept; no legacy id results |
| Migration.RenamedSkillsSpec | skill-routine/server/public/assets/js/dashboard.js:151-160 | legacy skills move to their new ids only when those are missing, and the legacy keys go |
| Migration.WithCatalog | skill-routine/server/public/assets/js/dashboard.js:162-164 | missing catalog skills are added fresh; existing ones are kept |
| Migration.MigratedSkillsSpec | skill-routine/server/public/assets/js/dashboard.js:148-165 | after migration, every catalog skill exists and no legacy key is left |
| Migration.MigratedSkillsKeepLevels | skill-routine/server/public/assets/js/dashboard.js:148-165 | migration keeps every level ≥ 1 |
| Migration.MigratedSkillsIdempotent | skill-routine/server/public/assets/js/dashboard.js:148-165 | migrating twice is migrating once |
| Dashboard.MigrateSkillMap | skill-routine/server/public/assets/js/dashboard.js:151-165 | the renaming and the catalog loop compute `MigratedSkills` |
| Dashboard.FillCatalog | skill-routine/server/public/assets/js/dashboard.js:162-164 | the loop over the catalog ids computes `WithCatalog`: every missing id is added fresh and existing entries are kept |
| Migration.RemapBreakdown | skill-routine/server/public/assets/js/dashboard.js:171-178 | the re-keyed breakdown has no legacy key, has every remapped key, sums values that collide, and does not depend on the iteration order |
| Migration.MigratedBreakdownFixed | skill-routine/server/public/assets/js/dashboard.js:171-178 | a breakdown without legacy keys is unchanged |
| Migration.MigratedLogIdempotent | skill-routine/server/public/assets/js/dashboard.js:166-180 | migrating the log twice is migrating it once |
| Dashboard.MigrateLog | skill-routine/server/public/assets/js/dashboard.js:166-180 | the loop over the log computes `MigratedLog` |
| Dashboard.UserState.MigrateStateSkills | skill-routine/server/public/assets/js/dashboard.js:148-184 | skills and log become their migrated forms and levels stay ≥ 1 |
| Migration.NormalizedEarnedIdempotent | skill-routine/server/public/assets/js/dashboard.js:815-825 | normalising twice is normalising once |
| Dashboard.UserState.NormalizeDailyEarned | skill-routine/server/public/assets/js/dashboard.js:815-825 | `dailyEarned` becomes its normalised form; nothing else changes |
| Dashboard.ClampMinutes | skill-routine/server/public/assets/js/dashboard.js:874 | minutes below 1 become exactly 1; others are kept |
| Dashboard.DifficultyOrDefault | skill-routine/server/public/assets/js/dashboard.js:875 | an empty choice becomes "facil"; others are kept |
| Dashboard.UserState.CompleteActivity | skill-routine/server/public/assets/js/dashboard.js:867-897 | the activity is looked up (default "estudar"); XP is computed and granted through the activity's label; the day's earnings grow by the total; one entry is appended to the log; the day's quests advance |
| Accounts.TrimSpec | skill-routine/server/src/server.js:25-31 | trimming removes only leading/trailing white space and keeps the middle part unchanged |
| Accounts.TrimIdempotent | skill-routine/server/src/server.js:25-31 | trimming twice is trimming once |
| Accounts.ToLower | skill-routine/server/src/server.js:26 | lower-casing keeps the length, leaves no ASCII capital, turns each capital into its own lower-case letter (A to a, ..., Z to z) and keeps every other character |
| Accounts.NormalizeEmailSpec | skill-routine/server/src/server.js:25-27 | a normalised address has no upper-case ASCII letter and no surrounding white space |
| Accounts.NormalizeEmailIdempotent | skill-routine/server/src/server.js:25-27 | normalising an address twice is normalising it once |
| Accounts.NormalizeUsernameIdempotent | skill-routine/server/src/server.js:29-31 | normalising a nickname twice is normalising it once |
| Accounts.ValidUsername | skill-routine/server/src/server.js:33-36 | valid iff 2..20 characters, all ASCII letters, digits or '_' |
| Accounts.RegisterCheck | skill-routine/server/src/server.js:87-101 | an accepted registration carries the normalised e-mail and nickname and the password text |
| Accounts.RegisterCheckOrder | skill-routine/server/src/server.js:93-101 | each error is reported iff its check fails and every earlier check passes: nickname, e-mail, password |
| Accounts.RegisteredIsWellFormed | skill-routine/server/src/server.js:87-101 | an accepted registration has a valid nickname, an address with '@' that is already normalised, and a password of at least 4 characters |
| Accounts.RegisterExamples | skill-routine/server/src/server.js:33-36 | "ab" and "Neo_1" pass; "a" and "a-b" fail; a blank nickname is rejected first |
| Ranking.RanksBeforeTotal | skill-routine/server/src/server.js:406 | the ranking order (level descending, then name) is total |
| Ranking.RanksBeforeTransitive | skill-routine/server/src/server.js:406 | the ranking order is transitive |
| Ranking.RanksBeforeAntisymmetric | skill-routine/server/src/server.js:406 | the ranking order is antisymmetric, so the sorted order is unique |
| Ranking.SortRank | skill-routine/server/src/server.js:406 | the sort yields a sorted permutation |
| Ranking.SortedUnique | skill-routine/server/src/server.js:406 | two sorted permutations of one bucket are equal |
| Ranking.TopTen | skill-routine/server/src/server.js:407 | at most ten entries, a prefix of the sorted bucket |
| Ranking.BucketMembers | skill-routine/server/src/server.js:393-402 | an entry is in a skill's bucket iff some stored state has that skill at that positive level |
| Ranking.BucketBounds | skill-routine/server/src/server.js:393-402 | a bucket has at most one entry per stored state, each with a positive level |
| Ranking.RankedBucketSpec | skill-routine/server/src/server.js:389-408 | each published list is sorted, has min(10, bucket size) entries from the bucket, and every left-out entry ranks after every published one |
| Ranking.RankSkills | skill-routine/server/src/server.js:389-408 | the loops give one list per catalog skill, equal to its ranked top ten |
| Ranking.PublicProfile | skill-routine/server/src/server.js:432-455 | the overall level is the level sum; the per-skill levels count a missing skill as 0; the top skill is the first of greatest level (none only if all are negative); the top level is never negative |
| Friends.AcceptedBetween | skill-routine/server/src/server.js:270-276 | true iff an accepted request joins the two users in either direction |
| Friends.FindPair | skill-routine/server/src/server.js:258-262 | finds the request from one user to another, or reports that none exists |
| Friends.RequestOutcome | skill-routine/server/src/server.js:240-292 | a refused request leaves the table unchanged |
| Friends.RequestKeepsInvariant | skill-routine/server/src/server.js:240-292 | a request keeps the ids distinct and below the counter, and at most one row per ordered pair |
| Friends.SelfRequestRejected | skill-routine/server/src/server.js:253 | a request to oneself is refused |
| Friends.PendingOppositeAccepted | skill-routine/server/src/server.js:257-267 | a pending request in the other direction is accepted instead (auto-accepted) and no row is added |
| Friends.FriendsRequestUnchanged | skill-routine/server/src/server.js:269-276 | between friends, a request reports "accepted" and changes nothing |
| Friends.FirstRequestPending | skill-routine/server/src/server.js:278-285 | a first request between two users adds one pending row with the next id |
| Friends.RepeatedRequestReported | skill-routine/server/src/server.js:286-292 | a repeated request reports the existing row's status and adds nothing |
| Friends.RespondOutcome | skill-routine/server/src/server.js:323-342 | a response never adds rows or ids; a refused response changes nothing |
| Friends.RespondKeepsInvariant | skill-routine/server/src/server.js:323-342 | a response keeps the table invariant |
| Friends.RespondOnlyRecipient | skill-routine/server/src/server.js:334-341 | a response succeeds only for the recipient of an existing request, and then sets that row's status to the chosen one |
| Friends.RespondByOtherRefused | skill-routine/server/src/server.js:336 | anyone but the recipient is refused |
| Friends.FriendTable.Request | skill-routine/server/src/server.js:240-292 | the table becomes the outcome of `RequestOutcome` and keeps its invariant |
| Friends.FriendTable.Respond | skill-routine/server/src/server.js:323-342 | the table becomes the outcome of `RespondOutcome` and keeps its invariant |

## Left out

- The DOM, rendering, toasts, achievements, `localStorage`, `saveState` and the
  HTTP plumbing are left out. So are `Date.now()` and `todayKey()`: time and the
  day key are parameters.
- XpCalc.ComputeXP: rounds the exact product. The source rounds a binary
  double product, which can fall just below a .5 tie. For example,
  25 minutes, "medio", with distraction is 57.5 exactly: the model gives 58,
  while the double product rounds to 57. The same gap occurs at 45, 55, 85, 95
  and 105 minutes "medio". The rounding worked examples in `ComputeXPExamples`
  are on inputs where the two agree.
- Distribution.Grant: rounds `xpBase × weight` exactly. For the weight 0.7, the
  double product falls below the tie at xpBase 45, 85, 165, 175, 325, 335, 345,
  355 and 365. For example, 45 × 0.7 gives 31 in the source and 32 here.
- Non-numeric, NaN and fractional inputs are not modelled. Minutes, levels, XP
  and gains are integers. `Number(x) || 0` is modelled only where a value can
  be missing.
- Ledger.AddXP: requires level ≥ 1. This is what every stored state the
  dashboard creates has. A hand-edited state with level ≤ 0 is outside the model.
- Skill entries that are falsy objects, or skill maps that are not objects, are
  not modelled. A skill is either present as a `SkillState` or missing.
- Quests and log entries carry no display text: the `text` fields are
  formatting only. The log entry's `at` is the completion time, supplied by
  the caller.
- `Object.keys(state.skills)` order and the random picks of `generateQuests` are
  caller-supplied inputs. Dashboard.UserState.GenerateQuests requires a
  non-empty skill map (a valid pick needs at least one skill); the source would
  produce a quest on `undefined` there.
- Accounts.ToLower: lower-cases ASCII letters only. Unicode case mapping is
  not modelled.
- Accounts.RegisterCheck: counts the password length in code points, not
  UTF-16 units.
- Ranking.RanksBefore: compares names by code-point order instead of
  `localeCompare`.
- SQL, JWT, bcrypt and the user lookups are not modelled. The lookups include
  `COLLATE NOCASE` and the authenticated user; the resolved ids are inputs.
- The database schema file `skill-routine/server/db.js` is not part of this
  model. The friend table is assumed to be unique on (from, to). The insert's
  error handling expects this, and the other schema in the repository,
  `skill-routine/server/skill-routine/server/db.js:42`, declares
  `UNIQUE (from_user, to_user)`.
- Concurrency between requests is not modelled; each handler is one atomic step.
- The repository's root `server.js` and the other pages are not part of this
  model.
- Other friend, state and auth endpoints are not modelled. These are the
  pending and friends lists, `/api/state`, `/api/me` and login.
