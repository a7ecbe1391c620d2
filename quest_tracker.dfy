/**
 * The quest and achievement tracker of src/utils/questUtils.js: status predicates,
 * objective checks against a progress map, the objective-progress update with its
 * accepted-to-completed transition, rewards, achievement unlocking, the progress
 * percentage, the two sorts and the two filters. Statuses, quest types and rarities
 * travel as the strings the JavaScript uses.
 */
module QuestTracker {
  import opened Wrappers
  import Sequences
  import Sorting
  import ItemCatalog

  // ----- Enumerations and display tables

  const Available := "available"
  const Accepted := "accepted"
  const Completed := "completed"
  const TurnedIn := "turned_in"

  /** `QUEST_STATUS` in lifecycle order: available, accepted, completed, turned in. */
  const QuestStatuses: seq<string> := [Available, Accepted, Completed, TurnedIn]
  const QuestTypes: seq<string> := ["kill", "collect", "talk", "explore"]
  /** `Object.values(ACHIEVEMENT_RARITY)`: common ranks lowest, legendary highest. */
  const AchievementRarities: seq<string> := ["common", "uncommon", "rare", "epic", "legendary"]

  const QuestStatusNames: map<string, string> := map[Available := "可接受", Accepted := "进行中", Completed := "已完成", TurnedIn := "已提交"]
  const QuestTypeNames: map<string, string> := map["kill" := "击杀", "collect" := "收集", "talk" := "交谈", "explore" := "探索"]
  const AchievementRarityNames: map<string, string> := map[
    "common" := "普通", "uncommon" := "优秀", "rare" := "稀有", "epic" := "史诗", "legendary" := "传说"]
  const AchievementRarityColors: map<string, string> := map[
    "common" := "#999999", "uncommon" := "#1eff00", "rare" := "#0070dd", "epic" := "#a335ee", "legendary" := "#ff8000"]

  const UnknownName := "未知"

  function QuestStatusName(key: string): string {
    if key in QuestStatusNames then QuestStatusNames[key] else UnknownName
  }

  function QuestTypeName(key: string): string {
    if key in QuestTypeNames then QuestTypeNames[key] else UnknownName
  }

  function AchievementRarityName(key: string): string {
    if key in AchievementRarityNames then AchievementRarityNames[key] else "普通"
  }

  function AchievementRarityColor(key: string): string {
    if key in AchievementRarityColors then AchievementRarityColors[key] else "#999999"
  }

  /** Exactly the undeclared statuses and types show as unknown. */
  lemma QuestLookupFallback(key: string)
    ensures QuestStatusName(key) == UnknownName <==> key !in QuestStatuses
    ensures QuestTypeName(key) == UnknownName <==> key !in QuestTypes
  {
  }

  /** Achievement rarities display exactly as item rarities do, unknown keys included. */
  lemma AchievementRarityDisplayMatchesItems(key: string)
    ensures AchievementRarityName(key) == ItemCatalog.ItemRarityName(key)
    ensures AchievementRarityColor(key) == ItemCatalog.ItemRarityColor(key)
  {
  }

  // ----- Data

  /** An objective; `current` is `undefined` until progress is first recorded. */
  datatype Objective = Objective(id: string, required: int, current: Option<int>)

  datatype Rewards = Rewards(experience: Option<int>, gold: Option<int>, items: Option<seq<string>>)

  datatype Quest = Quest(id: string, kind: string, level: Option<int>, status: string, objectives: seq<Objective>, rewards: Option<Rewards>)

  // ----- Status predicates

  predicate CanAcceptQuest(q: Quest) { q.status == Available }
  predicate CanTurnInQuest(q: Quest) { q.status == Completed }
  predicate IsQuestCompleted(q: Quest) { q.status == Completed || q.status == TurnedIn }

  /** Position of a status in the lifecycle, -1 for an undeclared one. */
  function Stage(status: string): int {
    Sequences.IndexOf(QuestStatuses, status)
  }

  /**
   * Read against the lifecycle: a quest can be accepted at its first stage, can be turned in
   * at its third, and counts as completed from the third stage on.
   */
  lemma StatusPredicatesByStage(q: Quest)
    ensures CanAcceptQuest(q) <==> Stage(q.status) == 0
    ensures CanTurnInQuest(q) <==> Stage(q.status) == 2
    ensures IsQuestCompleted(q) <==> Stage(q.status) >= 2
  {
    Sequences.IndexOfFirst(QuestStatuses, 0);
    Sequences.IndexOfFirst(QuestStatuses, 2);
    Sequences.IndexOfFirst(QuestStatuses, 3);
  }

  // ----- `checkQuestObjectives`

  /** `playerProgress[id] || 0` */
  function ProgressOf(progress: map<string, int>, id: string): int {
    if id in progress then progress[id] else 0
  }

  /** Every objective's recorded progress reaches what it requires. */
  predicate CheckQuestObjectives(q: Quest, progress: map<string, int>) {
    forall i :: 0 <= i < |q.objectives| ==> ProgressOf(progress, q.objectives[i].id) >= q.objectives[i].required
  }

  /** More progress never un-completes the objectives. */
  lemma CheckQuestObjectivesMonotone(q: Quest, progress: map<string, int>, more: map<string, int>)
    requires forall id :: ProgressOf(progress, id) <= ProgressOf(more, id)
    requires CheckQuestObjectives(q, progress)
    ensures CheckQuestObjectives(q, more)
  {
    forall i | 0 <= i < |q.objectives| ensures ProgressOf(more, q.objectives[i].id) >= q.objectives[i].required {
      assert ProgressOf(progress, q.objectives[i].id) <= ProgressOf(more, q.objectives[i].id);
    }
  }

  /** A quest without objectives passes the check with any progress. */
  lemma CheckQuestObjectivesEmpty(q: Quest, progress: map<string, int>)
    requires q.objectives == []
    ensures CheckQuestObjectives(q, progress)
  {
  }

  // ----- `updateQuestProgress`

  /** `objectives.find(obj => obj.id === id)`, as a position. */
  function FindObjective(objectives: seq<Objective>, id: string): (r: Option<nat>)
    ensures r.None? <==> forall o :: o in objectives ==> o.id != id
    ensures r.Some? ==> r.value < |objectives| && objectives[r.value].id == id
    ensures r.Some? ==> forall j :: 0 <= j < r.value ==> objectives[j].id != id
  {
    if objectives == [] then None
    else if objectives[0].id == id then Some(0)
    else match FindObjective(objectives[1..], id)
      case None => None
      case Some(k) => Some(k + 1)
  }

  /** `obj.current >= obj.required`; an objective never updated is not met. */
  predicate ObjectiveMet(o: Objective) {
    o.current.Some? && o.current.value >= o.required
  }

  predicate AllObjectivesMet(objectives: seq<Objective>) {
    forall i :: 0 <= i < |objectives| ==> ObjectiveMet(objectives[i])
  }

  function Min(a: int, b: int): int { if a <= b then a else b }

  /**
   * `updateQuestProgress`: sets the first objective with that id to `min(progress, required)`
   * and, when every objective is then met and the quest was accepted, completes it.
   */
  function UpdateQuestProgress(q: Quest, objectiveId: string, progress: int): (r: Quest)
    ensures r.id == q.id && r.kind == q.kind && r.level == q.level && r.rewards == q.rewards
    ensures |r.objectives| == |q.objectives|
    ensures forall j :: 0 <= j < |q.objectives| ==>
      r.objectives[j].id == q.objectives[j].id && r.objectives[j].required == q.objectives[j].required
    ensures r.status == q.status || (q.status == Accepted && r.status == Completed)
  {
    match FindObjective(q.objectives, objectiveId)
    case None => q
    case Some(k) =>
      var o := q.objectives[k];
      var objectives := q.objectives[k := o.(current := Some(Min(progress, o.required)))];
      var status := if AllObjectivesMet(objectives) && q.status == Accepted then Completed else q.status;
      q.(objectives := objectives, status := status)
  }

  /** An id no objective carries leaves the quest as it was. */
  lemma UnknownObjectiveLeavesQuest(q: Quest, objectiveId: string, progress: int)
    requires forall o :: o in q.objectives ==> o.id != objectiveId
    ensures UpdateQuestProgress(q, objectiveId, progress) == q
  {
  }

  /**
   * Only the first objective with that id changes, and only its progress: it becomes
   * `min(progress, required)`, so never more than required.
   */
  lemma OnlyThatObjectiveChanges(q: Quest, objectiveId: string, progress: int, k: nat)
    requires k < |q.objectives| && q.objectives[k].id == objectiveId
    requires forall j :: 0 <= j < k ==> q.objectives[j].id != objectiveId
    ensures var r := UpdateQuestProgress(q, objectiveId, progress);
      && r.objectives[k] == q.objectives[k].(current := Some(Min(progress, q.objectives[k].required)))
      && r.objectives[k].current.value <= q.objectives[k].required
      && forall j :: 0 <= j < |q.objectives| && j != k ==> r.objectives[j] == q.objectives[j]
  {
    assert FindObjective(q.objectives, objectiveId) == Some(k);
  }

  /**
   * The status changes only from accepted to completed, and exactly when the id was found
   * and every objective is met afterwards; a completed or turned-in quest never reverts.
   */
  lemma StatusOnlyMovesForward(q: Quest, objectiveId: string, progress: int)
    ensures var r := UpdateQuestProgress(q, objectiveId, progress);
      && (r.status != q.status <==>
            FindObjective(q.objectives, objectiveId).Some? && q.status == Accepted && AllObjectivesMet(r.objectives))
      && (IsQuestCompleted(q) ==> r.status == q.status)
  {
  }

  /** Progress is set, not added: an update can lower it. */
  lemma ProgressCanDecrease()
    ensures var q := Quest("q", "collect", None, Accepted, [Objective("wood", 10, Some(8))], None);
      UpdateQuestProgress(q, "wood", 3).objectives[0].current == Some(3)
  {
  }

  /** When an update meets the last objective of an accepted quest it completes; repeating it keeps it completed. */
  lemma CompletionExample()
    ensures var q := Quest("q", "kill", Some(2), Accepted, [Objective("wolf", 5, Some(5)), Objective("bear", 1, None)], None);
      var r := UpdateQuestProgress(q, "bear", 3);
      && r.status == Completed && r.objectives[1].current == Some(1)
      && UpdateQuestProgress(r, "bear", 3).status == Completed
  {
    var q := Quest("q", "kill", Some(2), Accepted, [Objective("wolf", 5, Some(5)), Objective("bear", 1, None)], None);
    assert FindObjective(q.objectives, "bear") == Some(1);
  }

  /** Objective lists with the same ids find an id at the same position. */
  lemma {:induction false} FindObjectiveByIds(a: seq<Objective>, b: seq<Objective>, id: string)
    requires |a| == |b| && forall j :: 0 <= j < |a| ==> a[j].id == b[j].id
    ensures FindObjective(a, id) == FindObjective(b, id)
  {
    if a != [] && a[0].id != id {
      FindObjectiveByIds(a[1..], b[1..], id);
    }
  }

  /** Repeating an update changes nothing more. */
  lemma {:induction false} UpdateIdempotent(q: Quest, objectiveId: string, progress: int)
    ensures var r := UpdateQuestProgress(q, objectiveId, progress);
      UpdateQuestProgress(r, objectiveId, progress) == r
  {
    var r := UpdateQuestProgress(q, objectiveId, progress);
    FindObjectiveByIds(q.objectives, r.objectives, objectiveId);
    match FindObjective(q.objectives, objectiveId)
    case None =>
    case Some(k) =>
      assert r.objectives[k := r.objectives[k].(current := Some(Min(progress, r.objectives[k].required)))] == r.objectives;
  }

  // ----- `calculateQuestRewards`

  datatype RewardSummary = RewardSummary(experience: int, gold: int, items: seq<string>)

  function CalculateQuestRewards(q: Quest): RewardSummary {
    match q.rewards
    case None => RewardSummary(0, 0, [])
    case Some(rw) =>
      RewardSummary(
        if rw.experience.Some? && rw.experience.value != 0 then rw.experience.value else 0,
        if rw.gold.Some? && rw.gold.value != 0 then rw.gold.value else 0,
        if rw.items.Some? then rw.items.value else [])
  }

  /** Each reward is the quest's own, or 0 and no items where the quest gives none. */
  lemma RewardsDefault(q: Quest)
    ensures var r := CalculateQuestRewards(q);
      && (q.rewards.None? ==> r == RewardSummary(0, 0, []))
      && (q.rewards.Some? ==> r == RewardSummary(q.rewards.value.experience.GetOr(0), q.rewards.value.gold.GetOr(0), q.rewards.value.items.GetOr([])))
  {
  }

  // ----- `isAchievementUnlocked`

  datatype Requirement = Requirement(kind: string, value: int)

  datatype Achievement = Achievement(id: int, rarity: string, unlocked: bool, requirement: Option<Requirement>)

  /** The progress snapshot an external tracker keeps. */
  datatype PlayerProgress = PlayerProgress(level: int, questsCompleted: int, enemiesKilled: int, itemsCollected: int, scenesVisited: seq<string>)

  predicate IsAchievementUnlocked(a: Achievement, p: PlayerProgress) {
    match a.requirement
    case None => false
    case Some(req) =>
      if req.kind == "level" then p.level >= req.value
      else if req.kind == "quests_completed" then p.questsCompleted >= req.value
      else if req.kind == "enemies_killed" then p.enemiesKilled >= req.value
      else if req.kind == "items_collected" then p.itemsCollected >= req.value
      else if req.kind == "scenes_visited" then |p.scenesVisited| >= req.value
      else false
  }

  /** The counter a requirement kind measures, `None` for a kind the tracker does not know. */
  function Counter(p: PlayerProgress, kind: string): Option<int> {
    match kind
    case "level" => Some(p.level)
    case "quests_completed" => Some(p.questsCompleted)
    case "enemies_killed" => Some(p.enemiesKilled)
    case "items_collected" => Some(p.itemsCollected)
    case "scenes_visited" => Some(|p.scenesVisited|)
    case _ => None
  }

  /**
   * An achievement is unlocked exactly when it has a requirement of a known kind whose
   * counter has reached the required value; scenes count by the number visited.
   */
  lemma UnlockedIffCounterReached(a: Achievement, p: PlayerProgress)
    ensures IsAchievementUnlocked(a, p) <==>
      a.requirement.Some? && Counter(p, a.requirement.value.kind).Some?
      && Counter(p, a.requirement.value.kind).value >= a.requirement.value.value
  {
  }

  /** `other` has made at least as much progress as `p` on every counter. */
  predicate AtLeastAsFar(other: PlayerProgress, p: PlayerProgress) {
    && p.level <= other.level
    && p.questsCompleted <= other.questsCompleted
    && p.enemiesKilled <= other.enemiesKilled
    && p.itemsCollected <= other.itemsCollected
    && |p.scenesVisited| <= |other.scenesVisited|
  }

  /** Progress never locks an achievement again. */
  lemma UnlockMonotone(a: Achievement, p: PlayerProgress, other: PlayerProgress)
    requires AtLeastAsFar(other, p)
    requires IsAchievementUnlocked(a, p)
    ensures IsAchievementUnlocked(a, other)
  {
  }

  // ----- `getQuestProgressPercentage`

  /**
   * The value of `Math.min(Math.floor(current / required * 100), 100)` over the sums; a
   * zero required sum divides to `Infinity` (clamped to 100), `NaN` or `-Infinity`.
   */
  datatype Percentage = Percent(value: int) | NotANumber | MinusInfinity

  function SumRequired(objectives: seq<Objective>): int {
    if objectives == [] then 0 else SumRequired(objectives[..|objectives| - 1]) + objectives[|objectives| - 1].required
  }

  /** An objective never updated contributes `obj.current || 0`, that is 0. */
  function SumCurrent(objectives: seq<Objective>): int {
    if objectives == [] then 0 else SumCurrent(objectives[..|objectives| - 1]) + objectives[|objectives| - 1].current.GetOr(0)
  }

  /** `Math.floor(a / b)` for a nonzero `b` of either sign. */
  function FloorDiv(a: int, b: int): (r: int)
    requires b != 0
    ensures b > 0 ==> r * b <= a < r * b + b
    ensures b < 0 ==> r * b >= a > r * b + b
  {
    if b > 0 then a / b else (-a) / (-b)
  }

  function GetQuestProgressPercentage(q: Quest): (r: Percentage)
    ensures r.Percent? ==> r.value <= 100
    ensures q.objectives == [] ==> r == Percent(0)
  {
    if q.objectives == [] then Percent(0)
    else
      var required := SumRequired(q.objectives);
      var current := SumCurrent(q.objectives);
      if required == 0 then
        if current > 0 then Percent(100) else if current == 0 then NotANumber else MinusInfinity
      else Percent(Min(FloorDiv(100 * current, required), 100))
  }

  /** Objectives that each require something and have nonnegative progress. */
  predicate WellFormed(objectives: seq<Objective>) {
    forall i :: 0 <= i < |objectives| ==> objectives[i].required > 0 && objectives[i].current.GetOr(0) >= 0
  }

  lemma {:induction false} SumsOfWellFormed(objectives: seq<Objective>)
    requires WellFormed(objectives)
    ensures SumCurrent(objectives) >= 0
    ensures objectives != [] ==> SumRequired(objectives) > 0
    ensures AllObjectivesMet(objectives) ==> SumCurrent(objectives) >= SumRequired(objectives)
  {
    if objectives != [] {
      var init := objectives[..|objectives| - 1];
      assert WellFormed(init) by {
        forall i | 0 <= i < |init| ensures init[i] == objectives[i] { }
      }
      assert AllObjectivesMet(objectives) ==> AllObjectivesMet(init) by {
        forall i | 0 <= i < |init| ensures init[i] == objectives[i] { }
      }
      SumsOfWellFormed(init);
    }
  }

  /** With well-formed objectives the percentage is a number between 0 and 100. */
  lemma PercentageInRange(q: Quest)
    requires WellFormed(q.objectives)
    ensures GetQuestProgressPercentage(q).Percent?
    ensures 0 <= GetQuestProgressPercentage(q).value <= 100
  {
    SumsOfWellFormed(q.objectives);
    if q.objectives != [] {
      var required := SumRequired(q.objectives);
      var d := FloorDiv(100 * SumCurrent(q.objectives), required);
      assert d * required + required > 0;
      FactorBound(d + 1, 0, required);
    }
  }

  /** With well-formed objectives that are all met the percentage is 100. */
  lemma MetObjectivesGiveHundred(q: Quest)
    requires q.objectives != [] && WellFormed(q.objectives) && AllObjectivesMet(q.objectives)
    ensures GetQuestProgressPercentage(q) == Percent(100)
  {
    SumsOfWellFormed(q.objectives);
    var required := SumRequired(q.objectives);
    var d := FloorDiv(100 * SumCurrent(q.objectives), required);
    assert (d + 1) * required > 100 * required;
    FactorBound(d + 1, 100, required);
  }

  /** Cancelling a positive factor keeps a strict inequality. */
  lemma FactorBound(x: int, y: int, b: int)
    requires b > 0 && x * b > y * b
    ensures x > y
  {
  }

  /** Three of four collected, in two objectives: 75 percent. */
  lemma PercentageExample()
    ensures GetQuestProgressPercentage(Quest("q", "collect", None, Accepted,
      [Objective("herb", 3, Some(3)), Objective("ore", 1, None)], None)) == Percent(75)
  {
    var objectives := [Objective("herb", 3, Some(3)), Objective("ore", 1, None)];
    assert objectives[..1] == [Objective("herb", 3, Some(3))];
    assert objectives[..1][..0] == [];
    assert SumRequired(objectives) == 4 && SumCurrent(objectives) == 3;
  }

  // ----- `sortQuests`

  /** Completed quests first, then accepted, available, turned in; an undeclared status ranks -1. */
  const StatusSortOrder: seq<string> := [Completed, Accepted, Available, TurnedIn]

  function StatusPriority(status: string): int {
    Sequences.IndexOf(StatusSortOrder, status)
  }

  /** `quest.level || 0` */
  function LevelOrZero(q: Quest): int { q.level.GetOr(0) }

  /** Negative when `a` sorts first: by status order, then by level ascending. */
  function CompareQuests(a: Quest, b: Quest): int {
    var statusCompare := StatusPriority(a.status) - StatusPriority(b.status);
    if statusCompare != 0 then statusCompare else LevelOrZero(a) - LevelOrZero(b)
  }

  function QuestSortKey(q: Quest): Sorting.SortKey {
    Sorting.SortKey(StatusPriority(q.status), LevelOrZero(q), 0)
  }

  /** The comparator is the lexicographic order on (status priority, level). */
  lemma CompareQuestsIsKeyOrder(a: Quest, b: Quest)
    ensures CompareQuests(a, b) <= 0 <==> Sorting.KeyLe(QuestSortKey(a), QuestSortKey(b))
  {
  }

  /** Completed quests come before accepted ones, accepted before available, available before turned in. */
  lemma StatusOrderOfQuests(a: Quest, b: Quest)
    requires (a.status, b.status) in {(Completed, Accepted), (Accepted, Available), (Available, TurnedIn)}
    ensures CompareQuests(a, b) < 0
  {
    Sequences.IndexOfFirst(StatusSortOrder, 1);
    Sequences.IndexOfFirst(StatusSortOrder, 2);
    Sequences.IndexOfFirst(StatusSortOrder, 3);
  }

  /** `sortQuests`: sorts the array in place by the comparator, keeping its elements. */
  method SortQuests(a: array<Quest>)
    modifies a
    ensures forall i, j :: 0 <= i < j < a.Length ==> CompareQuests(a[i], a[j]) <= 0
    ensures forall i, j :: 0 <= i < j < a.Length ==> StatusPriority(a[i].status) <= StatusPriority(a[j].status)
    ensures multiset(a[..]) == multiset(old(a[..]))
  {
    Sorting.SortByKey(a, QuestSortKey);
    forall i, j | 0 <= i < j < a.Length ensures CompareQuests(a[i], a[j]) <= 0 {
      assert a[i] == a[..][i] && a[j] == a[..][j];
      CompareQuestsIsKeyOrder(a[i], a[j]);
    }
  }

  // ----- `sortAchievements`

  function AchievementRarityIndex(rarity: string): int {
    Sequences.IndexOf(AchievementRarities, rarity)
  }

  /** Negative when `a` sorts first: unlocked first, then rarer first, then lower id. */
  function CompareAchievements(a: Achievement, b: Achievement): int {
    var unlockedCompare := (if b.unlocked then 1 else 0) - (if a.unlocked then 1 else 0);
    if unlockedCompare != 0 then unlockedCompare
    else
      var rarityCompare := AchievementRarityIndex(b.rarity) - AchievementRarityIndex(a.rarity);
      if rarityCompare != 0 then rarityCompare else a.id - b.id
  }

  function AchievementSortKey(a: Achievement): Sorting.SortKey {
    Sorting.SortKey(if a.unlocked then 0 else 1, -AchievementRarityIndex(a.rarity), a.id)
  }

  /** The comparator is the lexicographic order on (locked, descending rarity, id). */
  lemma CompareAchievementsIsKeyOrder(a: Achievement, b: Achievement)
    ensures CompareAchievements(a, b) <= 0 <==> Sorting.KeyLe(AchievementSortKey(a), AchievementSortKey(b))
  {
  }

  /** `sortAchievements`: unlocked achievements first, each group ordered by the comparator. */
  method SortAchievements(a: array<Achievement>)
    modifies a
    ensures forall i, j :: 0 <= i < j < a.Length ==> CompareAchievements(a[i], a[j]) <= 0
    ensures forall i, j :: 0 <= i < j < a.Length && a[j].unlocked ==> a[i].unlocked
    ensures multiset(a[..]) == multiset(old(a[..]))
  {
    Sorting.SortByKey(a, AchievementSortKey);
    forall i, j | 0 <= i < j < a.Length ensures CompareAchievements(a[i], a[j]) <= 0 {
      assert a[i] == a[..][i] && a[j] == a[..][j];
      CompareAchievementsIsKeyOrder(a[i], a[j]);
    }
  }

  // ----- `filterQuests`

  /** The filter fields; each applies only when present and truthy. */
  datatype QuestFilters = QuestFilters(status: Option<string>, kind: Option<string>, minLevel: Option<int>, maxLevel: Option<int>)

  const NoQuestFilters := QuestFilters(None, None, None, None)

  predicate QuestMatches(f: QuestFilters, q: Quest) {
    && !(ItemCatalog.GivenText(f.status) && q.status != f.status.value)
    && !(ItemCatalog.GivenText(f.kind) && q.kind != f.kind.value)
    && !(ItemCatalog.GivenNumber(f.minLevel) && LevelOrZero(q) < f.minLevel.value)
    && !(ItemCatalog.GivenNumber(f.maxLevel) && LevelOrZero(q) > f.maxLevel.value)
  }

  /** `filterQuests`: the quests that pass every given filter, in order, each as often as it occurs. */
  function FilterQuests(quests: seq<Quest>, f: QuestFilters): (r: seq<Quest>)
    ensures Sequences.IsSubsequence(r, quests)
    ensures forall x :: multiset(r)[x] == if QuestMatches(f, x) then multiset(quests)[x] else 0
    ensures forall x :: x in r ==>
      && (ItemCatalog.GivenText(f.status) ==> x.status == f.status.value)
      && (ItemCatalog.GivenText(f.kind) ==> x.kind == f.kind.value)
      && (ItemCatalog.GivenNumber(f.minLevel) ==> LevelOrZero(x) >= f.minLevel.value)
      && (ItemCatalog.GivenNumber(f.maxLevel) ==> LevelOrZero(x) <= f.maxLevel.value)
  {
    var matches := (x: Quest) => QuestMatches(f, x);
    Sequences.FilterIsSubsequence(quests, matches);
    forall x ensures multiset(Sequences.Filter(quests, matches))[x] == if QuestMatches(f, x) then multiset(quests)[x] else 0 {
      Sequences.FilterMultiplicity(quests, matches, x);
    }
    Sequences.Filter(quests, matches)
  }

  /** With no filter given, every quest is kept. */
  lemma FilterQuestsNoFilters(quests: seq<Quest>)
    ensures FilterQuests(quests, NoQuestFilters) == quests
  {
    Sequences.FilterKeepsAll(quests, (x: Quest) => QuestMatches(NoQuestFilters, x));
  }

  // ----- `filterAchievements`

  /** `rarity` applies when truthy; `unlocked` applies whenever it is given, `false` included. */
  datatype AchievementFilters = AchievementFilters(rarity: Option<string>, unlocked: Option<bool>)

  const NoAchievementFilters := AchievementFilters(None, None)

  predicate AchievementMatches(f: AchievementFilters, a: Achievement) {
    && !(ItemCatalog.GivenText(f.rarity) && a.rarity != f.rarity.value)
    && !(f.unlocked.Some? && a.unlocked != f.unlocked.value)
  }

  /** `filterAchievements`: the achievements that pass every given filter, in order. */
  function FilterAchievements(achievements: seq<Achievement>, f: AchievementFilters): (r: seq<Achievement>)
    ensures Sequences.IsSubsequence(r, achievements)
    ensures forall x :: multiset(r)[x] == if AchievementMatches(f, x) then multiset(achievements)[x] else 0
    ensures forall x :: x in r ==>
      && (ItemCatalog.GivenText(f.rarity) ==> x.rarity == f.rarity.value)
      && (f.unlocked.Some? ==> x.unlocked == f.unlocked.value)
  {
    var matches := (x: Achievement) => AchievementMatches(f, x);
    Sequences.FilterIsSubsequence(achievements, matches);
    forall x ensures multiset(Sequences.Filter(achievements, matches))[x] == if AchievementMatches(f, x) then multiset(achievements)[x] else 0 {
      Sequences.FilterMultiplicity(achievements, matches, x);
    }
    Sequences.Filter(achievements, matches)
  }

  /** With no filter given, every achievement is kept. */
  lemma FilterAchievementsNoFilters(achievements: seq<Achievement>)
    ensures FilterAchievements(achievements, NoAchievementFilters) == achievements
  {
    Sequences.FilterKeepsAll(achievements, (x: Achievement) => AchievementMatches(NoAchievementFilters, x));
  }

  /** Filtering locked and unlocked achievements splits the list: each one lands in exactly one part. */
  lemma UnlockedFilterPartitions(achievements: seq<Achievement>, x: Achievement)
    ensures multiset(FilterAchievements(achievements, AchievementFilters(None, Some(true))))[x]
      + multiset(FilterAchievements(achievements, AchievementFilters(None, Some(false))))[x]
      == multiset(achievements)[x]
  {
  }
}
