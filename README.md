# Adventure game core, modelled in Dafny

This project models the rules of a small browser adventure game (a Vue/Pinia front end
with a Python back end) and proves properties of them. Four pieces of the game are modelled:

- **`game` store** (`src/store/game.js`). This is the player record and the game-state machine:
  start, pause, resume, end and change scene. It also handles experience and level-up,
  damage that ends the game at zero health, healing capped at 100, and adding and removing
  inventory items. The store is the class `GameStore.Store`, whose `player` is a
  `GameStore.PlayerRecord`; its methods change those fields in place.
- **Back-end `Player`** (`backend/app/models/game.py`). Its level-up rule is the store's.
  Its `take_damage` does not clamp and reports whether the player has fallen.
  It is the class `PlayerModel.Player`.
- **Item utilities** (`src/utils/itemUtils.js`). This covers the type and rarity
  enumerations, the display tables with their fallbacks, `canUseItem`, `useItemEffect`,
  the deterministic part of `generateRandomItem`, the item comparator and `filterItems`.
  - `ItemCatalog` holds the pure part.
  - `ItemEffects` holds `useItemEffect`, a method that updates the player in place.
- **Quest utilities** (`src/utils/questUtils.js`). This covers the status predicates,
  `checkQuestObjectives`, `updateQuestProgress`, `calculateQuestRewards`,
  `isAchievementUnlocked`, the progress percentage, the two sorts and the two filters.
  They live in `QuestTracker`.

The shared rules live in their own modules. `Progression` holds the level-up rule, the
capped heal and the store's damage clamp, used by both player classes. `Sequences` holds
`Array.prototype.filter` and `indexOf`. `Sorting` holds an in-place sort of an array by a
lexicographic key. Each JavaScript comparator is proved equal to such a key order.

Item types, rarities, quest statuses and requirement kinds stay strings, as in the
JavaScript. An undeclared key therefore flows through each function as it does there:
`indexOf` gives -1 and a lookup falls back to its default text. Keys that name members
inherited from `Object.prototype` are the exception; see "## Left out". Enumeration
datatypes (`ItemType`, `Rarity`) come with parse functions and round-trip lemmas.

Where the code does something surprising, the model does it too, and a lemma shows it:

- a level-up subtracts the *new* level's threshold, so experience can go negative;
- a level-up can push health above 100;
- one call gains at most one level;
- when several effects apply, `useItemEffect` reports only the last one;
- `updateQuestProgress` sets progress rather than adding to it, so progress can go down.

Some promises one might expect of such a game do not hold of the code: that health
always stays in [0, 100] and mana in [0, 50], and that objectives never lose progress.
The model follows the code and proves the bounds it actually keeps; `Progression.LevelUpCanExceedMaxHealth` and `QuestTracker.ProgressCanDecrease`
exhibit the difference. The sorts use `Array.prototype.sort`, which is stable; the model
sorts in the same order but does not state stability (see "## Left out").

The store keeps one invariant, `GameStore.Store.Valid`: the player's level is positive.
The constructor and `StartGame` establish it, and every action requires it and keeps it.

## Model

| member | source | states |
|---|---|---|
| `Progression.GainExperience` | src/store/game.js:56-68 | One call raises the level by at most one. It raises it exactly when the experience plus the amount reaches `level * 100`. |
| `Progression.BelowThresholdOnlyExperience` | src/store/game.js:56-59 | Below the threshold only the experience changes, by exactly the amount. |
| `Progression.GrowthPerLevel` | src/store/game.js:60-66 | A level gained is worth exactly 10 health, 5 mana and 2 of each attribute; no level means no change. |
| `Progression.ExperienceConserved` | src/store/game.js:57-61 | Lifetime experience grows by exactly the amount, level-up or not. It counts the thresholds paid (200 + … + `level * 100`, the new level's each time) plus the balance. No experience is lost or created. |
| `Progression.OneLevelPerCall` | src/store/game.js:56-68 | Level 1 with 0 experience gaining 10000 reaches level 2 with 9800 experience, not a higher level. |
| `Progression.ExperienceCanGoNegative` | src/store/game.js:59-61 | A fresh player gaining exactly 100 ends at level 2 with -100 experience. |
| `Progression.LevelUpCanExceedMaxHealth` | src/store/game.js:62 | A fresh player's level-up leaves health at 110, above the heal cap of 100. |
| `Progression.AddCapped` | src/store/game.js:77 | `Math.min(value + amount, cap)`: never above the cap, and equal to `value + amount` exactly when that fits under the cap. |
| `Progression.AddCappedComposes` | src/store/game.js:76-78 | Healing `a` and then a nonnegative `b` gives the same result as healing `a + b` at once. |
| `Progression.AddCappedMonotone` | src/store/game.js:76-78 | A nonnegative heal from at or below the cap never lowers health. |
| `Progression.StoreDamage` | src/store/game.js:69-75 | Health after damage is never negative. The player is depleted exactly when health is 0. |
| `Progression.StoreDamageClampsBackend` | src/store/game.js:69-75 | The store's health is `max(health - amount, 0)`. It is depleted exactly when the unclamped difference is at most 0. |
| `GameStore.PlayerRecord.constructor` | src/store/game.js:5-16 | A player record starts at level 1, 0 experience, 100 health, 50 mana, 10 of each attribute and an empty inventory. |
| `GameStore.PlayerName` | src/store/game.js:32 | The given name, or `Adventurer` when none or an empty one is given: never empty. It is `Adventurer` exactly when no name, an empty name or that name was given. |
| `GameStore.RemoveById` | src/store/game.js:83 | Removes the items with that id. The rest keep their order and their multiplicity. |
| `GameStore.RemoveAbsentId` | src/store/game.js:83 | Removing an id no item has leaves the inventory unchanged. |
| `GameStore.Store.constructor` | src/store/game.js:4-20 | The initial state: an empty-named default player, scene `home`, not started, idle. |
| `GameStore.Store.StartGame` | src/store/game.js:27-43 | A fresh player with id 1, the given or default name and the starting stats; scene `village`; started; playing. |
| `GameStore.Store.PauseGame` | src/store/game.js:44-46 | The state becomes paused; nothing else changes. |
| `GameStore.Store.ResumeGame` | src/store/game.js:47-49 | The state becomes playing; nothing else changes. |
| `GameStore.Store.EndGame` | src/store/game.js:50-52 | The state becomes game over; nothing else changes. |
| `GameStore.Store.ChangeScene` | src/store/game.js:53-55 | The scene becomes the given one; nothing else changes. |
| `GameStore.Store.AddExperience` | src/store/game.js:56-68 | The player's stats become `GainExperience` of the old stats. Identity and inventory are unchanged. |
| `GameStore.Store.TakeDamage` | src/store/game.js:69-75 | Health becomes the clamped difference. The game is over exactly when it reaches 0; otherwise the state is unchanged. Nothing else changes. |
| `GameStore.Store.Heal` | src/store/game.js:76-78 | Health becomes `min(health + amount, 100)`; nothing else changes. |
| `GameStore.Store.AddItem` | src/store/game.js:79-81 | The item is appended to the inventory; nothing else changes. |
| `GameStore.Store.RemoveItem` | src/store/game.js:82-84 | The inventory becomes `RemoveById` of the old one; nothing else changes. |
| `PlayerModel.Player.constructor` | backend/app/models/game.py:2-12 | The stats are the arguments, whose defaults are 1, 0, 100, 50 and 10, 10, 10. The inventory is empty. |
| `PlayerModel.Player.AddExperience` | backend/app/models/game.py:28-37 | The step-by-step update yields exactly the store's `GainExperience` rule. |
| `PlayerModel.Player.TakeDamage` | backend/app/models/game.py:39-41 | Health drops by the amount, unclamped. The result is true exactly when health is at most 0, which is exactly when the store's clamped damage would end the game. |
| `PlayerModel.Player.Heal` | backend/app/models/game.py:43-44 | Health becomes `min(health + amount, 100)`; nothing else changes. |
| `PlayerModel.Player.AddItem` | backend/app/models/game.py:46-47 | The item is appended; nothing else changes. |
| `PlayerModel.Player.RemoveItem` | backend/app/models/game.py:49-50 | The inventory loses exactly the items with that id, in order; nothing else changes. |
| `PlayerModel.RemoveById` | backend/app/models/game.py:50 | The kept items are a subsequence, with each item with another id kept as often as it occurred. |
| `ItemCatalog.ParseItemType` | src/utils/itemUtils.js:4-13 | A key names a type exactly when it is one of the eight declared keys. |
| `ItemCatalog.ParseRarity` | src/utils/itemUtils.js:16-22 | A key names a rarity exactly when it is one of the five declared keys. |
| `ItemCatalog.TypeIndexIsRank` | src/utils/itemUtils.js:4-13 | `Object.values(ITEM_TYPES).indexOf` of a type's key is its declaration rank. |
| `ItemCatalog.RarityIndexIsRank` | src/utils/itemUtils.js:16-22 | `Object.values(ITEM_RARITIES).indexOf` of a rarity's key is its rank, from common (0) to legendary (4). |
| `ItemCatalog.ParseItemTypeRoundTrip` | src/utils/itemUtils.js:4-13 | Type keys and types correspond one to one, in both directions. |
| `ItemCatalog.ParseRarityRoundTrip` | src/utils/itemUtils.js:16-22 | Rarity keys and rarities correspond one to one, in both directions. |
| `ItemCatalog.TypeNameFallback` | src/utils/itemUtils.js:25-37 | The generic name `物品` is shown exactly for undeclared type keys. |
| `ItemCatalog.TypeIconFallback` | src/utils/itemUtils.js:52-64 | The generic icon `📦` is shown exactly for undeclared type keys. |
| `ItemCatalog.RarityLookupFallback` | src/utils/itemUtils.js:40-76 | A rarity key shows the common name and colour exactly when it is undeclared or is `common`. |
| `ItemCatalog.CanUseItemExactly` | src/utils/itemUtils.js:79-81 | An item can be used exactly when its type parses to potion or food. |
| `ItemCatalog.RarityMultiplierOrdered` | src/utils/itemUtils.js:251-260 | The multiplier table gives each rarity its multiplier in tenths (0, 2, 5, 10, 20). A higher rarity never gets a smaller one. |
| `ItemCatalog.GenerateItem` | src/utils/itemUtils.js:122-196 | The generated item carries the drawn type and rarity keys, the formula value and the formula effects. |
| `ItemCatalog.DefaultLevelIsOne` | src/utils/itemUtils.js:122 | Without a level argument the item is generated at level 1, worth `floor(base * (1 + multiplier))`. |
| `ItemCatalog.GenerateItemRoundTrip` | src/utils/itemUtils.js:122-127 | The generated item's type and rarity keys parse back to the drawn type and rarity. |
| `ItemCatalog.GeneratedEffectsIffUsable` | src/utils/itemUtils.js:145-161 | A generated item has effects exactly when it can be used. Those effects heal at least 10. |
| `ItemCatalog.GeneratedValueBounds` | src/utils/itemUtils.js:132-186 | For a nonnegative level the value is at least `level * base`, exactly that when common. A rarer item is never worth less. |
| `ItemCatalog.LevelFivePotion` | src/utils/itemUtils.js:145-152 | Level-5 potions are worth 25, 30, 37, 50 and 75 and heal 20, 24, 30, 40 and 60, from common to legendary. |
| `ItemCatalog.CompareItemsIsKeyOrder` | src/utils/itemUtils.js:263-280 | `compareItems(a, b) <= 0` exactly when `a`'s key is at most `b`'s in the lexicographic order (descending rarity, declared type order, descending value). The comparator is zero exactly on equal keys. |
| `ItemCatalog.CompareItemsAntisymmetric` | src/utils/itemUtils.js:263-280 | Swapping the arguments negates the comparison. |
| `ItemCatalog.CompareItemsTransitive` | src/utils/itemUtils.js:263-280 | "Sorts no later than" is transitive. |
| `ItemCatalog.RarerItemFirst` | src/utils/itemUtils.js:263-269 | A rarer item sorts first, whatever the types and values. |
| `ItemCatalog.FilterItems` | src/utils/itemUtils.js:283-302 | The result is a subsequence of the items. It keeps each item as often as it occurs if the item passes every given filter, and drops it otherwise. Every kept item meets each truthy filter. |
| `ItemCatalog.FilterItemsNoFilters` | src/utils/itemUtils.js:283-302 | With no filters every item is kept. |
| `ItemEffects.UseItemEffect` | src/utils/itemUtils.js:84-119 | The player's stats become the effects applied in order: health and mana capped at 100 and 50, attributes added. Identity and inventory are unchanged. The result is the reference outcome. |
| `ItemEffects.OutcomeIsLastApplied` | src/utils/itemUtils.js:84-119 | The item is reported used exactly when some effect is present and nonzero, and exactly then is the message non-empty. The message names the last such effect in the order health, mana, strength, agility, intelligence, with its amount. |
| `ItemEffects.UseItemBounds` | src/utils/itemUtils.js:88-116 | An applied health or mana effect leaves that stat at `min(old + e, cap)`. An absent one leaves it as it was. Each attribute rises by exactly its effect. Level and experience are unchanged. |
| `ItemEffects.UnusedItemChangesNothing` | src/utils/itemUtils.js:84-119 | An item with no applicable effect changes nothing and reports `{used: false, message: ''}`. |
| `ItemEffects.HealthOnlyOutcome` | src/utils/itemUtils.js:88-92 | An item whose only effect is a nonzero health amount reports the health message. |
| `ItemEffects.GeneratedConsumableHeals` | src/utils/itemUtils.js:145-161 | A generated potion or food, when used, is always reported used, with its health message. |
| `QuestTracker.QuestLookupFallback` | src/utils/questUtils.js:28-48 | `未知` is shown exactly for undeclared statuses and undeclared quest types. |
| `QuestTracker.AchievementRarityDisplayMatchesItems` | src/utils/questUtils.js:50-72 | Achievement rarities show the same names and colours as item rarities, fallbacks included. |
| `QuestTracker.StatusPredicatesByStage` | src/utils/questUtils.js:74-87 | Positions in the lifecycle available → accepted → completed → turned in: a quest can be accepted exactly at the first stage, turned in exactly at the third, and is completed exactly from the third on. |
| `QuestTracker.CheckQuestObjectivesMonotone` | src/utils/questUtils.js:89-100 | More progress on every objective never makes the check fail. A missing entry counts as 0. |
| `QuestTracker.CheckQuestObjectivesEmpty` | src/utils/questUtils.js:90-99 | A quest without objectives passes the check. |
| `QuestTracker.FindObjective` | src/utils/questUtils.js:104 | Finds the first objective with that id, or none exactly when no objective has it. |
| `QuestTracker.UpdateQuestProgress` | src/utils/questUtils.js:103-117 | Only objectives and status change. Ids and required counts are kept. The status either stays or goes from accepted to completed. |
| `QuestTracker.UnknownObjectiveLeavesQuest` | src/utils/questUtils.js:104-105 | An id no objective has leaves the quest as it was. |
| `QuestTracker.OnlyThatObjectiveChanges` | src/utils/questUtils.js:104-108 | Only the first matching objective changes, and only its progress, which becomes `min(progress, required)`. |
| `QuestTracker.StatusOnlyMovesForward` | src/utils/questUtils.js:110-114 | The status changes exactly when the id was found, the quest was accepted and every objective is then met. A completed or turned-in quest never changes status. |
| `QuestTracker.ProgressCanDecrease` | src/utils/questUtils.js:108 | Progress 8 of 10 updated with 3 becomes 3: progress is set, not added. |
| `QuestTracker.CompletionExample` | src/utils/questUtils.js:103-117 | Meeting the last objective of an accepted quest completes it (progress clamped to 1 of 1). Repeating the update keeps it completed. |
| `QuestTracker.FindObjectiveByIds` | src/utils/questUtils.js:104 | The search depends only on the objectives' ids. |
| `QuestTracker.UpdateIdempotent` | src/utils/questUtils.js:103-117 | Repeating the same update changes nothing more. |
| `QuestTracker.RewardsDefault` | src/utils/questUtils.js:119-140 | The rewards are the quest's own experience, gold and items, or 0, 0 and no items where it gives none. |
| `QuestTracker.UnlockedIffCounterReached` | src/utils/questUtils.js:142-161 | Unlocked exactly when there is a requirement of a known kind and its counter reaches the value. Scenes count by the number visited. |
| `QuestTracker.UnlockMonotone` | src/utils/questUtils.js:142-161 | More progress on every counter never locks an achievement again. |
| `QuestTracker.FloorDiv` | src/utils/questUtils.js:171 | `Math.floor(a / b)` for a nonzero divisor of either sign: the greatest `r` with `r * b` not past `a`. |
| `QuestTracker.GetQuestProgressPercentage` | src/utils/questUtils.js:163-172 | Never above 100. It is 0 when there are no objectives. |
| `QuestTracker.SumsOfWellFormed` | src/utils/questUtils.js:168-169 | With positive required counts and nonnegative progress: the progress sum is nonnegative, the required sum is positive when there are objectives, and progress covers requirement when every objective is met. |
| `QuestTracker.PercentageInRange` | src/utils/questUtils.js:163-172 | With positive required counts and nonnegative progress the percentage is a number in [0, 100]. |
| `QuestTracker.MetObjectivesGiveHundred` | src/utils/questUtils.js:163-172 | With positive required counts and every objective met the percentage is 100. |
| `QuestTracker.PercentageExample` | src/utils/questUtils.js:163-172 | 3 of 3 and nothing of 1 give 75. |
| `QuestTracker.CompareQuestsIsKeyOrder` | src/utils/questUtils.js:174-188 | The quest comparator is the lexicographic order on (status priority, level or 0). |
| `QuestTracker.StatusOrderOfQuests` | src/utils/questUtils.js:176-183 | Completed quests sort before accepted ones, accepted before available, and available before turned in. |
| `QuestTracker.SortQuests` | src/utils/questUtils.js:174-188 | The array is rearranged in place into comparator order, hence status-priority order, with the same elements. |
| `QuestTracker.CompareAchievementsIsKeyOrder` | src/utils/questUtils.js:190-210 | The achievement comparator is the lexicographic order on (locked, descending rarity, id). |
| `QuestTracker.SortAchievements` | src/utils/questUtils.js:190-210 | The array is rearranged in place into comparator order, with all unlocked achievements before any locked one and the same elements. |
| `QuestTracker.FilterQuests` | src/utils/questUtils.js:212-229 | The result is a subsequence. It keeps each quest as often as it occurs if it passes every truthy filter, and drops it otherwise. Every kept quest meets each given filter. |
| `QuestTracker.FilterQuestsNoFilters` | src/utils/questUtils.js:212-229 | With no filters every quest is kept. |
| `QuestTracker.FilterAchievements` | src/utils/questUtils.js:231-242 | The result is a subsequence, kept exactly as the filters say. `unlocked` applies whenever it is given, including `false`. |
| `QuestTracker.FilterAchievementsNoFilters` | src/utils/questUtils.js:231-242 | With no filters every achievement is kept. |
| `QuestTracker.UnlockedFilterPartitions` | src/utils/questUtils.js:237-239 | Filtering by `unlocked: true` and by `unlocked: false` splits the list: each achievement lands in exactly one part. |

## Left out

- **Floating point.** Every number is an unbounded integer, and JavaScript's doubles can
  differ at boundaries. Two places are affected.
  - The rarity multipliers (0, 0.2, 0.5, 1, 2) are exact tenths. `Math.floor(n * (1 + m))`
    is computed as `n * (10 + 10m) / 10`.
  - The progress percentage is the exact floor of `100 * current / required`.
- ItemCatalog.GeneratedValue: takes the exact rational value. A double product just below
  an integer would floor one lower.
- QuestTracker.GetQuestProgressPercentage: takes the exact rational value. The double
  computation `57 / 100 * 100` gives 56.99999999999999, so the code reports 56 where the
  model reports 57. A zero required sum gives `Infinity`, `NaN` or `-Infinity` in the code.
  The model represents these as 100, `NotANumber` and `MinusInfinity`. `NaN` among the
  inputs is not modelled.
- **Randomness and the clock.** `generateRandomItem` draws a type, a rarity and a name, and
  takes an id from `Date.now()`. These become parameters of `GenerateItem`, and so does the
  description text. The random name generators (`src/utils/itemUtils.js:199-248`) are not
  part of this model.
- **Display text.**
  - `useItemEffect`'s message is kept as (item name, stat, amount), not as the Chinese
    sentence built from them.
  - Item descriptions are left out.
  - The display tables are kept as written.
- ItemCatalog.ToLower: lowers ASCII letters only. JavaScript's `toLowerCase` also folds
  other scripts, so the search filter is modelled for ASCII case only.
- QuestTracker.SortQuests: does not state stability. The model sorts by selection, which
  may reorder ties; `Array.prototype.sort` keeps equal elements in their original order.
- QuestTracker.SortAchievements: does not state stability, for the same reason.
- **Aliasing in `updateQuestProgress`.** The function mutates the quest and its objectives
  in place and returns the same object. The model returns an updated value, so aliasing
  between the argument and other references to it is not captured.
- **Missing fields.**
  - A quest with no `objectives` array makes `updateQuestProgress` throw, while
    `checkQuestObjectives` and the percentage treat it as empty. The model always has a
    list, and an empty one leaves the quest unchanged.
  - `required` is always a number here. An undefined `required` makes every JavaScript
    comparison false, and the model does not represent it.
- **`unlocked` left undefined.** An achievement whose `unlocked` is undefined is modelled
  as `false`. `filterAchievements` with `unlocked: false` would drop such an achievement,
  because `undefined !== false`; the model keeps it.
- **Truthiness.** Absent fields are `None`. For text filters and counts, only `''` and
  `0` are treated as falsy, and `null` counts as absent. A zero effect amount is not
  applied, as in the code.
- QuestTracker.FilterAchievements: `unlocked: null` is not modelled. The code tests
  `filters.unlocked !== undefined`, so a `null` filter applies and drops every
  achievement, whereas `None` keeps them all. The filter is modelled only for an absent,
  `true` or `false` value.
- **Inherited keys.** A key that names a member of `Object.prototype` (`'constructor'`,
  `'toString'`, …) is looked up on the prototype by the JavaScript tables. For such a key
  `getItemTypeName`, `getItemIcon`, `getItemRarityName`, `getItemRarityColor`,
  `getRarityMultiplier`, `getQuestStatusName` and `getQuestTypeName` return that member
  rather than the fallback. The model's tables are plain maps, and `ItemTypeName`,
  `ItemIcon`, `ItemRarityName`, `ItemRarityColor`, `RarityMultiplier`, `QuestStatusName`,
  `QuestTypeName` and the fallback lemmas give the fallback for every undeclared key.
- **Missing `scenesVisited`.** A progress snapshot without `scenesVisited` makes
  `isAchievementUnlocked` throw for a `scenes_visited` requirement. `PlayerProgress` always
  carries a list, so the model has no error path for it.
- **Getters and serialisation.** The Pinia getters (`src/store/game.js:21-25`) and the
  back-end `to_dict` (`backend/app/models/game.py:14-26`) only expose fields. They are not
  modelled.
- **Other back-end classes.** The back-end `Item` class beyond its fields, and the scene,
  NPC and quest holder classes, are not part of this model.
- **Dynamic types.** Numbers that are not integers, and values of the wrong JavaScript
  type (a string level, say), are outside the model.
