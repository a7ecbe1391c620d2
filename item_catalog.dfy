/**
 * The item catalog of src/utils/itemUtils.js: the closed item-type and rarity
 * enumerations, their display tables with fallbacks, the usability test, the
 * value and effect formula of the random generator, the item comparator and the
 * item filter. Types and rarities travel as the strings the JavaScript uses, so
 * an item or a lookup may carry a key outside the enumeration.
 */
module ItemCatalog {
  import opened Wrappers
  import Sequences
  import Sorting

  datatype ItemType = Weapon | Armor | Potion | Food | Material | Currency | Treasure | Key {
    /** Position in the declaration order. */
    function Rank(): nat {
      match this
      case Weapon => 0
      case Armor => 1
      case Potion => 2
      case Food => 3
      case Material => 4
      case Currency => 5
      case Treasure => 6
      case Key => 7
    }

    /** The string the JavaScript uses for this type (`ITEM_TYPES`). */
    function Key(): string {
      match this
      case Weapon => "weapon"
      case Armor => "armor"
      case Potion => "potion"
      case Food => "food"
      case Material => "material"
      case Currency => "currency"
      case Treasure => "treasure"
      case Key => "key"
    }

    /** Base value per level of a generated item of this type. */
    function BaseValue(): int {
      match this
      case Weapon => 10
      case Armor => 8
      case Potion => 5
      case Food => 3
      case Material => 2
      case Currency => 1
      case Treasure => 20
      case Key => 1
    }
  }

  datatype Rarity = Common | Uncommon | Rare | Epic | Legendary {
    /** Position in the declaration order, from common (0) to legendary (4). */
    function Rank(): nat {
      match this
      case Common => 0
      case Uncommon => 1
      case Rare => 2
      case Epic => 3
      case Legendary => 4
    }

    /** The rarity multiplier of the generator in tenths: 0, 0.2, 0.5, 1.0 and 2.0. */
    function MultiplierTenths(): nat {
      match this
      case Common => 0
      case Uncommon => 2
      case Rare => 5
      case Epic => 10
      case Legendary => 20
    }

    /** The string the JavaScript uses for this rarity (`ITEM_RARITIES`). */
    function Key(): string {
      match this
      case Common => "common"
      case Uncommon => "uncommon"
      case Rare => "rare"
      case Epic => "epic"
      case Legendary => "legendary"
    }
  }

  /** `Object.values(ITEM_TYPES)`: the declared order the comparator ranks types by. */
  const ItemTypes: seq<ItemType> := [Weapon, Armor, Potion, Food, Material, Currency, Treasure, Key]
  const ItemTypeKeys: seq<string> := ["weapon", "armor", "potion", "food", "material", "currency", "treasure", "key"]

  /** `Object.values(ITEM_RARITIES)`: common ranks lowest, legendary highest. */
  const Rarities: seq<Rarity> := [Common, Uncommon, Rare, Epic, Legendary]
  const RarityKeys: seq<string> := ["common", "uncommon", "rare", "epic", "legendary"]

  /** `typeOrder.indexOf(type)`: the rank of a type key, -1 for an unknown key. */
  function TypeIndex(key: string): int {
    Sequences.IndexOf(ItemTypeKeys, key)
  }

  /** `rarityOrder.indexOf(rarity)`: the rank of a rarity key, -1 for an unknown key. */
  function RarityIndex(key: string): int {
    Sequences.IndexOf(RarityKeys, key)
  }

  /** The key lists hold the enumerations' keys in declaration order. */
  lemma KeyListsMatchEnumerations()
    ensures forall i :: 0 <= i < |ItemTypes| ==> ItemTypeKeys[i] == ItemTypes[i].Key()
    ensures forall i :: 0 <= i < |Rarities| ==> RarityKeys[i] == Rarities[i].Key()
  {
  }

  /** A type key's index is its type's rank. */
  lemma TypeIndexIsRank(t: ItemType)
    ensures ItemTypes[t.Rank()] == t && TypeIndex(t.Key()) == t.Rank()
  {
    assert ItemTypeKeys[t.Rank()] == t.Key();
    Sequences.IndexOfFirst(ItemTypeKeys, t.Rank());
  }

  /** A rarity key's index is its rarity's rank. */
  lemma RarityIndexIsRank(r: Rarity)
    ensures Rarities[r.Rank()] == r && RarityIndex(r.Key()) == r.Rank()
  {
    assert RarityKeys[r.Rank()] == r.Key();
    Sequences.IndexOfFirst(RarityKeys, r.Rank());
  }

  /** The enumeration value a type key names, if any. */
  function ParseItemType(key: string): (r: Option<ItemType>)
    ensures r.Some? <==> key in ItemTypeKeys
  {
    var i := TypeIndex(key);
    if i < 0 then None else Some(ItemTypes[i])
  }

  /** The enumeration value a rarity key names, if any. */
  function ParseRarity(key: string): (r: Option<Rarity>)
    ensures r.Some? <==> key in RarityKeys
  {
    var i := RarityIndex(key);
    if i < 0 then None else Some(Rarities[i])
  }

  /** Type keys and type values correspond one to one, in both directions. */
  lemma ParseItemTypeRoundTrip(key: string, t: ItemType)
    ensures ParseItemType(t.Key()) == Some(t)
    ensures ParseItemType(key) == Some(t) ==> t.Key() == key
  {
    TypeIndexIsRank(t);
    KeyListsMatchEnumerations();
  }

  /** Rarity keys and rarity values correspond one to one, in both directions. */
  lemma ParseRarityRoundTrip(key: string, r: Rarity)
    ensures ParseRarity(r.Key()) == Some(r)
    ensures ParseRarity(key) == Some(r) ==> r.Key() == key
  {
    RarityIndexIsRank(r);
    KeyListsMatchEnumerations();
  }

  // ----- Display tables (`getItemTypeName`, `getItemRarityName`, `getItemIcon`, `getItemRarityColor`)

  const ItemTypeNames: map<string, string> := map[
    "weapon" := "武器", "armor" := "防具", "potion" := "药水", "food" := "食物",
    "material" := "材料", "currency" := "货币", "treasure" := "宝藏", "key" := "钥匙"]
  const ItemRarityNames: map<string, string> := map[
    "common" := "普通", "uncommon" := "优秀", "rare" := "稀有", "epic" := "史诗", "legendary" := "传说"]
  const ItemIcons: map<string, string> := map[
    "weapon" := "⚔️", "armor" := "🛡️", "potion" := "🧪", "food" := "🍎",
    "material" := "🧱", "currency" := "💰", "treasure" := "💎", "key" := "🗝️"]
  const ItemRarityColors: map<string, string> := map[
    "common" := "#999999", "uncommon" := "#1eff00", "rare" := "#0070dd", "epic" := "#a335ee", "legendary" := "#ff8000"]

  const UnknownTypeName := "物品"
  const UnknownRarityName := "普通"
  const UnknownIcon := "📦"
  const UnknownRarityColor := "#999999"

  function ItemTypeName(key: string): string {
    if key in ItemTypeNames then ItemTypeNames[key] else UnknownTypeName
  }

  function ItemRarityName(key: string): string {
    if key in ItemRarityNames then ItemRarityNames[key] else UnknownRarityName
  }

  function ItemIcon(key: string): string {
    if key in ItemIcons then ItemIcons[key] else UnknownIcon
  }

  function ItemRarityColor(key: string): string {
    if key in ItemRarityColors then ItemRarityColors[key] else UnknownRarityColor
  }

  /** An unknown type key, and only an unknown one, shows the generic name. */
  lemma TypeNameFallback(key: string)
    ensures ItemTypeName(key) == UnknownTypeName <==> key !in ItemTypeKeys
  {
  }

  /** An unknown type key, and only an unknown one, shows the generic icon. */
  lemma TypeIconFallback(key: string)
    ensures ItemIcon(key) == UnknownIcon <==> key !in ItemTypeKeys
  {
  }

  /** An unknown rarity key shows exactly as a common one, and no other rarity does. */
  lemma RarityLookupFallback(key: string)
    ensures ItemRarityName(key) == ItemRarityName(Common.Key()) <==> key !in RarityKeys || key == Common.Key()
    ensures ItemRarityColor(key) == ItemRarityColor(Common.Key()) <==> key !in RarityKeys || key == Common.Key()
  {
  }

  // ----- Items

  /** Effect amounts; an absent field is `undefined` in the JavaScript. */
  datatype Effects = Effects(health: Option<int>, mana: Option<int>, strength: Option<int>, agility: Option<int>, intelligence: Option<int>)

  const NoEffects := Effects(None, None, None, None, None)

  datatype Item = Item(id: int, name: string, description: string, kind: string, rarity: string, value: int, effects: Option<Effects>)

  /** `canUseItem`: potions and food can be used. */
  predicate CanUseItem(item: Item) {
    item.kind in [Potion.Key(), Food.Key()]
  }

  /** An item can be used exactly when its type is the potion or the food type. */
  lemma CanUseItemExactly(item: Item)
    ensures CanUseItem(item) <==> ParseItemType(item.kind) in {Some(Potion), Some(Food)}
  {
    ParseItemTypeRoundTrip(item.kind, Potion);
    ParseItemTypeRoundTrip(item.kind, Food);
  }

  // ----- The deterministic part of `generateRandomItem`

  /** `getRarityMultiplier`, in tenths; an unknown key gets 0. */
  const RarityMultipliers: map<string, nat> := map["common" := 0, "uncommon" := 2, "rare" := 5, "epic" := 10, "legendary" := 20]

  function RarityMultiplier(key: string): nat {
    if key in RarityMultipliers then RarityMultipliers[key] else 0
  }

  /** The table gives each rarity its multiplier, and a higher rarity never a smaller one. */
  lemma RarityMultiplierOrdered(r1: Rarity, r2: Rarity)
    ensures RarityMultiplier(r1.Key()) == r1.MultiplierTenths()
    ensures r1.Rank() <= r2.Rank() ==> r1.MultiplierTenths() <= r2.MultiplierTenths()
  {
  }

  /** `Math.floor(n * (1 + multiplier))`, exactly: `n * (10 + tenths)` tenths, rounded down. */
  function Scaled(n: int, r: Rarity): int {
    n * (10 + RarityMultiplier(r.Key())) / 10
  }

  /** `Math.floor(level * base * (1 + multiplier))` for a generated item of type `t` and rarity `r`. */
  function GeneratedValue(level: int, t: ItemType, r: Rarity): int {
    Scaled(level * t.BaseValue(), r)
  }

  /** Potions restore `floor(20 * (1 + multiplier))` health and food `floor(10 * (1 + multiplier))`; other items have no effects. */
  function GeneratedEffects(t: ItemType, r: Rarity): Option<Effects> {
    match t
    case Potion => Some(NoEffects.(health := Some(Scaled(20, r))))
    case Food => Some(NoEffects.(health := Some(Scaled(10, r))))
    case _ => None
  }

  /**
   * `generateRandomItem(level)` once its random draws are made: the type `t`, the rarity
   * `r`, the clock-based `id` and the name and description text are parameters.
   */
  function GenerateItem(level: int := 1, t: ItemType, r: Rarity, id: int, name: string, description: string): (item: Item)
    ensures item.kind == t.Key() && item.rarity == r.Key()
    ensures item.value == GeneratedValue(level, t, r) && item.effects == GeneratedEffects(t, r)
  {
    Item(id, name, description, t.Key(), r.Key(), GeneratedValue(level, t, r), GeneratedEffects(t, r))
  }

  /** Called without a level, `generateRandomItem` generates a level-1 item. */
  lemma DefaultLevelIsOne(t: ItemType, r: Rarity, id: int, name: string, description: string)
    ensures GenerateItem(t := t, r := r, id := id, name := name, description := description).value == t.BaseValue() * (10 + r.MultiplierTenths()) / 10
  {
    RarityMultiplierOrdered(r, r);
  }

  /** A generated item's type and rarity keys read back as the drawn type and rarity. */
  lemma GenerateItemRoundTrip(level: int, t: ItemType, r: Rarity, id: int, name: string, description: string)
    ensures var item := GenerateItem(level, t, r, id, name, description);
      ParseItemType(item.kind) == Some(t) && ParseRarity(item.rarity) == Some(r)
  {
    ParseItemTypeRoundTrip(t.Key(), t);
    ParseRarityRoundTrip(r.Key(), r);
  }

  /** A generated item carries effects exactly when it can be used, and then it heals a positive amount. */
  lemma GeneratedEffectsIffUsable(level: int, t: ItemType, r: Rarity, id: int, name: string, description: string)
    ensures var item := GenerateItem(level, t, r, id, name, description);
      && (CanUseItem(item) <==> item.effects.Some?)
      && (item.effects.Some? ==> item.effects.value.health.Some? && item.effects.value.health.value >= 10)
  {
  }

  /**
   * For a nonnegative level a generated item is worth at least `level * base`, exactly that
   * when common, and a higher rarity is never worth less.
   */
  lemma {:induction false} GeneratedValueBounds(level: int, t: ItemType, r1: Rarity, r2: Rarity)
    requires level >= 0
    requires r1.Rank() <= r2.Rank()
    ensures level * t.BaseValue() <= GeneratedValue(level, t, r1) <= GeneratedValue(level, t, r2)
    ensures GeneratedValue(level, t, Common) == level * t.BaseValue()
  {
    var n := level * t.BaseValue();
    RarityMultiplierOrdered(r1, r2);
    RarityMultiplierOrdered(r2, r2);
    RarityMultiplierOrdered(Common, r1);
    var m1, m2 := r1.MultiplierTenths(), r2.MultiplierTenths();
    MulMonotone(n, 10, 10 + m1);
    MulMonotone(n, 10 + m1, 10 + m2);
  }

  lemma MulMonotone(n: int, a: int, b: int)
    requires n >= 0 && a <= b
    ensures n * a <= n * b
  {
  }

  /** A level-5 potion: value `floor(25 * (1 + multiplier))`, health `floor(20 * (1 + multiplier))`, for each rarity. */
  lemma LevelFivePotion()
    ensures GeneratedValue(5, Potion, Common) == 25 && Scaled(20, Common) == 20
    ensures GeneratedValue(5, Potion, Uncommon) == 30 && Scaled(20, Uncommon) == 24
    ensures GeneratedValue(5, Potion, Rare) == 37 && Scaled(20, Rare) == 30
    ensures GeneratedValue(5, Potion, Epic) == 50 && Scaled(20, Epic) == 40
    ensures GeneratedValue(5, Potion, Legendary) == 75 && Scaled(20, Legendary) == 60
  {
  }

  // ----- `compareItems`

  /** Negative when `a` sorts first: higher rarity, then earlier declared type, then higher value. */
  function CompareItems(a: Item, b: Item): int {
    var rarityCompare := RarityIndex(b.rarity) - RarityIndex(a.rarity);
    if rarityCompare != 0 then rarityCompare
    else
      var typeCompare := TypeIndex(a.kind) - TypeIndex(b.kind);
      if typeCompare != 0 then typeCompare else b.value - a.value
  }

  function ItemSortKey(a: Item): Sorting.SortKey {
    Sorting.SortKey(-RarityIndex(a.rarity), TypeIndex(a.kind), -a.value)
  }

  /** The comparator is the lexicographic order on (descending rarity, ascending type, descending value). */
  lemma CompareItemsIsKeyOrder(a: Item, b: Item)
    ensures CompareItems(a, b) <= 0 <==> Sorting.KeyLe(ItemSortKey(a), ItemSortKey(b))
    ensures CompareItems(a, b) == 0 <==> ItemSortKey(a) == ItemSortKey(b)
  {
  }

  /** Swapping the arguments negates the result. */
  lemma CompareItemsAntisymmetric(a: Item, b: Item)
    ensures CompareItems(a, b) == -CompareItems(b, a)
  {
  }

  /** "Sorts no later than" is transitive, so the comparator is a consistent total preorder. */
  lemma CompareItemsTransitive(a: Item, b: Item, c: Item)
    requires CompareItems(a, b) <= 0 && CompareItems(b, c) <= 0
    ensures CompareItems(a, c) <= 0
  {
    CompareItemsIsKeyOrder(a, b);
    CompareItemsIsKeyOrder(b, c);
    CompareItemsIsKeyOrder(a, c);
  }

  /** A rarer item sorts first whatever the types and values. */
  lemma RarerItemFirst(a: Item, b: Item)
    requires RarityIndex(a.rarity) > RarityIndex(b.rarity)
    ensures CompareItems(a, b) < 0 && CompareItems(b, a) > 0
  {
  }

  // ----- `filterItems`

  /** The filter fields; each is applied only when present and truthy (`''` and `0` count as absent). */
  datatype ItemFilters = ItemFilters(kind: Option<string>, rarity: Option<string>, minValue: Option<int>, maxValue: Option<int>, search: Option<string>)

  const NoItemFilters := ItemFilters(None, None, None, None, None)

  predicate GivenText(o: Option<string>) { o.Some? && o.value != "" }
  predicate GivenNumber(o: Option<int>) { o.Some? && o.value != 0 }

  /** ASCII `toLowerCase`. */
  function LowerChar(c: char): char {
    if 'A' <= c <= 'Z' then (c as int + 32) as char else c
  }

  function ToLower(s: string): (r: string)
    ensures |r| == |s| && forall i :: 0 <= i < |s| ==> r[i] == LowerChar(s[i])
  {
    seq(|s|, i requires 0 <= i < |s| => LowerChar(s[i]))
  }

  /** `String.prototype.includes`: `needle` occurs in `text` at some position. */
  predicate Includes(text: string, needle: string) {
    exists i | 0 <= i <= |text| :: OccursAt(text, needle, i)
  }

  predicate OccursAt(text: string, needle: string, i: int) {
    0 <= i && i + |needle| <= |text| && text[i..i + |needle|] == needle
  }

  predicate ItemMatches(f: ItemFilters, item: Item) {
    && !(GivenText(f.kind) && item.kind != f.kind.value)
    && !(GivenText(f.rarity) && item.rarity != f.rarity.value)
    && !(GivenNumber(f.minValue) && item.value < f.minValue.value)
    && !(GivenNumber(f.maxValue) && item.value > f.maxValue.value)
    && !(GivenText(f.search) && !Includes(ToLower(item.name), ToLower(f.search.value)))
  }

  /**
   * `filterItems`: the items that pass every given filter, in their original order,
   * each kept as often as it occurs.
   */
  function FilterItems(items: seq<Item>, f: ItemFilters): (r: seq<Item>)
    ensures Sequences.IsSubsequence(r, items)
    ensures forall x :: multiset(r)[x] == if ItemMatches(f, x) then multiset(items)[x] else 0
    ensures forall x :: x in r ==>
      && (GivenText(f.kind) ==> x.kind == f.kind.value)
      && (GivenText(f.rarity) ==> x.rarity == f.rarity.value)
      && (GivenNumber(f.minValue) ==> x.value >= f.minValue.value)
      && (GivenNumber(f.maxValue) ==> x.value <= f.maxValue.value)
      && (GivenText(f.search) ==> Includes(ToLower(x.name), ToLower(f.search.value)))
  {
    var matches := (x: Item) => ItemMatches(f, x);
    Sequences.FilterIsSubsequence(items, matches);
    forall x ensures multiset(Sequences.Filter(items, matches))[x] == if ItemMatches(f, x) then multiset(items)[x] else 0 {
      Sequences.FilterMultiplicity(items, matches, x);
    }
    Sequences.Filter(items, matches)
  }

  /** With no filter given, every item is kept. */
  lemma FilterItemsNoFilters(items: seq<Item>)
    ensures FilterItems(items, NoItemFilters) == items
  {
    Sequences.FilterKeepsAll(items, (x: Item) => ItemMatches(NoItemFilters, x));
  }
}
