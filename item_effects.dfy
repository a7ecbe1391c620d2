/**
 * `useItemEffect` of src/utils/itemUtils.js: applies an item's effects to a player
 * object in place and reports what happened. Health and mana rise up to their caps,
 * attributes rise without one, and the message of each applied effect overwrites
 * the previous one, so the message that survives is that of the last effect applied.
 */
module ItemEffects {
  import opened Wrappers
  import opened ItemCatalog
  import Progression
  import GameStore

  /** The statistics an effect can change, in the order `useItemEffect` applies them. */
  datatype Stat = Health | Mana | Strength | Agility | Intelligence {
    function Rank(): nat {
      match this
      case Health => 0
      case Mana => 1
      case Strength => 2
      case Agility => 3
      case Intelligence => 4
    }
  }

  /** `result.message`: empty, or the message of one effect, naming the item, the statistic and the amount. */
  datatype Message = NoMessage | EffectMessage(itemName: string, stat: Stat, amount: int)

  datatype UseResult = UseResult(used: bool, message: Message)

  /** `item.effects || {}` */
  function EffectsOf(item: Item): Effects {
    item.effects.GetOr(NoEffects)
  }

  function EffectAmount(e: Effects, stat: Stat): Option<int> {
    match stat
    case Health => e.health
    case Mana => e.mana
    case Strength => e.strength
    case Agility => e.agility
    case Intelligence => e.intelligence
  }

  /** An effect applies when its field is present and nonzero (the truthiness test `if (effects.health)`). */
  predicate Applies(e: Effects, stat: Stat) {
    var amount := EffectAmount(e, stat);
    amount.Some? && amount.value != 0
  }

  /**
   * The statistics after the effects: health and mana rise by their effect up to 100
   * and 50, each attribute rises by its effect, level and experience stay.
   */
  function ApplyEffects(s: Progression.Stats, e: Effects): Progression.Stats {
    s.(health := if Applies(e, Health) then Progression.AddCapped(s.health, e.health.value, Progression.MaxHealth) else s.health,
       mana := if Applies(e, Mana) then Progression.AddCapped(s.mana, e.mana.value, Progression.MaxMana) else s.mana,
       strength := s.strength + e.strength.GetOr(0),
       agility := s.agility + e.agility.GetOr(0),
       intelligence := s.intelligence + e.intelligence.GetOr(0))
  }

  /**
   * What `useItemEffect` returns, found by looking for the latest applied effect from
   * the end of the order: used when some effect applies, with that effect's message.
   */
  function Outcome(item: Item): UseResult {
    var e := EffectsOf(item);
    if Applies(e, Intelligence) then UseResult(true, EffectMessage(item.name, Intelligence, e.intelligence.value))
    else if Applies(e, Agility) then UseResult(true, EffectMessage(item.name, Agility, e.agility.value))
    else if Applies(e, Strength) then UseResult(true, EffectMessage(item.name, Strength, e.strength.value))
    else if Applies(e, Mana) then UseResult(true, EffectMessage(item.name, Mana, e.mana.value))
    else if Applies(e, Health) then UseResult(true, EffectMessage(item.name, Health, e.health.value))
    else UseResult(false, NoMessage)
  }

  /** `useItemEffect(item, player)`. */
  method UseItemEffect(item: Item, player: GameStore.PlayerRecord) returns (result: UseResult)
    modifies player
    ensures player.Stats() == ApplyEffects(old(player.Stats()), EffectsOf(item))
    ensures player.id == old(player.id) && player.name == old(player.name) && player.inventory == old(player.inventory)
    ensures result == Outcome(item)
  {
    var effects := EffectsOf(item);
    result := UseResult(false, NoMessage);

    if Applies(effects, Health) {
      player.health := Progression.AddCapped(player.health, effects.health.value, Progression.MaxHealth);
      result := UseResult(true, EffectMessage(item.name, Health, effects.health.value));
    }
    if Applies(effects, Mana) {
      player.mana := Progression.AddCapped(player.mana, effects.mana.value, Progression.MaxMana);
      result := UseResult(true, EffectMessage(item.name, Mana, effects.mana.value));
    }
    if Applies(effects, Strength) {
      player.strength := player.strength + effects.strength.value;
      result := UseResult(true, EffectMessage(item.name, Strength, effects.strength.value));
    }
    if Applies(effects, Agility) {
      player.agility := player.agility + effects.agility.value;
      result := UseResult(true, EffectMessage(item.name, Agility, effects.agility.value));
    }
    if Applies(effects, Intelligence) {
      player.intelligence := player.intelligence + effects.intelligence.value;
      result := UseResult(true, EffectMessage(item.name, Intelligence, effects.intelligence.value));
    }
  }

  /**
   * The item is reported used exactly when some effect applies; the message is then that of an
   * applied effect, the latest in the order health, mana, strength, agility, intelligence,
   * and otherwise it is empty.
   */
  lemma OutcomeIsLastApplied(item: Item)
    ensures var e, r := EffectsOf(item), Outcome(item);
      && (r.used <==> exists stat :: Applies(e, stat))
      && (r.used <==> r.message != NoMessage)
      && (r.used ==>
            && r.message.itemName == item.name
            && Applies(e, r.message.stat)
            && r.message.amount == EffectAmount(e, r.message.stat).value
            && forall stat :: Applies(e, stat) ==> stat.Rank() <= r.message.stat.Rank())
  {
    var e := EffectsOf(item);
    if Outcome(item).used {
      forall stat | Applies(e, stat) ensures stat.Rank() <= Outcome(item).message.stat.Rank() {
        match stat
        case Health =>
        case Mana =>
        case Strength =>
        case Agility =>
        case Intelligence =>
      }
    } else {
      forall stat ensures !Applies(e, stat) {
        match stat
        case Health =>
        case Mana =>
        case Strength =>
        case Agility =>
        case Intelligence =>
      }
    }
  }

  /**
   * After an item is used, an applied health effect leaves health at `min(old + e, 100)` and an
   * applied mana effect leaves mana at `min(old + e, 50)`; each attribute rises by exactly its
   * effect; level and experience do not change.
   */
  lemma UseItemBounds(s: Progression.Stats, e: Effects)
    ensures var t := ApplyEffects(s, e);
      && (Applies(e, Health) ==> t.health <= Progression.MaxHealth && (t.health == s.health + e.health.value || t.health == Progression.MaxHealth))
      && (!Applies(e, Health) ==> t.health == s.health)
      && (Applies(e, Mana) ==> t.mana <= Progression.MaxMana && (t.mana == s.mana + e.mana.value || t.mana == Progression.MaxMana))
      && (!Applies(e, Mana) ==> t.mana == s.mana)
      && t.strength - s.strength == e.strength.GetOr(0)
      && t.agility - s.agility == e.agility.GetOr(0)
      && t.intelligence - s.intelligence == e.intelligence.GetOr(0)
      && t.level == s.level && t.experience == s.experience
  {
  }

  /** An item none of whose effects applies leaves the player as it was and reports `{used: false, message: ''}`. */
  lemma UnusedItemChangesNothing(s: Progression.Stats, item: Item)
    requires forall stat :: !Applies(EffectsOf(item), stat)
    ensures ApplyEffects(s, EffectsOf(item)) == s
    ensures Outcome(item) == UseResult(false, NoMessage)
  {
    assert !Applies(EffectsOf(item), Strength) && !Applies(EffectsOf(item), Agility) && !Applies(EffectsOf(item), Intelligence);
  }

  /** An item whose only effect is a nonzero health amount is reported used, with the health message. */
  lemma HealthOnlyOutcome(item: Item, amount: int)
    requires amount != 0 && EffectsOf(item) == NoEffects.(health := Some(amount))
    ensures Outcome(item) == UseResult(true, EffectMessage(item.name, Health, amount))
  {
  }

  /** A generated potion or food is always reported used, with its health message. */
  lemma GeneratedConsumableHeals(level: int, t: ItemType, r: Rarity, id: int, name: string, description: string)
    requires t in {Potion, Food}
    ensures var item := GenerateItem(level, t, r, id, name, description);
      Outcome(item) == UseResult(true, EffectMessage(name, Health, item.effects.value.health.value))
  {
    var item := GenerateItem(level, t, r, id, name, description);
    GeneratedEffectsIffUsable(level, t, r, id, name, description);
    HealthOnlyOutcome(item, item.effects.value.health.value);
  }
}
