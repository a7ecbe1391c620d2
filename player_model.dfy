/**
 * The backend `Player` class of backend/app/models/game.py: the same progression
 * rules as the browser store, with two differences in damage: health is not clamped
 * at 0, and `take_damage` returns whether the player has fallen instead of ending a game.
 */
module PlayerModel {
  import Sequences
  import Progression

  /** The backend `Item` record, as held in an inventory. */
  datatype Item = Item(id: int, name: string, description: string, kind: string, value: int, effects: map<string, int>)

  /** `[item for item in inventory if item.id != item_id]`. */
  function RemoveById(inventory: seq<Item>, itemId: int): (r: seq<Item>)
    ensures Sequences.IsSubsequence(r, inventory)
    ensures forall x :: multiset(r)[x] == if x.id != itemId then multiset(inventory)[x] else 0
  {
    Sequences.RemoveByKey(inventory, (x: Item) => x.id, itemId)
  }

  class Player {
    var id: int
    var name: string
    var level: int
    var experience: int
    var health: int
    var mana: int
    var strength: int
    var agility: int
    var intelligence: int
    var inventory: seq<Item>

    /** Every statistic is its argument or its default; the inventory starts empty. */
    constructor (id: int, name: string, level: int := 1, experience: int := 0, health: int := 100, mana: int := 50,
                 strength: int := 10, agility: int := 10, intelligence: int := 10)
      ensures this.id == id && this.name == name && inventory == []
      ensures Stats() == Progression.Stats(level, experience, health, mana, strength, agility, intelligence)
    {
      this.id := id;
      this.name := name;
      this.level := level;
      this.experience := experience;
      this.health := health;
      this.mana := mana;
      this.strength := strength;
      this.agility := agility;
      this.intelligence := intelligence;
      inventory := [];
    }

    function Stats(): Progression.Stats
      reads this
    {
      Progression.Stats(level, experience, health, mana, strength, agility, intelligence)
    }

    /** `add_experience`: at most one level-up per call. */
    method AddExperience(amount: int)
      modifies this
      ensures Stats() == Progression.GainExperience(old(Stats()), amount)
      ensures id == old(id) && name == old(name) && inventory == old(inventory)
    {
      experience := experience + amount;
      if experience >= level * 100 {
        level := level + 1;
        experience := experience - level * 100;
        health := health + 10;
        mana := mana + 5;
        strength := strength + 2;
        agility := agility + 2;
        intelligence := intelligence + 2;
      }
    }

    /** `take_damage`: subtracts without clamping and reports whether health is 0 or below. */
    method TakeDamage(amount: int) returns (fallen: bool)
      modifies this
      ensures Stats() == old(Stats()).(health := old(health) - amount)
      ensures fallen <==> health <= 0
      ensures fallen == Progression.StoreDamage(old(health), amount).depleted
      ensures id == old(id) && name == old(name) && inventory == old(inventory)
    {
      health := health - amount;
      fallen := health <= 0;
    }

    /** `heal`: health rises by `amount` but not past 100. */
    method Heal(amount: int)
      modifies this
      ensures Stats() == old(Stats()).(health := Progression.AddCapped(old(health), amount, Progression.MaxHealth))
      ensures id == old(id) && name == old(name) && inventory == old(inventory)
    {
      health := Progression.AddCapped(health, amount, Progression.MaxHealth);
    }

    /** `add_item`: appends at the end. */
    method AddItem(item: Item)
      modifies this
      ensures inventory == old(inventory) + [item]
      ensures Stats() == old(Stats()) && id == old(id) && name == old(name)
    {
      inventory := inventory + [item];
    }

    /** `remove_item`: drops every item with that id and keeps the rest in order. */
    method RemoveItem(itemId: int)
      modifies this
      ensures inventory == RemoveById(old(inventory), itemId)
      ensures Stats() == old(Stats()) && id == old(id) && name == old(name)
    {
      inventory := RemoveById(inventory, itemId);
    }
  }
}
