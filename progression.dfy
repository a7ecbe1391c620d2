/**
 * The player-progression rules that the browser store (src/store/game.js) and the
 * backend `Player` class (backend/app/models/game.py) both implement, line for line:
 * the single-step level-up, the capped heal and the damage rule.
 */
module Progression {

  const MaxHealth := 100
  const MaxMana := 50

  /** The numeric part of a player record. */
  datatype Stats = Stats(level: int, experience: int, health: int, mana: int, strength: int, agility: int, intelligence: int)

  /** A player created with the defaults: level 1, no experience, full health and mana, 10 in every attribute. */
  const Starting := Stats(1, 0, 100, 50, 10, 10, 10)

  /**
   * Adding experience: when the new total reaches `level * 100`, exactly one level-up
   * fires, which pays `(level + 1) * 100` experience for the new level and grants
   * 10 health, 5 mana and 2 to each attribute. Nothing is capped.
   */
  function GainExperience(s: Stats, amount: int): (t: Stats)
    ensures s.level <= t.level <= s.level + 1
    ensures t.level == s.level + 1 <==> s.experience + amount >= s.level * 100
  {
    var experience := s.experience + amount;
    if experience >= s.level * 100 then
      var level := s.level + 1;
      Stats(level, experience - level * 100, s.health + 10, s.mana + 5, s.strength + 2, s.agility + 2, s.intelligence + 2)
    else
      s.(experience := experience)
  }

  /** Below the threshold only the experience changes. */
  lemma BelowThresholdOnlyExperience(s: Stats, amount: int)
    requires s.experience + amount < s.level * 100
    ensures GainExperience(s, amount) == s.(experience := s.experience + amount)
  {
  }

  /**
   * Each level gained is worth 10 health, 5 mana and 2 of every attribute, and no
   * call gains more than one level.
   */
  lemma GrowthPerLevel(s: Stats, amount: int)
    ensures var t := GainExperience(s, amount);
      && t.health - s.health == 10 * (t.level - s.level)
      && t.mana - s.mana == 5 * (t.level - s.level)
      && t.strength - s.strength == 2 * (t.level - s.level)
      && t.agility - s.agility == 2 * (t.level - s.level)
      && t.intelligence - s.intelligence == 2 * (t.level - s.level)
  {
  }

  /**
   * Experience a player has earned over its life: what the level-ups from level 1
   * to `s.level` paid (200 + 300 + ... + level * 100) plus the current balance.
   */
  function LifetimeExperience(s: Stats): int {
    50 * s.level * (s.level + 1) - 100 + s.experience
  }

  /** Levelling up never loses or creates experience: the lifetime total grows by exactly `amount`. */
  lemma ExperienceConserved(s: Stats, amount: int)
    ensures LifetimeExperience(GainExperience(s, amount)) == LifetimeExperience(s) + amount
  {
    var t := GainExperience(s, amount);
    if t.level == s.level + 1 {
      calc {
        50 * t.level * (t.level + 1);
        50 * (s.level + 1) * (s.level + 2);
        50 * s.level * (s.level + 1) + 100 * (s.level + 1);
      }
    }
  }

  /** However large the amount, one call gains one level: level 1 with 0 experience plus 10000 gives level 2 with 9800. */
  lemma OneLevelPerCall()
    ensures GainExperience(Starting, 10000) == Stats(2, 9800, 110, 55, 12, 12, 12)
  {
  }

  /** The balance can go negative: the new level's cost is charged, not the old one's. */
  lemma ExperienceCanGoNegative()
    ensures GainExperience(Starting, 100).experience == -100
  {
  }

  /** A level-up lifts health past the cap of 100 that healing respects. */
  lemma LevelUpCanExceedMaxHealth()
    ensures GainExperience(Starting, 100).health == MaxHealth + 10
  {
  }

  /** `Math.min(value + amount, cap)` and Python's `min(value + amount, cap)`. */
  function AddCapped(value: int, amount: int, cap: int): (r: int)
    ensures r <= cap
    ensures r == value + amount || r == cap
    ensures r == value + amount <==> value + amount <= cap
  {
    if value + amount <= cap then value + amount else cap
  }

  /** Two capped additions of a nonnegative second amount are one capped addition of the sum. */
  lemma AddCappedComposes(value: int, a: int, b: int, cap: int)
    requires b >= 0
    ensures AddCapped(AddCapped(value, a, cap), b, cap) == AddCapped(value, a + b, cap)
  {
  }

  /** A nonnegative capped addition never lowers a value that is within the cap. */
  lemma AddCappedMonotone(value: int, amount: int, cap: int)
    requires amount >= 0 && value <= cap
    ensures value <= AddCapped(value, amount, cap)
  {
  }

  /** What the store's `takeDamage` leaves: the new health and whether the game ends. */
  datatype DamageOutcome = DamageOutcome(health: int, depleted: bool)

  /**
   * The store subtracts the damage and, when that reaches 0 or below, sets health to
   * exactly 0 and ends the game.
   */
  function StoreDamage(health: int, amount: int): (r: DamageOutcome)
    ensures r.health >= 0
    ensures r.depleted <==> r.health == 0
  {
    if health - amount <= 0 then DamageOutcome(0, true) else DamageOutcome(health - amount, false)
  }

  /**
   * The backend's `take_damage` subtracts without clamping and reports `health <= 0`;
   * the store's health is the backend's clamped at 0 and both agree on when the player falls.
   */
  lemma StoreDamageClampsBackend(health: int, amount: int)
    ensures StoreDamage(health, amount).depleted <==> health - amount <= 0
    ensures StoreDamage(health, amount).health == if health - amount <= 0 then 0 else health - amount
  {
  }
}
