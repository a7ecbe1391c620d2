/**
 * The browser-side game store of src/store/game.js: the player object, the current
 * scene and the session state, and the actions that change them. The store is a
 * class whose fields the actions assign; the player is an object of its own whose
 * fields `addExperience`, `takeDamage`, `heal` and the inventory actions update in place.
 */
module GameStore {
  import opened Wrappers
  import Sequences
  import Progression
  import ItemCatalog

  datatype GameState = Idle | Playing | Paused | GameOver

  /** The store's `player` object. */
  class PlayerRecord {
    var id: Option<int>
    var name: string
    var level: int
    var experience: int
    var health: int
    var mana: int
    var strength: int
    var agility: int
    var intelligence: int
    var inventory: seq<ItemCatalog.Item>

    /** A player with the starting statistics and an empty inventory. */
    constructor (id: Option<int>, name: string)
      ensures this.id == id && this.name == name
      ensures Stats() == Progression.Starting && inventory == []
    {
      this.id := id;
      this.name := name;
      level := 1;
      experience := 0;
      health := 100;
      mana := 50;
      strength := 10;
      agility := 10;
      intelligence := 10;
      inventory := [];
    }

    function Stats(): Progression.Stats
      reads this
    {
      Progression.Stats(level, experience, health, mana, strength, agility, intelligence)
    }
  }

  /** `playerName || 'Adventurer'`: a missing or empty name is replaced by the default. */
  function PlayerName(given: Option<string>): (name: string)
    ensures name != ""
    ensures name == "Adventurer" <==> given.GetOr("") in {"", "Adventurer"}
  {
    if given.Some? && given.value != "" then given.value else "Adventurer"
  }

  /** `inventory.filter(item => item.id !== itemId)`. */
  function RemoveById(inventory: seq<ItemCatalog.Item>, itemId: int): (r: seq<ItemCatalog.Item>)
    ensures Sequences.IsSubsequence(r, inventory)
    ensures forall x :: multiset(r)[x] == if x.id != itemId then multiset(inventory)[x] else 0
  {
    Sequences.RemoveByKey(inventory, (x: ItemCatalog.Item) => x.id, itemId)
  }

  /** Removing an id that no item carries leaves the inventory as it was. */
  lemma RemoveAbsentId(inventory: seq<ItemCatalog.Item>, itemId: int)
    requires forall x :: x in inventory ==> x.id != itemId
    ensures RemoveById(inventory, itemId) == inventory
  {
    Sequences.RemoveAbsentKey(inventory, (x: ItemCatalog.Item) => x.id, itemId);
  }

  class Store {
    var player: PlayerRecord
    var currentScene: string
    var gameStarted: bool
    var gameState: GameState

    /**
     * The store's invariant: the player's level is positive. The constructor establishes
     * it, and every action requires it and keeps it (a level only ever rises).
     */
    ghost predicate Valid()
      reads this, player
    {
      player.level >= 1
    }

    /** The initial state: an unnamed player without id, at home, idle. */
    constructor ()
      ensures Valid() && fresh(player)
      ensures player.id == None && player.name == "" && player.Stats() == Progression.Starting && player.inventory == []
      ensures currentScene == "home" && !gameStarted && gameState == Idle
    {
      player := new PlayerRecord(None, "");
      currentScene := "home";
      gameStarted := false;
      gameState := Idle;
    }

    /** `startGame`: a fresh player with id 1 in the village, playing; nothing carries over. */
    method StartGame(playerName: Option<string>)
      modifies this
      ensures Valid() && fresh(player)
      ensures player.id == Some(1) && player.name == PlayerName(playerName)
      ensures player.Stats() == Progression.Starting && player.inventory == []
      ensures currentScene == "village" && gameStarted && gameState == Playing
    {
      gameStarted := true;
      gameState := Playing;
      player := new PlayerRecord(Some(1), PlayerName(playerName));
      currentScene := "village";
    }

    /** `pauseGame`: sets the state whatever it was. */
    method PauseGame()
      requires Valid()
      modifies this
      ensures Valid() && gameState == Paused
      ensures player == old(player) && currentScene == old(currentScene) && gameStarted == old(gameStarted)
    {
      gameState := Paused;
    }

    /** `resumeGame`: sets the state whatever it was. */
    method ResumeGame()
      requires Valid()
      modifies this
      ensures Valid() && gameState == Playing
      ensures player == old(player) && currentScene == old(currentScene) && gameStarted == old(gameStarted)
    {
      gameState := Playing;
    }

    /** `endGame`: sets the state whatever it was. */
    method EndGame()
      requires Valid()
      modifies this
      ensures Valid() && gameState == GameOver
      ensures player == old(player) && currentScene == old(currentScene) && gameStarted == old(gameStarted)
    {
      gameState := GameOver;
    }

    /** `changeScene`: any name is accepted. */
    method ChangeScene(sceneName: string)
      requires Valid()
      modifies this
      ensures Valid() && currentScene == sceneName
      ensures player == old(player) && gameState == old(gameState) && gameStarted == old(gameStarted)
    {
      currentScene := sceneName;
    }

    /** `addExperience`: at most one level-up per call. */
    method AddExperience(amount: int)
      requires Valid()
      modifies player
      ensures Valid()
      ensures player.Stats() == Progression.GainExperience(old(player.Stats()), amount)
      ensures player.id == old(player.id) && player.name == old(player.name) && player.inventory == old(player.inventory)
    {
      player.experience := player.experience + amount;
      if player.experience >= player.level * 100 {
        player.level := player.level + 1;
        player.experience := player.experience - player.level * 100;
        player.health := player.health + 10;
        player.mana := player.mana + 5;
        player.strength := player.strength + 2;
        player.agility := player.agility + 2;
        player.intelligence := player.intelligence + 2;
      }
    }

    /** `takeDamage`: health falls to no less than 0, and reaching 0 ends the game. */
    method TakeDamage(amount: int)
      requires Valid()
      modifies this, player
      ensures Valid() && player == old(player)
      ensures var outcome := Progression.StoreDamage(old(player.health), amount);
        && player.Stats() == old(player.Stats()).(health := outcome.health)
        && gameState == if outcome.depleted then GameOver else old(gameState)
      ensures player.id == old(player.id) && player.name == old(player.name) && player.inventory == old(player.inventory)
      ensures currentScene == old(currentScene) && gameStarted == old(gameStarted)
    {
      player.health := player.health - amount;
      if player.health <= 0 {
        player.health := 0;
        EndGame();
      }
    }

    /** `heal`: health rises by `amount` but not past 100. */
    method Heal(amount: int)
      requires Valid()
      modifies player
      ensures Valid()
      ensures player.Stats() == old(player.Stats()).(health := Progression.AddCapped(old(player.health), amount, Progression.MaxHealth))
      ensures player.id == old(player.id) && player.name == old(player.name) && player.inventory == old(player.inventory)
    {
      player.health := Progression.AddCapped(player.health, amount, Progression.MaxHealth);
    }

    /** `addItem`: appends, with no stacking and no capacity limit. */
    method AddItem(item: ItemCatalog.Item)
      requires Valid()
      modifies player
      ensures Valid()
      ensures player.inventory == old(player.inventory) + [item]
      ensures player.Stats() == old(player.Stats()) && player.id == old(player.id) && player.name == old(player.name)
    {
      player.inventory := player.inventory + [item];
    }

    /** `removeItem`: drops every item with that id and keeps the rest in order. */
    method RemoveItem(itemId: int)
      requires Valid()
      modifies player
      ensures Valid()
      ensures player.inventory == RemoveById(old(player.inventory), itemId)
      ensures player.Stats() == old(player.Stats()) && player.id == old(player.id) && player.name == old(player.name)
    {
      player.inventory := RemoveById(player.inventory, itemId);
    }
  }
}
