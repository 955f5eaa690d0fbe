/**
  The gameplay screen's state: the pet's four vitals, the score, the pet's
  number, the action cooldowns read from the configuration text, and the
  inventory screen. The vitals change only through `UpdateStats`; the
  score changes through `AddToScore`, and `CheckStats` closes the screen
  when the pet has died.
*/
module Gameplay {
  import opened JavaLang
  import opened Cooldowns
  import opened Inventory
  import opened SaveFile

  /** The four vitals, in the order `updateStats` takes them. */
  datatype Vitals = Vitals(happiness: Int32, health: Int32, sleep: Int32, hunger: Int32)

  /** Every vital on the screen's 0-100 scale. */
  predicate InRange(v: Vitals)
  {
    0 <= v.happiness <= 100 && 0 <= v.health <= 100 && 0 <= v.sleep <= 100 && 0 <= v.hunger <= 100
  }

  function Min(a: int, b: int): int { if a <= b then a else b }
  function Max(a: int, b: int): int { if a >= b then a else b }

  /** The rule the three action screens share: once hunger, sleep or
      happiness is at 0 or below, health loses 10 more, down to 0 at least. */
  function Penalize(v: Vitals): (r: Vitals)
    ensures r.happiness == v.happiness && r.sleep == v.sleep && r.hunger == v.hunger
    ensures v.hunger > 0 && v.sleep > 0 && v.happiness > 0 ==> r == v
    ensures 0 <= v.health ==> 0 <= r.health <= v.health
  {
    if v.hunger <= 0 || v.sleep <= 0 || v.happiness <= 0 then
      v.(health := if Sub(v.health, 10) < 0 then 0 else Sub(v.health, 10))
    else v
  }

  /** A vital raised by an item's value and capped at 100. */
  function Boost(stat: Int32, gain: Int32): (r: Int32)
    ensures r <= 100
    ensures 0 <= stat && 0 <= gain && stat + gain <= 0x7fff_ffff ==> r == Min(100, stat + gain)
  {
    if Add(stat, gain) > 100 then 100 else Add(stat, gain)
  }

  /** On the 0-100 scale, an item raises a vital by its value up to 100. */
  lemma BoostInRange(stat: Int32, gain: Int32)
    requires 0 <= stat <= 100 && 0 <= gain <= 20
    ensures Boost(stat, gain) == Min(100, stat + gain)
    ensures stat <= Boost(stat, gain) <= 100
  {
  }

  /** The gameplay screen. */
  class Session {
    var score: Int32
    var happiness: Int32
    var health: Int32
    var sleep: Int32
    var hunger: Int32
    const petNumber: Int32
    var cooldowns: map<string, int>
    const inventory: Store
    /** Set once the screen has been closed because the pet died. */
    var closed: bool

    function Stats(): Vitals
      reads this
    {
      Vitals(happiness, health, sleep, hunger)
    }

    /** What the save button writes. */
    function SavedRecord(): Record
      reads this
    {
      Record(score, happiness, health, sleep, hunger, petNumber)
    }

    /** The screen for the given values, with the cooldowns read from the
        configuration text and the inventory screen's own start-up lists. */
    constructor (inputScore: Int32, inputHappiness: Int32, inputHealth: Int32, inputSleep: Int32,
                 inputHunger: Int32, pet: Int32, config: Option<string>,
                 foodOrder: seq<Item>, giftOrder: seq<Item>)
      requires Shuffled(foodOrder, giftOrder)
      ensures score == inputScore && petNumber == pet && !closed
      ensures Stats() == Vitals(inputHappiness, inputHealth, inputSleep, inputHunger)
      ensures cooldowns == LoadedTable(config)
      ensures fresh(inventory)
      ensures inventory.foodTotal == foodOrder && inventory.giftTotal == giftOrder
      ensures (inventory.food, inventory.gifts) == StartLists(config)
    {
      sleep := inputSleep;
      happiness := inputHappiness;
      hunger := inputHunger;
      health := inputHealth;
      score := inputScore;
      petNumber := pet;
      cooldowns := map[];
      closed := false;
      inventory := new Store(config, foodOrder, giftOrder);
      new;
      LoadActionCooldownsFromJson(config);
      assert map[] + LoadedTable(config) == LoadedTable(config);
    }

    /** `updateStats`: the four vitals become the arguments; nothing else changes. */
    method UpdateStats(newHappiness: Int32, newHealth: Int32, newSleep: Int32, newHunger: Int32)
      modifies this
      ensures Stats() == Vitals(newHappiness, newHealth, newSleep, newHunger)
      ensures score == old(score) && cooldowns == old(cooldowns) && closed == old(closed)
    {
      happiness := newHappiness;
      health := newHealth;
      sleep := newSleep;
      hunger := newHunger;
    }

    /** `addToScore`: Java `int` addition, with no cap. */
    method AddToScore(scoreToAdd: Int32)
      modifies this
      ensures score == Add(old(score), scoreToAdd)
      ensures Stats() == old(Stats()) && cooldowns == old(cooldowns) && closed == old(closed)
    {
      score := Add(score, scoreToAdd);
    }

    /** `checkStats`: the pet has died exactly when health is 0, and then the
        screen closes (and the starting screen opens). */
    method CheckStats() returns (died: bool)
      modifies this
      ensures died <==> health == 0
      ensures closed == (old(closed) || died)
      ensures Stats() == old(Stats()) && score == old(score) && cooldowns == old(cooldowns)
    {
      died := health == 0;
      if died {
        closed := true;
      }
    }

    /** `loadActionCooldownsFromJson` on the configuration text (`None` when
        it cannot be read): puts one entry for each of the four actions. */
    method LoadActionCooldownsFromJson(json: Option<string>)
      modifies this
      ensures cooldowns == old(cooldowns) + LoadedTable(json)
      ensures Stats() == old(Stats()) && score == old(score) && closed == old(closed)
    {
      if json.None? {
        PutDefaults();
        return;
      }
      var text := json.value;
      var startIndex := IndexOf(text, BLOCK_KEY, 0);
      if startIndex == -1 {
        PutDefaults();
        return;
      }
      var braceOpen := IndexOfChar(text, '{', startIndex);
      var braceClose := FindMatchingBrace(text, braceOpen);
      if braceOpen == -1 || braceClose == -1 {
        PutDefaults();
        return;
      }
      var actionsBlock := text[braceOpen..braceClose + 1];
      assert ActionsBlock(text) == Some(actionsBlock);
      var feedCd := ParseCooldown(actionsBlock, "feed");
      var sleepCd := ParseCooldown(actionsBlock, "goToSleep");
      var playCd := ParseCooldown(actionsBlock, "play");
      var vetCd := ParseCooldown(actionsBlock, "takeToVet");
      PutFour(cooldowns, feedCd, sleepCd, playCd, vetCd);
      cooldowns := cooldowns["feed" := feedCd];
      cooldowns := cooldowns["goToSleep" := sleepCd];
      cooldowns := cooldowns["play" := playCd];
      cooldowns := cooldowns["takeToVet" := vetCd];
    }

    method PutDefaults()
      modifies this
      ensures cooldowns == old(cooldowns) + DefaultTable()
      ensures Stats() == old(Stats()) && score == old(score) && closed == old(closed)
    {
      PutFour(cooldowns, 5, 5, 5, 5);
      cooldowns := cooldowns["feed" := 5];
      cooldowns := cooldowns["goToSleep" := 5];
      cooldowns := cooldowns["play" := 5];
      cooldowns := cooldowns["takeToVet" := 5];
    }

    /** `getActionCooldown`. */
    function GetActionCooldown(actionName: string): (r: int)
      reads this
      ensures actionName in cooldowns ==> r == cooldowns[actionName]
      ensures actionName !in cooldowns ==> r == DEFAULT_COOLDOWN
    {
      Lookup(cooldowns, actionName)
    }

    /** `saveToFile`: the text written to the chosen file. */
    method SaveToFile() returns (text: string)
      ensures text == Encode(SavedRecord(), InventoryText(inventory.food, inventory.gifts))
    {
      var inventoryText := inventory.InventoryToString();
      text := JoinLines(RecordLines(SavedRecord())) + inventoryText;
    }

    /** The inventory's "Use" button on the food item at `i`: the item is
        consumed, hunger rises by the item's value up to 100, the other
        vitals stay, and the death check runs. */
    method UseFood(i: nat) returns (died: bool)
      requires i < |inventory.food|
      modifies this, inventory
      ensures inventory.food == Consumed(old(inventory.food), i) && inventory.gifts == old(inventory.gifts)
      ensures Stats() == old(Stats()).(hunger := Boost(old(hunger), HungerValue(old(inventory.food)[i].name)))
      ensures score == old(score) && cooldowns == old(cooldowns)
      ensures died <==> health == 0
      ensures closed == (old(closed) || died)
    {
      var gain := inventory.UseFood(i);
      UpdateStats(happiness, health, sleep, Boost(hunger, gain));
      died := CheckStats();
    }

    /** The inventory's "Give" button on the gift item at `i`: the same with
        happiness and the gift's value. */
    method UseGift(i: nat) returns (died: bool)
      requires i < |inventory.gifts|
      modifies this, inventory
      ensures inventory.gifts == Consumed(old(inventory.gifts), i) && inventory.food == old(inventory.food)
      ensures Stats() == old(Stats()).(happiness := Boost(old(happiness), HappinessValue(old(inventory.gifts)[i].name)))
      ensures score == old(score) && cooldowns == old(cooldowns)
      ensures died <==> health == 0
      ensures closed == (old(closed) || died)
    {
      var gain := inventory.UseGift(i);
      UpdateStats(Boost(happiness, gain), health, sleep, hunger);
      died := CheckStats();
    }
  }

  /** A new gameplay screen given the inventory text it starts from (`None`
      for a new game). `null` is the exception a bad inventory line throws
      out of the constructor. */
  method Open(inputScore: Int32, inputHappiness: Int32, inputHealth: Int32, inputSleep: Int32,
              inputHunger: Int32, pet: Int32, inventoryItems: Option<string>, config: Option<string>,
              foodOrder: seq<Item>, giftOrder: seq<Item>) returns (s: Session?)
    requires Shuffled(foodOrder, giftOrder)
    ensures s == null <==> inventoryItems.Some? && !CustomItems(inventoryItems.value).complete
    ensures s != null ==> fresh(s) && fresh(s.inventory)
    ensures s != null ==>
      s.score == inputScore && s.petNumber == pet && !s.closed &&
      s.Stats() == Vitals(inputHappiness, inputHealth, inputSleep, inputHunger) &&
      s.cooldowns == LoadedTable(config)
    ensures s != null && inventoryItems.Some? ==>
      s.inventory.food == CustomItems(inventoryItems.value).food &&
      s.inventory.gifts == CustomItems(inventoryItems.value).gifts
    ensures s != null && inventoryItems.None? ==> (s.inventory.food, s.inventory.gifts) == StartLists(config)
  {
    s := new Session(inputScore, inputHappiness, inputHealth, inputSleep, inputHunger, pet,
                     config, foodOrder, giftOrder);
    if inventoryItems.Some? {
      var ok := s.inventory.CustomAddItems(inventoryItems.value);
      if !ok {
        return null;
      }
    }
  }

  /** Successive scores accumulate: two additions are one addition of the
      sum, with the same 32-bit wrap-around as Java. */
  lemma ScoreAccumulates(score: Int32, a: Int32, b: Int32)
    ensures Add(Add(score, a), b) == Add(score, Add(a, b))
  {
    WrapDiff(score + a);
    WrapCongruent(Add(score, a) + b, score + a + b);
    WrapDiff(a + b);
    WrapCongruent(score + Add(a, b), score + a + b);
  }

  /** Wrapping changes a value by a multiple of 2^32. */
  lemma WrapDiff(z: int)
    ensures (Wrap(z) - z) % 0x1_0000_0000 == 0
  {
    WrapIsMod(z);
    var q := (z + 0x8000_0000) / 0x1_0000_0000;
    assert z + 0x8000_0000 == q * 0x1_0000_0000 + (z + 0x8000_0000) % 0x1_0000_0000;
    assert Wrap(z) - z == (0 - q) * 0x1_0000_0000;
    ModUnique(Wrap(z) - z, 0 - q, 0);
  }

  /** Two exact results that differ by a multiple of 2^32 wrap to the same `int`. */
  lemma WrapCongruent(x: int, y: int)
    requires (x - y) % 0x1_0000_0000 == 0
    ensures Wrap(x) == Wrap(y)
  {
    var k := (x - y) / 0x1_0000_0000;
    assert x - y == k * 0x1_0000_0000;
    WrapIsMod(x);
    WrapIsMod(y);
    var q := (y + 0x8000_0000) / 0x1_0000_0000;
    var r := (y + 0x8000_0000) % 0x1_0000_0000;
    assert y + 0x8000_0000 == q * 0x1_0000_0000 + r;
    assert x + 0x8000_0000 == (q + k) * 0x1_0000_0000 + r;
    ModUnique(x + 0x8000_0000, q + k, r);
  }

  /** Wrapping is reduction modulo 2^32 into [-2^31, 2^31). */
  lemma WrapIsMod(x: int)
    ensures Wrap(x) == (x + 0x8000_0000) % 0x1_0000_0000 - 0x8000_0000
  {
    if -0x8000_0000 <= x <= 0x7fff_ffff {
      ModUnique(x + 0x8000_0000, 0, x + 0x8000_0000);
    }
  }

  lemma ModUnique(n: int, q: int, r: int)
    requires n == q * 0x1_0000_0000 + r && 0 <= r < 0x1_0000_0000
    ensures n % 0x1_0000_0000 == r
  {
  }
}
