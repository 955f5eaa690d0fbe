/**
  The sleeping screen: its "Go to bed!" button changes the four vitals and
  the score, and its "Return to home" button may hand out a food reward.
*/
module Sleep {
  import opened JavaLang
  import opened Cooldowns
  import opened Inventory
  import opened Gameplay

  /** The vitals after one sleep: sleep up 10 and capped at 100, happiness
      down 5 (0 when that leaves less than 1), health down 8 and not below 0,
      hunger down 10 (0 when that leaves less than 10), then the shared
      penalty. */
  function Slept(v: Vitals): (r: Vitals)
    ensures r.sleep <= 100 && 0 <= r.happiness && 0 <= r.health
    ensures r.hunger == 0 || r.hunger >= 10
  {
    var newSleep := if Add(v.sleep, 10) > 100 then 100 else Add(v.sleep, 10);
    var newHapp := if Sub(v.happiness, 5) < 1 then 0 else Sub(v.happiness, 5);
    var newh := if Sub(v.health, 8) < 0 then 0 else Sub(v.health, 8);
    var newHunger := if Sub(v.hunger, 10) < 10 then 0 else Sub(v.hunger, 10);
    Penalize(Vitals(newHapp, newh, newSleep, newHunger))
  }

  /** On the 0-100 scale sleeping stays on the scale, hunger ends at 0 or at
      10 and above, and the health penalty applies exactly when happiness
      was at most 5 or hunger below 20. */
  lemma SleptOnScale(v: Vitals)
    requires InRange(v)
    ensures InRange(Slept(v))
    ensures Slept(v).sleep == Min(100, v.sleep + 10)
    ensures Slept(v).happiness == if v.happiness <= 5 then 0 else v.happiness - 5
    ensures Slept(v).hunger == if v.hunger < 20 then 0 else v.hunger - 10
    ensures Slept(v).hunger == 0 || Slept(v).hunger >= 10
    ensures Slept(v).health ==
      if v.happiness <= 5 || v.hunger < 20 then Max(0, Max(0, v.health - 8) - 10) else Max(0, v.health - 8)
  {
  }

  /** The "Go to bed!" button: new vitals, 20 more points, the "goToSleep"
      cooldown, then the death check. */
  method Press(session: Session) returns (cooldown: int, died: bool)
    modifies session
    ensures session.Stats() == Slept(old(session.Stats()))
    ensures session.score == Add(old(session.score), 20)
    ensures session.cooldowns == old(session.cooldowns)
    ensures cooldown == Lookup(session.cooldowns, "goToSleep")
    ensures died <==> session.health == 0
    ensures session.closed == (old(session.closed) || died)
  {
    var v := Slept(session.Stats());
    session.UpdateStats(v.happiness, v.health, v.sleep, v.hunger);
    session.AddToScore(20);
    cooldown := session.GetActionCooldown("goToSleep");
    died := session.CheckStats();
  }

  /** The "Return to home" button: one food draw; a reward is shown exactly
      when a name came back. */
  method ReturnHome(session: Session, coins: seq<bool>) returns (item: string, showReward: bool)
    modifies session.inventory
    ensures session.inventory.gifts == old(session.inventory.gifts)
    ensures match Draw(session.inventory.foodTotal, old(session.inventory.food), coins)
      case None => item == "" && session.inventory.food == old(session.inventory.food)
      case Some(it) => item == it.name && session.inventory.food == old(session.inventory.food) + [it]
    ensures showReward <==> item != ""
  {
    item := session.inventory.AddFoodRandom(coins);
    showReward := item != "";
  }
}
