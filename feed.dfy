/**
  The feeding screen: its "Feed!" button changes the four vitals and the
  score, and its "Return to home" button may hand out a food reward.
*/
module Feed {
  import opened JavaLang
  import opened Cooldowns
  import opened Inventory
  import opened Gameplay

  /** The vitals after one feeding: sleep down 1 and not below 0, happiness
      up 2, health up 8 and hunger up 10, each capped at 100, then the
      shared penalty. */
  function Fed(v: Vitals): (r: Vitals)
    ensures r.hunger <= 100 && r.happiness <= 100 && 0 <= r.sleep
  {
    var newSleep := if Sub(v.sleep, 1) <= 0 then 0 else Sub(v.sleep, 1);
    var newHapp := if Add(v.happiness, 2) > 100 then 100 else Add(v.happiness, 2);
    var newh := if Add(v.health, 8) > 100 then 100 else Add(v.health, 8);
    var newHunger := if Add(v.hunger, 10) > 100 then 100 else Add(v.hunger, 10);
    Penalize(Vitals(newHapp, newh, newSleep, newHunger))
  }

  /** On the 0-100 scale feeding stays on the scale, and the health penalty
      applies exactly when sleep was at most 1. */
  lemma FedOnScale(v: Vitals)
    requires InRange(v)
    ensures InRange(Fed(v))
    ensures Fed(v).hunger == Min(100, v.hunger + 10)
    ensures Fed(v).happiness == Min(100, v.happiness + 2)
    ensures Fed(v).sleep == Max(0, v.sleep - 1)
    ensures Fed(v).health ==
      if v.sleep <= 1 then Max(0, Min(100, v.health + 8) - 10) else Min(100, v.health + 8)
  {
  }

  /** The "Feed!" button: new vitals, 20 more points, the "feed" cooldown,
      then the death check. */
  method Press(session: Session) returns (cooldown: int, died: bool)
    modifies session
    ensures session.Stats() == Fed(old(session.Stats()))
    ensures session.score == Add(old(session.score), 20)
    ensures session.cooldowns == old(session.cooldowns)
    ensures cooldown == Lookup(session.cooldowns, "feed")
    ensures died <==> session.health == 0
    ensures session.closed == (old(session.closed) || died)
  {
    var v := Fed(session.Stats());
    session.UpdateStats(v.happiness, v.health, v.sleep, v.hunger);
    session.AddToScore(20);
    cooldown := session.GetActionCooldown("feed");
    died := session.CheckStats();
  }

  /** The "Return to home" button: one food draw; a reward is shown exactly
      when a name came back. */
  method ReturnHome(session: Session, coins: seq<bool>) returns (item: string, showReward: bool)
    modifies session.inventory
    ensures session.inventory.gifts == old(session.inventory.gifts)
    ensures match Draw(session.inventory.foodTotal, old(session.inventory.food), coins)
      case None => item == "" && session.inventory.food == old(session.inventory.food)
      case Some(it) => item == it.name && session.inventory.food == old(session.inventory.food) + [it]
    ensures showReward <==> item != ""
  {
    item := session.inventory.AddFoodRandom(coins);
    showReward := item != "";
  }
}
