/**
  The vet screen: its "Heal!" button changes the four vitals and the score,
  and its "Return to home" button may hand out a gift reward.
*/
module Vet {
  import opened JavaLang
  import opened Cooldowns
  import opened Inventory
  import opened Gameplay

  /** The vitals after one visit: sleep and hunger down 5 and not below 0,
      happiness down 3 but set to 100 when that leaves 0 or less, health up
      10 and capped at 100, then the shared penalty. */
  function Healed(v: Vitals): (r: Vitals)
    ensures 0 <= r.sleep && 0 <= r.hunger
  {
    var newSleep := if Sub(v.sleep, 5) <= 0 then 0 else Sub(v.sleep, 5);
    var newHapp := if Sub(v.happiness, 3) <= 0 then 100 else Sub(v.happiness, 3);
    var newh := if Add(v.health, 10) > 100 then 100 else Add(v.health, 10);
    var newHunger := if Sub(v.hunger, 5) <= 0 then 0 else Sub(v.hunger, 5);
    Penalize(Vitals(newHapp, newh, newSleep, newHunger))
  }

  /** Whatever the vitals, happiness after a visit is positive, so it never
      triggers the penalty itself. */
  lemma HealedHappy(v: Vitals)
    ensures Healed(v).happiness > 0
  {
  }

  /** On the 0-100 scale a visit stays on the scale, and the health penalty
      applies exactly when sleep or hunger was at most 5. */
  lemma HealedOnScale(v: Vitals)
    requires InRange(v)
    ensures InRange(Healed(v))
    ensures Healed(v).sleep == Max(0, v.sleep - 5)
    ensures Healed(v).hunger == Max(0, v.hunger - 5)
    ensures Healed(v).happiness == if v.happiness <= 3 then 100 else v.happiness - 3
    ensures Healed(v).health ==
      if v.sleep <= 5 || v.hunger <= 5 then Max(0, Min(100, v.health + 10) - 10) else Min(100, v.health + 10)
  {
  }

  /** The "Heal!" button: new vitals, 20 more points, the "takeToVet"
      cooldown, then the death check. */
  method Press(session: Session) returns (cooldown: int, died: bool)
    modifies session
    ensures session.Stats() == Healed(old(session.Stats()))
    ensures session.score == Add(old(session.score), 20)
    ensures session.cooldowns == old(session.cooldowns)
    ensures cooldown == Lookup(session.cooldowns, "takeToVet")
    ensures died <==> session.health == 0
    ensures session.closed == (old(session.closed) || died)
  {
    var v := Healed(session.Stats());
    session.UpdateStats(v.happiness, v.health, v.sleep, v.hunger);
    session.AddToScore(20);
    cooldown := session.GetActionCooldown("takeToVet");
    died := session.CheckStats();
  }

  /** The "Return to home" button: one gift draw (not a food draw); a reward
      is shown exactly when a name came back. */
  method ReturnHome(session: Session, coins: seq<bool>) returns (item: string, showReward: bool)
    modifies session.inventory
    ensures session.inventory.food == old(session.inventory.food)
    ensures match Draw(session.inventory.giftTotal, old(session.inventory.gifts), coins)
      case None => item == "" && session.inventory.gifts == old(session.inventory.gifts)
      case Some(it) => item == it.name && session.inventory.gifts == old(session.inventory.gifts) + [it]
    ensures showReward <==> item != ""
  {
    item := session.inventory.AddGiftRandom(coins);
    showReward := item != "";
  }
}
