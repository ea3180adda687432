/** The reward card: whether its redeem button is enabled, and what the button says. */
module RewardCard {
  import opened Js
  import opened Types

  predicate IsOutOfStock(availableStock: int)
  {
    availableStock <= 0
  }

  /** `userLevel >= parseInt(nivel_requerido)` with no radix: a level that is not a number is never reached. */
  predicate HasRequiredLevel(userLevel: int, reward: Reward)
  {
    match ParseIntNoRadix(reward.nivelRequerido)
    case Some(required) => userLevel >= required
    case None => false
  }

  /** `parseInt(puntos_costo, 10) || 0` */
  function RewardCost(reward: Reward): int
  {
    OrElse(ParseInt10(reward.puntosCosto), 0)
  }

  predicate HasEnoughPoints(userPoints: int, reward: Reward)
  {
    userPoints >= RewardCost(reward)
  }

  /** The button is enabled exactly when the level, the stock and the points all allow it. */
  predicate CanRedeem(reward: Reward, userLevel: int, userPoints: int, availableStock: int)
  {
    HasRequiredLevel(userLevel, reward) && !IsOutOfStock(availableStock) && HasEnoughPoints(userPoints, reward)
  }

  /** The button label: the first obstacle, in the order stock, level, points. */
  function ButtonText(reward: Reward, userLevel: int, userPoints: int, availableStock: int): (text: string)
    ensures text == "Canjear" <==> CanRedeem(reward, userLevel, userPoints, availableStock)
    ensures IsOutOfStock(availableStock) <==> text == "Agotado"
    ensures text == "Nivel Insuficiente" <==> !IsOutOfStock(availableStock) && !HasRequiredLevel(userLevel, reward)
    ensures text == "Puntos Insuficientes" <==>
      !IsOutOfStock(availableStock) && HasRequiredLevel(userLevel, reward) && !HasEnoughPoints(userPoints, reward)
  {
    if IsOutOfStock(availableStock) then "Agotado"
    else if !HasRequiredLevel(userLevel, reward) then "Nivel Insuficiente"
    else if !HasEnoughPoints(userPoints, reward) then "Puntos Insuficientes"
    else "Canjear"
  }

  /** `disabled={!canRedeem}` */
  predicate ButtonDisabled(reward: Reward, userLevel: int, userPoints: int, availableStock: int)
  {
    !CanRedeem(reward, userLevel, userPoints, availableStock)
  }

  /**
   * For a reward whose level and cost are written as integers, the card's gates are
   * plain comparisons: the button is enabled exactly when the user's level reaches
   * the required one, stock is left and the points cover the cost.
   */
  lemma CardGates(reward: Reward, userLevel: int, userPoints: int, availableStock: int, level: int, cost: int)
    requires reward.nivelRequerido == DecimalString(level) && reward.puntosCosto == DecimalString(cost)
    ensures RewardCost(reward) == cost
    ensures HasRequiredLevel(userLevel, reward) <==> userLevel >= level
    ensures HasEnoughPoints(userPoints, reward) <==> userPoints >= cost
    ensures IsOutOfStock(availableStock) <==> availableStock < 1
    ensures CanRedeem(reward, userLevel, userPoints, availableStock) <==>
      userLevel >= level && availableStock >= 1 && userPoints >= cost
  {
    DecimalStringRoundTrip(level);
    DecimalStringRoundTrip(cost);
  }

  /**
   * A blank level can never be reached, so its card is always disabled; a blank
   * cost falls back to 0, so any user with points left can afford it.
   */
  lemma BlankFields(reward: Reward, userLevel: int, userPoints: int, availableStock: int)
    ensures reward.nivelRequerido == "" ==>
      !HasRequiredLevel(userLevel, reward) && ButtonDisabled(reward, userLevel, userPoints, availableStock)
    ensures reward.puntosCosto == "" ==>
      RewardCost(reward) == 0 && (HasEnoughPoints(userPoints, reward) <==> userPoints >= 0)
  {
  }

  /** The button is disabled exactly when its label names an obstacle rather than "Canjear". */
  lemma DisabledButtonLabel(reward: Reward, userLevel: int, userPoints: int, availableStock: int)
    ensures ButtonDisabled(reward, userLevel, userPoints, availableStock) <==>
      ButtonText(reward, userLevel, userPoints, availableStock) != "Canjear"
  {
  }
}
