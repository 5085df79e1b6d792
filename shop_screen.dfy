/** The add-item dialog of the shop screen. */
module ShopScreen {
  import opened Wrappers
  import opened KotlinText

  /** The price field's initial text */
  const InitialCostText: string := ""

  /** `costStr.toIntOrNull() ?: 0` */
  function ParsedCost(costText: string): (cost: int)
    ensures IsInt(cost)
    ensures ParseInt(costText).Some? ==> cost == ParseInt(costText).value
    ensures ParseInt(costText).None? ==> cost == 0
  {
    ParseInt(costText).GetOr(0)
  }

  /** The confirm button: the item handed to `onConfirm`, or none when the title is blank or the price not positive */
  function ConfirmAddReward(title: string, costText: string): (r: Option<(string, int)>)
    ensures r.Some? <==> !IsBlank(title) && ParseInt(costText).Some? && ParseInt(costText).value > 0
    ensures r.Some? ==> r.value == (title, ParseInt(costText).value) && 0 < r.value.1 <= IntMax
  {
    var cost := ParsedCost(costText);
    if !IsBlank(title) && cost > 0 then Some((title, cost)) else None
  }

  /**
   * For the digit-only texts the price field can hold, an item is offered
   * exactly when the title is not blank and the number is in 1..IntMax, and
   * its price is that number.
   */
  lemma ConfirmAddRewardOnDigits(title: string, costText: string)
    requires AllDigits(costText)
    ensures ConfirmAddReward(title, costText).Some? <==>
              !IsBlank(title) && |costText| > 0 && 0 < DigitsValue(costText) <= IntMax
    ensures ConfirmAddReward(title, costText).Some? ==> ConfirmAddReward(title, costText).value.1 == DigitsValue(costText)
  {
    ParseDigits(costText);
  }

  /** The dialog refuses to confirm until a price is typed in. */
  lemma UntouchedPriceIsRefused(title: string)
    ensures ConfirmAddReward(title, InitialCostText).None?
  {
  }
}
