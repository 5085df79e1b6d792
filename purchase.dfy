/** Buying a shop item: check the balance and compute what is left. */
module PurchaseReward {
  import opened KotlinText

  /** Kotlin's `Result<Int>`: the new balance, or the exception's message */
  datatype PurchaseResult = Success(value: int) | Failure(message: string)

  /** t occurs in s as a contiguous piece */
  predicate Contains(s: string, t: string) {
    exists i :: 0 <= i <= |s| && t <= s[i..]
  }

  function InsufficientGoldMessage(currentGold: int, cost: int): string {
    "金币不足 (" + IntToString(currentGold) + "/" + IntToString(cost) + ")，请去完成任务！"
  }

  /** `PurchaseRewardUseCase.invoke` */
  function Invoke(currentGold: int, cost: int): (r: PurchaseResult)
    requires IsInt(currentGold) && IsInt(cost)
    requires currentGold >= cost ==> IsInt(currentGold - cost)
    ensures r.Success? <==> currentGold >= cost
    ensures r.Success? ==> r.value == currentGold - cost && r.value >= 0
  {
    if currentGold >= cost then Success(currentGold - cost)
    else Failure(InsufficientGoldMessage(currentGold, cost))
  }

  /** Spending exactly the whole balance succeeds and leaves nothing. */
  lemma ExactBalanceLeavesZero(gold: int)
    requires IsInt(gold)
    ensures Invoke(gold, gold) == Success(0)
  {
  }

  /** A refused purchase names both the balance and the price. */
  lemma FailureShowsBalanceAndCost(currentGold: int, cost: int)
    requires IsInt(currentGold) && IsInt(cost) && currentGold < cost
    ensures Invoke(currentGold, cost).Failure?
    ensures Contains(Invoke(currentGold, cost).message, IntToString(currentGold))
    ensures Contains(Invoke(currentGold, cost).message, IntToString(cost))
  {
    var g, c := IntToString(currentGold), IntToString(cost);
    var pre := "金币不足 (";
    var m := Invoke(currentGold, cost).message;
    assert m == pre + g + "/" + c + ")，请去完成任务！";
    assert m[|pre|..] == g + "/" + c + ")，请去完成任务！";
    assert m[|pre| + |g| + 1..] == c + ")，请去完成任务！";
  }
}
