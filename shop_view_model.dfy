/**
 * `ShopViewModel`: the shop screen's state holder. It keeps the last gold
 * balance the profile stream delivered (0 until the first delivery), the
 * messages it has emitted for the snackbar, and forwards purchases and new
 * items to the repository.
 */
module ShopViewModel {
  import opened KotlinText
  import opened Records
  import PurchaseReward
  import Repository

  /** The snackbar message for a completed purchase */
  function PurchasedMessage(item: RewardItem): (m: string)
    ensures |m| > |item.title| && m[|m| - |item.title|..] == item.title
  {
    "成功购买：" + item.title
  }

  class ShopViewModel {
    const repository: Repository.DefaultTaskRepository
    /** `currentGold.value`: the cached balance, 0 until the stream first delivers */
    var currentGold: int
    /** Every message emitted on `snackbarEvents`, oldest first */
    var snackbarEvents: seq<string>

    /** Creating the view model seeds the default shop items when the shop is empty. */
    constructor (repository: Repository.DefaultTaskRepository)
      requires repository.Valid()
      modifies repository.rewardItemDao
      ensures this.repository == repository && repository.Valid()
      ensures currentGold == 0 && snackbarEvents == []
      ensures old(repository.rewardItemDao.Count()) == 0 ==>
                repository.rewardItemDao.rows == Repository.Seeded(old(repository.rewardItemDao.nextId), 4)
      ensures old(repository.rewardItemDao.Count()) != 0 ==> unchanged(repository.rewardItemDao)
    {
      this.repository := repository;
      currentGold := 0;
      snackbarEvents := [];
      new;
      repository.EnsureDefaultRewards();
    }

    /** The profile stream delivers a new value: the cache takes its gold. */
    method OnStatsDelivered()
      requires repository.Valid()
      modifies this
      ensures currentGold == repository.CurrentStats().gold
      ensures snackbarEvents == old(snackbarEvents)
    {
      currentGold := repository.CurrentStats().gold;
    }

    /**
     * `onPurchaseClick`: check the CACHED balance against the price; on success
     * store the reduced balance and announce the purchase, otherwise emit the
     * refusal message and store nothing.
     */
    method OnPurchaseClick(item: RewardItem)
      requires repository.Valid()
      requires IsInt(currentGold) && IsInt(item.cost)
      requires currentGold >= item.cost ==> IsInt(currentGold - item.cost)
      modifies this, repository.userStatsDao
      ensures repository.Valid() && currentGold == old(currentGold)
      ensures old(currentGold) >= item.cost ==>
                repository.userStatsDao.rows ==
                  old(repository.userStatsDao.rows)[SingletonId := old(repository.CurrentStats()).(gold := old(currentGold) - item.cost)]
                && repository.CurrentStats() == old(repository.CurrentStats()).(gold := old(currentGold) - item.cost)
                && snackbarEvents == old(snackbarEvents) + [PurchasedMessage(item)]
      ensures old(currentGold) < item.cost ==>
                unchanged(repository.userStatsDao)
                && snackbarEvents == old(snackbarEvents) + [PurchaseReward.InsufficientGoldMessage(old(currentGold), item.cost)]
    {
      var gold := currentGold;
      var result := PurchaseReward.Invoke(gold, item.cost);
      if result.Success? {
        repository.UpdatePlayerGold(result.value);
        snackbarEvents := snackbarEvents + [PurchasedMessage(item)];
      } else {
        snackbarEvents := snackbarEvents + [result.message];
      }
    }

    /** `addCustomReward`: a new item with that title and price, under a fresh id */
    method AddCustomReward(title: string, cost: int)
      requires repository.Valid()
      modifies repository.rewardItemDao
      ensures repository.Valid()
      ensures var id := old(repository.rewardItemDao.nextId);
              id !in old(repository.rewardItemDao.rows) &&
              repository.rewardItemDao.rows == old(repository.rewardItemDao.rows)[id := RewardItem(id, title, cost)]
    {
      repository.AddReward(NewRewardItem(title, cost));
    }
  }

  /**
   * With an up-to-date cache, a purchase the player can afford lowers the
   * STORED balance by exactly the price and never leaves it negative.
   */
  method PurchaseWithFreshBalance(vm: ShopViewModel, item: RewardItem)
    requires vm.repository.Valid()
    requires IsInt(vm.repository.CurrentStats().gold) && IsInt(item.cost)
    requires vm.repository.CurrentStats().gold >= item.cost
    requires IsInt(vm.repository.CurrentStats().gold - item.cost)
    modifies vm, vm.repository.userStatsDao
    ensures vm.repository.Valid()
    ensures vm.repository.CurrentStats().gold == old(vm.repository.CurrentStats().gold) - item.cost >= 0
    ensures vm.snackbarEvents == old(vm.snackbarEvents) + [PurchasedMessage(item)]
  {
    vm.OnStatsDelivered();
    vm.OnPurchaseClick(item);
  }
}
