/** The two halves of the settlement engine together: the balances that
    calculateNetBalances produces are what simplifyDebts expects, and the
    transfers it then proposes clear every balance. */
module Settlement {
  import opened Ledger
  import OrderedMaps
  import NetBalances
  import DebtSimplification

  /** Balances with the shape calculateNetBalances guarantees (one entry per
      person of the balance order, summing to zero) are cleared exactly by
      the transfers of simplifyDebts. */
  lemma NetBalancesSettleExactly(expenses: seq<NetBalances.ExpenseWithParticipants>, personIds: seq<PersonId>,
                                 balances: seq<PersonBalance>, b: PersonBalance)
    requires |balances| == |NetBalances.BalanceOrder(expenses, personIds)|
    requires forall i :: 0 <= i < |balances| ==> balances[i].personId == NetBalances.BalanceOrder(expenses, personIds)[i]
    requires TotalBalance(balances) == 0
    requires b in balances
    ensures var t := DebtSimplification.Settle(balances);
      b.amountCents + DebtSimplification.PaidByPerson(t, b.personId)
        - DebtSimplification.ReceivedByPerson(t, b.personId) == 0
  {
    OrderedMaps.DedupIsDistinct(personIds + NetBalances.Touched(expenses));
    DebtSimplification.SettleNets(balances, b);
  }
}
