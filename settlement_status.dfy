/** getSettlementStatus (lib/expenseLogic.ts): the state of one recorded
    transfer, from the sender's and the receiver's confirmations. */
module SettlementStatus {

  datatype Status = Pending | Partial | Settled

  /** Both confirmations settle a transfer, one of them makes it partial,
      none leaves it pending. */
  function GetSettlementStatus(senderConfirmed: bool, receiverConfirmed: bool): (r: Status)
    ensures r == Settled <==> senderConfirmed && receiverConfirmed
    ensures r == Partial <==> senderConfirmed != receiverConfirmed
    ensures r == Pending <==> !senderConfirmed && !receiverConfirmed
  {
    if senderConfirmed && receiverConfirmed then Settled
    else if senderConfirmed || receiverConfirmed then Partial
    else Pending
  }

  /** How far along a status is. */
  function Progress(s: Status): nat
  {
    match s
    case Pending => 0
    case Partial => 1
    case Settled => 2
  }

  /** The status counts confirmations: it is the same whichever side
      confirmed, and it advances by one step per confirmation. */
  lemma StatusCountsConfirmations(senderConfirmed: bool, receiverConfirmed: bool)
    ensures GetSettlementStatus(senderConfirmed, receiverConfirmed)
         == GetSettlementStatus(receiverConfirmed, senderConfirmed)
    ensures Progress(GetSettlementStatus(senderConfirmed, receiverConfirmed))
         == (if senderConfirmed then 1 else 0) + (if receiverConfirmed then 1 else 0)
  {
  }

  /** Confirming never moves a transfer back. */
  lemma ConfirmingNeverRegresses(s: bool, r: bool, s': bool, r': bool)
    requires s ==> s'
    requires r ==> r'
    ensures Progress(GetSettlementStatus(s, r)) <= Progress(GetSettlementStatus(s', r'))
  {
    StatusCountsConfirmations(s, r);
    StatusCountsConfirmations(s', r');
  }
}
