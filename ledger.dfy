/** The records the settlement engine passes around (the exported types of
    lib/expenseLogic.ts). Amounts are integer cents. */
module Ledger {

  /** A person's id. The engine never looks inside an id; it only compares two
      ids for equality. */
  type PersonId(==, !new)

  /** One participant's part of one expense. */
  datatype ParticipantShare = ParticipantShare(personId: PersonId, amountCents: int)

  /** A person's net position: positive is owed money, negative owes money. */
  datatype PersonBalance = PersonBalance(personId: PersonId, amountCents: int)

  /** A payment of `amountCents` from `from` to `to`. */
  datatype Transaction = Transaction(from: PersonId, to: PersonId, amountCents: int)

  /** The sum of the amounts of a list of balances. */
  function TotalBalance(balances: seq<PersonBalance>): int
  {
    if balances == [] then 0 else balances[0].amountCents + TotalBalance(balances[1..])
  }

  /** The sum taken from the other end: all but the last, plus the last. */
  lemma {:induction false} TotalBalanceSnoc(balances: seq<PersonBalance>)
    requires balances != []
    ensures TotalBalance(balances)
         == TotalBalance(balances[..|balances| - 1]) + balances[|balances| - 1].amountCents
  {
    var rest := balances[1..];
    if rest != [] {
      TotalBalanceSnoc(rest);
      assert balances[..|balances| - 1][1..] == rest[..|rest| - 1];
    }
  }
}
