/** calculateNetBalances (lib/expenseLogic.ts): fold every allocated expense
    into one signed balance per person, in a `Map` seeded with every known
    person. */
module NetBalances {
  import opened Wrappers
  import opened OrderedMaps
  import opened Ledger

  /** An expense with its allocated shares (the fields the fold reads). */
  datatype ExpenseWithParticipants =
    ExpenseWithParticipants(paidBy: PersonId, participants: seq<ParticipantShare>)

  // ------------------------------------------------------- the specification

  /** What `x` owes of `shares`: the sum of `x`'s own shares. */
  function OwnShares(shares: seq<ParticipantShare>, x: PersonId): int
  {
    if shares == [] then 0
    else
      var last := shares[|shares| - 1];
      OwnShares(shares[..|shares| - 1], x) + (if last.personId == x then last.amountCents else 0)
  }

  /** What the others owe of `shares`: the sum of every share not `x`'s. */
  function OthersShares(shares: seq<ParticipantShare>, x: PersonId): int
  {
    if shares == [] then 0
    else
      var last := shares[|shares| - 1];
      OthersShares(shares[..|shares| - 1], x) + (if last.personId != x then last.amountCents else 0)
  }

  /** What `x` is owed: the others' shares of every expense `x` paid. */
  function Credited(expenses: seq<ExpenseWithParticipants>, x: PersonId): int
  {
    if expenses == [] then 0
    else
      var last := expenses[|expenses| - 1];
      Credited(expenses[..|expenses| - 1], x)
        + (if last.paidBy == x then OthersShares(last.participants, x) else 0)
  }

  /** What `x` owes: `x`'s own shares of every expense somebody else paid. */
  function Debited(expenses: seq<ExpenseWithParticipants>, x: PersonId): int
  {
    if expenses == [] then 0
    else
      var last := expenses[|expenses| - 1];
      Debited(expenses[..|expenses| - 1], x)
        + (if last.paidBy != x then OwnShares(last.participants, x) else 0)
  }

  /** How one share of an expense paid by `payer` moves the balance of `x`:
      a participant other than the payer owes the share, and the payer is owed
      it; the payer's own share moves nothing. */
  function ShareEffect(payer: PersonId, share: ParticipantShare, x: PersonId): int
  {
    if share.personId == payer then 0
    else if x == payer then share.amountCents
    else if x == share.personId then -share.amountCents
    else 0
  }

  /** How the shares of an expense paid by `payer` move the balance of `x`,
      share by share. */
  function Effect(payer: PersonId, shares: seq<ParticipantShare>, x: PersonId): int
  {
    if shares == [] then 0
    else Effect(payer, shares[..|shares| - 1], x) + ShareEffect(payer, shares[|shares| - 1], x)
  }

  /** The net balance of `x` after the fold, expense by expense. */
  function Balance(expenses: seq<ExpenseWithParticipants>, x: PersonId): int
  {
    if expenses == [] then 0
    else
      var last := expenses[|expenses| - 1];
      Balance(expenses[..|expenses| - 1], x) + Effect(last.paidBy, last.participants, x)
  }

  /** One expense moves the payer's balance up by the others' shares, and
      anybody else's down by their own shares. */
  lemma {:induction false} EffectIsOwedLessOwing(payer: PersonId, shares: seq<ParticipantShare>, x: PersonId)
    ensures Effect(payer, shares, x) == if payer == x then OthersShares(shares, x) else -OwnShares(shares, x)
  {
    if shares != [] {
      EffectIsOwedLessOwing(payer, shares[..|shares| - 1], x);
    }
  }

  /** The balance the fold computes is what the person is owed less what the
      person owes. */
  lemma {:induction false} BalanceIsCreditedLessDebited(expenses: seq<ExpenseWithParticipants>, x: PersonId)
    ensures Balance(expenses, x) == Credited(expenses, x) - Debited(expenses, x)
  {
    if expenses != [] {
      var last := expenses[|expenses| - 1];
      BalanceIsCreditedLessDebited(expenses[..|expenses| - 1], x);
      EffectIsOwedLessOwing(last.paidBy, last.participants, x);
    }
  }

  /** The ids the fold sets while walking `shares` of an expense paid by `payer`:
      each non-payer participant, then the payer. */
  function TouchedBy(payer: PersonId, shares: seq<ParticipantShare>): seq<PersonId>
  {
    if shares == [] then []
    else
      var last := shares[|shares| - 1];
      TouchedBy(payer, shares[..|shares| - 1])
        + (if last.personId == payer then [] else [last.personId, payer])
  }

  /** The ids the fold sets while walking `expenses`, in order. */
  function Touched(expenses: seq<ExpenseWithParticipants>): seq<PersonId>
  {
    if expenses == [] then []
    else
      var last := expenses[|expenses| - 1];
      Touched(expenses[..|expenses| - 1]) + TouchedBy(last.paidBy, last.participants)
  }

  /** The order of the result: the known people first (duplicates collapsed),
      then everybody else the expenses mention, by first mention. */
  function BalanceOrder(expenses: seq<ExpenseWithParticipants>, personIds: seq<PersonId>): seq<PersonId>
  {
    Dedup(personIds + Touched(expenses))
  }

  // ------------------------------------------------------- the ordered-map sum

  /** The value a balance map holds for `k`, 0 when `k` is unset. */
  function ValueOr0(values: map<PersonId, int>, k: PersonId): int
  {
    if k in values then values[k] else 0
  }

  /** The sum of the values bound to `keys`. */
  function SumOver(keys: seq<PersonId>, values: map<PersonId, int>): int
  {
    if keys == [] then 0
    else SumOver(keys[..|keys| - 1], values) + ValueOr0(values, keys[|keys| - 1])
  }

  lemma {:induction false} SumOverUnchanged(keys: seq<PersonId>, values: map<PersonId, int>, k: PersonId, v: int)
    requires k !in keys
    ensures SumOver(keys, values[k := v]) == SumOver(keys, values)
  {
    if keys != [] {
      SumOverUnchanged(keys[..|keys| - 1], values, k, v);
    }
  }

  lemma {:induction false} SumOverUpdate(keys: seq<PersonId>, values: map<PersonId, int>, k: PersonId, v: int)
    requires Distinct(keys) && k in keys
    ensures SumOver(keys, values[k := v]) == SumOver(keys, values) - ValueOr0(values, k) + v
  {
    var init := keys[..|keys| - 1];
    if keys[|keys| - 1] == k {
      assert k !in init;
      SumOverUnchanged(init, values, k, v);
    } else {
      assert Distinct(init);
      SumOverUpdate(init, values, k, v);
    }
  }

  /** Setting a key changes the sum of the map by the change of that key's
      value (a missing key counts as 0). */
  lemma SetChangesSum(m: OrderedMap<PersonId, int>, k: PersonId, v: int)
    requires m.Valid()
    ensures m.Set(k, v).Valid()
    ensures SumOver(m.Set(k, v).keys, m.Set(k, v).values) == SumOver(m.keys, m.values) - m.GetOrElse(k, 0) + v
  {
    if k in m.keys {
      SumOverUpdate(m.keys, m.values, k, v);
    } else {
      SumOverUnchanged(m.keys, m.values, k, v);
      assert (m.keys + [k])[..|m.keys|] == m.keys;
    }
  }

  /** Listing the entries of a map in key order keeps their sum. */
  lemma {:induction false} EntriesTotal(keys: seq<PersonId>, values: map<PersonId, int>, r: seq<PersonBalance>)
    requires |r| == |keys|
    requires forall i :: 0 <= i < |r| ==> r[i].amountCents == ValueOr0(values, keys[i])
    ensures TotalBalance(r) == SumOver(keys, values)
  {
    if keys != [] {
      EntriesTotal(keys[..|keys| - 1], values, r[..|r| - 1]);
      TotalBalanceSnoc(r);
    }
  }

  lemma {:induction false} SumOverZero(keys: seq<PersonId>, values: map<PersonId, int>)
    requires forall k :: k in values ==> values[k] == 0
    ensures SumOver(keys, values) == 0
  {
    if keys != [] {
      SumOverZero(keys[..|keys| - 1], values);
    }
  }

  // ---------------------------------------------------------------- the fold

  /** Seeding the next known id extends the first-occurrence order by it. */
  lemma SeedStep(balances: OrderedMap<PersonId, int>, personIds: seq<PersonId>, k: nat)
    requires k < |personIds|
    requires balances.Valid() && balances.keys == Dedup(personIds[..k])
    ensures balances.Set(personIds[k], 0).Valid()
    ensures balances.Set(personIds[k], 0).keys == Dedup(personIds[..k + 1])
  {
    SetFollowsDedupAt(balances, personIds, k, 0);
  }

  /** The seeding loop: every known id set to 0, in first-appearance order. */
  method SeedBalances(personIds: seq<PersonId>) returns (balances: OrderedMap<PersonId, int>)
    ensures balances.Valid()
    ensures balances.keys == Dedup(personIds)
    ensures forall x :: balances.GetOrElse(x, 0) == 0
    ensures SumOver(balances.keys, balances.values) == 0
  {
    balances := Empty();
    for k := 0 to |personIds|
      invariant balances.Valid()
      invariant balances.keys == Dedup(personIds[..k])
      invariant forall x :: x in balances.values ==> balances.values[x] == 0
    {
      SeedStep(balances, personIds, k);
      balances := balances.Set(personIds[k], 0);
    }
    assert personIds[..|personIds|] == personIds;
    SumOverZero(balances.keys, balances.values);
    forall x
      ensures balances.GetOrElse(x, 0) == 0
    {
      if x in balances.values {
        assert balances.values[x] == 0;
      }
    }
  }

  /** One step of the inner loop: `debtor` owes `amount` more and `creditor`
      is owed `amount` more, each read with `get(id) ?? 0` and written back
      with `set`. */
  function Transfer(balances: OrderedMap<PersonId, int>, debtor: PersonId, creditor: PersonId, amount: int)
    : OrderedMap<PersonId, int>
  {
    var debited := balances.Set(debtor, balances.GetOrElse(debtor, 0) - amount);
    debited.Set(creditor, debited.GetOrElse(creditor, 0) + amount)
  }

  /** A transfer adds the two ids to the key order, in that order. */
  lemma TransferKeys(balances: OrderedMap<PersonId, int>, debtor: PersonId, creditor: PersonId, amount: int,
                     seen: seq<PersonId>)
    requires balances.Valid() && balances.keys == Dedup(seen)
    ensures Transfer(balances, debtor, creditor, amount).Valid()
    ensures Transfer(balances, debtor, creditor, amount).keys == Dedup(seen + [debtor, creditor])
  {
    var debited := balances.Set(debtor, balances.GetOrElse(debtor, 0) - amount);
    SetPairFollowsDedup(balances, seen, debtor, balances.GetOrElse(debtor, 0) - amount,
                        creditor, debited.GetOrElse(creditor, 0) + amount);
  }

  /** After a transfer the debtor holds `amount` less, the creditor `amount`
      more, and everybody else what they held before. */
  lemma TransferLookups(balances: OrderedMap<PersonId, int>, debtor: PersonId, creditor: PersonId, amount: int)
    requires debtor != creditor
    ensures Transfer(balances, debtor, creditor, amount).GetOrElse(debtor, 0) == balances.GetOrElse(debtor, 0) - amount
    ensures Transfer(balances, debtor, creditor, amount).GetOrElse(creditor, 0) == balances.GetOrElse(creditor, 0) + amount
    ensures forall x :: x != debtor && x != creditor ==>
      Transfer(balances, debtor, creditor, amount).GetOrElse(x, 0) == balances.GetOrElse(x, 0)
  {
  }

  /** Setting two keys one after the other changes the sum of the map by
      the change of each. */
  lemma SetPairChangesSum(balances: OrderedMap<PersonId, int>, first: PersonId, second: PersonId, x: int, y: int)
    requires balances.Valid()
    ensures SumOver(balances.Set(first, x).Set(second, y).keys, balances.Set(first, x).Set(second, y).values)
         == SumOver(balances.keys, balances.values) - balances.GetOrElse(first, 0) + x
            - balances.Set(first, x).GetOrElse(second, 0) + y
  {
    SetChangesSum(balances, first, x);
    SetChangesSum(balances.Set(first, x), second, y);
  }

  /** Debiting one person and crediting another by the same amount keeps
      the sum of the map. */
  lemma TransferKeepsSum(balances: OrderedMap<PersonId, int>, debtor: PersonId, creditor: PersonId, amount: int)
    requires balances.Valid()
    ensures SumOver(Transfer(balances, debtor, creditor, amount).keys, Transfer(balances, debtor, creditor, amount).values)
         == SumOver(balances.keys, balances.values)
  {
    var x := balances.GetOrElse(debtor, 0) - amount;
    var y := balances.Set(debtor, x).GetOrElse(creditor, 0) + amount;
    TransferIsSetPair(balances, debtor, creditor, amount, x, y);
    SetPairChangesSum(balances, debtor, creditor, x, y);
  }

  /** A transfer sets the debtor's and then the creditor's balance. */
  lemma TransferIsSetPair(balances: OrderedMap<PersonId, int>, debtor: PersonId, creditor: PersonId, amount: int,
                          x: int, y: int)
    requires x == balances.GetOrElse(debtor, 0) - amount
    requires y == balances.Set(debtor, x).GetOrElse(creditor, 0) + amount
    ensures Transfer(balances, debtor, creditor, amount).keys == balances.Set(debtor, x).Set(creditor, y).keys
    ensures Transfer(balances, debtor, creditor, amount).values == balances.Set(debtor, x).Set(creditor, y).values
  {
  }

  /** Walking one more share: the ids it touches, and how it moves each balance. */
  lemma ShareStep(payer: PersonId, shares: seq<ParticipantShare>, j: nat)
    requires j < |shares|
    ensures TouchedBy(payer, shares[..j + 1]) == TouchedBy(payer, shares[..j])
      + (if shares[j].personId == payer then [] else [shares[j].personId, payer])
    ensures forall x :: Effect(payer, shares[..j + 1], x) == Effect(payer, shares[..j], x) + ShareEffect(payer, shares[j], x)
  {
    assert shares[..j + 1][..j] == shares[..j];
  }

  /** The lookup invariant of the inner loop survives one transfer. */
  lemma EffectStep(balances: OrderedMap<PersonId, int>, previous: OrderedMap<PersonId, int>, updated: OrderedMap<PersonId, int>,
                   payer: PersonId, shares: seq<ParticipantShare>, j: nat)
    requires j < |shares| && shares[j].personId != payer
    requires forall x :: previous.GetOrElse(x, 0) == balances.GetOrElse(x, 0) + Effect(payer, shares[..j], x)
    requires updated.GetOrElse(shares[j].personId, 0) == previous.GetOrElse(shares[j].personId, 0) - shares[j].amountCents
    requires updated.GetOrElse(payer, 0) == previous.GetOrElse(payer, 0) + shares[j].amountCents
    requires forall x :: x != shares[j].personId && x != payer ==> updated.GetOrElse(x, 0) == previous.GetOrElse(x, 0)
    ensures forall x :: updated.GetOrElse(x, 0) == balances.GetOrElse(x, 0) + Effect(payer, shares[..j + 1], x)
  {
    ShareStep(payer, shares, j);
  }

  lemma AppendAssoc(a: seq<PersonId>, b: seq<PersonId>, c: seq<PersonId>)
    ensures a + b + c == a + (b + c)
  {
  }

  /** The inner loop for one expense: each participant other than the payer
      owes their share, the payer is credited it. The map gains the ids in the
      order `TouchedBy` lists them, and the sum of the map does not change. */
  method ApplyExpense(balances: OrderedMap<PersonId, int>, expense: ExpenseWithParticipants, ghost seen: seq<PersonId>)
    returns (updated: OrderedMap<PersonId, int>)
    requires balances.Valid() && balances.keys == Dedup(seen)
    ensures updated.Valid()
    ensures updated.keys == Dedup(seen + TouchedBy(expense.paidBy, expense.participants))
    ensures forall x :: updated.GetOrElse(x, 0) == balances.GetOrElse(x, 0) + Effect(expense.paidBy, expense.participants, x)
    ensures SumOver(updated.keys, updated.values) == SumOver(balances.keys, balances.values)
  {
    var payer := expense.paidBy;
    var shares := expense.participants;
    updated := balances;
    assert seen + TouchedBy(payer, shares[..0]) == seen;
    for j := 0 to |shares|
      invariant updated.Valid()
      invariant updated.keys == Dedup(seen + TouchedBy(payer, shares[..j]))
      invariant forall x :: updated.GetOrElse(x, 0) == balances.GetOrElse(x, 0) + Effect(payer, shares[..j], x)
      invariant SumOver(updated.keys, updated.values) == SumOver(balances.keys, balances.values)
    {
      var participant := shares[j];
      ShareStep(payer, shares, j);
      if participant.personId == payer {
        assert seen + TouchedBy(payer, shares[..j + 1]) == seen + TouchedBy(payer, shares[..j]);
        continue;
      }
      ghost var before := seen + TouchedBy(payer, shares[..j]);
      AppendAssoc(seen, TouchedBy(payer, shares[..j]), [participant.personId, payer]);
      ghost var previous := updated;
      TransferKeys(updated, participant.personId, payer, participant.amountCents, before);
      TransferLookups(updated, participant.personId, payer, participant.amountCents);
      TransferKeepsSum(updated, participant.personId, payer, participant.amountCents);
      updated := Transfer(updated, participant.personId, payer, participant.amountCents);
      EffectStep(balances, previous, updated, payer, shares, j);
    }
    assert shares[..|shares|] == shares;
  }

  /** `Array.from(balances.entries())`: the entries in key order. */
  method Entries(balances: OrderedMap<PersonId, int>) returns (r: seq<PersonBalance>)
    requires balances.Valid()
    ensures |r| == |balances.keys|
    ensures forall i :: 0 <= i < |r| ==> r[i].personId == balances.keys[i]
    ensures forall i :: 0 <= i < |r| ==> r[i].amountCents == balances.GetOrElse(r[i].personId, 0)
    ensures TotalBalance(r) == SumOver(balances.keys, balances.values)
  {
    r := [];
    for k := 0 to |balances.keys|
      invariant |r| == k
      invariant forall i :: 0 <= i < k ==>
        (r[i] == PersonBalance(balances.keys[i], balances.values[balances.keys[i]]))
    {
      r := r + [PersonBalance(balances.keys[k], balances.values[balances.keys[k]])];
    }
    EntriesTotal(balances.keys, balances.values, r);
  }

  /** Folding one more expense: the ids it touches, and how it moves each balance. */
  lemma ExpenseStep(expenses: seq<ExpenseWithParticipants>, i: nat)
    requires i < |expenses|
    ensures Touched(expenses[..i + 1]) == Touched(expenses[..i]) + TouchedBy(expenses[i].paidBy, expenses[i].participants)
    ensures forall x :: Balance(expenses[..i + 1], x) == Balance(expenses[..i], x) + Effect(expenses[i].paidBy, expenses[i].participants, x)
  {
    assert expenses[..i + 1][..i] == expenses[..i];
  }

  /** calculateNetBalances. One entry per person, in `Map` insertion order:
      every known id once, then the ids first met in the expenses; each entry
      holds what the person is owed less what the person owes; and the
      balances always sum to zero. */
  method CalculateNetBalances(expenses: seq<ExpenseWithParticipants>, personIds: seq<PersonId>)
    returns (r: seq<PersonBalance>)
    ensures |r| == |BalanceOrder(expenses, personIds)|
    ensures forall i :: 0 <= i < |r| ==> r[i].personId == BalanceOrder(expenses, personIds)[i]
    ensures forall i :: 0 <= i < |r| ==> r[i].amountCents == Credited(expenses, r[i].personId) - Debited(expenses, r[i].personId)
    ensures TotalBalance(r) == 0
  {
    var balances := SeedBalances(personIds);
    assert personIds + Touched(expenses[..0]) == personIds;

    for i := 0 to |expenses|
      invariant balances.Valid()
      invariant balances.keys == Dedup(personIds + Touched(expenses[..i]))
      invariant forall x :: balances.GetOrElse(x, 0) == Balance(expenses[..i], x)
      invariant SumOver(balances.keys, balances.values) == 0
    {
      ExpenseStep(expenses, i);
      AppendAssoc(personIds, Touched(expenses[..i]), TouchedBy(expenses[i].paidBy, expenses[i].participants));
      balances := ApplyExpense(balances, expenses[i], personIds + Touched(expenses[..i]));
    }
    assert expenses[..|expenses|] == expenses;

    r := Entries(balances);
    forall i | 0 <= i < |r|
      ensures r[i].amountCents == Credited(expenses, r[i].personId) - Debited(expenses, r[i].personId)
    {
      BalanceIsCreditedLessDebited(expenses, r[i].personId);
    }
  }

  // ------------------------------------------------------------ properties

  /** A share of an expense paid by `payer` mentions `x` when it belongs to
      somebody other than the payer and `x` is that somebody or the payer. */
  ghost predicate SharedWith(payer: PersonId, shares: seq<ParticipantShare>, x: PersonId)
  {
    exists j :: 0 <= j < |shares| && shares[j].personId != payer && (x == shares[j].personId || x == payer)
  }

  /** Some expense mentions `x`. */
  ghost predicate Mentioned(expenses: seq<ExpenseWithParticipants>, x: PersonId)
  {
    exists i :: 0 <= i < |expenses| && SharedWith(expenses[i].paidBy, expenses[i].participants, x)
  }

  /** The last share adds its own id and the payer's, unless it is the payer's. */
  lemma SharedWithSnoc(payer: PersonId, shares: seq<ParticipantShare>, x: PersonId)
    requires shares != []
    ensures var init, last := shares[..|shares| - 1], shares[|shares| - 1];
      SharedWith(payer, shares, x)
      <==> SharedWith(payer, init, x) || (last.personId != payer && (x == last.personId || x == payer))
  {
    var init, last := shares[..|shares| - 1], shares[|shares| - 1];
    if SharedWith(payer, init, x) {
      var j :| 0 <= j < |init| && init[j].personId != payer && (x == init[j].personId || x == payer);
      assert shares[j] == init[j];
    }
    if SharedWith(payer, shares, x) {
      var j :| 0 <= j < |shares| && shares[j].personId != payer && (x == shares[j].personId || x == payer);
      if j < |init| {
        assert init[j] == shares[j];
      }
    }
  }

  lemma {:induction false} TouchedByIsSharedWith(payer: PersonId, shares: seq<ParticipantShare>, x: PersonId)
    ensures x in TouchedBy(payer, shares) <==> SharedWith(payer, shares, x)
  {
    if shares != [] {
      TouchedByIsSharedWith(payer, shares[..|shares| - 1], x);
      SharedWithSnoc(payer, shares, x);
    }
  }

  /** The ids the fold sets are exactly the ids some expense mentions: every
      participant who is not the payer of their expense, and the payer of
      every expense with such a participant. */
  lemma {:induction false} TouchedIsMentioned(expenses: seq<ExpenseWithParticipants>, x: PersonId)
    ensures x in Touched(expenses) <==> Mentioned(expenses, x)
  {
    if expenses != [] {
      var init, last := expenses[..|expenses| - 1], expenses[|expenses| - 1];
      TouchedIsMentioned(init, x);
      TouchedByIsSharedWith(last.paidBy, last.participants, x);
      if Mentioned(init, x) {
        var i :| 0 <= i < |init| && SharedWith(init[i].paidBy, init[i].participants, x);
        assert expenses[i] == init[i];
      }
      if Mentioned(expenses, x) {
        var i :| 0 <= i < |expenses| && SharedWith(expenses[i].paidBy, expenses[i].participants, x);
        if i < |init| {
          assert init[i] == expenses[i];
        }
      }
      if SharedWith(last.paidBy, last.participants, x) {
        assert expenses[|expenses| - 1] == last;
      }
    }
  }

  /** The order of the result: the known ids come first, each once, in their
      first-occurrence order; after them come exactly the ids the expenses
      mention that are not known, by first mention; and no id repeats. */
  lemma BalanceOrderShape(expenses: seq<ExpenseWithParticipants>, personIds: seq<PersonId>)
    ensures Dedup(personIds) <= BalanceOrder(expenses, personIds)
    ensures Distinct(BalanceOrder(expenses, personIds))
    ensures forall x :: x in BalanceOrder(expenses, personIds)[|Dedup(personIds)|..] ==> Mentioned(expenses, x) && x !in personIds
    ensures forall x :: Mentioned(expenses, x) && x !in personIds ==> x in BalanceOrder(expenses, personIds)[|Dedup(personIds)|..]
  {
    DedupPrefix(personIds, Touched(expenses));
    DedupIsDistinct(personIds + Touched(expenses));
    forall x
      ensures x in Touched(expenses) <==> Mentioned(expenses, x)
    {
      TouchedIsMentioned(expenses, x);
    }
  }

  lemma {:induction false} UnsharedEffectIsZero(payer: PersonId, shares: seq<ParticipantShare>, x: PersonId)
    requires x !in TouchedBy(payer, shares)
    ensures Effect(payer, shares, x) == 0
  {
    if shares != [] {
      UnsharedEffectIsZero(payer, shares[..|shares| - 1], x);
    }
  }

  /** Somebody no expense mentions ends with a zero balance. */
  lemma {:induction false} UnmentionedBalanceIsZero(expenses: seq<ExpenseWithParticipants>, x: PersonId)
    requires !Mentioned(expenses, x)
    ensures Credited(expenses, x) == Debited(expenses, x)
  {
    TouchedIsMentioned(expenses, x);
    UntouchedBalanceIsZero(expenses, x);
    BalanceIsCreditedLessDebited(expenses, x);
  }

  lemma {:induction false} UntouchedBalanceIsZero(expenses: seq<ExpenseWithParticipants>, x: PersonId)
    requires x !in Touched(expenses)
    ensures Balance(expenses, x) == 0
  {
    if expenses != [] {
      var last := expenses[|expenses| - 1];
      UntouchedBalanceIsZero(expenses[..|expenses| - 1], x);
      UnsharedEffectIsZero(last.paidBy, last.participants, x);
    }
  }
}
