/** simplifyDebts (lib/expenseLogic.ts): a greedy two-cursor matcher that
    pairs the largest remaining debt with the largest remaining credit. */
module DebtSimplification {
  import opened Ledger

  // ------------------------------------------------------------ sorting

  /** `s` is in descending order of amount. */
  predicate Descending(s: seq<PersonBalance>)
  {
    forall a, b :: 0 <= a < b < |s| ==> s[a].amountCents >= s[b].amountCents
  }

  /** The entries of `s` whose amount is `v`, in order. */
  function WithAmount(s: seq<PersonBalance>, v: int): seq<PersonBalance>
  {
    if s == [] then []
    else (if s[0].amountCents == v then [s[0]] else []) + WithAmount(s[1..], v)
  }

  /** Place `x` ahead of the first entry whose amount is not larger. */
  function Insert(x: PersonBalance, s: seq<PersonBalance>): (r: seq<PersonBalance>)
    ensures multiset(r) == multiset(s) + multiset{x}
    ensures TotalBalance(r) == x.amountCents + TotalBalance(s)
  {
    if s == [] then [x]
    else if s[0].amountCents <= x.amountCents then
      assert ([x] + s)[1..] == s;
      [x] + s
    else
      assert s == [s[0]] + s[1..];
      [s[0]] + Insert(x, s[1..])
  }

  /** Everything in `Insert(x, s)` is `x` or comes from `s`. */
  lemma InsertMember(x: PersonBalance, s: seq<PersonBalance>, y: PersonBalance)
    requires y in Insert(x, s)
    ensures y == x || y in s
  {
    assert y in multiset(Insert(x, s));
  }

  /** An entry no smaller than every entry of a descending list can go in front of it. */
  lemma ConsDescending(h: PersonBalance, t: seq<PersonBalance>)
    requires Descending(t) && forall y :: y in t ==> y.amountCents <= h.amountCents
    ensures Descending([h] + t)
  {
    var r := [h] + t;
    forall a, b | 0 <= a < b < |r|
      ensures r[a].amountCents >= r[b].amountCents
    {
      assert r[b] == t[b - 1];
      if a > 0 {
        assert r[a] == t[a - 1];
      }
    }
  }

  lemma {:induction false} InsertDescending(x: PersonBalance, s: seq<PersonBalance>)
    requires Descending(s)
    ensures Descending(Insert(x, s))
  {
    if s == [] {
    } else if s[0].amountCents <= x.amountCents {
      forall y | y in s
        ensures y.amountCents <= x.amountCents
      {
        var k :| 0 <= k < |s| && s[k] == y;
      }
      ConsDescending(x, s);
    } else {
      var t := Insert(x, s[1..]);
      InsertDescending(x, s[1..]);
      forall y | y in t
        ensures y.amountCents <= s[0].amountCents
      {
        InsertMember(x, s[1..], y);
        if y != x {
          var k :| 0 <= k < |s[1..]| && s[1..][k] == y;
          assert s[k + 1] == y;
        }
      }
      ConsDescending(s[0], t);
    }
  }

  lemma {:induction false} WithAmountPrepend(a: PersonBalance, s: seq<PersonBalance>, v: int)
    ensures WithAmount([a] + s, v) == (if a.amountCents == v then [a] else []) + WithAmount(s, v)
  {
    assert ([a] + s)[1..] == s;
  }

  /** Inserting puts `x` ahead of every entry of equal amount and leaves the
      order of every other amount class alone. */
  lemma {:induction false} InsertStable(x: PersonBalance, s: seq<PersonBalance>, v: int)
    ensures WithAmount(Insert(x, s), v) == (if x.amountCents == v then [x] else []) + WithAmount(s, v)
  {
    if s == [] {
      WithAmountPrepend(x, [], v);
    } else if s[0].amountCents <= x.amountCents {
      WithAmountPrepend(x, s, v);
    } else {
      InsertStable(x, s[1..], v);
      assert s == [s[0]] + s[1..];
      StableCons(s[0], x, Insert(x, s[1..]), s[1..], v);
    }
  }

  /** An entry larger than `x` kept in front of both sides keeps them
      equal on every amount class. */
  lemma StableCons(h: PersonBalance, x: PersonBalance, t: seq<PersonBalance>, u: seq<PersonBalance>, v: int)
    requires h.amountCents > x.amountCents
    requires WithAmount(t, v) == (if x.amountCents == v then [x] else []) + WithAmount(u, v)
    ensures WithAmount([h] + t, v) == (if x.amountCents == v then [x] else []) + WithAmount([h] + u, v)
  {
    WithAmountPrepend(h, t, v);
    WithAmountPrepend(h, u, v);
  }

  /** `Array.prototype.sort` with the comparator `b.amountCents - a.amountCents`:
      descending by amount, and stable, so that entries with equal amounts keep
      their input order. */
  function SortDescending(s: seq<PersonBalance>): (r: seq<PersonBalance>)
    ensures multiset(r) == multiset(s)
    ensures TotalBalance(r) == TotalBalance(s)
  {
    if s == [] then []
    else
      assert s == [s[0]] + s[1..];
      Insert(s[0], SortDescending(s[1..]))
  }

  /** The sorted list is descending, and entries of equal amount keep their
      input order. */
  lemma {:induction false} SortDescendingOrder(s: seq<PersonBalance>)
    ensures Descending(SortDescending(s))
    ensures forall v :: WithAmount(SortDescending(s), v) == WithAmount(s, v)
  {
    if s != [] {
      var rest := SortDescending(s[1..]);
      SortDescendingOrder(s[1..]);
      InsertDescending(s[0], rest);
      assert s == [s[0]] + s[1..];
      forall v
        ensures WithAmount(Insert(s[0], rest), v) == WithAmount(s, v)
      {
        InsertStable(s[0], rest, v);
        WithAmountPrepend(s[0], s[1..], v);
      }
    }
  }

  // ------------------------------------------------------------ the two lists

  /** `balances.filter(b => b.amountCents > 0)`: the creditors, in input order. */
  function Positives(bs: seq<PersonBalance>): seq<PersonBalance>
  {
    if bs == [] then []
    else (if bs[0].amountCents > 0 then [bs[0]] else []) + Positives(bs[1..])
  }

  /** The creditor list holds exactly the positive balances. */
  lemma {:induction false} PositivesMembers(bs: seq<PersonBalance>)
    ensures forall y :: y in Positives(bs) ==> y in bs && y.amountCents > 0
    ensures forall b :: b in bs && b.amountCents > 0 ==> b in Positives(bs)
  {
    if bs != [] {
      PositivesMembers(bs[1..]);
      assert bs == [bs[0]] + bs[1..];
    }
  }

  /** `balances.filter(b => b.amountCents < 0)` with every amount made positive
      by `Math.abs`: the debtors, in input order. */
  function NegativesAbs(bs: seq<PersonBalance>): seq<PersonBalance>
  {
    if bs == [] then []
    else
      var head := if bs[0].amountCents < 0 then [PersonBalance(bs[0].personId, -bs[0].amountCents)] else [];
      head + NegativesAbs(bs[1..])
  }

  /** Every entry of the debtor list is a negative balance, negated. */
  lemma {:induction false} NegativesAbsSound(bs: seq<PersonBalance>)
    ensures forall y :: y in NegativesAbs(bs) ==> y.amountCents > 0 && PersonBalance(y.personId, -y.amountCents) in bs
  {
    if bs != [] {
      NegativesAbsSound(bs[1..]);
    }
  }

  /** Every negative balance is on the debtor list, negated. */
  lemma {:induction false} NegativesAbsComplete(bs: seq<PersonBalance>)
    ensures forall b :: b in bs && b.amountCents < 0 ==> PersonBalance(b.personId, -b.amountCents) in NegativesAbs(bs)
  {
    if bs != [] {
      NegativesAbsComplete(bs[1..]);
      assert bs == [bs[0]] + bs[1..];
    }
  }

  /** The creditors, largest credit first. */
  function Creditors(bs: seq<PersonBalance>): seq<PersonBalance>
  {
    SortDescending(Positives(bs))
  }

  /** The debtors with the size of their debt, largest debt first. */
  function Debtors(bs: seq<PersonBalance>): seq<PersonBalance>
  {
    SortDescending(NegativesAbs(bs))
  }

  // ------------------------------------------------------------ the plan

  /** One transfer of the greedy loop, by cursor positions: debtor `debtor`
      pays creditor `creditor` the amount. */
  datatype Step = Step(debtor: nat, creditor: nat, amountCents: int)

  /** The amount at position `i`, 0 past the end. */
  function AmountAt(s: seq<PersonBalance>, i: nat): int
  {
    if i < |s| then s[i].amountCents else 0
  }

  /** `Math.min`. */
  function Min(a: int, b: int): (r: int)
    ensures r <= a && r <= b && (r == a || r == b)
  {
    if a <= b then a else b
  }

  /** Every step of `steps` names a debtor position of `D` and a creditor
      position of `C`. */
  predicate InRange(D: seq<PersonBalance>, C: seq<PersonBalance>, steps: seq<Step>)
  {
    steps == [] ||
    (steps[0].debtor < |D| && steps[0].creditor < |C| && InRange(D, C, steps[1..]))
  }

  /** The state of the loop: the debtor cursor at `i` still owes `debt`, the
      creditor cursor at `j` is still owed `credit`. */
  datatype Cursors = Cursors(i: nat, j: nat, debt: int, credit: int)

  /** One turn of the loop: the smaller amount changes hands, and a cursor
      whose amount reaches zero moves on to the next entry. */
  function Next(D: seq<PersonBalance>, C: seq<PersonBalance>, c: Cursors): (r: Cursors)
    requires c.i < |D| && c.j < |C|
    ensures r.i <= |D| && r.j <= |C|
    ensures c.i <= r.i <= c.i + 1 && c.j <= r.j <= c.j + 1 && c.i + c.j < r.i + r.j
  {
    var amount := Min(c.debt, c.credit);
    var i' := if c.debt - amount == 0 then c.i + 1 else c.i;
    var j' := if c.credit - amount == 0 then c.j + 1 else c.j;
    Cursors(i', j',
            if c.debt - amount == 0 then AmountAt(D, i') else c.debt - amount,
            if c.credit - amount == 0 then AmountAt(C, j') else c.credit - amount)
  }

  /** The transfers the loop still emits from state `c`. */
  function PlanFrom(D: seq<PersonBalance>, C: seq<PersonBalance>, c: Cursors): (r: seq<Step>)
    requires c.i <= |D| && c.j <= |C|
    ensures InRange(D, C, r)
    decreases |D| - c.i + |C| - c.j
  {
    if c.i == |D| || c.j == |C| then []
    else
      var rest := PlanFrom(D, C, Next(D, C, c));
      assert ([Step(c.i, c.j, Min(c.debt, c.credit))] + rest)[1..] == rest;
      [Step(c.i, c.j, Min(c.debt, c.credit))] + rest
  }

  /** The state the loop starts in. */
  function Start(D: seq<PersonBalance>, C: seq<PersonBalance>): Cursors
  {
    Cursors(0, 0, AmountAt(D, 0), AmountAt(C, 0))
  }

  /** The whole loop, from both cursors at 0. */
  function Plan(D: seq<PersonBalance>, C: seq<PersonBalance>): seq<Step>
  {
    PlanFrom(D, C, Start(D, C))
  }

  /** The transactions a list of steps stands for. */
  function Render(D: seq<PersonBalance>, C: seq<PersonBalance>, steps: seq<Step>): (r: seq<Transaction>)
    requires InRange(D, C, steps)
    ensures |r| == |steps|
  {
    if steps == [] then []
    else
      [Transaction(D[steps[0].debtor].personId, C[steps[0].creditor].personId, steps[0].amountCents)]
        + Render(D, C, steps[1..])
  }

  /** Transaction `k` is step `k` with the cursor positions replaced by the
      people at them. */
  lemma {:induction false} RenderAt(D: seq<PersonBalance>, C: seq<PersonBalance>, steps: seq<Step>, k: nat)
    requires InRange(D, C, steps) && k < |steps|
    ensures steps[k].debtor < |D| && steps[k].creditor < |C|
    ensures Render(D, C, steps)[k]
         == Transaction(D[steps[k].debtor].personId, C[steps[k].creditor].personId, steps[k].amountCents)
  {
    if k > 0 {
      RenderAt(D, C, steps[1..], k - 1);
    }
  }

  /** What simplifyDebts returns for `bs`. */
  function Settle(bs: seq<PersonBalance>): seq<Transaction>
  {
    Render(Debtors(bs), Creditors(bs), Plan(Debtors(bs), Creditors(bs)))
  }

  // ------------------------------------------------------------ properties of the plan

  /** Every amount of `s` is positive, as in both lists of simplifyDebts. */
  predicate AllPositive(s: seq<PersonBalance>)
  {
    forall k :: 0 <= k < |s| ==> s[k].amountCents > 0
  }

  /** A state the loop can be in: a cursor that has not run off its list
      points at a positive amount. */
  predicate Live(D: seq<PersonBalance>, C: seq<PersonBalance>, c: Cursors)
  {
    && c.i <= |D| && c.j <= |C|
    && (c.i < |D| ==> c.debt > 0)
    && (c.j < |C| ==> c.credit > 0)
  }

  /** The loop goes from live state to live state, moving a positive amount. */
  lemma NextLive(D: seq<PersonBalance>, C: seq<PersonBalance>, c: Cursors)
    requires AllPositive(D) && AllPositive(C) && Live(D, C, c)
    requires c.i < |D| && c.j < |C|
    ensures Min(c.debt, c.credit) > 0
    ensures Live(D, C, Next(D, C, c))
  {
  }

  /** Both lists of a real call are positive and the loop starts live. */
  lemma StartLive(D: seq<PersonBalance>, C: seq<PersonBalance>)
    requires AllPositive(D) && AllPositive(C)
    ensures Live(D, C, Start(D, C))
  {
  }

  /** Every transfer of the plan moves a positive amount. */
  lemma {:induction false} PlanAmountsPositive(D: seq<PersonBalance>, C: seq<PersonBalance>, c: Cursors)
    requires AllPositive(D) && AllPositive(C) && Live(D, C, c)
    ensures forall k :: 0 <= k < |PlanFrom(D, C, c)| ==> PlanFrom(D, C, c)[k].amountCents > 0
    decreases |D| - c.i + |C| - c.j
  {
    if c.i < |D| && c.j < |C| {
      NextLive(D, C, c);
      PlanAmountsPositive(D, C, Next(D, C, c));
    }
  }

  /** Every turn moves at least one cursor, and the last turn moves both or
      stops at the end of one list: there are fewer transfers than entries
      left in the two lists. */
  lemma {:induction false} PlanCount(D: seq<PersonBalance>, C: seq<PersonBalance>, c: Cursors)
    requires c.i < |D| && c.j < |C|
    ensures |PlanFrom(D, C, c)| <= (|D| - c.i) + (|C| - c.j) - 1
    decreases |D| - c.i + |C| - c.j
  {
    var n := Next(D, C, c);
    if n.i < |D| && n.j < |C| {
      PlanCount(D, C, n);
    }
  }

  /** Cursor positions never go back. */
  predicate Monotone(steps: seq<Step>)
  {
    |steps| <= 1 ||
    (steps[0].debtor <= steps[1].debtor && steps[0].creditor <= steps[1].creditor && Monotone(steps[1..]))
  }

  /** The plan from `c` uses positions at or after the cursors of `c`, in
      non-decreasing order. */
  lemma {:induction false} PlanMonotone(D: seq<PersonBalance>, C: seq<PersonBalance>, c: Cursors)
    requires c.i <= |D| && c.j <= |C|
    ensures Monotone(PlanFrom(D, C, c))
    ensures forall k :: 0 <= k < |PlanFrom(D, C, c)| ==>
              PlanFrom(D, C, c)[k].debtor >= c.i && PlanFrom(D, C, c)[k].creditor >= c.j
    decreases |D| - c.i + |C| - c.j
  {
    if c.i < |D| && c.j < |C| {
      var n := Next(D, C, c);
      PlanMonotone(D, C, n);
      var r := PlanFrom(D, C, c);
      assert r[1..] == PlanFrom(D, C, n);
    }
  }

  /** What debtor position `k` pays over `steps`. */
  function PaidBy(steps: seq<Step>, k: nat): int
  {
    if steps == [] then 0
    else (if steps[0].debtor == k then steps[0].amountCents else 0) + PaidBy(steps[1..], k)
  }

  /** What creditor position `k` receives over `steps`. */
  function ReceivedBy(steps: seq<Step>, k: nat): int
  {
    if steps == [] then 0
    else (if steps[0].creditor == k then steps[0].amountCents else 0) + ReceivedBy(steps[1..], k)
  }

  /** What position `k` of `s` still has to settle when the cursor is at `i`
      with `now` left on its entry. */
  function Outstanding(s: seq<PersonBalance>, i: nat, now: int, k: nat): int
  {
    if k < i || k >= |s| then 0 else if k == i then now else s[k].amountCents
  }

  /** The total still to settle from the cursor at `i` with `now` left on its
      entry. */
  function Remaining(s: seq<PersonBalance>, i: nat, now: int): int
  {
    if i < |s| then now + TotalBalance(s[i + 1..]) else 0
  }

  lemma {:induction false} SumPositive(s: seq<PersonBalance>)
    requires AllPositive(s)
    ensures TotalBalance(s) >= 0
    ensures s != [] ==> TotalBalance(s) > 0
  {
    if s != [] {
      SumPositive(s[1..]);
    }
  }

  /** One turn takes `amount` off the entry under the cursor and off the total
      still to settle, and leaves every other position as it was. */
  lemma CursorStep(s: seq<PersonBalance>, i: nat, now: int, amount: int, k: nat)
    requires i < |s| && amount <= now
    ensures var i' := if now - amount == 0 then i + 1 else i;
      var now' := if now - amount == 0 then AmountAt(s, i') else now - amount;
      && Outstanding(s, i, now, k) == (if k == i then amount else 0) + Outstanding(s, i', now', k)
      && Remaining(s, i', now') == Remaining(s, i, now) - amount
  {
    if now - amount == 0 && i + 1 < |s| {
      assert s[i + 1..] == [s[i + 1]] + s[i + 2..];
    }
  }

  /** One turn of the loop, seen from both lists: the smaller amount comes
      off the position under each cursor and off what each side still has to
      settle. */
  lemma NextSettles(D: seq<PersonBalance>, C: seq<PersonBalance>, c: Cursors, k: nat)
    requires c.i < |D| && c.j < |C|
    ensures var n, a := Next(D, C, c), Min(c.debt, c.credit);
      && Outstanding(D, c.i, c.debt, k) == (if k == c.i then a else 0) + Outstanding(D, n.i, n.debt, k)
      && Outstanding(C, c.j, c.credit, k) == (if k == c.j then a else 0) + Outstanding(C, n.j, n.credit, k)
      && Remaining(D, n.i, n.debt) == Remaining(D, c.i, c.debt) - a
      && Remaining(C, n.j, n.credit) == Remaining(C, c.j, c.credit) - a
  {
    CursorStep(D, c.i, c.debt, Min(c.debt, c.credit), k);
    CursorStep(C, c.j, c.credit, Min(c.debt, c.credit), k);
  }

  /** The first step of a running loop pays the smaller amount from the
      debtor under the cursor to the creditor under the cursor. */
  lemma PlanFromStep(D: seq<PersonBalance>, C: seq<PersonBalance>, c: Cursors, k: nat)
    requires c.i < |D| && c.j < |C|
    ensures PaidBy(PlanFrom(D, C, c), k)
            == (if k == c.i then Min(c.debt, c.credit) else 0) + PaidBy(PlanFrom(D, C, Next(D, C, c)), k)
    ensures ReceivedBy(PlanFrom(D, C, c), k)
            == (if k == c.j then Min(c.debt, c.credit) else 0) + ReceivedBy(PlanFrom(D, C, Next(D, C, c)), k)
  {
    var r := PlanFrom(D, C, c);
    assert r[0] == Step(c.i, c.j, Min(c.debt, c.credit)) && r[1..] == PlanFrom(D, C, Next(D, C, c));
  }

  /** No debtor position pays more than it still owes, and when debts and
      credits balance every debtor position pays exactly that. */
  lemma {:induction false} PlanPays(D: seq<PersonBalance>, C: seq<PersonBalance>, c: Cursors, k: nat)
    requires AllPositive(D) && AllPositive(C) && Live(D, C, c)
    ensures PaidBy(PlanFrom(D, C, c), k) <= Outstanding(D, c.i, c.debt, k)
    ensures Remaining(D, c.i, c.debt) == Remaining(C, c.j, c.credit) ==>
              PaidBy(PlanFrom(D, C, c), k) == Outstanding(D, c.i, c.debt, k)
    decreases |D| - c.i + |C| - c.j
  {
    if c.i < |D| && c.j < |C| {
      var n := Next(D, C, c);
      NextLive(D, C, c);
      PlanPays(D, C, n, k);
      NextSettles(D, C, c, k);
      PlanFromStep(D, C, c, k);
    } else if c.j < |C| {
      SumPositive(C[c.j + 1..]);
    } else if c.i < |D| {
      SumPositive(D[c.i + 1..]);
    }
  }

  /** No creditor position receives more than it is still owed, and when
      debts and credits balance every creditor position receives exactly that. */
  lemma {:induction false} PlanReceives(D: seq<PersonBalance>, C: seq<PersonBalance>, c: Cursors, k: nat)
    requires AllPositive(D) && AllPositive(C) && Live(D, C, c)
    ensures ReceivedBy(PlanFrom(D, C, c), k) <= Outstanding(C, c.j, c.credit, k)
    ensures Remaining(D, c.i, c.debt) == Remaining(C, c.j, c.credit) ==>
              ReceivedBy(PlanFrom(D, C, c), k) == Outstanding(C, c.j, c.credit, k)
    decreases |D| - c.i + |C| - c.j
  {
    if c.i < |D| && c.j < |C| {
      var n := Next(D, C, c);
      NextLive(D, C, c);
      PlanReceives(D, C, n, k);
      NextSettles(D, C, c, k);
      PlanFromStep(D, C, c, k);
    } else if c.j < |C| {
      SumPositive(C[c.j + 1..]);
    } else if c.i < |D| {
      SumPositive(D[c.i + 1..]);
    }
  }

  // ------------------------------------------------------------ from positions to people

  /** No two entries of `s` are for the same person, as in the output of
      calculateNetBalances. */
  predicate DistinctIds(s: seq<PersonBalance>)
  {
    forall a, b :: 0 <= a < b < |s| ==> s[a].personId != s[b].personId
  }

  /** What person `p` pays over `txs`. */
  function PaidByPerson(txs: seq<Transaction>, p: PersonId): int
  {
    if txs == [] then 0
    else (if txs[0].from == p then txs[0].amountCents else 0) + PaidByPerson(txs[1..], p)
  }

  /** What person `p` receives over `txs`. */
  function ReceivedByPerson(txs: seq<Transaction>, p: PersonId): int
  {
    if txs == [] then 0
    else (if txs[0].to == p then txs[0].amountCents else 0) + ReceivedByPerson(txs[1..], p)
  }

  /** With one entry per person, a person pays what their debtor position
      pays and receives what their creditor position receives. */
  lemma {:induction false} RenderByPerson(D: seq<PersonBalance>, C: seq<PersonBalance>, steps: seq<Step>, p: PersonId)
    requires InRange(D, C, steps) && DistinctIds(D) && DistinctIds(C)
    ensures forall k :: 0 <= k < |D| && D[k].personId == p ==> PaidByPerson(Render(D, C, steps), p) == PaidBy(steps, k)
    ensures (forall k :: 0 <= k < |D| ==> D[k].personId != p) ==> PaidByPerson(Render(D, C, steps), p) == 0
    ensures forall k :: 0 <= k < |C| && C[k].personId == p ==> ReceivedByPerson(Render(D, C, steps), p) == ReceivedBy(steps, k)
    ensures (forall k :: 0 <= k < |C| ==> C[k].personId != p) ==> ReceivedByPerson(Render(D, C, steps), p) == 0
  {
    if steps != [] {
      RenderByPerson(D, C, steps[1..], p);
      var r := Render(D, C, steps);
      assert r[1..] == Render(D, C, steps[1..]);
    }
  }

  /** An entry for a person not in a list of distinct persons can go in front of it. */
  lemma ConsDistinctIds(h: PersonBalance, t: seq<PersonBalance>)
    requires DistinctIds(t) && forall y :: y in t ==> y.personId != h.personId
    ensures DistinctIds([h] + t)
  {
    var r := [h] + t;
    forall a, b | 0 <= a < b < |r|
      ensures r[a].personId != r[b].personId
    {
      assert r[b] == t[b - 1];
      if a > 0 {
        assert r[a] == t[a - 1];
      }
    }
  }

  lemma {:induction false} InsertDistinctIds(x: PersonBalance, s: seq<PersonBalance>)
    requires DistinctIds(s) && forall y :: y in s ==> y.personId != x.personId
    ensures DistinctIds(Insert(x, s))
  {
    if s == [] {
      ConsDistinctIds(x, []);
    } else if s[0].amountCents <= x.amountCents {
      ConsDistinctIds(x, s);
    } else {
      assert forall y :: y in s[1..] ==> y in s;
      var t := Insert(x, s[1..]);
      InsertDistinctIds(x, s[1..]);
      forall y | y in t
        ensures y.personId != s[0].personId
      {
        InsertMember(x, s[1..], y);
        if y != x {
          var k :| 0 <= k < |s[1..]| && s[1..][k] == y;
          assert s[k + 1] == y;
        } else {
          assert s[0] in s;
        }
      }
      ConsDistinctIds(s[0], t);
    }
  }

  /** Sorting keeps one entry per person. */
  lemma {:induction false} SortDistinctIds(s: seq<PersonBalance>)
    requires DistinctIds(s)
    ensures DistinctIds(SortDescending(s))
  {
    if s != [] {
      var rest := SortDescending(s[1..]);
      SortDistinctIds(s[1..]);
      forall y | y in rest
        ensures y.personId != s[0].personId
      {
        assert y in multiset(rest);
        var k :| 0 <= k < |s[1..]| && s[1..][k] == y;
        assert s[k + 1] == y;
      }
      InsertDistinctIds(s[0], rest);
    }
  }

  lemma {:induction false} PositivesDistinctIds(bs: seq<PersonBalance>)
    requires DistinctIds(bs)
    ensures DistinctIds(Positives(bs))
  {
    if bs != [] {
      PositivesDistinctIds(bs[1..]);
      var r := Positives(bs[1..]);
      PositivesMembers(bs[1..]);
      forall y | y in r
        ensures y.personId != bs[0].personId
      {
        var k :| 0 <= k < |bs[1..]| && bs[1..][k] == y;
        assert bs[k + 1] == y;
      }
    }
  }

  lemma {:induction false} NegativesAbsDistinctIds(bs: seq<PersonBalance>)
    requires DistinctIds(bs)
    ensures DistinctIds(NegativesAbs(bs))
  {
    if bs != [] {
      NegativesAbsDistinctIds(bs[1..]);
      var r := NegativesAbs(bs[1..]);
      NegativesAbsSound(bs[1..]);
      forall y | y in r
        ensures y.personId != bs[0].personId
      {
        var z := PersonBalance(y.personId, -y.amountCents);
        var k :| 0 <= k < |bs[1..]| && bs[1..][k] == z;
        assert bs[k + 1] == z;
      }
    }
  }

  lemma SumCons(x: PersonBalance, s: seq<PersonBalance>)
    ensures TotalBalance([x] + s) == x.amountCents + TotalBalance(s)
  {
    assert ([x] + s)[1..] == s;
  }

  /** The balances total the credits less the debts. */
  lemma {:induction false} SumSplits(bs: seq<PersonBalance>)
    ensures TotalBalance(bs) == TotalBalance(Positives(bs)) - TotalBalance(NegativesAbs(bs))
  {
    if bs != [] {
      var x, rest := bs[0], bs[1..];
      SumSplits(rest);
      SumCons(x, rest);
      assert bs == [x] + rest;
      if x.amountCents > 0 {
        assert Positives(bs) == [x] + Positives(rest);
        SumCons(x, Positives(rest));
        assert NegativesAbs(bs) == NegativesAbs(rest);
      } else if x.amountCents < 0 {
        var y := PersonBalance(x.personId, -x.amountCents);
        assert NegativesAbs(bs) == [y] + NegativesAbs(rest);
        SumCons(y, NegativesAbs(rest));
        assert Positives(bs) == Positives(rest);
      } else {
        assert Positives(bs) == Positives(rest);
        assert NegativesAbs(bs) == NegativesAbs(rest);
      }
    }
  }

  /** An entry of the debtor list is a person with a negative balance, with
      the size of the debt. */
  lemma DebtorFromBalances(bs: seq<PersonBalance>, d: PersonBalance)
    requires d in Debtors(bs)
    ensures d.amountCents > 0 && PersonBalance(d.personId, -d.amountCents) in bs
  {
    var n := NegativesAbs(bs);
    NegativesAbsSound(bs);
    assert d in multiset(SortDescending(n));
    assert d in multiset(n);
  }

  /** An entry of the creditor list is a person with a positive balance. */
  lemma CreditorFromBalances(bs: seq<PersonBalance>, c: PersonBalance)
    requires c in Creditors(bs)
    ensures c.amountCents > 0 && c in bs
  {
    var n := Positives(bs);
    PositivesMembers(bs);
    assert c in multiset(SortDescending(n));
    assert c in multiset(n);
  }

  lemma ListsPositive(bs: seq<PersonBalance>)
    ensures AllPositive(Debtors(bs)) && AllPositive(Creditors(bs))
  {
    var D, C := Debtors(bs), Creditors(bs);
    forall k | 0 <= k < |D|
      ensures D[k].amountCents > 0
    {
      DebtorFromBalances(bs, D[k]);
    }
    forall k | 0 <= k < |C|
      ensures C[k].amountCents > 0
    {
      CreditorFromBalances(bs, C[k]);
    }
  }

  /** Every transfer of simplifyDebts moves a positive amount. */
  lemma SettlePositive(bs: seq<PersonBalance>)
    ensures forall k :: 0 <= k < |Settle(bs)| ==> Settle(bs)[k].amountCents > 0
  {
    var D, C := Debtors(bs), Creditors(bs);
    ListsPositive(bs);
    StartLive(D, C);
    PlanAmountsPositive(D, C, Start(D, C));
    forall k | 0 <= k < |Settle(bs)|
      ensures Settle(bs)[k].amountCents > 0
    {
      RenderAt(D, C, Plan(D, C), k);
    }
  }

  /** The debtor and creditor entries a rendered transaction names. */
  lemma Endpoints(D: seq<PersonBalance>, C: seq<PersonBalance>, steps: seq<Step>, t: Transaction)
    returns (d: PersonBalance, c: PersonBalance)
    requires InRange(D, C, steps) && t in Render(D, C, steps)
    ensures d in D && c in C && t.from == d.personId && t.to == c.personId
  {
    var k :| 0 <= k < |Render(D, C, steps)| && Render(D, C, steps)[k] == t;
    RenderAt(D, C, steps, k);
    d, c := D[steps[k].debtor], C[steps[k].creditor];
  }

  /** Every transfer of simplifyDebts moves a positive amount from a person
      with a negative balance to a person with a positive balance. */
  lemma SettleSound(bs: seq<PersonBalance>, t: Transaction)
    requires t in Settle(bs)
    ensures t.amountCents > 0
    ensures exists b :: b in bs && b.personId == t.from && b.amountCents < 0
    ensures exists b :: b in bs && b.personId == t.to && b.amountCents > 0
  {
    var d, c := Endpoints(Debtors(bs), Creditors(bs), Plan(Debtors(bs), Creditors(bs)), t);
    DebtorFromBalances(bs, d);
    CreditorFromBalances(bs, c);
    var owing := PersonBalance(d.personId, -d.amountCents);
    assert owing in bs && owing.personId == t.from;
    SettlePositive(bs);
    assert t.amountCents > 0 by {
      var k :| 0 <= k < |Settle(bs)| && Settle(bs)[k] == t;
    }
  }

  /** At most one transfer fewer than there are people with a non-zero
      balance, and none at all when nobody owes or nobody is owed. */
  lemma SettleCount(bs: seq<PersonBalance>)
    ensures |Settle(bs)| <= |NegativesAbs(bs)| + |Positives(bs)| - 1 || Settle(bs) == []
    ensures NegativesAbs(bs) == [] || Positives(bs) == [] ==> Settle(bs) == []
  {
    var D, C := Debtors(bs), Creditors(bs);
    assert |D| == |multiset(D)| == |NegativesAbs(bs)|;
    assert |C| == |multiset(C)| == |Positives(bs)|;
    if D != [] && C != [] {
      PlanCount(D, C, Start(D, C));
    }
  }

  /** All-zero balances need no transfers. */
  lemma ZeroBalancesSettleNothing(bs: seq<PersonBalance>)
    requires forall b :: b in bs ==> b.amountCents == 0
    ensures Settle(bs) == []
  {
    SettleCount(bs);
    PositivesMembers(bs);
  }

  /** Transfers come in non-decreasing order of debtor position and of
      creditor position in the two sorted lists. */
  lemma SettleOrder(bs: seq<PersonBalance>)
    ensures Monotone(Plan(Debtors(bs), Creditors(bs)))
  {
    PlanMonotone(Debtors(bs), Creditors(bs), Start(Debtors(bs), Creditors(bs)));
  }

  /** One entry per person: two entries with the same person are the same. */
  lemma SameIdSameEntry(bs: seq<PersonBalance>, x: PersonBalance, y: PersonBalance)
    requires DistinctIds(bs) && x in bs && y in bs && x.personId == y.personId
    ensures x == y
  {
    var a :| 0 <= a < |bs| && bs[a] == x;
    var b :| 0 <= b < |bs| && bs[b] == y;
    assert a == b;
  }

  /** From the starting cursors, each position still owes its whole amount
      and the total still to settle is the sum of the list. */
  lemma StartOutstanding(s: seq<PersonBalance>)
    ensures forall k :: 0 <= k < |s| ==> Outstanding(s, 0, AmountAt(s, 0), k) == s[k].amountCents
    ensures Remaining(s, 0, AmountAt(s, 0)) == TotalBalance(s)
  {
  }

  /** Both lists keep one entry per person and hold positive amounts. */
  lemma ListsWellFormed(bs: seq<PersonBalance>)
    requires DistinctIds(bs)
    ensures DistinctIds(Debtors(bs)) && DistinctIds(Creditors(bs))
    ensures AllPositive(Debtors(bs)) && AllPositive(Creditors(bs))
    ensures TotalBalance(bs) == 0 ==> TotalBalance(Debtors(bs)) == TotalBalance(Creditors(bs))
  {
    NegativesAbsDistinctIds(bs);
    SortDistinctIds(NegativesAbs(bs));
    PositivesDistinctIds(bs);
    SortDistinctIds(Positives(bs));
    ListsPositive(bs);
    SumSplits(bs);
  }

  /** A person with a negative balance is on the debtor list and not on the
      creditor list. */
  lemma DebtorPosition(bs: seq<PersonBalance>, b: PersonBalance) returns (k: nat)
    requires DistinctIds(bs) && b in bs && b.amountCents < 0
    ensures k < |Debtors(bs)| && Debtors(bs)[k] == PersonBalance(b.personId, -b.amountCents)
    ensures forall m :: 0 <= m < |Creditors(bs)| ==> Creditors(bs)[m].personId != b.personId
  {
    var e := PersonBalance(b.personId, -b.amountCents);
    NegativesAbsComplete(bs);
    assert e in multiset(NegativesAbs(bs));
    assert e in multiset(Debtors(bs));
    k :| 0 <= k < |Debtors(bs)| && Debtors(bs)[k] == e;
    forall m | 0 <= m < |Creditors(bs)|
      ensures Creditors(bs)[m].personId != b.personId
    {
      CreditorFromBalances(bs, Creditors(bs)[m]);
      if Creditors(bs)[m].personId == b.personId {
        SameIdSameEntry(bs, Creditors(bs)[m], b);
      }
    }
  }

  /** A person with a positive balance is on the creditor list and not on the
      debtor list. */
  lemma CreditorPosition(bs: seq<PersonBalance>, b: PersonBalance) returns (k: nat)
    requires DistinctIds(bs) && b in bs && b.amountCents > 0
    ensures k < |Creditors(bs)| && Creditors(bs)[k] == b
    ensures forall m :: 0 <= m < |Debtors(bs)| ==> Debtors(bs)[m].personId != b.personId
  {
    PositivesMembers(bs);
    assert b in multiset(Positives(bs));
    assert b in multiset(Creditors(bs));
    k :| 0 <= k < |Creditors(bs)| && Creditors(bs)[k] == b;
    forall m | 0 <= m < |Debtors(bs)|
      ensures Debtors(bs)[m].personId != b.personId
    {
      var d := Debtors(bs)[m];
      DebtorFromBalances(bs, d);
      if d.personId == b.personId {
        SameIdSameEntry(bs, PersonBalance(d.personId, -d.amountCents), b);
      }
    }
  }

  /** A person with a zero balance is on neither list. */
  lemma ZeroOnNeitherList(bs: seq<PersonBalance>, b: PersonBalance)
    requires DistinctIds(bs) && b in bs && b.amountCents == 0
    ensures forall m :: 0 <= m < |Debtors(bs)| ==> Debtors(bs)[m].personId != b.personId
    ensures forall m :: 0 <= m < |Creditors(bs)| ==> Creditors(bs)[m].personId != b.personId
  {
    forall m | 0 <= m < |Debtors(bs)|
      ensures Debtors(bs)[m].personId != b.personId
    {
      var d := Debtors(bs)[m];
      DebtorFromBalances(bs, d);
      if d.personId == b.personId {
        SameIdSameEntry(bs, PersonBalance(d.personId, -d.amountCents), b);
      }
    }
    forall m | 0 <= m < |Creditors(bs)|
      ensures Creditors(bs)[m].personId != b.personId
    {
      CreditorFromBalances(bs, Creditors(bs)[m]);
      if Creditors(bs)[m].personId == b.personId {
        SameIdSameEntry(bs, Creditors(bs)[m], b);
      }
    }
  }

  /** With one entry per person: nobody pays more than they owe or receives
      more than they are owed, nobody both pays and receives, and when the
      balances sum to zero, netting the transfers against each balance leaves
      zero. */
  lemma SettleNets(bs: seq<PersonBalance>, b: PersonBalance)
    requires DistinctIds(bs) && b in bs
    ensures b.amountCents <= 0 ==> ReceivedByPerson(Settle(bs), b.personId) == 0
    ensures b.amountCents >= 0 ==> PaidByPerson(Settle(bs), b.personId) == 0
    ensures b.amountCents < 0 ==> PaidByPerson(Settle(bs), b.personId) <= -b.amountCents
    ensures b.amountCents > 0 ==> ReceivedByPerson(Settle(bs), b.personId) <= b.amountCents
    ensures TotalBalance(bs) == 0 ==>
              b.amountCents + PaidByPerson(Settle(bs), b.personId) - ReceivedByPerson(Settle(bs), b.personId) == 0
  {
    var D, C := Debtors(bs), Creditors(bs);
    var p := b.personId;
    ListsWellFormed(bs);
    StartLive(D, C);
    StartOutstanding(D);
    StartOutstanding(C);
    RenderByPerson(D, C, Plan(D, C), p);
    if b.amountCents < 0 {
      var k := DebtorPosition(bs, b);
      PlanPays(D, C, Start(D, C), k);
    } else if b.amountCents > 0 {
      var k := CreditorPosition(bs, b);
      PlanReceives(D, C, Start(D, C), k);
    } else {
      ZeroOnNeitherList(bs, b);
    }
  }

  lemma ExampleLists(a: PersonId, b: PersonId, c: PersonId)
    ensures var bs := [PersonBalance(a, 500), PersonBalance(b, -300), PersonBalance(c, -200)];
      && Debtors(bs) == [PersonBalance(b, 300), PersonBalance(c, 200)]
      && Creditors(bs) == [PersonBalance(a, 500)]
  {
    var bs := [PersonBalance(a, 500), PersonBalance(b, -300), PersonBalance(c, -200)];
    var D := [PersonBalance(b, 300), PersonBalance(c, 200)];
    var t1, t2 := bs[1..], bs[2..];
    assert t1[1..] == t2 && t2[1..] == [];
    assert NegativesAbs(t2) == [PersonBalance(c, 200)];
    assert NegativesAbs(bs) == D;
    assert Positives(t2) == [];
    assert Positives(t1) == [];
    assert Positives(bs) == [PersonBalance(a, 500)];
    assert D[1..][1..] == [];
    assert SortDescending(D[1..]) == [PersonBalance(c, 200)];
  }

  lemma ExamplePlan(a: PersonId, b: PersonId, c: PersonId)
    ensures var D, C := [PersonBalance(b, 300), PersonBalance(c, 200)], [PersonBalance(a, 500)];
      Plan(D, C) == [Step(0, 0, 300), Step(1, 0, 200)]
  {
    var D, C := [PersonBalance(b, 300), PersonBalance(c, 200)], [PersonBalance(a, 500)];
    var s1 := Next(D, C, Start(D, C));
    assert s1 == Cursors(1, 0, 200, 200);
    assert Next(D, C, s1) == Cursors(2, 1, 0, 0);
    assert PlanFrom(D, C, s1) == [Step(1, 0, 200)];
  }

  /** A owed 5.00, B owing 3.00 and C owing 2.00 settle as B pays A 3.00,
      then C pays A 2.00. */
  lemma SettleExample(a: PersonId, b: PersonId, c: PersonId)
    ensures Settle([PersonBalance(a, 500), PersonBalance(b, -300), PersonBalance(c, -200)])
         == [Transaction(b, a, 300), Transaction(c, a, 200)]
  {
    ExampleLists(a, b, c);
    ExamplePlan(a, b, c);
    var D, C := [PersonBalance(b, 300), PersonBalance(c, 200)], [PersonBalance(a, 500)];
    var steps := [Step(0, 0, 300), Step(1, 0, 200)];
    assert steps[1..] == [Step(1, 0, 200)] && steps[1..][1..] == [];
    assert Render(D, C, steps[1..]) == [Transaction(c, a, 200)];
    assert Render(D, C, steps) == [Transaction(b, a, 300), Transaction(c, a, 200)];
  }

  // ------------------------------------------------------------ the loop

  /** One turn of the loop extends the transactions emitted so far by the
      first transfer of the remaining plan. */
  lemma PlanStep(D: seq<PersonBalance>, C: seq<PersonBalance>, c: Cursors,
                 done: seq<Transaction>, whole: seq<Transaction>)
    requires c.i < |D| && c.j < |C|
    requires done + Render(D, C, PlanFrom(D, C, c)) == whole
    ensures done + [Transaction(D[c.i].personId, C[c.j].personId, Min(c.debt, c.credit))]
            + Render(D, C, PlanFrom(D, C, Next(D, C, c))) == whole
  {
    var x := Transaction(D[c.i].personId, C[c.j].personId, Min(c.debt, c.credit));
    var rest := Render(D, C, PlanFrom(D, C, Next(D, C, c)));
    assert Render(D, C, PlanFrom(D, C, c)) == [x] + rest;
    assert done + [x] + rest == done + ([x] + rest);
  }

  /** The working arrays agree with the cursor state `c`: entries before
      a cursor are spent, the entry under it holds what is still owed, and
      the entries after it are untouched copies of the sorted lists. */
  ghost predicate Mirrors(debtors: array<PersonBalance>, creditors: array<PersonBalance>,
                          ds: seq<PersonBalance>, cs: seq<PersonBalance>, c: Cursors)
    reads debtors, creditors
  {
    debtors.Length == |ds| && creditors.Length == |cs| && c.i <= |ds| && c.j <= |cs|
    && (forall k :: 0 <= k < c.i ==> debtors[k] == PersonBalance(ds[k].personId, 0))
    && (forall k :: 0 <= k < c.j ==> creditors[k] == PersonBalance(cs[k].personId, 0))
    && (forall k :: c.i < k < |ds| ==> debtors[k] == ds[k])
    && (forall k :: c.j < k < |cs| ==> creditors[k] == cs[k])
    && (c.i < |ds| ==> debtors[c.i] == PersonBalance(ds[c.i].personId, c.debt))
    && (c.j < |cs| ==> creditors[c.j] == PersonBalance(cs[c.j].personId, c.credit))
  }

  /** One turn of the loop body: both current entries give up the smaller
      amount, and a cursor whose entry reaches zero advances. */
  method Turn(debtors: array<PersonBalance>, creditors: array<PersonBalance>,
              ds: seq<PersonBalance>, cs: seq<PersonBalance>, i: nat, j: nat, ghost c: Cursors)
    returns (i': nat, j': nat, x: Transaction)
    requires debtors != creditors && i == c.i && j == c.j
    requires Mirrors(debtors, creditors, ds, cs, c) && c.i < |ds| && c.j < |cs|
    modifies debtors, creditors
    ensures Mirrors(debtors, creditors, ds, cs, Next(ds, cs, c))
    ensures i' == Next(ds, cs, c).i && j' == Next(ds, cs, c).j
    ensures x == Transaction(ds[c.i].personId, cs[c.j].personId, Min(c.debt, c.credit))
  {
    var amount := Min(debtors[i].amountCents, creditors[j].amountCents);
    x := Transaction(debtors[i].personId, creditors[j].personId, amount);
    debtors[i] := debtors[i].(amountCents := debtors[i].amountCents - amount);
    creditors[j] := creditors[j].(amountCents := creditors[j].amountCents - amount);
    i' := if debtors[i].amountCents == 0 then i + 1 else i;
    j' := if creditors[j].amountCents == 0 then j + 1 else j;
  }

  /** The while loop of simplifyDebts over copies of the sorted lists: the
      two cursors walk the arrays, decrementing the current entries in place,
      and the transfers pushed are exactly the plan. */
  method Greedy(ds: seq<PersonBalance>, cs: seq<PersonBalance>) returns (transactions: seq<Transaction>)
    ensures transactions == Render(ds, cs, Plan(ds, cs))
  {
    var creditors := new PersonBalance[|cs|](k requires 0 <= k < |cs| => cs[k]);
    var debtors := new PersonBalance[|ds|](k requires 0 <= k < |ds| => ds[k]);

    transactions := [];
    var i, j := 0, 0;
    ghost var cur := Start(ds, cs);
    ghost var whole := Render(ds, cs, Plan(ds, cs));
    while i < debtors.Length && j < creditors.Length
      invariant debtors != creditors
      invariant Mirrors(debtors, creditors, ds, cs, cur)
      invariant i == cur.i && j == cur.j
      invariant transactions + Render(ds, cs, PlanFrom(ds, cs, cur)) == whole
      decreases |ds| - i + |cs| - j
    {
      PlanStep(ds, cs, cur, transactions, whole);
      var x;
      i, j, x := Turn(debtors, creditors, ds, cs, i, j, cur);
      transactions := transactions + [x];
      cur := Next(ds, cs, cur);
    }
  }

  /** simplifyDebts. The caller's array is only read (the method modifies
      nothing it did not allocate): the debtors and creditors are copies, and
      the transfers are exactly the greedy plan over them. */
  method SimplifyDebts(balances: array<PersonBalance>) returns (transactions: seq<Transaction>)
    ensures transactions == Settle(balances[..])
  {
    var creditors := SortDescending(Positives(balances[..]));
    var debtors := SortDescending(NegativesAbs(balances[..]));
    transactions := Greedy(debtors, creditors);
  }
}
