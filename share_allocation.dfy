/** How one expense's total, in integer cents, is split among its participants
    (lib/expenseLogic.ts: distributeEvenly, calculateLodgingShares,
    calculateExpenseShares). */
module ShareAllocation {
  import opened Wrappers
  import opened Ledger
  import opened JsBuiltins

  datatype ParticipantWithNights = ParticipantWithNights(personId: PersonId, nights: int)

  /** The sum of the amounts of `shares`. */
  function TotalShares(shares: seq<ParticipantShare>): int
  {
    if shares == [] then 0 else shares[0].amountCents + TotalShares(shares[1..])
  }

  /** The person ids of `shares`, in order. */
  function ShareIds(shares: seq<ParticipantShare>): (ids: seq<PersonId>)
    ensures |ids| == |shares|
    ensures forall i :: 0 <= i < |ids| ==> ids[i] == shares[i].personId
  {
    seq(|shares|, i requires 0 <= i < |shares| => shares[i].personId)
  }

  // ---------------------------------------------------------------- even split

  /** A positive multiple of `n` is at least `n`. */
  lemma {:induction false} MultipleAtLeast(n: int, x: int)
    requires n > 0 && x >= 1
    ensures n * x >= n
    decreases x
  {
    if x > 1 {
      MultipleAtLeast(n, x - 1);
      assert n * x == n * (x - 1) + n;
    }
  }

  /** A multiple of `n` leaves no remainder. */
  lemma MultipleHasNoRemainder(n: int, q: int)
    requires n > 0
    ensures (n * q) % n == 0
  {
    var k := n * q;
    var d, m := k / n, k % n;
    assert k == n * d + m && 0 <= m < n;
    var x := q - d;
    assert n * x == m by {
      assert n * x == n * q - n * d;
    }
    if x >= 1 {
      MultipleAtLeast(n, x);
    } else if x <= -1 {
      MultipleAtLeast(n, -x);
    }
  }

  /** JavaScript's `a % n` for a positive `n`: truncated division, so the
      remainder takes the sign of `a` (Dafny's `%` is never negative). */
  function JsRemainder(a: int, n: int): (r: int)
    requires n > 0
    ensures a >= 0 ==> r == a % n
    ensures a < 0 ==> -n < r <= 0
    ensures (a - r) % n == 0
  {
    if a >= 0 then
      MultipleHasNoRemainder(n, a / n);
      assert a - a % n == n * (a / n);
      a % n
    else
      var b := -a;
      MultipleHasNoRemainder(n, -(b / n));
      assert a + b % n == n * -(b / n);
      -(b % n)
  }

  /** distributeEvenly: every participant gets `floor(total / n)` cents and the
      first `total % n` participants, in input order, one cent more. The
      payer's branch in the source adds 0 whichever way its condition goes. */
  function DistributeEvenly(totalCents: int, participantIds: seq<PersonId>, payerId: PersonId)
    : (r: seq<ParticipantShare>)
    ensures |r| == |participantIds| && ShareIds(r) == participantIds
    ensures totalCents >= 0 ==>
      forall i :: 0 <= i < |r| ==>
        r[i].amountCents == totalCents / |r| + (if i < totalCents % |r| then 1 else 0)
    ensures forall i, j :: 0 <= i < |r| && 0 <= j < |r| ==> r[i].amountCents <= r[j].amountCents + 1
  {
    var count := |participantIds|;
    if count == 0 then []
    else
      // Math.floor(totalCents / count): with count > 0, Dafny's `/` is floor division
      var base := totalCents / count;
      var remainder := JsRemainder(totalCents, count);
      var payerIndex := IndexOf(participantIds, payerId);
      seq(count, i requires 0 <= i < count =>
        var amount := base + (if i < remainder then 1 else 0);
        var amount' :=
          if participantIds[i] == payerId && payerIndex >= remainder
          then amount + (if remainder > 0 && payerIndex < remainder then 0 else 0)
          else amount;
        ParticipantShare(participantIds[i], amount'))
  }

  /** Shares that are `base` plus one extra cent for the first `extra` positions
      add up to `|shares| * base + extra`. */
  lemma {:induction false} StaircaseTotal(shares: seq<ParticipantShare>, base: int, extra: nat)
    requires extra <= |shares|
    requires forall i :: 0 <= i < |shares| ==>
      shares[i].amountCents == base + (if i < extra then 1 else 0)
    ensures TotalShares(shares) == |shares| * base + extra
  {
    if shares != [] {
      var extra' := if extra > 0 then extra - 1 else 0;
      StaircaseTotal(shares[1..], base, extra');
      assert |shares| * base == (|shares| - 1) * base + base;
    }
  }

  /** Dividing `t` by `n` with floor division leaves `t % n` over. */
  lemma FloorDivision(t: int, n: int)
    requires n > 0
    ensures n * (t / n) + t % n == t
  {
  }

  /** An even split of a non-negative total loses and invents no cent. */
  lemma EvenSplitSumsToTotal(totalCents: int, participantIds: seq<PersonId>, payerId: PersonId)
    requires totalCents >= 0 && |participantIds| > 0
    ensures TotalShares(DistributeEvenly(totalCents, participantIds, payerId)) == totalCents
  {
    var r := DistributeEvenly(totalCents, participantIds, payerId);
    var n := |participantIds|;
    var base, extra := totalCents / n, totalCents % n;
    assert forall i :: 0 <= i < |r| ==> r[i].amountCents == base + (if i < extra then 1 else 0);
    StaircaseTotal(r, base, extra);
    FloorDivision(totalCents, n);
  }

  /** Who paid has no influence on an even split. */
  lemma EvenSplitIgnoresPayer(totalCents: int, participantIds: seq<PersonId>, payer1: PersonId, payer2: PersonId)
    ensures DistributeEvenly(totalCents, participantIds, payer1)
         == DistributeEvenly(totalCents, participantIds, payer2)
  {
    var r1 := DistributeEvenly(totalCents, participantIds, payer1);
    var r2 := DistributeEvenly(totalCents, participantIds, payer2);
    assert forall i :: 0 <= i < |r1| ==> r1[i] == r2[i];
  }

  /** For a negative total the truncating remainder is negative, so nobody gets
      the extra cent and the shares no longer add up: -1 cent split two ways
      gives two shares of -1. Callers only split totals of at least one cent. */
  lemma EvenSplitOfNegativeTotal(a: PersonId, b: PersonId)
    ensures DistributeEvenly(-1, [a, b], a)
         == [ParticipantShare(a, -1), ParticipantShare(b, -1)]
    ensures TotalShares(DistributeEvenly(-1, [a, b], a)) == -2
  {
    var r := DistributeEvenly(-1, [a, b], a);
    assert r[0] == ParticipantShare(a, -1) && r[1] == ParticipantShare(b, -1);
    assert r == [ParticipantShare(a, -1), ParticipantShare(b, -1)];
    assert TotalShares(r[1..]) == -1 by {
      assert r[1..] == [ParticipantShare(b, -1)];
      assert r[1..][1..] == [];
    }
  }

  /** 1000 cents among three: the first participant absorbs the odd cent. */
  lemma EvenSplitExample(a: PersonId, b: PersonId, c: PersonId)
    ensures DistributeEvenly(1000, [a, b, c], a)
         == [ParticipantShare(a, 334), ParticipantShare(b, 333), ParticipantShare(c, 333)]
  {
    var r := DistributeEvenly(1000, [a, b, c], a);
    assert r[0].amountCents == 334 && r[1].amountCents == 333 && r[2].amountCents == 333;
  }

  // ------------------------------------------------------------- lodging split

  /** The sum of the nights of `participants`. */
  function TotalNights(participants: seq<ParticipantWithNights>): int
  {
    if participants == [] then 0 else participants[0].nights + TotalNights(participants[1..])
  }

  /** `Math.round(num / den)` computed exactly: the integer nearest to the
      ratio, halves rounded up (toward positive infinity). */
  function RoundHalfUp(num: int, den: int): (r: int)
    requires den != 0
    ensures den > 0 ==> 2 * den * r <= 2 * num + den < 2 * den * (r + 1)
    ensures den < 0 ==> -2 * den * r <= -2 * num - den < -2 * den * (r + 1)
  {
    if den > 0 then (2 * num + den) / (2 * den)
    else (-2 * num - den) / (-2 * den)
  }

  /** The share of a participant staying `nights` of `totalNights`, before the
      rounding error is corrected: Math.round(totalCents / totalNights * nights). */
  function NightlyShare(totalCents: int, nights: int, totalNights: int): int
    requires totalNights != 0
  {
    RoundHalfUp(totalCents * nights, totalNights)
  }

  /** `participants.map(...)`: each participant's rounded share. */
  function RoundedShares(totalCents: int, totalNights: int, participants: seq<ParticipantWithNights>)
    : (r: seq<ParticipantShare>)
    requires totalNights != 0
    ensures |r| == |participants|
    ensures forall i :: 0 <= i < |r| ==>
      r[i] == ParticipantShare(participants[i].personId, NightlyShare(totalCents, participants[i].nights, totalNights))
  {
    if participants == [] then []
    else
      [ParticipantShare(participants[0].personId, NightlyShare(totalCents, participants[0].nights, totalNights))]
      + RoundedShares(totalCents, totalNights, participants[1..])
  }

  /** calculateLodgingShares: split by nights, then push the whole rounding
      error onto the first participant (one in-place update of `shares[0]`). */
  function CalculateLodgingShares(totalCents: int, participants: seq<ParticipantWithNights>)
    : (r: seq<ParticipantShare>)
    ensures r == [] <==> |participants| == 0 || TotalNights(participants) == 0
    ensures r != [] ==> |r| == |participants|
    ensures r != [] ==> forall i :: 0 <= i < |r| ==> r[i].personId == participants[i].personId
    ensures r != [] ==> forall i :: 0 < i < |r| ==>
      r[i].amountCents == NightlyShare(totalCents, participants[i].nights, TotalNights(participants))
  {
    if |participants| == 0 then []
    else
      var totalNights := TotalNights(participants);
      if totalNights == 0 then []
      else
        var shares := RoundedShares(totalCents, totalNights, participants);
        var totalAllocated := TotalShares(shares);
        var roundingError := totalCents - totalAllocated;
        if roundingError != 0 && |shares| > 0
        then shares[0 := shares[0].(amountCents := shares[0].amountCents + roundingError)]
        else shares
  }

  /** The first participant's share is whatever the others' rounded shares
      leave of the total, so the shares always add up to the total, whatever
      the rounding did. */
  lemma LodgingSharesSumToTotal(totalCents: int, participants: seq<ParticipantWithNights>)
    requires |participants| > 0 && TotalNights(participants) != 0
    ensures TotalShares(CalculateLodgingShares(totalCents, participants)) == totalCents
    ensures CalculateLodgingShares(totalCents, participants)[0].amountCents
         == totalCents - TotalShares(RoundedShares(totalCents, TotalNights(participants), participants)[1..])
  {
    var w := TotalNights(participants);
    var shares := RoundedShares(totalCents, w, participants);
    var r := CalculateLodgingShares(totalCents, participants);
    var err := totalCents - TotalShares(shares);
    assert TotalShares(shares) == shares[0].amountCents + TotalShares(shares[1..]);
    if err != 0 {
      assert r == shares[0 := shares[0].(amountCents := shares[0].amountCents + err)];
      assert r[1..] == shares[1..];
    } else {
      assert r == shares;
    }
  }

  /** With five one-night participants sharing 3 cents, each of the other four
      rounds 0.6 up to 1 cent, so the first participant's share is -1 cent:
      nothing keeps the absorbing share non-negative. */
  lemma LodgingFirstShareCanBeNegative(a: PersonId, b: PersonId, c: PersonId, d: PersonId, e: PersonId)
    ensures var r := CalculateLodgingShares(3, [ParticipantWithNights(a, 1), ParticipantWithNights(b, 1),
      ParticipantWithNights(c, 1), ParticipantWithNights(d, 1), ParticipantWithNights(e, 1)]);
      |r| == 5 && r[0].amountCents == -1
  {
    var ps := [ParticipantWithNights(a, 1), ParticipantWithNights(b, 1),
      ParticipantWithNights(c, 1), ParticipantWithNights(d, 1), ParticipantWithNights(e, 1)];
    assert TotalNights(ps[4..]) == 1 && TotalNights(ps[3..]) == 2;
    assert TotalNights(ps[2..]) == 3 && TotalNights(ps[1..]) == 4;
    assert TotalNights(ps) == 5;
    LodgingSharesSumToTotal(3, ps);
    var shares := RoundedShares(3, 5, ps);
    assert NightlyShare(3, 1, 5) == 1;
    var t := shares[1..];
    assert TotalShares(t[3..]) == 1 by { assert t[3..][1..] == []; }
    assert TotalShares(t[2..]) == 2 by { assert t[2..][1..] == t[3..]; }
    assert TotalShares(t[1..]) == 3 by { assert t[1..][1..] == t[2..]; }
    assert TotalShares(t) == 4 by { assert t[1..] == t[1..]; }
  }

  /** 900 cents for two nights and one night: 600 and 300, a rate of 300 a night. */
  lemma LodgingExample(a: PersonId, b: PersonId)
    ensures CalculateLodgingShares(900, [ParticipantWithNights(a, 2), ParticipantWithNights(b, 1)])
         == [ParticipantShare(a, 600), ParticipantShare(b, 300)]
  {
    var ps := [ParticipantWithNights(a, 2), ParticipantWithNights(b, 1)];
    assert TotalNights(ps[1..]) == 1 by { assert ps[1..][1..] == []; }
    assert TotalNights(ps) == 3;
    LodgingSharesSumToTotal(900, ps);
    assert NightlyShare(900, 1, 3) == 300;
    var r := CalculateLodgingShares(900, ps);
    assert r[1..][1..] == [];
  }

  // ---------------------------------------------------------------- dispatch

  /** `participantIds.map(...)` with `nightsMap.get(personId) ?? 0`: a
      participant missing from the map stays 0 nights. */
  function NightsFor(participantIds: seq<PersonId>, nightsMap: map<PersonId, int>)
    : (r: seq<ParticipantWithNights>)
    ensures |r| == |participantIds|
    ensures forall i :: 0 <= i < |r| ==> r[i].personId == participantIds[i]
    ensures forall i :: 0 <= i < |r| ==>
      r[i].nights == if participantIds[i] in nightsMap then nightsMap[participantIds[i]] else 0
  {
    seq(|participantIds|, i requires 0 <= i < |participantIds| =>
      ParticipantWithNights(participantIds[i],
        if participantIds[i] in nightsMap then nightsMap[participantIds[i]] else 0))
  }

  /** Every participant has at least one night in `nightsMap`. */
  ghost predicate AllHaveNights(participantIds: seq<PersonId>, nightsMap: map<PersonId, int>)
  {
    forall i :: 0 <= i < |participantIds| ==>
      participantIds[i] in nightsMap && nightsMap[participantIds[i]] >= 1
  }

  /** Participants who each stay at least one night stay at least as many
      nights in total as there are participants. */
  lemma {:induction false} TotalNightsAtLeastCount(participants: seq<ParticipantWithNights>)
    requires forall i :: 0 <= i < |participants| ==> participants[i].nights >= 1
    ensures TotalNights(participants) >= |participants|
  {
    if participants != [] {
      TotalNightsAtLeastCount(participants[1..]);
    }
  }

  /** calculateExpenseShares: the lodging rule applies exactly when the expense
      is lodging and a nights map is given (a `Map` object is always truthy,
      even when empty); otherwise the even rule. */
  function CalculateExpenseShares(totalCents: int, participantIds: seq<PersonId>, payerId: PersonId,
                                         isLodging: bool, nightsMap: Option<map<PersonId, int>>)
    : (r: seq<ParticipantShare>)
    ensures isLodging && nightsMap.Some? ==>
      r == CalculateLodgingShares(totalCents, NightsFor(participantIds, nightsMap.value))
    ensures !(isLodging && nightsMap.Some?) ==> r == DistributeEvenly(totalCents, participantIds, payerId)
  {
    if isLodging && nightsMap.Some? then
      var participantsWithNights := NightsFor(participantIds, nightsMap.value);
      CalculateLodgingShares(totalCents, participantsWithNights)
    else
      DistributeEvenly(totalCents, participantIds, payerId)
  }

  /** For a total that is a whole number of cents, at least one, with at
      least one participant and, for lodging, at least one night each, the
      result has one share per participant, in order, adding up to the total. */
  lemma ExpenseSharesSumToTotal(totalCents: int, participantIds: seq<PersonId>, payerId: PersonId,
                                       isLodging: bool, nightsMap: Option<map<PersonId, int>>)
    requires totalCents >= 1 && |participantIds| >= 1
    requires isLodging && nightsMap.Some? ==> AllHaveNights(participantIds, nightsMap.value)
    ensures var r := CalculateExpenseShares(totalCents, participantIds, payerId, isLodging, nightsMap);
      ShareIds(r) == participantIds && TotalShares(r) == totalCents
  {
    if isLodging && nightsMap.Some? {
      var participantsWithNights := NightsFor(participantIds, nightsMap.value);
      TotalNightsAtLeastCount(participantsWithNights);
      LodgingSharesSumToTotal(totalCents, participantsWithNights);
    } else {
      EvenSplitSumsToTotal(totalCents, participantIds, payerId);
    }
  }

  /** A lodging participant absent from the nights map counts as staying 0
      nights, and unless it is the first (which absorbs the rounding error) its
      share is 0. */
  lemma MissingNightsGetNothing(totalCents: int, participantIds: seq<PersonId>, payerId: PersonId,
                                       nightsMap: map<PersonId, int>, i: nat)
    requires 0 < i < |participantIds| && participantIds[i] !in nightsMap
    requires TotalNights(NightsFor(participantIds, nightsMap)) != 0
    ensures var r := CalculateExpenseShares(totalCents, participantIds, payerId, true, Some(nightsMap));
      |r| == |participantIds| && r[i].amountCents == 0
  {
    var participants := NightsFor(participantIds, nightsMap);
    var w := TotalNights(participants);
    assert participants[i].nights == 0;
    var rounded := RoundHalfUp(totalCents * 0, w);
    assert rounded == 0 by {
      if w > 0 {
        assert 2 * w * rounded <= w < 2 * w * (rounded + 1);
      } else {
        assert -2 * w * rounded <= -w < -2 * w * (rounded + 1);
      }
    }
  }
}
