/** The request checks and row building of expense creation
    (app/api/expenses/route.ts, POST). A JSON number is a `real`; a field that
    is absent or null is `None`; an absent string is the empty string. */
module ExpenseRoute {
  import opened Wrappers
  import JsBuiltins

  /** One requested participant: who, and for lodging how many nights. */
  datatype ParticipantRequest = ParticipantRequest(personId: string, nights: Option<real>)

  /** The body of a create-expense request. */
  datatype CreateExpenseRequest = CreateExpenseRequest(
    title: string,
    amountCents: Option<real>,
    paidBy: string,
    category: string,
    isLodging: bool,
    participants: Option<seq<ParticipantRequest>>)

  /** The three rejections, each answered with status 400. */
  datatype RequestError = MissingRequiredFields | AmountBelowMinimum | InvalidLodgingNights

  /** The error text sent back for each rejection. */
  function ErrorMessage(e: RequestError): (m: string)
    ensures m != ""
  {
    match e
    case MissingRequiredFields => "Missing required fields"
    case AmountBelowMinimum => "Amount must be at least $0.01"
    case InvalidLodgingNights => "All lodging participants must have nights > 0"
  }

  /** The status code of every rejection. */
  const BadRequest: nat := 400

  datatype Validation = Accepted | Rejected(error: RequestError)

  /** `!amount_cents`: absent or zero. */
  predicate FalsyAmount(amount: Option<real>)
  {
    amount.None? || amount.value == 0.0
  }

  /** `!p.nights || p.nights < 1`. */
  predicate BadNights(p: ParticipantRequest)
  {
    p.nights.None? || p.nights.value == 0.0 || p.nights.value < 1.0
  }

  /** `participants.some(p => !p.nights || p.nights < 1)`. */
  function SomeBadNights(ps: seq<ParticipantRequest>): (r: bool)
    ensures r <==> exists k :: 0 <= k < |ps| && BadNights(ps[k])
  {
    if ps == [] then false
    else if BadNights(ps[0]) then true
    else
      var r := SomeBadNights(ps[1..]);
      assert forall k :: 1 <= k < |ps| ==> ps[k] == ps[1..][k - 1];
      r
  }

  /** The first guard: a missing or falsy title, amount, payer or
      participant list. */
  predicate MissingFields(req: CreateExpenseRequest)
  {
    req.title == "" || FalsyAmount(req.amountCents) || req.paidBy == ""
    || req.participants.None? || req.participants.value == []
  }

  /** The guards of POST, in order; the first that fails decides. A request
      is accepted exactly when it has a title, a payer, at least one
      participant and an amount of at least 1, and, if it is lodging, every
      participant has at least one night. */
  function ValidateCreateExpense(req: CreateExpenseRequest): (r: Validation)
    ensures r == Rejected(MissingRequiredFields) <==> MissingFields(req)
    ensures r == Rejected(AmountBelowMinimum) <==>
              !MissingFields(req) && req.amountCents.value < 1.0
    ensures r == Rejected(InvalidLodgingNights) <==>
              && !MissingFields(req) && req.amountCents.value >= 1.0
              && req.isLodging && SomeBadNights(req.participants.value)
    ensures r == Accepted <==>
              && req.title != "" && req.paidBy != ""
              && req.amountCents.Some? && req.amountCents.value >= 1.0
              && req.participants.Some? && req.participants.value != []
              && (req.isLodging ==>
                    forall k :: 0 <= k < |req.participants.value| ==>
                      req.participants.value[k].nights.Some? && req.participants.value[k].nights.value >= 1.0)
  {
    if req.title == "" || FalsyAmount(req.amountCents) || req.paidBy == ""
       || req.participants.None? || |req.participants.value| == 0
    then Rejected(MissingRequiredFields)
    else if req.amountCents.value < 1.0 then Rejected(AmountBelowMinimum)
    else if req.isLodging && SomeBadNights(req.participants.value) then Rejected(InvalidLodgingNights)
    else Accepted
  }

  /** What POST answers before touching the database: go on, or a JSON body
      `{ error }` with a status. */
  datatype Reply = Proceed | ErrorReply(status: nat, error: string)

  /** The early replies of POST: every rejection is a 400 carrying the text of
      the guard that failed. */
  function Respond(req: CreateExpenseRequest): (r: Reply)
    ensures r.Proceed? <==> ValidateCreateExpense(req) == Accepted
    ensures r.ErrorReply? ==> r.status == BadRequest && r.error != ""
    ensures r.ErrorReply? ==> r.error == ErrorMessage(ValidateCreateExpense(req).error)
  {
    match ValidateCreateExpense(req)
    case Accepted => Proceed
    case Rejected(e) => ErrorReply(BadRequest, ErrorMessage(e))
  }

  /** The three error texts differ, so a client can tell from the reply alone
      which guard refused its request. */
  lemma RepliesNameTheGuard(req1: CreateExpenseRequest, req2: CreateExpenseRequest)
    requires Respond(req1).ErrorReply? && Respond(req2).ErrorReply?
    requires Respond(req1).error == Respond(req2).error
    ensures ValidateCreateExpense(req1) == ValidateCreateExpense(req2)
  {
  }

  /** The amount guard only bounds the amount from below: a fractional amount
      of cents such as 1.5 is accepted. */
  lemma FractionalAmountAccepted()
    ensures ValidateCreateExpense(CreateExpenseRequest("Taxi", Some(1.5), "ann", "", false,
              Some([ParticipantRequest("ann", None)]))) == Accepted
  {
  }

  /** The nights of all participants, an absent count taken as 0. */
  function TotalNights(ps: seq<ParticipantRequest>): real
  {
    if ps == [] then 0.0 else ps[0].nights.GetOr(0.0) + TotalNights(ps[1..])
  }

  lemma {:induction false} TotalNightsAtLeastCount(ps: seq<ParticipantRequest>)
    requires forall k :: 0 <= k < |ps| ==> ps[k].nights.Some? && ps[k].nights.value >= 1.0
    ensures TotalNights(ps) >= |ps| as real
  {
    if ps != [] {
      assert forall k :: 0 <= k < |ps[1..]| ==> ps[1..][k] == ps[k + 1];
      TotalNightsAtLeastCount(ps[1..]);
    }
  }

  /** An accepted request meets what the share allocation needs when its
      amount is a whole number of cents, at least one: at least one
      participant, and for lodging a positive total of nights. The guard
      itself admits fractional amounts (`FractionalAmountAccepted`). */
  lemma AcceptedMeetsAllocator(req: CreateExpenseRequest)
    requires ValidateCreateExpense(req) == Accepted
    ensures req.amountCents.Some? && req.amountCents.value >= 1.0
    ensures req.participants.Some? && |req.participants.value| >= 1
    ensures req.isLodging ==> TotalNights(req.participants.value) >= |req.participants.value| as real >= 1.0
  {
    if req.isLodging {
      TotalNightsAtLeastCount(req.participants.value);
    }
  }

  /** Nights are only looked at for lodging: a request that is not lodging
      passes or fails whatever its nights say. */
  lemma NightsIgnoredUnlessLodging(req: CreateExpenseRequest, ps: seq<ParticipantRequest>)
    requires !req.isLodging && req.participants.Some? && |ps| == |req.participants.value|
    ensures ValidateCreateExpense(req.(participants := Some(ps))) == ValidateCreateExpense(req)
  {
  }

  /** `category || 'general'`. */
  function CategoryOrGeneral(category: string): (r: string)
    ensures r != ""
    ensures category != "" ==> r == category
    ensures category == "" ==> r == "general"
  {
    JsBuiltins.OrElse(category, "general")
  }

  /** One row of the expense's participant table. */
  datatype ParticipantRow = ParticipantRow(expenseId: string, personId: string, nights: Option<real>)

  /** The participant rows of a new expense: one per requested participant,
      in request order, keeping nights only for lodging. */
  function ParticipantRows(expenseId: string, isLodging: bool, ps: seq<ParticipantRequest>): (r: seq<ParticipantRow>)
    ensures |r| == |ps|
    ensures forall k :: 0 <= k < |r| ==>
              r[k].expenseId == expenseId && r[k].personId == ps[k].personId
    ensures forall k :: 0 <= k < |r| ==> r[k].nights == (if isLodging then ps[k].nights else None)
  {
    if ps == [] then []
    else
      var rest := ParticipantRows(expenseId, isLodging, ps[1..]);
      var row := ParticipantRow(expenseId, ps[0].personId, if isLodging then ps[0].nights else None);
      assert forall k :: 1 <= k < |ps| ==> ([row] + rest)[k] == rest[k - 1] && ps[k] == ps[1..][k - 1];
      [row] + rest
  }

  /** The rows of an accepted lodging request all carry at least one night;
      those of any other request carry none. */
  lemma AcceptedRowsNights(req: CreateExpenseRequest, expenseId: string)
    requires ValidateCreateExpense(req) == Accepted
    ensures var rows := ParticipantRows(expenseId, req.isLodging, req.participants.value);
      forall k :: 0 <= k < |rows| ==>
        if req.isLodging then rows[k].nights.Some? && rows[k].nights.value >= 1.0
        else rows[k].nights.None?
  {
  }
}
