# Trip expenses: allocation, balances and settlement

This project models the bookkeeping core of a shared-trip expense app and
proves properties about it.

- **Splitting an expense.** An expense's total, in integer cents, is split
  among its participants. The split is either even, or by nights for
  lodging.
- **Net balances.** The allocated expenses are folded into one signed net
  balance per person, in an insertion-ordered map.
- **Settling up.** The balances are settled with a greedy two-cursor matcher.
  It pairs the largest debtors with the largest creditors.
- **Settlement status.** A settlement's status comes from its two
  confirmation flags.

The model also covers these pieces:

- the guard chain that validates a new expense request;
- the participant rows that request produces;
- the grouping of the expense list by category;
- the rank of grocery categories and their label fallback;
- the routing decision of the sign-in gate.

Modules, one per file:

- `Ledger`: ids, shares, balances and transactions.
- `OrderedMaps`: a JavaScript `Map`. It is a sequence of keys in insertion
  order plus a `map`.
- `ShareAllocation`: the even and lodging splits.
- `NetBalances`: the balance fold.
- `DebtSimplification`: the settle-up matcher.
- `SettlementStatus`: the status of a settlement.
- `Settlement`: the net balances fed into the matcher.
- `ExpenseRoute`: the request guards and participant rows.
- `ExpenseList`: grouping expenses by category.
- `GroceryCategories`: grocery category ranks and labels.
- `Proxy`: the sign-in gate.
- `JsBuiltins`: `Array.prototype.indexOf` and the string fallback `s || d`, shared by the modules above.

**How the stateful parts are modelled.**

- **The balance fold** is a method over an `OrderedMap`. It seeds every
  known person, then moves each non-payer share from the participant to the
  payer. It is proved against these reference functions:
  - `Credited`: the others' shares of the expenses a person paid;
  - `Debited`: a person's own shares of the expenses others paid;
  - `BalanceOrder`: the order in which the `Map` lists its keys.
- **The matcher** is a method that runs the source's `while` loop over copies
  of the sorted lists held in arrays. Its result is proved equal to
  `Settle`, a functional plan over the cursor positions. The settlement
  properties are proved about `Settle`.
- **`groupByCategory`** is a method with the source's three loops. It is
  proved against `GroupOrder` and `InCategory`.

JavaScript semantics are written out where they matter:

- `%` truncates toward zero (`JsRemainder`).
- `Math.round` rounds half toward +infinity (`RoundHalfUp`).
- `Array.prototype.sort` is stable. It is modelled as an insertion sort.
- `??`, `||` on strings and `startsWith` are written out.
- `String.prototype.length` counts UTF-16 code units (`Utf16Length`): a character outside the Basic Multilingual Plane counts twice.
- JSON numbers in a request are `real` values. An absent field is `None`,
  or `""` for a string.

## Model

| member | source | states |
|---|---|---|
| ShareAllocation.JsRemainder | lib/expenseLogic.ts:20 | `totalCents % count` agrees with the mathematical remainder for a non-negative total; for a negative one it lies in (-count, 0] and differs from the total by a multiple of count, which makes it the truncated remainder |
| JsBuiltins.IndexOf | lib/expenseLogic.ts:22 | `indexOf` is -1 exactly when the element is absent; otherwise it is the position of the first occurrence |
| ShareAllocation.DistributeEvenly | lib/expenseLogic.ts:11-35 | one share per participant, same ids in the same order (empty for no participants); for a non-negative total the first `total mod n` get `floor(total/n)+1` and the rest `floor(total/n)`; any two shares differ by at most one cent |
| ShareAllocation.EvenSplitSumsToTotal | lib/expenseLogic.ts:16-34 | for a non-negative total and at least one participant, the even shares sum to exactly the total |
| ShareAllocation.EvenSplitIgnoresPayer | lib/expenseLogic.ts:22-31 | the even split is the same whoever the payer is (the payer branch adds 0) |
| ShareAllocation.EvenSplitOfNegativeTotal | lib/expenseLogic.ts:19-28 | for a total of -1 over two people both shares are -1, so the shares sum to -2, not to the total |
| ShareAllocation.EvenSplitExample | lib/expenseLogic.ts:11-35 | 1000 cents over three people gives 334, 333, 333 |
| ShareAllocation.RoundHalfUp | lib/expenseLogic.ts:50 | the rounded value r of num/den satisfies r - 1/2 <= num/den < r + 1/2, i.e. `Math.round` on the exact quotient |
| ShareAllocation.RoundedShares | lib/expenseLogic.ts:48-51 | one share per participant, same id, amount the rounded `total * nights / totalNights` |
| ShareAllocation.CalculateLodgingShares | lib/expenseLogic.ts:37-61 | empty exactly when there are no participants or no nights; otherwise one share per participant with the same ids, and every share after the first is the rounded nightly share |
| ShareAllocation.LodgingSharesSumToTotal | lib/expenseLogic.ts:53-58 | the first share absorbs the rounding error: it is the total less the other rounded shares, so the lodging shares sum to exactly the total |
| ShareAllocation.LodgingFirstShareCanBeNegative | lib/expenseLogic.ts:50-57 | 3 cents over five one-night stays rounds each to 1, so the first share becomes -1 |
| ShareAllocation.LodgingExample | lib/expenseLogic.ts:37-61 | 900 cents over 2 and 1 nights gives 600 and 300 |
| ShareAllocation.NightsFor | lib/expenseLogic.ts:71-74 | one entry per participant in order; nights from the map, or 0 when the participant is missing from it |
| ShareAllocation.TotalNightsAtLeastCount | lib/expenseLogic.ts:43 | when every participant has at least one night, total nights is at least the participant count |
| ShareAllocation.CalculateExpenseShares | lib/expenseLogic.ts:63-79 | the lodging rule exactly when lodging and a nights map is given, the even rule otherwise |
| ShareAllocation.ExpenseSharesSumToTotal | lib/expenseLogic.ts:63-79 | for a total of at least one cent, at least one participant and (for lodging) nights for everyone, the shares carry the participant ids in order and sum to exactly the total |
| ShareAllocation.MissingNightsGetNothing | lib/expenseLogic.ts:73 | in a lodging split, a participant after the first who is missing from the nights map is charged 0 |
| OrderedMaps.Dedup | lib/expenseLogic.ts:109-110 | the first-occurrence order of a sequence has exactly its elements and is no longer than it |
| OrderedMaps.DedupIsDistinct | lib/expenseLogic.ts:109-110 | the first-occurrence order never repeats a key |
| OrderedMaps.DedupSnoc | lib/expenseLogic.ts:110 | setting a key already present keeps the order; a new key goes last |
| OrderedMaps.DedupPrefix | lib/expenseLogic.ts:109-121 | keys of a first batch come first, and after them come exactly the keys of the second batch that were not in the first |
| OrderedMaps.OrderedMap.Set | lib/expenseLogic.ts:110 | `Map.prototype.set` binds the key; an existing key keeps its place and a new key is appended, and distinct keys stay distinct |
| OrderedMaps.OrderedMap.GetOrElse | lib/expenseLogic.ts:117 | `balances.get(id) ?? 0`: the bound value, or the default when unbound |
| NetBalances.EffectIsOwedLessOwing | lib/expenseLogic.ts:113-122 | one expense raises the payer's balance by the others' shares and lowers anybody else's by their own shares; the payer's own share moves nothing |
| NetBalances.BalanceIsCreditedLessDebited | lib/expenseLogic.ts:112-123 | a balance is the others' shares of the expenses the person paid less the person's own shares of the expenses others paid |
| NetBalances.SeedBalances | lib/expenseLogic.ts:109-110 | every known id is present once, in first-occurrence order, at 0 |
| NetBalances.SeedStep | lib/expenseLogic.ts:110 | seeding one more id at 0 keeps the keys in first-occurrence order |
| NetBalances.TransferKeys | lib/expenseLogic.ts:117-121 | after debiting the participant and crediting the payer, the keys are the old ones followed, in set order, by whichever of the two were new |
| NetBalances.TransferLookups | lib/expenseLogic.ts:117-121 | the participant is debited and the payer credited by the share, and nobody else's balance changes |
| NetBalances.TransferKeepsSum | lib/expenseLogic.ts:117-121 | a transfer leaves the sum of all balances unchanged |
| NetBalances.SetChangesSum | lib/expenseLogic.ts:117-121 | rebinding a key changes the sum by the new value less the old one (0 when unbound) |
| NetBalances.TouchedByIsSharedWith | lib/expenseLogic.ts:113-122 | an expense touches exactly its non-payer participants, and its payer when it has any |
| NetBalances.ApplyExpense | lib/expenseLogic.ts:113-122 | the inner loop adds the expense's effect to every balance and keeps the sum |
| NetBalances.Entries | lib/expenseLogic.ts:125-128 | one entry per key, in key order, with the bound amount; the entries sum to the map's sum |
| NetBalances.CalculateNetBalances | lib/expenseLogic.ts:105-129 | one entry per id of `BalanceOrder`, in that order, with amount credited less debited; the balances sum to 0 for any input |
| NetBalances.BalanceOrderShape | lib/expenseLogic.ts:109-123 | the known ids come first, each once (duplicates collapse); after them come exactly the unknown ids that some expense mentions; no id repeats |
| NetBalances.TouchedIsMentioned | lib/expenseLogic.ts:112-122 | the fold sets exactly the ids that appear as a non-payer participant, or as the payer of an expense with such a participant |
| NetBalances.UnmentionedBalanceIsZero | lib/expenseLogic.ts:112-123 | somebody no expense mentions is owed exactly what they owe, that is, nothing |
| DebtSimplification.Insert | lib/expenseLogic.ts:135 | inserting into the sorted list keeps its elements and its sum |
| DebtSimplification.InsertDescending | lib/expenseLogic.ts:135 | inserting into a descending list keeps it descending |
| DebtSimplification.InsertStable | lib/expenseLogic.ts:135 | an insertion goes ahead of every entry of the same amount, and leaves every other amount class in order |
| DebtSimplification.SortDescending | lib/expenseLogic.ts:135 | sorting is a permutation and keeps the sum |
| DebtSimplification.SortDescendingOrder | lib/expenseLogic.ts:135-140 | the sorted list is descending by amount, and entries of equal amount keep their input order |
| DebtSimplification.PositivesMembers | lib/expenseLogic.ts:132-134 | the creditors are exactly the entries with a positive balance |
| DebtSimplification.NegativesAbsSound | lib/expenseLogic.ts:137-139 | every debtor is positive and comes from a negative balance of the same person |
| DebtSimplification.NegativesAbsComplete | lib/expenseLogic.ts:137-139 | every negative balance appears as a debtor with its magnitude |
| DebtSimplification.Next | lib/expenseLogic.ts:148-162 | one loop step advances at least one cursor, each by at most one, and stays in bounds |
| DebtSimplification.PlanFrom | lib/expenseLogic.ts:144-163 | every step of the plan names a debtor and a creditor that exist |
| DebtSimplification.PlanAmountsPositive | lib/expenseLogic.ts:148-156 | over positive lists every transfer amount is positive |
| DebtSimplification.PlanCount | lib/expenseLogic.ts:147-163 | the loop emits at most (debtors left) + (creditors left) - 1 transfers |
| DebtSimplification.PlanMonotone | lib/expenseLogic.ts:161-162 | the debtor and creditor positions never go back |
| DebtSimplification.PlanPays | lib/expenseLogic.ts:148-161 | no debtor pays more than they still owe; when debts and credits balance, each pays exactly that |
| DebtSimplification.PlanReceives | lib/expenseLogic.ts:148-162 | no creditor receives more than they are still owed; when debts and credits balance, each receives exactly that |
| DebtSimplification.RenderAt | lib/expenseLogic.ts:152-156 | each transaction names the debtor and creditor at the step's positions and the step's amount |
| DebtSimplification.SumSplits | lib/expenseLogic.ts:132-140 | the sum of the balances is the creditors' total less the debtors' total |
| DebtSimplification.SettlePositive | lib/expenseLogic.ts:150-156 | every transaction carries a positive amount |
| DebtSimplification.SettleSound | lib/expenseLogic.ts:131-166 | every transaction goes from a person with a negative balance to a person with a positive balance, with a positive amount |
| DebtSimplification.SettleCount | lib/expenseLogic.ts:131-166 | at most (debtors + creditors - 1) transactions, and none when either side is empty |
| DebtSimplification.ZeroBalancesSettleNothing | lib/expenseLogic.ts:131-166 | all-zero balances produce no transactions |
| DebtSimplification.SettleOrder | lib/expenseLogic.ts:144-163 | transactions appear in non-decreasing debtor and creditor positions |
| DebtSimplification.SettleNets | lib/expenseLogic.ts:131-166 | with distinct ids: only debtors pay and only creditors receive; nobody pays or receives more than their balance; when balances sum to 0, each balance nets to exactly 0 |
| DebtSimplification.SettleExample | lib/expenseLogic.ts:131-166 | balances +500, -300, -200 settle as 300 and 200 to the creditor |
| DebtSimplification.Turn | lib/expenseLogic.ts:148-162 | one pass of the loop body: the transfer pushed names the current debtor and creditor with the smaller amount, and the cursors and every array entry end in the state of the next step of the plan: entries behind a cursor at 0, the entry under it holding what is still owed, entries after it untouched |
| DebtSimplification.Greedy | lib/expenseLogic.ts:144-165 | the `while` loop over the two arrays, decrementing in place, emits exactly the functional plan |
| DebtSimplification.SimplifyDebts | lib/expenseLogic.ts:131-166 | the result is `Settle` of the balances; the caller's array is not written (no `modifies`) |
| Settlement.NetBalancesSettleExactly | lib/expenseLogic.ts:105-166 | settling the balances the fold produces nets every person's balance to exactly 0 |
| SettlementStatus.GetSettlementStatus | lib/expenseLogic.ts:170-177 | settled iff both confirmed, partial iff exactly one, pending iff neither |
| SettlementStatus.StatusCountsConfirmations | lib/expenseLogic.ts:174-176 | the status is symmetric in the two flags and its progress is the number of confirmations |
| SettlementStatus.ConfirmingNeverRegresses | lib/expenseLogic.ts:174-176 | adding a confirmation never moves the status backwards |
| ExpenseRoute.SomeBadNights | app/api/expenses/route.ts:66 | true iff some participant has missing, zero or sub-one nights |
| ExpenseRoute.ValidateCreateExpense | app/api/expenses/route.ts:57-70 | the first failing guard decides: "Missing required fields" iff title, amount, payer or participants is falsy/empty; otherwise the $0.01 error iff the amount is below 1; otherwise the nights error iff the request is lodging and some participant has no nights or fewer than 1; accepted iff every guard holds |
| ExpenseRoute.Respond | app/api/expenses/route.ts:57-70 | POST goes on exactly when the request is accepted; otherwise it answers status 400 with the non-empty error text of the guard that failed |
| ExpenseRoute.RepliesNameTheGuard | app/api/expenses/route.ts:58-68 | two rejections with the same error text come from the same guard, so the text identifies the failed check |
| ExpenseRoute.FractionalAmountAccepted | app/api/expenses/route.ts:61-63 | the amount guard admits a fractional amount: 1.5 cents with a title, payer and one participant is accepted |
| ExpenseRoute.TotalNightsAtLeastCount | app/api/expenses/route.ts:65-70 | when every nights is at least 1, the total is at least the participant count |
| ExpenseRoute.AcceptedMeetsAllocator | app/api/expenses/route.ts:57-70 | an accepted request has amount >= 1, at least one participant and, for lodging, total nights >= 1 |
| ExpenseRoute.NightsIgnoredUnlessLodging | app/api/expenses/route.ts:65-70 | for a non-lodging request the nights of the participants do not affect the verdict |
| ExpenseRoute.CategoryOrGeneral | app/api/expenses/route.ts:79 | an empty category becomes "general"; any other is kept |
| JsBuiltins.OrElse | components/ExpenseList.tsx:22 | `expense.category || 'general'`: a non-empty string is kept, the empty string falls back to the default |
| ExpenseRoute.ParticipantRows | app/api/expenses/route.ts:96-100 | one row per requested participant, in order, with the expense id and the same person id; nights only for lodging |
| ExpenseRoute.AcceptedRowsNights | app/api/expenses/route.ts:65-100 | the rows of an accepted lodging request all carry nights >= 1; a non-lodging request's rows carry none |
| ExpenseList.KnownPresentMembers | components/ExpenseList.tsx:29-34 | the known categories placed are exactly those of the fixed order that occur |
| ExpenseList.UnknownMembers | components/ExpenseList.tsx:36-40 | the categories appended are exactly the occurring ones outside the fixed order |
| ExpenseList.AddToGroup | components/ExpenseList.tsx:21-27 | one pass of the first loop: the group keys stay in first-appearance order and each group holds exactly its category's expenses so far |
| ExpenseList.CollectGroups | components/ExpenseList.tsx:19-27 | one group per category in first-appearance order, each holding that category's expenses in input order |
| ExpenseList.KnownGroups | components/ExpenseList.tsx:29-34 | the known categories that have groups, in the fixed order, with their groups |
| ExpenseList.PlaceGroup | components/ExpenseList.tsx:36-40 | one pass of the second loop: a group whose category is not placed yet goes last with its group, so the keys stay the known ones followed by the unknown ones seen so far |
| ExpenseList.AppendUnknownGroups | components/ExpenseList.tsx:36-40 | the other categories follow in first-appearance order, with their groups |
| ExpenseList.GroupByCategory | components/ExpenseList.tsx:18-43 | keys are the known categories present in the fixed order then the unknown ones by first appearance, distinct; a group exists exactly for each occurring category and holds its expenses in input order |
| ExpenseList.EmptyGroupIffAbsent | components/ExpenseList.tsx:21-27 | a category's group is empty iff no expense has that category, so no shown group is empty |
| ExpenseList.GroupMembers | components/ExpenseList.tsx:22-26 | a group holds exactly the expenses whose category (empty read as "general") is its key |
| ExpenseList.GroupedIsPermutation | components/ExpenseList.tsx:18-43 | concatenating the groups in key order gives a permutation of the input |
| GroceryCategories.GetCategoryOrder | components/GroceryCategoryHeader.tsx:16-21 | the rank is at most 7; below 7 it is the category's position in the order; it is 7 iff the category is unknown |
| GroceryCategories.RankIsPlace | components/GroceryCategoryHeader.tsx:16-21 | every listed category ranks at its own position |
| GroceryCategories.KnownRanks | components/GroceryCategoryHeader.tsx:16-20 | produce 0, protein 1, dairy 2, drinks 3, snacks 4, alcohol 5, other 6 |
| GroceryCategories.RanksOrderCategories | components/GroceryCategoryHeader.tsx:18-21 | distinct known categories rank differently; unknown categories rank after "other" and tie with each other |
| GroceryCategories.ConfigFor | components/GroceryCategoryHeader.tsx:6-24 | a listed category gets its own label and colour, anything else the "Other" configuration |
| GroceryCategories.ConfigsMatchOrder | components/GroceryCategoryHeader.tsx:6-24 | the configured categories are exactly the ranked ones, and an unranked one is labelled "Other" |
| Proxy.IsPublicRoute | proxy.ts:25-32 | public iff "/login", "/identify", or starting with the plain prefix "/api/auth" |
| Proxy.SigningSecret | proxy.ts:6-12 | the secret is usable iff it is set and at least 32 UTF-16 code units long |
| Proxy.AstralSecretIsUsable | proxy.ts:8 | sixteen characters outside the Basic Multilingual Plane make a usable secret, since `length` counts each twice |
| Proxy.IsAuthenticated | proxy.ts:14-37 | signed in iff a non-empty session token, a secret of at least 32 UTF-16 code units and a valid signature |
| Proxy.Gate | proxy.ts:34-53 | with signed in meaning a non-empty token, a secret of at least 32 UTF-16 code units and a valid signature: home redirect iff signed in on a public page; pass iff signed in on a private page or signed out on a public one; login redirect, carrying the path, iff signed out on a private page |
| Proxy.Route | proxy.ts:39-52 | signed in: public pages redirect home, others pass; signed out: public pages pass, others redirect to login with the original path |
| Proxy.NoTokenOrSecretMeansSignedOut | proxy.ts:8-37 | with no session token, or no usable secret, the decision is the signed-out one whatever the signature |
| Proxy.RedirectsSettle | proxy.ts:39-52 | the redirect targets do not redirect again: "/login" passes when signed out, "/" passes when signed in |
| Proxy.PrefixMatchesPastSegment | proxy.ts:30 | "/api/authx" and "/api/auth/logout" are public, "/login/" is not |

## Left out

- Person ids are an opaque type compared only for equality. The source uses strings.
- Amounts are unbounded integers. The double arithmetic of the source is not modelled: `totalCents / totalNights` is computed exactly, and the rounding follows the exact quotient. A float rounding error in the source would change the rounded shares, but not the sum-to-total property of the lodging split.
- ShareAllocation.EvenSplitSumsToTotal: stated only for a non-negative total. For a negative total the truncating `%` makes the shares sum to less than the total unless the count divides it (`EvenSplitOfNegativeTotal`). The route rejects such totals before allocation.
- ExpenseRoute.AcceptedMeetsAllocator: the guard at app/api/expenses/route.ts:61-63 admits any amount of at least 1, fractional ones included (`FractionalAmountAccepted`). The allocator takes a whole number of cents, so it does not cover such an amount. For one, the even split does not sum to the total: 1.5 over one person gives a share of 2, and 250.5 over two gives 126 and 125. The lemma and `ShareAllocation.ExpenseSharesSumToTotal` hold for whole-cent amounts only.
- Nights are integers in the allocator. The request guard reads them as JSON numbers (`real`).
- `Math.round` rounds half toward +infinity, so -2.5 rounds to -2. The model follows the code. It does not round half away from zero.
- NaN and non-numeric JSON values are not modelled. An amount or nights field is a number or absent.
- DebtSimplification.SettleNets: the per-person netting needs distinct person ids in the balance list. `calculateNetBalances` guarantees distinct ids (`BalanceOrderShape`); a list with a repeated id is outside that lemma.
- The array sort's comparator is modelled as a stable insertion sort by descending amount. The sort's in-place behaviour on the copied arrays is not modelled; `SortDescending` is a function.
- `calculateLodgingShares`' in-place update of `shares[0]` is modelled as building a new sequence.
- The category-config lookup by a JavaScript object does not model prototype keys such as "constructor". Only the seven listed categories are configured.
- `jwtVerify` is a boolean input to `IsAuthenticated`. The session cookie and the `JWT_SECRET` environment variable are optional inputs. The cookie store, URL building and `NextResponse` are not modelled.
- The request's Supabase inserts, the description and date defaults, and the 500 error paths are not part of this model. Neither is the reading of the request body.
- The callers that decide whether an expense is lodging, and the settlement recompute that persists transactions, are not part of this model. `isLodging` is a parameter.
