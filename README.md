# Expense splitter: balances, settlements and the expense write path

This project models the accounting core of a small expense-sharing web
service and proves what it computes.

- **Balance engine** (`calculateBalances`, `getPeople`). Expenses are folded
  into a ledger that maps each person to a signed balance. The payer of an
  expense is credited with its amount. Each participant is debited by a share
  that depends on the participant's split type:
  - `"percentage"`: that percentage of the amount;
  - `"exact"`: the share itself;
  - `"share"`: proportional units.

  An expense without participants is split equally among everybody mentioned
  anywhere in the expense list.
- **Settlement plan** (`getSettlements`). The ledger is split into creditors
  and debtors using a one-cent tolerance. Both lists are sorted once by
  decreasing amount. Then the debtor at the head of its list repeatedly pays
  the creditor at the head of its list the smaller of their two amounts,
  rounded to cents. A party left with less than a cent is dropped. The lists
  are not re-sorted, so after the first round the heads need not be the
  largest remaining parties. The plan does not always clear the ledger. The
  model proves how much it can leave. Taken before rounding, the loop
  settles one of the two lists to within a cent per party. When every
  expense's shares add up to its amount, it leaves at most two cents per
  person on either side. Rounding each payment to cents, and dropping those
  of a cent or less, shifts the amount moved by at most 1.5 cents per
  payment. So for such expenses the published plan leaves at most 3.5 cents per person on
  either side.
- **Write path** (`addExpense`, `updateExpense`). Creating an expense checks
  that the required fields are present and that the amount is positive. An
  update checks each supplied field and assigns it to the loaded document in
  turn, so a later check can refuse a request after earlier fields were
  assigned; nothing is saved then. When the amount changes and no participants are supplied,
  the stored participants are re-split into equal `"exact"` shares rounded to
  cents.

Money is `real` (exact rationals). `Math.round(x * 100) / 100` and
`parseFloat(x.toFixed(2))` are both `Money.Round2`, a half-up rounding to
cents. The three split types are the `SplitType` datatype, taken from the
schema's enum.

Modules, one per file:

| file | module | contents |
|---|---|---|
| `wrappers.dfy` | `Wrappers` | `Option`, `Result` |
| `money.dfy` | `Money` | tolerance, `Abs`, `Min`, `Round2` |
| `expense_model.dfy` | `ExpenseModel` | the expense record and the split-type enum |
| `balances.dfy` | `Balances` | the balance fold as recursive functions (`BalancesOf`, `KeysOf`), and the controller's loops (`CollectPeople`, `CalculateBalances`) proved equal to them |
| `balance_properties.dfy` | `BalanceProperties` | what the ledger means: its keys, each person's balance, conservation, what the shares add up to |
| `settlement.dfy` | `Settlement` | partition, sort, the greedy loop as a function (`Greedy`, `Emit`, `PlanOf`), and the loop itself (`Settle`, `GetSettlements`) proved equal to it, with the plan's properties |
| `expense_controller.dfy` | `ExpenseController` | `AddExpense`, the update's reference definition `UpdateSpec`, and the imperative `UpdateExpense` over an `ExpenseDocument` object proved equal to it |

JavaScript object key order matters here. `getSettlements` visits the ledger
with `for ... in`, and the visit order decides the order of the creditor and
debtor lists, and so the tie order of the sort. `CalculateBalances`
therefore returns the ledger together with its key-creation order, and
`KeysOf` specifies that order: each person at the point where the fold first
posts to them.

Requests are modelled as values. The expense list, the stored expense and
the request body are parameters of the handlers. The database, HTTP and
`async` plumbing around them are not modelled.

## Model

| member | source | states |
|---|---|---|
| Money.Round2 | controllers/settlementController.js:137 | the rounded amount is a whole number of cents within half a cent of the input (half up) |
| Money.Round2OfCents | controllers/settlementController.js:137 | rounding an amount that is already whole cents returns it unchanged |
| Money.Round2Idempotent | controllers/expenseController.js:100 | a re-split share is already rounded to cents, so rounding it again keeps it |
| ExpenseModel.ParseSplitType | models/expenseModel.js:21 | exactly the three enum spellings are accepted; parsing inverts `SplitTypeName` in both directions |
| Balances.AddNames | controllers/settlementController.js:13 | adding the participant names to the insertion-ordered set appends each name not yet present, in order |
| Balances.CollectPeople | controllers/settlementController.js:9-15 | the people set (also the one `getPeople` builds at lines 80-85) lists every payer and participant mentioned, each exactly once, in order of first mention |
| Balances.Post | controllers/settlementController.js:21-26 | a missing entry is created at 0 and becomes the last key; then the balance moves by `delta`, and no other person's balance changes |
| Balances.ComputeShare | controllers/settlementController.js:36-51 | the split-type dispatch computes the participant's `ShareAmount`; units are counted over "share"-typed participants only, and the share is 0 when they total 0 |
| Balances.DebitOne | controllers/settlementController.js:30-55 | one participant is debited by its share, and the rest of the fold continues from that ledger |
| Balances.DebitEach | controllers/settlementController.js:29-55 | the participants loop debits each participant in order, and creates keys for new participants in order |
| Balances.DebitPerson | controllers/settlementController.js:60-64 | the `allPeople.forEach` callback creates a missing entry last in key order and debits that person by the equal part, leaving everybody else unchanged |
| Balances.DebitAll | controllers/settlementController.js:56-65 | the equal-split loop debits everybody in `allPeople` by the same part |
| Balances.CalculateBalances | controllers/settlementController.js:4-70 | the ledger is the fold `BalancesOf` of the expense list; its key order is `KeysOf`, each key listed once |
| BalanceProperties.PayerKnown | controllers/settlementController.js:9-15 | every payer is in `allPeople`, so the equal split's divisor at line 58 is positive |
| BalanceProperties.BalancesKeys | controllers/settlementController.js:22-24 | the ledger has an entry for exactly the people the expense list mentions; an empty list gives an empty ledger |
| BalanceProperties.KeysOfSpec | controllers/settlementController.js:115 | the key order visited by `for ... in` lists each mentioned person exactly once, as many keys as people |
| BalanceProperties.ApplyExpenseAt | controllers/settlementController.js:17-66 | one expense credits its payer with exactly its amount and debits each person by what that person owes for it; nobody else changes |
| BalanceProperties.PersonBalance | controllers/settlementController.js:4-70 | a person's balance is what that person paid minus what that person owes, summed over all expenses |
| BalanceProperties.SumApplyExpense | controllers/settlementController.js:26 | one expense raises the sum of all balances by its amount minus what its shares allocate; an equal split allocates all of it |
| BalanceProperties.BalancesSum | controllers/settlementController.js:4-70 | the balances of all people add up to the part of the amounts that the participant shares leave unallocated |
| BalanceProperties.Conservation | controllers/settlementController.js:54 | when every expense's shares add up to its amount, the balances add up to zero |
| BalanceProperties.OwedSplit | controllers/settlementController.js:36-54 | an expense's debits add up to amount·Σpercent/100 + Σexact + amount·units/totalUnits, with the unit term 0 when the unit total is not positive |
| BalanceProperties.OwedOwnUnits | controllers/settlementController.js:44-50 | with the unit total taken over the expense's own participants, the "share"-typed participants together owe the whole amount when that total is positive |
| BalanceProperties.FullyAllocatedIff | controllers/settlementController.js:29-55 | an expense with participants allocates exactly its amount iff amount·Σpercent/100 + Σexact (+ amount when there are units) equals the amount |
| Settlement.Partition | controllers/settlementController.js:115-121 | the `for ... in` loop builds exactly the creditor and debtor lists, in key order |
| Settlement.CreditorsSound | controllers/settlementController.js:116-117 | every creditor is a person in the ledger owed more than a cent, recorded with its balance |
| Settlement.CreditorsComplete | controllers/settlementController.js:116-117 | every person owed more than a cent is a creditor |
| Settlement.CreditorsDistinct | controllers/settlementController.js:115-117 | nobody is listed twice as a creditor |
| Settlement.DebtorsSound | controllers/settlementController.js:118-119 | every debtor is a person owing more than a cent, recorded with the absolute value of its balance |
| Settlement.DebtorsComplete | controllers/settlementController.js:118-119 | every person owing more than a cent is a debtor |
| Settlement.DebtorsDistinct | controllers/settlementController.js:115-119 | nobody is listed twice as a debtor |
| Settlement.Disjoint | controllers/settlementController.js:116-118 | nobody is both a creditor and a debtor |
| Settlement.PartitionSize | controllers/settlementController.js:115-121 | there are never more creditors and debtors together than people in the ledger |
| Settlement.SortDescSpec | controllers/settlementController.js:124-125 | the sorted list is ordered by decreasing amount and is a permutation of its input |
| Settlement.MagnitudeSort | controllers/settlementController.js:124-125 | sorting changes no person's total amount |
| Settlement.PayHead | controllers/settlementController.js:147-156 | the head's amount is reduced in place, and the head is shifted off once it is below a cent |
| Settlement.EmitAppend | controllers/settlementController.js:137-145 | the rounding and filtering of payments distributes over concatenation of the loop's steps |
| Settlement.EmitFrom | controllers/settlementController.js:137-145 | every published payment is a step of the loop, with the same payer and payee and its amount rounded to cents |
| Settlement.GreedyLength | controllers/settlementController.js:130-157 | the loop makes no payment when either list is empty, and at most \|creditors\| + \|debtors\| − 1 otherwise |
| Settlement.GreedyEndpoints | controllers/settlementController.js:131-144 | every payment goes from a person of the debtor list to a person of the creditor list |
| Settlement.GreedyPositive | controllers/settlementController.js:134 | when every party has at least a cent, every step moves at least a cent |
| Settlement.GreedyBounds | controllers/settlementController.js:134-148 | nobody pays more in total than the debtor list says it owes, and nobody receives more than the creditor list says it is owed |
| Settlement.PlanParties | controllers/settlementController.js:115-145 | every published payment goes from a person owing more than a cent to a person owed more than a cent, for more than a cent |
| Settlement.PlanLength | controllers/settlementController.js:130-157 | the plan is empty when nobody owes or nobody is owed; otherwise it has fewer payments than the ledger has people |
| Settlement.PlanBounds | controllers/settlementController.js:134-148 | the unrounded amounts a person pays never exceed its debt, and those it receives never exceed its credit |
| Settlement.StepsPositive | controllers/settlementController.js:116-134 | every step of the loop on a ledger moves at least a cent |
| Settlement.GreedyUnsettled | controllers/settlementController.js:130-157 | neither list pays or receives more than its total, and when the loop stops one of the two lists is settled to within a cent per party |
| Settlement.TotalSort | controllers/settlementController.js:124-125 | sorting keeps the total of a list |
| Settlement.CreditorsMinusDebtors | controllers/settlementController.js:115-121 | the creditors' total minus the debtors' total is the sum of the balances, to within a cent per person (those within a cent of zero are in neither list) |
| Settlement.PlanUnsettled | controllers/settlementController.js:111-157 | taken exactly, the loop moves no more than the creditors' total or the debtors' total, and leaves one of the two sides settled to within a cent per party |
| Settlement.EmitMoved | controllers/settlementController.js:137-145 | rounding each payment to cents and leaving out those of a cent or less changes the amount moved by at most 1.5 cents per step |
| Settlement.SumOverPermutation | controllers/settlementController.js:115 | the sum of the balances does not depend on the order in which the people are visited |
| Settlement.AllocatedPlanLeaves | controllers/settlementController.js:4-163 | when every expense's shares add up to its amount, the loop (taken exactly) leaves at most two cents per person unsettled on the creditors' side and on the debtors' side |
| Settlement.AllocatedPublishedLeaves | controllers/settlementController.js:4-163 | when every expense's shares add up to its amount, the published plan, rounded to cents, leaves at most 3.5 cents per person unsettled on either side, and moves at most half a cent per person more than either side's total |
| Settlement.Settle | controllers/settlementController.js:111-157 | the partition, the sorts and the pairing loop with in-place updates and shifts publish exactly `PlanOf` of the ledger and its key order |
| Settlement.GetSettlements | controllers/settlementController.js:108-163 | publishes exactly `PlanOf` of the expense list's ledger, visited in its key order; each payment goes from a debtor to a creditor for more than a cent; there are fewer payments than people |
| ExpenseController.AddExpense | controllers/expenseController.js:20-33 | stored iff description, amount and payer are present and non-empty and the amount is positive; fields as given, participants default to empty; a zero amount is refused as missing, so the positivity check only refuses negative amounts |
| ExpenseController.CheckEntry | controllers/expenseController.js:84-92 | an entry passes iff its name is a non-blank string and its share is a non-negative number |
| ExpenseController.CheckEntries | controllers/expenseController.js:83-93 | the entries pass iff every one is well formed; otherwise the rejection is that of the first failing entry |
| ExpenseController.CheckEach | controllers/expenseController.js:83-93 | the `for ... of` loop with early returns gives the first failing entry's rejection |
| ExpenseController.CastParticipant | controllers/expenseController.js:94 | a well-formed entry is stored with its name and share, and its type if the enum admits it (default "exact"); an entry outside the enum cannot be stored |
| ExpenseController.CastParticipants | controllers/expenseController.js:94 | the supplied list is stored entry for entry, or not at all |
| ExpenseController.Resplit | controllers/expenseController.js:101-105 | each participant keeps its name; its share becomes the new share and its type "exact" |
| ExpenseController.UpdateSpec | controllers/expenseController.js:43-116 | saved iff the expense exists and every check passes; a non-positive amount is refused; supplied fields replace stored ones and others are kept; supplied participants replace the list entry for entry, each with its name, share and type (default "exact"); a changed amount alone re-splits to round2(amount/n) each; otherwise the participants are untouched |
| ExpenseController.UpdateExpense | controllers/expenseController.js:43-116 | the handler, which mutates the loaded document step by step, saves exactly what `UpdateSpec` defines, or returns its rejection before anything is saved |
| ExpenseController.UpdateEmptyRequest | controllers/expenseController.js:55-108 | an update that supplies nothing saves the expense unchanged |
| ExpenseController.UpdateIdempotent | controllers/expenseController.js:43-116 | applying the same update to its own result gives the same result |

## Left out

- Database access (`Expense.find`, `findById`, `create`, `save`) is not modelled. The expense list and the stored expense are parameters. An update's result is the record `save` would write, and a rejection returns before `save`, so the stored value is untouched.
- HTTP handling is not modelled: requests, responses, status codes, messages, the route files and the server setup. Rejections are the `Rejection` datatype.
- `async`/`await` is not modelled: each handler runs sequentially over one snapshot.
- IEEE-754 floating point is not modelled. Amounts are exact rationals and rounding to cents is explicit, so float drift is outside the model.
- JavaScript's ordering of integer-like property names (for example a person named "7") ahead of the others is not modelled. `KeysOf` is the creation order, which JavaScript uses for every other name.
- Names inherited from `Object.prototype` are not modelled. For a person named "toString", "constructor", "valueOf" and so on, `balances[x]` first reads an inherited function. A person named "__proto__" is never stored at all. The model gives every name an ordinary balance starting at 0, so `PersonBalance` and `Conservation` describe the intended ledger for such names, not what the service computes.
- Settlement.GetSettlements: the plan is not promised to clear the ledger, because the service does not clear it. Take the ledger A +0.0245, E +0.0055, X −0.015, Y −0.015, which sums to zero. It arises from two fully allocated expenses with exact shares: A pays 0.03 for X and Y, then E pays 0.0055 for A. E is within a cent of zero, so it is in neither list. X pays A 0.015, which rounds to a published 0.02. A then has less than a cent left, so the creditor list is empty and Y still owes 0.015. What the model proves instead is a bound: `PlanUnsettled` and `AllocatedPlanLeaves` bound what the loop leaves before rounding, `EmitMoved` bounds the effect of rounding, and `AllocatedPublishedLeaves` bounds what the published plan leaves.
- `getExpenses`, `deleteExpense` and `getBalances` are left out. They only pass data through storage or return `calculateBalances` unchanged.
- ExpenseController.AddExpense: the request fields are typed (string, real, participant list). Truthiness and `amount <= 0` on values of other JSON types (strings, booleans, NaN) are not modelled. Neither is the schema's casting when such a record is created.
- ExpenseController.UpdateSpec: `amount` is typed `real`, so a supplied amount of another JSON type is not modelled. The schema's casting at `save` is modelled only for participant types outside the enum, which give `SaveRejected`.
- ExpenseController.UpdateExpense: the in-memory document is modified before a later check can reject the request. That document is discarded unsaved, so the model only returns the rejection.
- ExpenseController.Resplit: the Mongoose document fields other than name, share and type (such as `_id`) are not part of the participant record.
- Settlement.SortDescSpec: the contract states order and permutation only. The model sorts by a stable insertion sort. Its tie order among equal amounts is that of any stable sort, which `Array.prototype.sort` is required to be, but no contract constrains it.
- The code does not check that split types are in the enum, that percentages are at most 100, or that exact shares sum to at most the amount, and the model claims no such check. `BalanceProperties.FullyAllocatedIff` states when the shares add up to the amount, and `BalancesSum` states what the balances add up to otherwise.
- `addExpense` stores the description untrimmed and accepts a blank one, while `updateExpense` refuses a blank description. The model follows each handler as written.
