# Agent purchases: a Dafny model of the money paths

This project models the parts of the repository that move money on behalf of an
agent, and proves what they promise over whole runs: the mandate budget tree and
the purchase saga of the agent lane, sticky human approvals, the compare-and-swap
reservation store, the signed evidence ledger and the partitioned evidence chain,
the three at-most-once capture paths (Rappi bridge, rail, merchant charge), the
rate limiter, the outbox relay, SD-JWT, the two JsonLogic evaluators, the agent's
graph loop, the idempotency-claim store and the velocity counters.

`dafny verify dfyconfig.toml` checks everything. Each file holds the one module it
is named after.

| files | subject |
|---|---|
| `BudgetTree`, `BudgetBooks`, `BudgetForest` | mandate rows, `chain`, reserve, settle, release; runs and sums; conservation on the tree |
| `Purchase`, `Escalation` | the gate, `verify`, the saga; approvals, timeouts and the derived mandate |
| `Reservation` | read and guarded UPDATE by any number of interleaved callers |
| `HashChain`, `Ledger`, `LedgerProofs`, `LedgerTamper` | events, root signatures, witness, verification; what it proves about the past |
| `AgentAudit` | one hash chain per mandate or agent, one signed root |
| `Bridge`, `BridgeRace`, `Rail`, `Checkout` | one click, overlapping workers, one settlement, one charge |
| `RateLimit`, `Relay`, `Velocity`, `Idempotency` | token bucket and counters, outbox, minute buckets, claims |
| `Delimited`, `SdJwt`, `SdJwtProofs` | issue, present, split and verify (RFC 9901) |
| `JsonLogic` | the kernel's evaluator and the contract mock's |
| `AgentRun` | the bounded graph loop |

## How the model reads the code

- Money is integer cents, because the code quantises to two decimals everywhere.
  Tokens and times of the rate limiter are reals.
- Objects whose methods update fields or table rows are classes over maps and
  sequences. Each method is proved against a function of the old state, and the
  properties are proved about those functions and about runs of them.
- SHA-256 over canonical JSON is ideal: a digest is a datatype value that holds
  what was hashed, so equal digests have equal contents and none is the genesis
  value. Signatures and HMAC-derived keys are ideal in the same way.
- One SQL statement is one atomic step. Where the code guards its writes
  (`Reservation`), where a primary key decides (`Rail`), where rows are claimed
  with SKIP LOCKED (`Relay`) and for workers on one bridge key (`BridgeRace`), all
  interleavings of the steps are covered. The agent kernel, whole bridge calls, the
  limiter and the claim store are covered over serial series of calls, with crashes
  where the code persists checkpoints and exceptions around the kernel's money steps.
- Replies from merchants, Rappi, the rail, the model and the clock are arbitrary
  inputs. In the kernel, `stale` gives what a SELECT returned where somebody else
  committed to the row before the guarded UPDATE.
- An absent `parent_jti`, mandate or agent id is the empty string, which the code
  tests by truthiness.

## What the proofs found

- **Negative prices.** The kernel does not refuse them. With one open beside an
  ordinary reservation, giving the ordinary one back leaves the column off by the
  refund (`BudgetForest.NegativeAmountBreaksConservation`). Spent and count are exact
  at any amounts; reserved is exact after a run if and only if the floor at zero took
  nothing on the way (`BudgetBooks.RunKeepsHeld`); and all of it holds at every point
  if and only if every step is gentle (`BudgetBooks.RunConservesExactlyWhenGentle`),
  which without negative amounts every step is (`BudgetBooks.RunKeepsBalance`).
- **Sticky approvals are once-only per serial submission.** The purchase count is
  read at the gate and written at settlement, so two overlapping purchases are both
  captured if and only if their sum fits (`Escalation.OverlapCapturesTwice`). The
  approved total and every ancestor's budget hold for overlapping ones too
  (`Escalation.StickyAmountHolds`).
- **A plain approval buys nothing while nothing moved**: the retry asks the human
  again (`Escalation.PlainApprovalBuysNothing`); a sticky one buys it
  (`Escalation.StickyApprovalBuys`).
- **Signing over a partly signed range** leaves a ledger that never verifies again,
  whatever is appended or signed afterwards: a run ends verifiable if and only if no
  step of it did (`LedgerProofs.RunVerifiesExactlyWhenClean`). Default ranges never do.
- **Dropped signatures.** Verification looks up the witness only for ranges that
  still show a signature, so everything after the last shown range can be rewritten
  (`LedgerTamper.TailCanBeRewritten`). A shown range protects exactly what lies before
  its end (`LedgerTamper.ShownRangeProtectsExactly`).
- **Unlisted chains.** In the agent lane, rows under a key with no `chains` entry are
  outside every check (`AgentAudit.UnlistedRowsGoUnseen`).
- **Overlapping bridge workers can click twice.** Four checkpoints are written without
  an expected state, although src/rappi_bridge/state.py:110-111 says two workers can
  never walk the machine past each other. At most one click may buy something if no
  checkpoint is written over a click (`BridgeRace.RacingClickOnce`), and whenever one
  is, two can (`BridgeRace.LandingClicksTwice`).
- **A 402 may follow a capture.** `ChargeRefused` is documented as raised before the
  rail is invoked (src/merchant/charge.py:21-22), but lines 133-134 raise it for any
  rail error. It covers a capture exactly when the reply to a cleared request with a
  new key was lost (`Checkout.DeclinedYetCharged`).
- **A failed run may have paid.** src/agent/graph.py:411-413 and 454 say that a run
  that cannot finish never pays. An exception after the settlement, a deadline or a
  step budget reached after it ends the run failed with the money spent
  (`AgentRun.PaidRunIsDoneExactlyWhen`), and one between reservation and settlement
  leaves the price reserved for good (`AgentRun.FailingTurnMovesMoneyExactlyWhen`).
- **A clock that goes back** stores an early time, and the stretch up to the present is
  refilled again. The bound grows by exactly that much (`RateLimit.AnyClockBound`,
  `RateLimit.ClockSetBackRefillsTwice`).
- **Two JsonLogic nodes divide the evaluators**: an `in` that looks for the empty text
  in the empty text (`JsonLogic.MembershipAgrees`), and a comparison of numbers whose
  printed decimals are not in their order, such as the float 1e23 beside the integer
  with those digits (`JsonLogic.OrderAgrees`, `JsonLogic.FloatBesideInteger`).
- **Empty components.** The text an SD-JWT verifier rebuilds equals the text the holder
  hashed if and only if no component between separators is empty
  (`SdJwtProofs.RebuiltTextIsHashedText`).

## Model

| member | source | states |
|---|---|---|
| BudgetTree.Kernel.ChainOf | src/agent/kernel.py:299-314 | the loop returns the ancestry of a mandate, child first, and ends on every table of parents |
| BudgetTree.ChainIsAncestry | src/agent/kernel.py:299-314 | for any parents, cycles included: no mandate is repeated, the first is the one asked for, and no ancestor is left out |
| BudgetTree.WalkFrame | src/agent/kernel.py:308-314 | a chain depends on the parent links of the rows it visits and on nothing else |
| BudgetTree.Kernel.CompareAndSwap | src/agent/kernel.py:330-345 | one guarded UPDATE: the reserved amount is written, and one row counted, exactly when the row is active and still has the reserved, spent and count columns that were read |
| BudgetTree.Kernel.ReserveChain | src/agent/kernel.py:317-347 | succeeds exactly when every row of the ancestry exists, is active, can cover the amount and still reads as it was read; then each carries the amount; otherwise the rows before the first that could not be had got it back, which with no row reserved below zero is every row as it was |
| BudgetTree.Kernel.ReserveRows | src/agent/kernel.py:319-347 | the loop: all rows of the list, or the exact rows left by giving back those before the first obstacle |
| BudgetTree.Kernel.ReserveRow | src/agent/kernel.py:321-346 | one row is reserved exactly when it is there, active, covers the amount and still reads as it was read |
| BudgetTree.Kernel.Unreserve | src/agent/kernel.py:350-355 | the amount leaves `reserved` of each listed row that exists, never below zero, and nothing else changes |
| BudgetTree.Kernel.Release | src/agent/kernel.py:358-360 | the whole ancestry gives the amount back |
| BudgetTree.Kernel.Settle | src/agent/kernel.py:363-385 | on every existing row of the ancestry the amount leaves reserved, never below zero, and is spent, the count goes up by one, and whatever its status was the row is exhausted if its spend now reaches its budget and otherwise keeps its status; no other row changes |
| BudgetTree.Kernel.Issue | src/agent/mandate.py:39-86 | a fresh, active row with empty money columns and the given parent |
| BudgetTree.Kernel.SetStatus | src/agent/mandate.py:132-136 | only the status of the named row changes, and a missing row is left missing |
| BudgetTree.GivenBack | src/agent/kernel.py:317-360 | taking an amount and giving it back leaves the rows but for the floor at zero, and leaves them exactly as they were if and only if none of them was reserved below zero |
| BudgetTree.RefusedAt | src/agent/kernel.py:321-345 | the first row that cannot be had decides the whole answer and what is given back |
| BudgetBooks.IssueKeepsSums | src/agent/mandate.py:39-86 | issuing a mandate changes no ancestry and no sum, and nothing is charged to the new row |
| BudgetBooks.SumsMove | src/agent/kernel.py:317-385 | each operation moves exactly its own share between the sums of open and of settled intents charged to a row |
| BudgetBooks.StepKeepsSpend | src/agent/kernel.py:317-385 | at any amounts, no operation makes `spent` or `txn_count` differ from the sums of settled intents |
| BudgetBooks.StepDrift | src/agent/kernel.py:350-369 | at any amounts, an operation moves `reserved` away from the sum of open intents by exactly what the floor at zero takes, which can be read off the row before it |
| BudgetBooks.RunKeepsSpend | src/agent/kernel.py:299-385 | over every serial run of issue, reserve, settle, release and status changes, at any amounts and every depth: spent is the sum of settled intents whose ancestry contains the row, and the count their number |
| BudgetBooks.RunKeepsHeld | src/agent/kernel.py:299-385 | over every such run: at the end every reserved column is the sum of the open intents charged to it if and only if at no step a row had less reserved than it was to give back |
| BudgetBooks.StepConserves | src/agent/kernel.py:317-385 | at any amounts, an operation keeps everything exact and every row within its budget (a negative budget counting as zero) if and only if the floor takes nothing and a release leaves room |
| BudgetBooks.RunConservesExactlyWhenGentle | src/agent/kernel.py:299-385 | books are exact and within budget at every point of a run if and only if every step meets that condition |
| BudgetBooks.OpenIntentIsReserved | src/agent/kernel.py:350-369 | without negative amounts every row charged for an open intent has at least its amount reserved |
| BudgetBooks.RunKeepsBalance | src/agent/kernel.py:299-385 | without negative amounts every step meets the condition: over every serial run spent, reserved and count are the sums over the intents charged to the row, and spent + reserved never exceeds the larger of zero and the budget |
| BudgetBooks.ExhaustedExactlyWhenSpent | src/agent/kernel.py:363-385 | over every serial run without negative amounts, a mandate whose status nobody sets is exhausted if and only if it has bought something and its spend has reached its budget, and is active until then |
| BudgetBooks.ConservationFromEmpty | src/agent/kernel.py:299-385 | all of these for any run that starts with no mandates |
| BudgetForest.ChainCons | src/agent/kernel.py:308-314 | on a forest a chain is the mandate followed by the chain of its parent, in which it does not occur |
| BudgetForest.ReachesThroughOneChild | src/agent/kernel.py:299-307 | an ancestry that reaches a mandate starts there or passes through exactly one of its children |
| BudgetForest.ParentSpendIsOwnPlusChildren | src/agent/kernel.py:302-307 | a parent has spent its own purchases plus what its children spent, at any amounts |
| BudgetForest.ParentCoversChild | src/agent/kernel.py:302-307 | without negative amounts a child never spends what its parent was not charged for |
| BudgetForest.IssueKeepsForest | src/agent/mandate.py:39-86 | issuing under an existing parent, or none, makes no cycle, and the new chain is the new mandate before its parent's chain |
| BudgetForest.RunKeepsForest | src/agent/mandate.py:39-110 | every run that issues under existing parents keeps the parents a forest |
| BudgetForest.TreeConservation | src/agent/kernel.py:299-385 | after every such run from an empty table, at any amounts and every node: spent = own purchases + the sum of the children's spent |
| BudgetForest.RefundIsAdmitted | src/agent/kernel.py:326-345 | a reservation of a negative amount is granted beside an ordinary one |
| BudgetForest.NegativeAmountBreaksConservation | src/agent/kernel.py:326-354 | a negative reservation beside an ordinary one is admitted, and releasing the ordinary one leaves a wrong column |
| Purchase.PurchaseDesk.CheckAncestors | src/agent/kernel.py:186-194 | true exactly when a known ancestor above the mandate is not active |
| Purchase.PurchaseDesk.CheckAlive | src/agent/kernel.py:152-203 | checks 1 and 2 in order, with the reason of the first that fails |
| Purchase.PurchaseDesk.Verify | src/agent/kernel.py:146-289 | the three checks in order; the reservation is tried exactly when all pass and nothing is raised before it, and otherwise only an expiry is recorded |
| Purchase.PurchaseDesk.Charge | src/agent/kernel.py:538-651 | settled if the rail accepts, given back if it refuses, left reserved if something is raised in between |
| Purchase.PurchaseDesk.SubmitPurchase | src/agent/kernel.py:410-651 | the whole saga: its answer and the rows it leaves, for every table, offer, signature, clock, stale read, rail reply and point of an exception |
| Purchase.OnlyPaymentsMoveMoney | src/agent/kernel.py:475-535 | a submission that neither pays nor dies on an open reservation leaves every money column, claim and parent as it found them (a row reserved below zero may be raised to zero) |
| Purchase.PaidExactlyWhenAuthorised | src/agent/kernel.py:146-254 | a submission pays if and only if the token and proof hold, the intent is fresh, the price is the live one, scope, currency, count, per-purchase limit and condition are met, the mandate is inside its validity window, every row of its ancestry is active, covers the price and still reads as it was read, the rail accepts and nothing is raised before the settlement; it is answered captured if and only if nothing is raised after it either |
| Purchase.PaymentChargesAncestry | src/agent/kernel.py:363-385 | a payment charges exactly the live price and one purchase to every row of the ancestry, leaves exhausted exactly those that reach their budget with it and active the rest, and changes no other row |
| Purchase.AsksTheHumanExactlyWhen | src/agent/kernel.py:105-141 | a human is asked about the amount if and only if everything but the per-purchase limit is met, and about the condition if and only if everything is met but a signed condition that evaluates to false; over the quota the call raises instead, and else only for an unknown mandate |
| Purchase.RefusedOnIdentity | src/agent/kernel.py:152-203 | the exact condition of each refusal for signature, possession, revocation (own or above), suspension, exhaustion and dates |
| Purchase.RefusedOnTerms | src/agent/kernel.py:76-89 | the exact condition of each refusal for the merchant, the live price and the scope |
| Purchase.RefusedOnLimits | src/agent/kernel.py:90-141 | the exact condition of each refusal for the count, the currency, a condition that cannot be evaluated, and the budget of the mandate or of any row of its ancestry |
| Purchase.OnlyExpiryIsRecorded | src/agent/kernel.py:195-203 | without a payment the only status a submission changes is that of a mandate it finds run out, exactly then |
| Purchase.DiesExactlyWhen | src/agent/kernel.py:410-651 | when an exception leaves the call having done nothing, and that what is captured, held or spent otherwise is the price of the intent |
| Purchase.SubmitIsARun | src/agent/kernel.py:410-651 | every submission, at any price and however it ends, is a run of the budget operations |
| Purchase.SubmitKeepsSpend | src/agent/kernel.py:410-651 | at any price a submission keeps spent and count exact |
| Purchase.SubmitConserves | src/agent/kernel.py:410-651 | at any price, with no row reserved below zero, a submission keeps the books exact and within budget, however it ends |
| Purchase.SubmitKeepsTree | src/agent/kernel.py:410-651 | no submission adds, drops or re-parents a mandate or changes its signed claims |
| Purchase.SubmitKeepsBalance | src/agent/kernel.py:410-651 | every submission is a run of the budget operations and keeps the books balanced |
| Escalation.EscalationDesk.Expire | src/agent/escalation.py:169-196 | only a pending question expires; it becomes a TIMEOUT and its purchase is denied |
| Escalation.EscalationDesk.Resolve | src/agent/escalation.py:97-166 | a settled question is replayed without effect; a late answer expires it; a rejection denies the purchase; only an approval in time re-enters the saga, and the answer is stored |
| Escalation.EscalationDesk.Sweep | src/agent/escalation.py:268-273 | exactly the pending questions past their deadline are expired, with their purchases denied, and nothing else changes |
| Escalation.SweepExactly | src/agent/escalation.py:268-273 | a sweep expires a question if and only if it is pending past its deadline, as its own timeout would, and denies a purchase if and only if such a question asked about it |
| Escalation.SettledQuestionIsFinal | src/agent/escalation.py:104-112 | after its first answer or timeout a question never changes and is never retried |
| Escalation.AtMostOneRetry | src/agent/escalation.py:97-196 | over any series of answers and sweeps a question is retried at most once, only on APPROVE, and never by silence |
| Escalation.FirstDecisionStands | src/agent/escalation.py:97-196 | over any series of answers and sweeps: a question waits until the first answer or late sweep, keeps what that decides, and is retried if and only if that is an approval in time whose offer can be rebuilt |
| Escalation.ClosingExactly | src/agent/escalation.py:113-196 | what an answer that buys no retry replies and does to each purchase: denied for the timeout when late, denied for the human on REJECT, left waiting when it cannot be carried out, and no other purchase touched |
| Escalation.ApprovalIsNoBypass | src/agent/escalation.py:199-265 | whatever is approved, sticky or not, the retry pays if and only if everything that authorises a purchase holds anew, on the mandate that asked or on the derived one, whose claims are stated in full |
| Escalation.StickyGate | src/agent/escalation.py:239-257 | the gate of a derived mandate never asks a human, and approves exactly the first purchase in scope and currency that the approved amount still covers |
| Escalation.StickyRetrySucceeds | src/agent/escalation.py:199-265 | from the submission that was escalated on an active mandate: with the offer unmoved, the sticky retry is reserved if and only if the exception has not run out (its parent's last day, or thirty days) and that mandate's ancestry can cover it, which for a root mandate it can, and then only the rail can refuse |
| Escalation.StickyApprovalBuys | src/agent/escalation.py:199-265 | the answer of a sticky approval of such a question, retried as `_retry` does: captured at the asked price on the new mandate, which it exhausts, and charged to the one that asked, unless it has run out, the ancestry does not cover it, or the rail refuses |
| Escalation.PlainApprovalAsksAgain | src/agent/escalation.py:207-265 | with nothing but the clock moved, a plain approval is answered by asking the human again |
| Escalation.PlainApprovalBuysNothing | src/agent/escalation.py:207-265 | so the retry of a plain approval is answered by the same question, with every row as it was and no mandate added |
| Escalation.StickyStarts | src/agent/escalation.py:239-257 | issuing the derived mandate starts it with balanced books and no capture |
| Escalation.FirstCaptureOnly | src/agent/escalation.py:250-254 | a capture on a derived mandate finds none before it |
| Escalation.TurnKeepsSticky | src/agent/escalation.py:239-265 | no submission, issue or status change lets a derived mandate capture twice |
| Escalation.StickyIsBounded | src/agent/escalation.py:199-265 | from the issue of the derived mandate, over every later serial run, it captures at most once, at most the approved amount, all of it charged to every ancestor, whose budgets hold |
| Escalation.StickyAmountHolds | src/agent/escalation.py:199-265 | for overlapping purchases too, in any order of their reservations, settlements and releases: at most the approved amount is captured, all of it charged to every ancestor, whose budgets hold |
| Escalation.DirectIsCharged | src/agent/kernel.py:302-307 | whatever is captured on a mandate is counted on each of its ancestors |
| Escalation.SecondPurchaseWhileOneIsOpen | src/agent/kernel.py:90-108 | while one reservation is open a second purchase passes the gate exactly when both fit the approved amount |
| Escalation.OverlapCapturesTwice | src/agent/escalation.py:239-265 | two overlapping purchases on one derived mandate both pass the gate and reserve if and only if both are in scope and currency and their sum fits the approved amount and the parent's ancestry |
| Escalation.OverlapChargesBoth | src/agent/kernel.py:363-385 | and then both are counted and charged, on the derived mandate and on its parent |
| Reservation.ReservationStore.Reserve | src/api/decision/repository_postgres.py:591-657 | a replayed key answers the recorded id; otherwise the outcome and the row are those of the atomic reservation |
| Reservation.ReservationStore.Release | src/api/decision/repository_postgres.py:659-709 | an unknown id or mandate changes nothing; otherwise the outcome and the row are those of the atomic release |
| Reservation.ReservationStore.Update | src/api/decision/repository_postgres.py:638-657 | the UPDATE writes the computed values exactly when the row still reads as it was read |
| Reservation.GuardedWriteIsSerial | src/api/decision/repository_postgres.py:638-657 | values computed from a read whose guard still matches are the ones the atomic operation would write |
| Reservation.GrantedExactlyWhen | src/api/decision/repository_postgres.py:610-709 | the atomic reservation is granted if and only if the mandate is active, the amount fits what is neither spent nor reserved and one more purchase fits the cap, and a release if and only if so much is reserved; then exactly that moves |
| Reservation.EveryTryIsAnswered | src/api/decision/repository_postgres.py:638-657 | an UPDATE wins if and only if the guarded columns still read as they were read, its caller is told so, and exactly a winner is logged |
| Reservation.StepKeepsLinear | src/api/decision/repository_postgres.py:591-709 | every read, guarded UPDATE or foreign write of any caller keeps the row equal to the serial run of the winners |
| Reservation.EveryRunIsLinear | src/api/decision/repository_postgres.py:591-709 | for any callers and any interleaving: the row is what the winning operations produce one after the other in UPDATE order, each of them wins in that serial run, and a caller is told it won exactly when it is one of them, once |
| Reservation.OnlyCommitsWrite | src/api/decision/repository_postgres.py:577-589 | a lost race changes neither the row nor the log |
| Reservation.LostRaceHasAWinner | src/api/decision/repository_postgres.py:577-589 | a guard fails only if someone committed after the read |
| Reservation.NoOverspend | src/api/decision/repository_postgres.py:591-709 | however the statements interleave, with or without count caps, reserved + spent stays within the budget |
| Reservation.NoOvercount | src/api/decision/repository_postgres.py:591-709 | and the count within the cap, whatever the budgets |
| Reservation.ReleaseUndoesReserve | src/api/decision/repository_postgres.py:659-709 | a release after a successful reservation of the same amount restores money and count |
| Ledger.ValidateChain | src/api/audit/chain.py:38-94 | ok exactly for a chain that is good throughout, with its length and last hash; otherwise it names the least bad event, why, and the longest good prefix |
| Ledger.LedgerRepository.Append | src/api/audit/repository_memory.py:23-54 | the next sequence number, linked to the tail and unsigned, or nothing when the event cannot be hashed |
| Ledger.LedgerRepository.GetRange | src/api/audit/repository_memory.py:56-59 | the events of a range, in order |
| Ledger.LedgerRepository.AnnotateRoot | src/api/audit/repository_memory.py:76-98 | exactly the unsigned events of the range get the signature, everything else stays, and their number is returned |
| Ledger.MemoryWitness.Put | src/api/audit/witness_memory.py:19-28 | write-once per range |
| Ledger.LedgerService.LastAnnotated | src/api/audit/service.py:70-73 | the largest signed sequence number |
| Ledger.LedgerService.SignRoot | src/api/audit/service.py:52-125 | raises before any write, or annotates the range and publishes its checkpoint; a range already witnessed raises after the annotation |
| Ledger.LedgerService.CollectRanges | src/api/audit/service.py:174-192 | the grouping loop |
| Ledger.LedgerService.VerifyRange | src/api/audit/service.py:194-243 | root hash, signature and witness of one range, with the fault of the first that fails |
| Ledger.LedgerService.VerifyChain | src/api/audit/service.py:161-249 | ok exactly when the chain is good and every signed range checks, counting every event; otherwise the least bad event or the first failing range |
| LedgerProofs.ScanCovers | src/api/audit/service.py:174-192 | every signed event lies in a group that carries its signature |
| LedgerProofs.GroupsAreMaximal | src/api/audit/service.py:174-192 | every group is a maximal run of one signature |
| LedgerProofs.GroupIsSignedRange | src/api/audit/service.py:174-192 | grouping adjacent equal signatures recovers exactly the range each was made for |
| LedgerProofs.SoundIsVerified | src/api/audit/service.py:161-249 | a ledger in which every signature covers its own whole range verifies |
| LedgerProofs.AppendKeepsSound | src/api/audit/repository_memory.py:23-54 | appending keeps it so |
| LedgerProofs.ValidExactlyWhen | src/api/audit/chain.py:38-94 | on any events: validation accepts exactly numbers that follow each other, links to the hash before, a first link to the given start or genesis, and hashes of their own content |
| LedgerProofs.SignsOnlyValidRanges | src/api/audit/service.py:78-104 | on any events: a signature is made if and only if the range is there in full, starts at a positive number and is a valid chain from its own first link |
| LedgerProofs.SignsExactlyWithin | src/api/audit/service.py:62-113 | on a chained ledger: a signature is made if and only if 1 <= start <= end <= length, and it signs that range and the hash of its last event |
| LedgerProofs.UnsignedCountsSigned | src/api/audit/repository_memory.py:76-98 | the count an annotation returns is the number of events it signed |
| LedgerProofs.SignKeepsVerified | src/api/audit/service.py:52-125 | on a sound ledger, signing any range keeps it verifiable if and only if the range was entirely unsigned or entirely signed |
| LedgerProofs.SplitFails | src/api/audit/service.py:174-219 | a ledger in which an event inside the range of a signature carries another one does not verify |
| LedgerProofs.RunVerifiesExactlyWhenClean | src/api/audit/service.py:52-249 | over whole runs of appends and signatures over any ranges: the ledger verifies at the end if and only if every signature on the way was over a range unsigned throughout or signed throughout |
| LedgerProofs.CleanRunsVerify | src/api/audit/service.py:52-249 | in particular after every such run from an empty ledger |
| LedgerProofs.DefaultSignsTheTail | src/api/audit/service.py:70-76 | the default range is the unsigned tail, all of it and nothing else, and starts right after the last signed event |
| LedgerProofs.DefaultRunsVerify | src/api/audit/service.py:52-249 | after any appends and default-range signatures, in any order, the ledger verifies; the groups are exactly the signed ranges and partition a prefix of it |
| LedgerProofs.DefaultSignCompletes | src/api/audit/service.py:62-125 | a default-range signature is made if and only if some event is unsigned, leaves none unsigned and changes no content |
| LedgerProofs.DefaultRunsSignEverything | src/api/audit/service.py:52-249 | after any appends and default-range signatures and one more signature, every event is signed and the ledger verifies |
| LedgerTamper.HashDecidesPrefix | src/api/audit/hashing.py:82-119 | in a ledger that validates, an event carries the honest hash of event e if and only if it is the e-th and everything up to it is the honest content |
| LedgerTamper.VerifiedMeansUntouched | src/api/audit/service.py:161-249 | if an arbitrarily edited ledger that starts at 1 verifies and shows a signed range whose checkpoint nobody touched, everything up to the end of that range has the content it had when signed |
| LedgerTamper.TailCanBeRewritten | src/api/audit/service.py:174-192 | everything after the end of a signed range can be rewritten, later signatures dropped, and the ledger verifies against the same witness and shows exactly the groups up to there |
| LedgerTamper.ShownRangeProtectsExactly | src/api/audit/service.py:161-249 | against an untouched witness, a ledger with given contents can verify and show a signed range if and only if it agrees with the honest one up to the end of that range |
| LedgerTamper.StrippedHistoryVerifies | src/api/audit/service.py:174-192 | with no signature shown, any history verifies against any witness |
| AgentAudit.EvidenceStore.AppendEvent | src/agent/audit.py:46-136 | one row linked to the head of the named chain, else the mandate's, the agent's or the system's; the head and length moved, the event queued if asked, all other chains untouched |
| AgentAudit.ChainsAreTheirOwn | src/agent/audit.py:33-39 | a mandate's events share a chain with an agent's if and only if its id spells that agent's key |
| AgentAudit.AppendedToItsChain | src/agent/audit.py:33-136 | an event is linked to the head of the chain it names, else of its mandate, its agent or the system, and every other chain keeps its rows and its head |
| AgentAudit.EvidenceStore.VerifyChain | src/agent/audit.py:139-186 | valid exactly when the rows replay from genesis to the stored head; otherwise the first bad row, or the head |
| AgentAudit.ReplaysExactlyWhen | src/agent/audit.py:139-186 | a chain is accepted if and only if each row is linked to the one before, the first to the genesis value, each hash is that of its own entry, and a stored head is the last of them |
| AgentAudit.EvidenceStore.VerifyAll | src/agent/audit.py:189-202 | names exactly the listed chains that do not replay |
| AgentAudit.EvidenceStore.VerifyCheckpoint | src/agent/audit.py:249-286 | none without a checkpoint; otherwise valid exactly when every listed chain replays and the last signed root is the current one |
| AgentAudit.AppendsStayValid | src/agent/audit.py:46-202 | after every run of appends all chains replay, and each holds exactly its own events of the run, in order |
| AgentAudit.AppendsCommute | src/agent/audit.py:78-113 | appends to different chains give the same chains, heads and root in either order |
| AgentAudit.RootDecidesRows | src/agent/audit.py:205-213 | between databases that replay, the roots are equal if and only if the same chains are listed and each holds the same rows |
| AgentAudit.CheckpointMeansUntouched | src/agent/audit.py:249-286 | a checkpoint that still verifies means each listed chain replays to exactly the events of the run that was signed |
| AgentAudit.UnlistedRowsGoUnseen | src/agent/audit.py:189-213 | rows of a key with no `chains` entry change no verdict and no root |
| Bridge.BridgeState.Claim | src/rappi_bridge/state.py:59-74 | the first caller inserts a received row, every other one gets the row as it is |
| Bridge.BridgeState.Transition | src/rappi_bridge/state.py:101-143 | writes the checkpoint, keeping an order id or receipt not replaced, exactly when the row exists and is in the expected state, if one is given |
| Bridge.BridgeService.PlaceOrder | src/rappi_bridge/service.py:321-470 | the row, the click if any and the answer of a whole call, for every reply and for a crash before any durable step |
| Bridge.BridgeService.WalkToArmed | src/rappi_bridge/service.py:343-427 | the checkpoint reached is the first refusing guard or the point of the crash |
| Bridge.BridgeService.ArmedToDone | src/rappi_bridge/service.py:425-470 | from armed: a dry-run receipt, or clicked, one click, and failed, uncertain or confirmed |
| Bridge.OneClickPerKey | src/rappi_bridge/service.py:321-470 | over every serial series of calls on any keys: a click that ended in anything but a store-minimum refusal is the last of its key |
| Bridge.FirstCallNamesTheOrder | src/rappi_bridge/state.py:59-74 | the first call of a key fixes its purchase, cart and amount, and no later series of calls on any keys changes them |
| Bridge.ReplaysAreFinal | src/rappi_bridge/service.py:331-340 | a finished order answers every later call with its first receipt and never changes |
| Bridge.ReceiptTellsTheClick | src/rappi_bridge/service.py:413-470 | a new receipt, of a click or of a dry run, states the approved total, cart and purchase and, after a click, what was clicked and the order id it got, on the instrument the call may pay on, which with a configured card is that card |
| Bridge.ClicksExactlyWhenCleared | src/rappi_bridge/service.py:331-455 | a call clicks if and only if the order is neither finished nor in doubt and every guard holds (live mode, verified token, approved cart, exactly the approved total, under the cap, approved address, allowed instrument), for exactly that total and cart |
| Bridge.EveryStopIsRecorded | src/rappi_bridge/service.py:331-427 | a call that does not get to the paying endpoint makes no click, leaves the checkpoint of its last step and nothing else, and raises or dies exactly as a guard or the process stopped it |
| Bridge.EveryEndIsRecorded | src/rappi_bridge/service.py:429-470 | one that does leaves a dry-run receipt, or clicked where the process died, failed, uncertain or confirmed as the click was answered, with the matching result |
| Bridge.SelectedMethodPays | src/rappi_bridge/service.py:383-401 | a method is chosen if and only if it is the first available one that has the configured id, or with none configured the first available default, or without such a default the first available; none only where no such method is there |
| BridgeRace.StepStaysGuarded | src/rappi_bridge/service.py:331-470 | for overlapping workers on one key, step by step: one holder of the button, a last decisive click and a row that lets nobody in stay so if and only if the step is not a checkpoint written over a click |
| BridgeRace.LosersWriteNothing | src/rappi_bridge/service.py:446-470 | a worker that finds the row not armed, or a failed click no longer clicked, stops with an error and writes nothing |
| BridgeRace.EngagedRows | src/rappi_bridge/state.py:113-125 | such a checkpoint lands over a click exactly when the row is clicked, uncertain or confirmed (a dry run may have overwritten it meanwhile) |
| BridgeRace.RacingClickOnce | src/rappi_bridge/service.py:331-470 | for any number of workers and any interleaving, with any replies and deaths: if no checkpoint is written over a click, at most one click may have bought anything, and it is the last |
| BridgeRace.LandingClicksTwice | src/rappi_bridge/state.py:113-125 | conversely, once one is, whatever the state of the row, steps exist after which two clicks may both have bought something |
| BridgeRace.OverlapClicksTwice | src/rappi_bridge/state.py:101-143 | such a run exists from nothing, for every caller that passes the guards |
| BridgeRace.SomebodyIsWilling | src/rappi_bridge/service.py:343-427 | and such a caller exists |
| BridgeRace.SoloIsTravel | src/rappi_bridge/service.py:321-470 | left alone, a worker's steps give the row, click and answer of the serial call |
| Rail.Orchestrator.Flush | src/yuno_sim/payments.py:142-173 | payment and idempotency row together, or neither when the key is taken |
| Rail.Orchestrator.Capture | src/yuno_sim/payments.py:69-190 | replay of a known key, a recorded refusal, or a settlement |
| Rail.StepKeepsAgreement | src/yuno_sim/payments.py:82-190 | at every step captured rows and idempotency rows stay two views of the same settlements, every returned caller reports the stored one, and no stored one changes |
| Rail.OneCapturePerKey | src/yuno_sim/payments.py:163-188 | two captured rows are the same if and only if their keys are |
| Rail.RaceSettlesOnce | src/yuno_sim/payments.py:82-190 | any number of racing calls with one key leave at most one captured payment, and each call that returns reports its id and amount |
| Rail.FlushAlwaysAnswers | src/yuno_sim/payments.py:142-190 | a racing caller that passed the checks is answered by its flush with its own settlement if its key was free and with the winner's, books untouched, if not; no other step captures anything |
| Rail.CaptureAnswers | src/yuno_sim/payments.py:69-190 | a call settles if and only if its key is known, which is replayed and writes nothing, or the checks clear it, which captures the amount asked once and keeps its receipt; otherwise it leaves a row that captured nothing and the key free |
| Rail.AloneIsARun | src/yuno_sim/payments.py:82-190 | an undisturbed call is a run of the racing steps with the same result |
| Checkout.MerchantOrder.MarkCaptured | src/merchant/checkout_jwt.py:157-172 | refused exactly when another purchase was captured; otherwise captured with this purchase and receipt |
| Checkout.ChargeService.Charge | src/merchant/charge.py:54-148 | order, rail and answer of the seven steps, with lost replies and a crash before recording |
| Checkout.OneKeyChargesOnce | src/merchant/charge.py:54-148 | for every mix of attempts, lost replies, late arrivals and crashes on one order with one key, at most one payment is captured and a captured order holds its receipt |
| Checkout.CapturedIsFinal | src/merchant/charge.py:86-97 | a captured order never changes; its purchase gets the stored receipt, any other purchase is refused |
| Checkout.OnlyCheckedAttemptsTouchTheRail | src/merchant/charge.py:121-148 | rail and order change only after all five checks on a quoted order |
| Checkout.ChargesExactlyWhenChecked | src/merchant/charge.py:54-135 | an attempt captures if and only if it passes all five checks on a quoted order, the rail clears it and its key is new, and then exactly the amount asked |
| Checkout.CapturesExactlyWhenAnswered | src/merchant/charge.py:54-148 | a quoted order is captured, for this purchase and with the rail's receipt, if and only if every check passes, the rail settles or replays, its reply arrives and the process lives, and exactly then the buyer is told so; if only the last is missing the call dies, else it refuses, and the order stays quoted |
| Checkout.PaidOnceForAll | src/merchant/charge.py:80-148 | once an attempt is answered with a receipt, after any later attempts and late arrivals on any keys, every other purchase is refused without effect and this one gets the same receipt |
| Checkout.RetryChargesAgainExactlyOnAFreshKey | src/merchant/charge.py:121-135 | after a capture the merchant did not record, a retry pays a second time if and only if its key differs |
| Checkout.DeclinedYetCharged | src/merchant/charge.py:121-134 | an attempt is refused and captures all the same if and only if it passed every check, its key was new, the rail cleared it and the reply was lost |
| Checkout.DeclinedOverCapturedKey | src/merchant/charge.py:100-134 | on a key captured before, an open order is refused if and only if a check fails, the request is not sent or the replayed receipt is lost; the books stay |
| RateLimit.Limiter.Take | src/agent/limits.py:95-126 | admits exactly when the refilled level covers the cost, stores the rest with the time, writes nothing on a refusal, and touches no other key |
| RateLimit.Limiter.TakeBoth | src/agent/limits.py:228-242 | both buckets must have room; the first stays charged when the second refuses |
| RateLimit.Limiter.Bump | src/agent/limits.py:130-152 | admits and counts exactly up to the cap |
| RateLimit.AnyClockBound | src/agent/limits.py:95-126 | whatever the clock does, the cost admitted in any window [s, t] is at most burst + rate * (t - s) + rate * the time the clock went back between admitted calls, and stored tokens stay between 0 and the burst |
| RateLimit.WindowBound | src/agent/limits.py:95-126 | under a clock that does not go back, at most burst + rate * (t - s) |
| RateLimit.LazyRefillIsExact | src/agent/limits.py:103-121 | writing nothing on refusals admits exactly what a bucket refilled at every call would |
| RateLimit.ClockSetBackRefillsTwice | src/agent/limits.py:106-107 | for every quota and step back: three calls exceed the burst in no time if and only if something was taken at first and more flows in again than was taken in between; with a full first take the excess meets the bound |
| RateLimit.BumpsStayUnderCap | src/agent/limits.py:130-147 | whatever is asked for, a window's counter never passes its cap |
| Relay.Outbox.PickRows | src/agent/relay.py:156-160 | the first waiting rows in order, up to the batch size |
| Relay.Outbox.DeliverRow | src/agent/relay.py:161-192 | relayed exactly when every subscriber accepts; an attempt is counted either way |
| Relay.Outbox.Drain | src/agent/relay.py:145-197 | one pass delivers exactly the picked rows, its counts are the changes of delivered, dead and waiting rows, and every claimed row uses up an attempt |
| Relay.PickIsFree | src/agent/relay.py:156-160 | a claim is an increasing list of waiting rows that nobody holds |
| Relay.PickIsGreedy | src/agent/relay.py:156-160 | a claim below the batch size leaves no free row behind |
| Relay.PendingPartitions | src/agent/relay.py:200-207 | waiting, dead and delivered partition the outbox, and nothing remains to be tried exactly when nothing waits |
| Relay.WorkersNeverCollide | src/agent/relay.py:145-197 | for any interleaving of workers: open claims are disjoint, attempts never exceed the maximum, and everyone subscribed when a row was relayed accepted it |
| Relay.PassIsDrain | src/agent/relay.py:145-197 | whoever else holds claims, an uninterrupted pass of claim, deliveries and commit does to the rows what one call of `drain` does to those free |
| Relay.NothingIsLost | src/agent/relay.py:145-197 | a new event waits free for any worker, and a pass rolled back leaves its rows as they were and free again |
| Relay.CommittedPassMakesProgress | src/agent/relay.py:161-193 | every non-empty committed pass lowers the attempts left to waiting rows |
| Relay.OnlyEmitAddsWork | src/agent/relay.py:145-197 | no step of a worker raises them |
| SdJwt.Issue | src/trustlib/sdjwt.py:86-111 | the signed token, carrying the digest of every selective claim, followed by the disclosures and a trailing separator |
| SdJwtProofs.IssuedPayload | src/trustlib/sdjwt.py:86-111 | the signed payload is the plain claims and, for selective ones, their digests in order and the hash algorithm, and nothing else |
| SdJwt.SplitParts | src/trustlib/sdjwt.py:148-156 | the three parts of a presentation |
| SdJwt.Verify | src/trustlib/sdjwt.py:159-234 | the four steps in order, with the error of the first that fails |
| SdJwtProofs.VerifiesExactlyWhen | src/trustlib/sdjwt.py:159-234 | any text verifies if and only if its issuer part is signed with the key taken for it, the claims are inside exp and nbf give or take the leeway, every disclosure is one the issuer signed, and it is bound to holder, nonce, audience and presentation where it has a binding or must have one |
| SdJwtProofs.RefusalNamesTheStep | src/trustlib/sdjwt.py:178-210 | the exact condition of an expired, not yet valid or wrongly signed refusal |
| SdJwtProofs.BindingAnswers | src/trustlib/sdjwt.py:206-234 | with signature, window and disclosures in order: verified with the merged claims, or refused for a missing, wrong or unreadable binding, each exactly when |
| SdJwtProofs.OutsideWindowIsRefused | src/trustlib/sdjwt.py:191-196 | outside its window nothing verifies |
| SdJwtProofs.MergesExactlyWhenSigned | src/trustlib/sdjwt.py:197-204 | merging succeeds if and only if every disclosure is signed and readable, and the last one of a name decides its value |
| SdJwtProofs.PartsOfPresentation | src/trustlib/sdjwt.py:148-156 | splitting gives back what was presented, with or without a key binding |
| SdJwtProofs.RebuiltTextIsHashedText | src/trustlib/sdjwt.py:224-228 | the rebuilt text is the hashed text if and only if no presented component is empty |
| SdJwtProofs.RevealIsExact | src/trustlib/sdjwt.py:197-204 | merging the shown disclosures gives the claims plus exactly the chosen ones |
| SdJwtProofs.RoundTrip | src/trustlib/sdjwt.py:86-234 | for all claims, fresh selective names and any subset shown in any order: inside the validity window the key-bound presentation verifies to the claims plus that subset |
| SdJwtProofs.RoundTripUnbound | src/trustlib/sdjwt.py:86-234 | the same without a key binding, unless the verifier demands one |
| SdJwtProofs.UnsignedDisclosureIsRefused | src/trustlib/sdjwt.py:197-204 | one disclosure the issuer did not sign and the presentation is refused |
| SdJwtProofs.BindingCoversText | src/trustlib/sdjwt.py:206-230 | a verified presentation is the very text its key binding was made over |
| SdJwtProofs.LiftedBindingIsRefused | src/trustlib/sdjwt.py:126-130 | a key binding moved to other disclosures is refused |
| Delimited.SplitOfJoin | src/trustlib/sdjwt.py:111-149 | splitting undoes joining when no part holds the separator |
| Delimited.JoinOfSplit | src/trustlib/sdjwt.py:111-149 | joining undoes splitting, always |
| JsonLogic.Var | src/agent/jsonlogic.py:26-35 | the path walk, the empty path and the default |
| JsonLogic.FollowReaches | src/agent/jsonlogic.py:26-35 | a path gives the value at its end if and only if every step of it is a field of a dictionary, and the default otherwise |
| JsonLogic.AndIsAll | src/agent/jsonlogic.py:75-81 | stopping early gives the truth of the whole conjunction |
| JsonLogic.OrIsAny | src/agent/jsonlogic.py:82-88 | stopping early gives the truth of the whole disjunction |
| JsonLogic.BetweenMeans | src/agent/jsonlogic.py:62-68 | a comparison of three numbers holds if and only if both of its halves do |
| JsonLogic.IfChooses | src/agent/jsonlogic.py:94-100 | an `if` is worth the branch after its first true condition, else its last operand, else null |
| JsonLogic.MissingNode | src/agent/jsonlogic.py:60-61 | a `missing` node is the list of exactly those operands whose path leads to nothing |
| JsonLogic.EqualitiesMean | src/agent/jsonlogic.py:69-74 | the four equalities compare printed texts or values, booleans counting as one and zero |
| JsonLogic.OnlyAllowedOperators | src/agent/jsonlogic.py:49-101 | a node with any other operator, or not exactly one, is refused |
| JsonLogic.OrderAgrees | src/agent/jsonlogic.py:62-68 | a two-argument numeric comparison gives the same value in both if and only if the decimals the numbers print as compare as the numbers do |
| JsonLogic.NeverClashExactlyWhen | src/agent/jsonlogic.py:19-46 | all comparisons of two numbers agree if and only if their printed decimals are in the same order as they are |
| JsonLogic.FloatBesideInteger | src/agent/jsonlogic.py:19-46 | the float 1e23 beside the integer it prints as is a pair that does not |
| JsonLogic.EqualityAgrees | src/agent/jsonlogic.py:69-74 | `==` and `!=` on strings give the same value in both |
| JsonLogic.MembershipAgrees | src/agent/jsonlogic.py:91-93 | `in` gives the same value in both if and only if it does not look for the empty text in the empty text |
| JsonLogic.EvaluatorsMean | src/agent/jsonlogic.py:49-101 | for every well-typed rule of any depth, in every context, each evaluator succeeds with the truth of the rule's meaning, defined without either of them |
| JsonLogic.EvaluatorsAgree | aval/contracts/mocks/mock_verify.py:168-212 | so both answer with the same truth value if and only if the rule means the same to both, which it does where no node of it divides them on its own |
| AgentRun.Runner.CallHandler | src/agent/graph.py:178-402 | each node's transition, the replan count, and the kernel submission of the gate node, dead or alive |
| AgentRun.Runner.RunUntilPause | src/agent/graph.py:406-460 | a closed run is returned as it is; otherwise the loop with its clock, step budget, throttling and crash exits |
| AgentRun.HandlerDescends | src/agent/graph.py:178-390 | every transition lowers the measure of calls left and pays for its submission; only a submission that paid or died on its reservation moves money |
| AgentRun.LoopIsBounded | src/agent/graph.py:406-460 | from any node: calls, submissions and payments are bounded, and a budget of at least the measure is never what ends the run |
| AgentRun.FreshRunIsBounded | src/agent/graph.py:406-460 | a fresh run ends within 12 handler calls whatever is answered or raised, so neither the default budget of 24 nor any other of at least 12 is what ends it; at most 3 submissions, at most 1 payment, and without one, and without an exception on an open reservation, every budget is as before |
| AgentRun.TwelveIsReached | src/agent/graph.py:338-350 | refused twice for a reason worth retrying and then captured, a run makes exactly 12 calls, 3 submissions and 1 payment |
| AgentRun.PaidRunIsDoneExactlyWhen | src/agent/graph.py:424-460 | a run that pays at the gate ends done if and only if nothing is raised after the settlement, two more steps are left, and neither of them is late or raises |
| AgentRun.FailingTurnMovesMoneyExactlyWhen | src/agent/graph.py:438-456 | a throttled or crashed turn leaves every budget as it was if and only if it did not die holding an amount or having paid; a throttled one, an escalation over the quota included, changes no row |
| AgentRun.DoneMeansPaid | src/agent/graph.py:406-460 | a run from before the gate, not asked only to search, ends done only if it paid exactly once and left nothing reserved |
| AgentRun.SearchOnlyNeverSubmits | src/agent/graph.py:293-318 | a run asked only to search submits nothing and changes no row, however it ends |
| AgentRun.SearchOnlyEndsDone | src/agent/graph.py:293-318 | with offers and a proposal it ends done after four calls if and only if its four turns are there and none is late or raises |
| AgentRun.EscalatedRunWaitsExactlyWhen | src/agent/graph.py:352-390 | an escalated submission ends its run waiting for the human, rows untouched, if and only if one more turn comes in time and raises nothing |
| AgentRun.RefusalGoesOn | src/agent/graph.py:338-350 | a refusal sends the run back to search exactly for a reason that may pass and fewer than two replans, and denies it otherwise |
| AgentRun.RaisedGateEndsRun | src/agent/graph.py:438-456 | a submission that raises over the quota denies its run, and one that raises otherwise or dies fails it |
| Idempotency.IdempotencyStore.Reserve | src/api/decision/repository_memory.py:211-230 | the first or an expired key is taken, the same operation sees the live record, a different one or a foreign key is rejected |
| Idempotency.IdempotencyStore.Get | src/api/decision/repository_memory.py:254-261 | the live record; an expired one is dropped |
| Idempotency.IdempotencyStore.SaveResponse | src/api/decision/repository_memory.py:263-281 | the first response is kept, a missing or expired key is refused |
| Idempotency.IdempotencyStore.PurgeExpired | src/api/decision/repository_memory.py:283-289 | removes exactly the expired records and returns how many |
| Idempotency.IdempotencyStore.Claim | src/api/decision/idempotency.py:21-52 | the caller owns the claim exactly when its own token comes back |
| Idempotency.LiveRecordSurvives | src/api/decision/repository_memory.py:203-289 | before its expiry no operation removes a record, changes its claim, or overwrites its response |
| Idempotency.ClaimIsStable | src/api/decision/repository_memory.py:203-289 | from claim to expiry: no second owner, a fixed fingerprint and deadline, at most one response |
| Idempotency.ExactlyOneOwner | src/api/decision/idempotency.py:21-52 | the first claim of a free or expired key has exactly one owner until it expires |
| Idempotency.LiveClaimAnswers | src/api/domain/idempotency.py:155-178 | while a claim is live the same operation gets its record and any other is rejected |
| Idempotency.ClaimLastsFortyFiveDays | src/api/domain/idempotency.py:114-150 | a claim of a key nobody holds is granted without a response and kept until exactly 45 days after its creation; with another secret it is refused |
| Idempotency.FirstResponseStays | src/api/decision/repository_memory.py:263-281 | the first response saved is stored as given and stays whatever happens until the claim expires |
| Idempotency.ExpiredClaimIsGone | src/api/decision/repository_memory.py:203-281 | from its expiry on, a claim is dropped when looked at or answered, and free to be claimed |
| Velocity.VelocityStore.Add | src/api/decision/repository_memory.py:52-56 | one more increment in the bucket of its minute; every bucket stays the sum of its increments |
| Velocity.VelocityStore.Sum | src/api/decision/repository_memory.py:58-76 | the total of all stored buckets in range |
| Velocity.VelocityStore.Count | src/api/decision/repository_memory.py:149-167 | the reported total lies between the exact totals of the window and of the window plus a minute |
| Velocity.StoredRangeIsWhole | src/api/decision/repository_memory.py:58-76 | no increment of a range was recorded anywhere but in its buckets |
| Velocity.BucketsCoverWindow | src/api/decision/repository_memory.py:37-39 | bucketing by minutes never undercounts the window and never counts more than a minute beyond it |
| Velocity.AlmostTwoMinutesCountTogether | src/api/decision/repository_memory.py:149-155 | two intents almost two minutes apart are counted together |

## Left out

- BudgetBooks.RunKeepsBalance: asks for non-negative amounts; what holds at any amounts is `BudgetBooks.RunKeepsSpend`, `BudgetBooks.RunKeepsHeld` and `BudgetBooks.RunConservesExactlyWhenGentle`.
- Escalation.StickyIsBounded: serial submissions at non-negative prices, because overlapping ones break the once-only count (`Escalation.OverlapCapturesTwice`) and a refund elsewhere lowers an ancestor's spend; the amount needs no serial submissions (`Escalation.StickyAmountHolds`).
- Escalation.StickyRetrySucceeds: parents form a forest, which every run that issues under existing parents keeps (`BudgetForest.RunKeepsForest`).
- Escalation.StickyApprovalBuys: the same, and no exception or stale read during the retry; those are `Purchase.PaidExactlyWhenAuthorised`.
- BudgetBooks.ExhaustedExactlyWhenSpent: asks for non-negative amounts, since a refund lowers the spend of an exhausted row without changing its status; what one settlement does at any amount and to any status is `BudgetTree.Kernel.Settle`.
- Reservation.NoOverspend: asks that all callers pass budgets within the one stated, since the store takes the budget from its caller and compares each call with its own.
- Reservation.NoOvercount: asks for the same of count caps.
- Checkout.OneKeyChargesOnce: the rail answers one call at a time here; races on a key are `Rail.RaceSettlesOnce`.
- Bridge.OneClickPerKey: serial calls; overlapping workers are `BridgeRace.RacingClickOnce`.
- RateLimit.AnyClockBound: serial calls; floating-point rounding is not modelled.
- JsonLogic.EvaluatorsMean: rules whose operands have the types the operators are for, and of a comparison or a lookup are literals or variables; what ill-typed ones raise is in the evaluators and in no property.
- LedgerTamper.VerifiedMeansUntouched: asks that the range still shows its signature, which is needed (`LedgerTamper.ShownRangeProtectsExactly`).
- AgentAudit.CheckpointMeansUntouched: `verify_checkpoint` does not check the stored signature again, so nothing is said about an edited `checkpoints` row; the count of covered events is not modelled.
- Free interleavings of `settle`, `_unreserve`, `resolve` and `take`: they read and write without a guard.
- An exception between two UPDATEs of one `reserve_chain`, `settle` or `release` loop; exceptions before, between and after these are modelled.
- Purchase and intent rows, audit rows and notifications written along the saga, and the nonce replay table: each intent is built fresh inside the call.
- The Rappi port may capture a different total than the intent's (src/agent/ports/merchants_mcp.py:598-602); spend here is the intent's amount, as in the code's columns.
- Refusal rows of the rail are an optional step, because the HTTP session of src/yuno_sim/main.py rolls back when a refusal is raised.
- Currency conversion, decimals with more than two places, and the text form of amounts.
- The text of salts, base64url and JSON in SD-JWT: a component is a symbol that stands for what it encodes.
- `verify_chain` for one mandate or an explicit range, and the PostgreSQL ledger repository, whose sequence is shared by all chains.
- `compute_cart_hash`, quoting and cart building: the cart hash is an opaque text.
- `resume` and `add_guidance` of the graph loop, and everything that only shapes a proposal.
- Velocity cooldowns and open authorisations, the in-memory reservation store, single flight, webhook and SSE subscribers.
- JsonLogic number parsing from text, ordering of non-numbers and the text of non-strings are parameters; `True == 1` inside nested lists is not modelled.
- The time read by the idempotency store when a claim is made may differ from the time stamped on the record; both are parameters.
- The label a bridge receipt shows for its instrument stands for the method's id.
- HTTP services, LLM calls, chat, web console, keys and cryptography, migrations.
