# The money engine, modelled and proved

This project models the money engine of the banking backend: deposits, withdrawals, transfers and
payments over wallets, an append-only ledger, transaction rows and payment rows, together with wallet
lifecycle requests, the Redis idempotency protocol and the payment worker. `dafny verify dfyconfig.toml`
checks everything.

There are three layers.

* **Simple form** (`Money`, `Binary64`, `Funds`, `Ledger`, `Tables`). Each service operation is one
  indivisible change of the tables (`Tables.Atomic`, `Tables.LifecycleWrite`). Columns are whole cents with
  the DECIMAL(18,2) coercion, and the funds check is computed in rounded binary64.
* **Services** (`Bank`). A class whose methods follow the repository and service methods statement by
  statement and update the tables, Redis strings and queues in place. Each method is proved against the
  simple form. The replay loop is `Ledger.CalculateRunningBalance`.
* **Engine** (`Program`, `Engine`, `Locking`, `Frames`). Any number of requests, interleaved one step at a
  time over the committed tables, row locks, Redis and the queue. A transaction locks rows (which reads the
  latest committed row), computes private writes from its snapshot and commits them. A database transaction
  can fail and a process can die between any two steps, and a Redis command can throw, done or not done.
  Time passes freely, so every Redis string can expire at any point. The locking invariant proves that each
  commit is the simple form on the tables at the moment of the commit.

On top of these, `Books`, `Conservation`, `Records`, `Runs`, `Idempotency`, `KeyLock`, `Lifecycle` and
`Progress` prove what holds in every state of every run. `Outcomes` says when each operation succeeds, what it writes
and how it fails otherwise, from the rows and the amount alone. `Solo` closes the circle: a request that steps
alone in the engine does what the service method does in one call. `Failures` shows that under contention
requests fail for no other reasons.

## Reading the model

* An amount is a real number of currency units, the decimal that a JavaScript number prints as; the double
  it is held in is `Fl(amount)`. A balance or recorded amount is an `int` number of cents. Columns round to
  nearest with ties away from zero, and a value of 10^18 cents or more aborts the transaction.
* Random ids and references are fresh values: the rows that a request creates carry the id of the request.
* `World.log` records the committed changes in commit order. It decides nothing: no step reads it.
* `World.log` orders money operations, payments and new wallets as whole requests, and freezes, unfreezes and
  closes as the status writes they are. `Lifecycle.SerialIffNoStaleWrite` says when these too are whole requests.
* A run starts from any tables. Results about the books ask of the initial ones what the result itself is
  about (their conjunction is `Runs.InOrder`, which empty tables satisfy). The initial Redis strings and
  requests are none.
* `Funds.Printed` is the one consequence of printing a double as the shortest decimal that reads back as it:
  a double that some number of whole cents reads back as is printed as whole cents.
* The numeric range of the funds check is `Funds.InRange`. `Books.InRangeLog` says that every committed debit
  was decided within it. Only results about balances below zero, and about counting half-cent debits, need it.
  `Runs.DepositsBoundTheRange` and `Runs.SmallBalancesAreInRange` give conditions that ensure it.

## Where the code and its promises disagree

The model follows the code. Each point is a lemma with the exact condition or a concrete run.

* "Closed wallets cannot be reopened" (src/modules/wallet/wallet.service.js:58-63) fails when an unfreeze or
  freeze read the wallet before the close: `Lifecycle.CloseCanBeUndone`. It holds if and only if no such
  request is between its read and its write: `Lifecycle.ClosedIsFinalIffSealed`.
* The funds check is exact, for amounts with any number of fraction digits, up to a balance of 2^46 units and
  not one cent further: `Funds.ExactnessBound`. Far above it, it overdraws: `Funds.LargeBalanceOverdraws`.
  Taken over all reals instead of printed amounts, no debit overdraws up to a balance of 2^45 units and one
  cent, and not one cent further: `Funds.SafetyBound`.
* The cached balance need not be the ledger's replay: a debit of a half-cent tie leaves them one cent apart
  (`Money.HalfCentWithdrawal`). `Books.ExactDrift` gives the distance for all amounts and balances, and in
  range the two agree if and only if there was no such debit (`Books.CacheIsReplayIffNoTies`).
* The Redis lock excludes if and only if its holders always finish within its ten seconds
  (`KeyLock.LockTimeBound`, with the run in `KeyLock.SlowHolderExcludesNobody`); at most one effect per key
  holds without it.
* createWallet's own check accepts a user whose wallet is CLOSED, and then the unique `userId` column refuses
  the insert: `Lifecycle.ClosedOwnerIsRefused`. A create request that has passed its check commits if and only
  if the owner has no wallet at all, open or closed: `Lifecycle.CreateCommitsIffNoWallet`.
* The documentation says that every balance change is a pair of debit and credit. A committed transaction
  writes a pair if and only if it is a transfer: `Records.PairedIffTransfer`.
* The payment repository imports the environment object as its database client; it is modelled with a
  working client.

## Model

| member | source | states |
|---|---|---|
| `Runs.Serializability` | src/modules/transaction/transaction.service.js:42-232 | in every state of every interleaving, with failures mixed in, the tables equal those left by the committed money operations, payments, new wallets and status writes done one at a time in commit order; each request commits at most once, and uncommitted ones have no rows |
| `Lifecycle.SerialIffNoStaleWrite` | src/modules/wallet/wallet.service.js:42-76 | a run leaves what its committed requests leave when each is run alone, lifecycle checks included, if and only if no freeze, unfreeze or close wrote to a wallet that was closed by then |
| `Failures.WhyThrown` | src/modules/transaction/transaction.service.js:42-232 | every error a caller gets, in any run, goes back to one step: a database abort, a Redis command that threw, or a step of the request itself whose error was justified at that moment |
| `Failures.FailureIsJustified` | src/modules/transaction/transaction.service.js:28-32 | in any interleaving a request fails on its own only with the error of its simple form on the tables of that moment, a live lock on its key, the error of its status write, or a wallet that was created after its row was asked for |
| `Solo.RequestAlone` | src/modules/transaction/transaction.service.js:42-232 | a deposit, withdrawal, transfer or lifecycle request that steps alone from its arrival returns with the tables of its simple form when that succeeds, and throws its error with no change when it fails |
| `Locking.StepKeeps` | src/modules/transaction/transaction.service.js:43-47 | every step keeps the locking invariant: the lock table says exactly who holds what, snapshots are still current, and each open transaction is as if it had run alone on the tables as they are now |
| `Locking.CommitIsAtomic` | src/modules/transaction/transaction.service.js:161-231 | a transaction at its commit is the simple form applied to the tables of that moment, although its writes come from an earlier snapshot: no update is lost |
| `Locking.OnlyHolder` | src/modules/transaction/transaction.service.js:163-168 | no two requests ever hold the same wallet row or the same idempotency key |
| `Locking.StepCommits` | src/modules/ledger/ledger.service.js:37-50 | a step leaves every table alone, or commits one change whose effect is that of the change run alone |
| `Runs.PostedWhileActive` | src/modules/wallet/wallet.repository.js:19-38 | every ledger entry that a step appends was posted to a wallet whose committed row was ACTIVE, unchanged and locked by the posting transaction from the step that locked it to the commit |
| `Outcomes.DepositOutcome` | src/modules/transaction/transaction.service.js:42-85 | a deposit succeeds if and only if the amount is positive, the wallet is there and ACTIVE, and the sixteen-digit columns hold the result; the rows it then writes, and the error in each other case |
| `Outcomes.WithdrawOutcome` | src/modules/transaction/transaction.service.js:94-140 | for printed amounts and balances up to 2^46 units a withdrawal succeeds if and only if the amount is positive and an ACTIVE wallet covers it; the rows it then writes, and the error in each other case |
| `Outcomes.CoveredWithdrawal` | src/modules/transaction/transaction.service.js:102-104 | every covered withdrawal from an ACTIVE wallet succeeds, the whole balance included, at any balance and for any fraction digits |
| `Outcomes.TransferOutcome` | src/modules/transaction/transaction.service.js:150-232 | for printed amounts and a sender up to 2^46 units a transfer succeeds if and only if the wallets are two, there and ACTIVE, the amount is positive, the sender covers it and the receiver's column holds it; the rows, and the error in each other case |
| `Outcomes.CoveredTransfer` | src/modules/transaction/transaction.service.js:181-183 | every covered transfer between two ACTIVE wallets succeeds unless the receiver's column overflows, at any balance of either |
| `Outcomes.PaymentOutcome` | src/modules/payment/payment.service.js:65-114 | a payment's transaction succeeds if and only if the key is not empty and new, the wallet is there and ACTIVE, the amount is positive and the columns hold the result; the rows, and the error in each other case |
| `Outcomes.WholeCentDebits` | src/modules/transaction/transaction.service.js:102 | on whole cents the engine is a bank on integers: n cents can be withdrawn or sent exactly when 0 < n <= balance, and then leave the one balance and reach the other |
| `Outcomes.WholeCentCredits` | src/modules/ledger/ledger.service.js:32-34 | n cents can be deposited or paid in exactly when 0 < n and the column reaches, and add n to the balance |
| `Program.PlayIsAtomic` | src/modules/transaction/transaction.service.js:150-232 | the statement-by-statement transaction run on unchanging tables gives the same new tables, or the same error, as the simple form, for every money operation |
| `Program.DoublePosting` | src/modules/transaction/transaction.service.js:200-222 | for two distinct wallets, a transfer's two postings from snapshots taken up front equal debiting and then crediting |
| `Program.SelfTransferMints` | src/modules/transaction/transaction.service.js:157-159 | with one wallet on both sides the two postings cancel in the ledger and the balance grows by the amount |
| `Program.PlayDepends` | src/modules/ledger/ledger.service.js:18-53 | what a transaction writes depends only on the rows of its own wallets, and on other payments only through its own key at the insert |
| `Program.PlayWrites` | src/modules/payment/payment.service.js:59-117 | a transaction writes balances of its own wallets and entries under its own id only, and a payment row only if it is a payment whose key was new |
| `Runs.ReturnedIffCommitted` | src/modules/wallet/wallet.service.js:42-76 | in any run a lifecycle request, deposit, withdrawal or transfer has returned if and only if its change is committed |
| `Runs.AllOrNothing` | src/modules/transaction/transaction.service.js:185-231 | a request is in the commit log, with a SUCCESS row and exactly the entries of its type (and its payment row), or has left no row at all; deposits, withdrawals and transfers return exactly in the first case |
| `Records.BooksAreRecorded` | src/modules/transaction/transaction.service.js:52-84 | in every committed state each transaction row is SUCCESS with one CREDIT, one DEBIT, or an equal DEBIT and CREDIT on two distinct wallets; each entry and payment has its row; keys and owners are unique |
| `Records.PairedIffTransfer` | src/modules/transaction/transaction.service.js:200-222 | a committed transaction is an equal DEBIT and CREDIT if and only if it is a transfer; every other kind writes one entry |
| `Runs.RecordsInEveryState` | prisma/schema.prisma:68-98 | the shape that `Records.BooksAreRecorded` gives holds in every state of every run |
| `Runs.HistoryInEveryState` | src/modules/transaction/transaction.repository.js:35-42 | in every state of every run each wallet's transaction history nets to the replay of its ledger, for any amounts |
| `Records.HistoryMatchesEntries` | src/modules/transaction/transaction.repository.js:35-42 | a transaction is in a wallet's history exactly when it has an entry of that wallet: received is one CREDIT, sent is one DEBIT, of the same amount |
| `Conservation.HistoryIsLedger` | src/modules/transaction/transaction.repository.js:35-42 | received minus sent over the history query equals the replay of the ledger after any committed run |
| `Books.ExactDrift` | src/modules/ledger/ledger.service.js:28-50 | after any committed run, for arbitrary amounts and balances of any size and sign, each balance is the last balanceAfter and exceeds the replay by exactly what the half-cent postings of that wallet have left |
| `Books.NeverOverdrawn` | src/modules/transaction/transaction.service.js:102 | with debits in numeric range no balance goes below zero, and the drift of each wallet is one cent per half-cent debit |
| `Money.PostingDrift` | src/modules/ledger/ledger.service.js:31-35 | any posting to any balance moves it by the recorded amount, except for one cent where a half cent is rounded up on both sides of a debit or down on both sides of a credit to an overdrawn balance |
| `Books.CacheIsReplay` | src/modules/ledger/ledger.service.js:61-75 | for whole-cent amounts the cached balance equals the replay and the last balanceAfter, at every balance |
| `Books.CacheIsReplayIffNoTies` | src/modules/ledger/ledger.service.js:55-60 | for arbitrary amounts within the range of the funds check, the cache matches the ledger history if and only if no debit of the wallet was a half-cent tie |
| `Books.LedgerIsChained` | src/modules/ledger/ledger.service.js:31-47 | for whole-cent amounts each balanceAfter is the wallet's previous one plus or minus the entry's amount, from zero on, at every balance |
| `Ledger.ChainedIsReplay` | src/modules/ledger/ledger.service.js:31-35 | on a chained ledger the last running balance is the replay |
| `Conservation.MoneyIsConserved` | src/modules/transaction/transaction.service.js:157-222 | for arbitrary amounts and balances, the sum of all balances is deposits (payments included) minus withdrawals plus the drift of half-cent postings; a transfer contributes no amount |
| `Runs.DriftInEveryState` | src/modules/ledger/ledger.service.js:18-53 | exact drift and conservation in every state of every run, for arbitrary amounts and with no range |
| `Runs.DepositsBoundTheRange` | src/modules/transaction/transaction.service.js:102 | if the initial balances and all committed deposits and payments stay within 2^46 units together, every debit is in range and no balance is negative |
| `Runs.BalancesInEveryState` | src/modules/transaction/transaction.service.js:94-140 | in every state of every run with debits in numeric range: no negative balance, and drift and total drift count the half-cent debits |
| `Runs.WholeCentsInEveryState` | src/modules/ledger/ledger.service.js:18-75 | for whole-cent amounts, in every state and with no range: balance, ledger replay, last balanceAfter and history replay are one number, the chain is unbroken, and money is conserved exactly |
| `Runs.SmallBalancesAreInRange` | src/modules/transaction/transaction.service.js:181 | a run whose balances stay up to 2^46 units (for arbitrary reals, 2^45 units and one cent) decides every debit in range |
| `Idempotency.OneEffectPerKey` | prisma/schema.prisma:142 | in every run all committed payments of one key are one, with one deposit transaction and exactly one ledger entry, a CREDIT of its amount |
| `Idempotency.OneCommitPerKey` | src/modules/payment/payment.service.js:38-141 | at most one payment request of a key ever commits, through lock expiry, deleted locks, cache expiry, crashes and late misses |
| `Idempotency.SecondAttemptIsRolledBack` | src/modules/payment/payment.service.js:91-117 | a second attempt has already posted its credit privately when the unique key stops it; tables and log stay as they were and it keeps no lock |
| `Idempotency.StableResponses` | src/modules/payment/payment.service.js:119-137 | any two successful returns for one key, fresh or cached, name the same payment, and that payment is committed |
| `Idempotency.PaymentsGrow` | src/modules/payment/payment.repository.js:23-28 | no step removes a payment or changes anything of it but its status, and the status never goes back to INITIATED |
| `Idempotency.AnnouncedOnce` | src/modules/payment/payment.service.js:129-135 | each payment has at most one PAYMENT_SUCCESS publication, and only after its commit |
| `Idempotency.StatusNeverReturns` | src/modules/payment/payment.service.js:144-167 | over any run a payment persists with every column but its status unchanged; the status is INITIATED, SUCCESS or FAILED, and never returns to INITIATED |
| `Idempotency.CachedForADay` | src/modules/payment/payment.service.js:121-127 | from the step that caches a response no step of any request removes or replaces it, and it expires 86 400 000 ms after that step |
| `Idempotency.RetryIsAnswered` | src/modules/payment/payment.service.js:37-41 | in any run a retry that arrives within 24 hours is answered with the first payment and changes nothing else; one that arrives later goes on to the lock |
| `Idempotency.AnnouncedCanBeDelivered` | src/shared/workers/payment.worker.js:14-33 | every announced payment can be handled by the worker at any later time, any number of times, and becomes SUCCESS |
| `Idempotency.CanBeVerified` | src/modules/payment/payment.service.js:144-167 | a gateway verdict sets any committed payment to SUCCESS or FAILED at any time and changes nothing else |
| `KeyLock.ExclusionWhileTimely` | src/modules/payment/payment.service.js:44-57 | if every holder so far was within ten seconds, at most one request per key is in its try block and each holds its own lock, so its DEL removes its own |
| `KeyLock.StepKeepsOwned` | src/modules/payment/payment.service.js:138-141 | while holders are in time, no step sets or deletes the lock of a request that is in its try block |
| `KeyLock.SlowHolderExcludesNobody` | src/modules/payment/payment.service.js:138-141 | for every time limit above ten seconds, a run whose holders keep to it in which two requests of one key are in their try blocks and the first is about to delete the second's lock |
| `KeyLock.LockTimeBound` | src/modules/payment/payment.service.js:44-50 | holders that always finish within t exclude one another in every run if and only if t is at most 10 000 ms |
| `KeyLock.LoserStaysOut` | src/modules/payment/payment.service.js:51-55 | a request that loses the SET NX has thrown in every later state: it never comes to the try block or the DEL |
| `KeyLock.LeavesThroughFinally` | src/modules/payment/payment.service.js:138-141 | any step of a request in its try block leaves it there or deletes the lock on the way out, also after the cached response or the job could not be stored; only a crash or an undone DEL skips it |
| `KeyLock.CrashedHolderBlocks` | src/modules/payment/payment.service.js:44-55 | a request can die at any point, and the lock it leaves refuses retries of its key until exactly ten seconds after its SET NX |
| `Lifecycle.SealedForGood` | src/modules/wallet/wallet.service.js:58-63 | a closed wallet with no freeze or unfreeze between read and write stays closed in every later state, with balance and ledger unchanged |
| `Lifecycle.DrainedIsSealed` | src/modules/wallet/wallet.service.js:42-65 | once the freezes and unfreezes that were between read and write when the wallet was closed have ended, and it is still closed, it is sealed |
| `Lifecycle.ReopenedByStaleRead` | src/modules/wallet/wallet.service.js:53-65 | a step that takes a wallet out of CLOSED is the write of a freeze or unfreeze whose read, earlier in the run, saw it not closed |
| `Lifecycle.ClosedIsFinalIffSealed` | src/modules/wallet/wallet.service.js:42-76 | a closed wallet can be taken out of CLOSED by some continuation if and only if a freeze or unfreeze is between its read and its write |
| `Lifecycle.CloseCanBeUndone` | src/modules/wallet/wallet.service.js:67-76 | a concrete run in which a closed wallet becomes ACTIVE again |
| `Outcomes.StatusOutcome` | src/modules/wallet/wallet.service.js:42-76 | freeze, unfreeze and close succeed exactly on a wallet that is there and not CLOSED, and set FROZEN, ACTIVE and CLOSED and nothing else |
| `Outcomes.CreateOutcome` | src/modules/wallet/wallet.service.js:9-32 | an owner without a wallet gets an ACTIVE one with balance zero; an open wallet meets the service's check, closed ones only the unique column |
| `Lifecycle.FreezeStopsMoney` | src/modules/wallet/wallet.service.js:42-51 | in any interleaving, from the write of a freeze until an unfreeze writes, the wallet is not ACTIVE, its balance and entries do not change and no money operation on it is accepted |
| `Lifecycle.CreatesIffNoWallet` | src/modules/wallet/wallet.service.js:16-29 | createWallet run alone succeeds if and only if the owner has no wallet, open or closed |
| `Lifecycle.CreateCommitsIffNoWallet` | src/modules/wallet/wallet.service.js:17-29 | in any interleaving a create request that passed its check commits if and only if the owner has no wallet at its write, and otherwise fails on the unique column |
| `Lifecycle.ClosedOwnerIsRefused` | prisma/schema.prisma:124 | a concrete run: the only wallet of the owner is CLOSED, the check passes, and the insert is refused |
| `Progress.WaitingRises` | src/modules/transaction/transaction.service.js:162-168 | whoever holds what a request waits for can itself be waiting only for something of higher rank: wallets by id, keys after all wallets |
| `Progress.NoWaitingCycle` | src/modules/transaction/transaction.service.js:162-168 | deadlock freedom: no chain of waiting requests closes to a cycle |
| `Progress.SomeoneCanStep` | src/modules/payment/payment.service.js:59-117 | while a request is unfinished, some request can step |
| `Progress.WorkShortens` | src/modules/transaction/transaction.service.js:161-231 | every step or failure of a request strictly decreases the total of remaining steps |
| `Progress.WorkIsBounded` | src/modules/transaction/transaction.service.js:42-232 | on a given set of requests any schedule, with clock ticks and payment status writes mixed in at will, holds at most that many steps of work |
| `Progress.Drains` | src/modules/payment/payment.service.js:57-141 | from every reachable state some schedule of ordinary steps, without failures, finishes every request |
| `Progress.StuckMeansFinished` | src/modules/payment/payment.service.js:59-117 | if no request can step, every request has finished |
| `Funds.RefusedIsOrder` | src/modules/transaction/transaction.service.js:102 | the sign of the rounded difference is the order of the rounded operands, whatever their size |
| `Funds.CoveredIsNeverRefused` | src/modules/transaction/transaction.service.js:102 | an amount that the balance covers is never refused, for any size and any number of fraction digits |
| `Funds.AcceptedIsCovered` | src/modules/transaction/transaction.service.js:181 | in range an accepted amount exceeds the balance by less than half a cent |
| `Funds.ThreeDecimalsArePrinted` | src/modules/transaction/transaction.service.js:102 | every amount of up to three decimals below 2^42 units, half cents included, is as it is printed: no number of whole cents rounds to the same double |
| `Funds.ExactForWholeCents` | src/modules/transaction/transaction.service.js:181 | for whole-cent amounts and balances up to 2^46 units the check refuses exactly the amounts that the balance does not cover |
| `Funds.ExactForPrinted` | src/modules/transaction/transaction.service.js:181 | for printed amounts with any fraction digits and balances up to 2^46 units the check refuses exactly the amounts that the balance does not cover |
| `Funds.SafetyBound` | src/modules/transaction/transaction.service.js:102 | over all reals, no accepted debit overdraws a balance of up to n cents if and only if n is at most 2^45 units and one cent |
| `Funds.ExactnessBound` | src/modules/transaction/transaction.service.js:102 | the check is exact for all printed amounts, with any fraction digits, and all balances up to n if and only if n is at most 2^46 units |
| `Funds.LargeBalanceOverdraws` | src/modules/transaction/transaction.service.js:102 | balance 5000000000000000.51 accepts 5000000000000001 and is left at minus 49 cents |
| `Binary64.FlIsNearest` | src/modules/transaction/transaction.service.js:102 | no double is closer to a number than its rounding |
| `Binary64.FlIsDouble` | src/modules/transaction/transaction.service.js:102 | a rounded number is a double: at most 53 significant bits |
| `Binary64.FlMonotone` | src/modules/transaction/transaction.service.js:102 | rounding never reverses an order |
| `Binary64.DifferenceSign` | src/modules/transaction/transaction.service.js:102 | a rounded difference of two rounded numbers is negative exactly when the first is smaller, subnormals included |
| `Money.NearestIsNearest` | prisma/schema.prisma:92-93 | the column coercion is the one integer within half a cent, and on a tie the one farther from zero |
| `Money.CreditHasNoDrift` | src/modules/ledger/ledger.service.js:32-34 | a credit moves a non-negative balance by exactly the amount recorded in its entry, for any fraction digits |
| `Money.DebitStaysNonNegative` | src/modules/ledger/ledger.service.js:35 | a debit leaves a non-negative balance exactly when the shortfall is below half a cent |
| `Money.DebitDriftsOnTies` | src/modules/ledger/ledger.service.js:28-50 | a covered debit moves the balance by the recorded amount, less one cent exactly on a half-cent tie |
| `Money.HalfCentWithdrawal` | src/modules/ledger/ledger.service.js:28-50 | withdrawing 0.005 records one cent and leaves the balance where it was |
| `Money.WholeCentsAreExact` | prisma/schema.prisma:121 | whole-cent amounts are stored and posted without rounding |
| `Ledger.CalculateRunningBalance` | src/modules/ledger/ledger.service.js:61-75 | the replay loop returns the replay of the wallet's entries, in whatever order the history arrives |
| `Ledger.ReplayIgnoresOrder` | src/modules/ledger/ledger.repository.js:29-37 | credits minus debits is the same for every permutation of a history |
| `Ledger.OfSelects` | src/modules/ledger/ledger.repository.js:29-37 | a wallet's history holds each of its entries as often as the ledger does, and no entry of another wallet |
| `Bank.Bank.Deposit` | src/modules/transaction/transaction.service.js:42-85 | the new tables and the returned row are those of the simple form, or the same error is returned and nothing changed |
| `Bank.Bank.Withdraw` | src/modules/transaction/transaction.service.js:94-140 | the same for withdrawals, with the funds check |
| `Bank.Bank.Transfer` | src/modules/transaction/transaction.service.js:150-232 | the same for transfers, with both postings made from the balances read at the start |
| `Bank.Bank.PostTransaction` | src/modules/ledger/ledger.service.js:18-53 | appends one entry and overwrites one balance column with the coerced new balance, or fails on overflow with both as they were |
| `Bank.Bank.PaymentTransaction` | src/modules/payment/payment.service.js:59-117 | the same as Deposit for the transaction of a payment, rolled back whole when its key exists |
| `Bank.Bank.ProcessPayment` | src/modules/payment/payment.service.js:23-142 | cached response, held lock, missing key, fresh success and failure: exactly which tables, Redis strings and jobs each leaves; the lock is released in the last two |
| `Solo.PaymentAlone` | src/modules/payment/payment.service.js:23-142 | a payment request that arrives in the engine when nothing is locked and steps alone ends with the tables, Redis strings, announcements and answer of that one call |
| `Solo.TransactionAlone` | src/modules/payment/payment.service.js:59-117 | any money transaction that steps alone ends as its simple form: the same tables, or the same error and no change |
| `Bank.Bank.VerifyPayment` | src/modules/payment/payment.service.js:144-167 | sets SUCCESS or FAILED on a known payment and nothing else, and queues one webhook on success only |
| `Bank.Bank.HandleJob` | src/shared/workers/payment.worker.js:14-33 | a PAYMENT_SUCCESS job sets its payment to SUCCESS or fails with nothing changed; other jobs change nothing |
| `Bank.Bank.CreateWallet` | src/modules/wallet/wallet.service.js:9-32 | a new ACTIVE wallet with balance zero, a conflict for an owner with an open wallet, and the unique column's error for an owner with a closed one |
| `Bank.Bank.FreezeWallet` | src/modules/wallet/wallet.service.js:42-51 | FROZEN unless missing or CLOSED, and no other column or row changes |
| `Bank.Bank.UnfreezeWallet` | src/modules/wallet/wallet.service.js:53-65 | ACTIVE unless missing or CLOSED, and no other column or row changes |
| `Bank.Bank.CloseWallet` | src/modules/wallet/wallet.service.js:67-76 | CLOSED unless missing or already CLOSED, and no other column or row changes |
| `Frames.StepSuccessor` | src/modules/payment/payment.service.js:57-141 | a step changes the phase of one request only, along the fixed order of its service method |
| `Frames.SnapshotStays` | src/modules/transaction/transaction.service.js:44-47 | a locked row's snapshot is never replaced while its transaction is open |

## Left out

- Idempotency.StableResponses: identifies a response by its payment id; reference and method are columns fixed at the insert and not stored in the model, and the cached JSON text is not modelled.
- Runs.Serializability: freezes, unfreezes and closes are replayed as their status writes; as whole requests the property is false in general, and `Lifecycle.SerialIffNoStaleWrite` gives the exact condition.
- Runs.BalancesInEveryState: asks that debits were decided within `Funds.InRange`; `Funds.LargeBalanceOverdraws` shows that some bound is needed, and `Funds.ExactnessBound` and `Funds.SafetyBound` that these are exact.
- Runs.AllOrNothing: a COMMIT whose acknowledgement is lost is not a step of its own; for a payment the same outcome arises as a commit followed by a failing Redis command, and for other requests only the report to the caller would differ.
- Bank.Bank.ProcessPayment: runs alone at one instant; expiry, crashes, Redis failures and interleaving are in the engine, and `Solo.PaymentAlone` connects the two. It answers with the payment id in place of the whole row.
- Bank.Bank.VerifyPayment: the gateway response is a column that no decision reads, and its second write is not modelled.
- Bank.Bank.CreateWallet: the users table, and so the check that the user exists, is not part of this model.
- Ledger.CalculateRunningBalance: the rows of the history query are a parameter, in any order; `createdAt` is not modelled.
- decimal.js keeps 20 significant digits; decimal arithmetic is exact here.
- Doubles beyond the largest finite one, NaN and amounts that are not numbers.
- Database commands other than locks, reads, writes, rollback, unique columns and column overflow; a lock wait times out only as an abort.
- The retry limit, back-off and remaining payload of queued jobs: a published job may be delivered any number of times, which includes every bounded number.
- Currency, descriptions, payment method, createdBy and timestamps: no decision in the services reads them.
- The notification queue, which none of these services uses.
- HTTP routes, validation schemas, authentication, user profiles, audit log listing, mock account routes and scripts.
