# GopherPay transfer engine in Dafny

This project models the money-transfer core of GopherPay. It has two parts.

- **The transfer service** (`internal/billing/service.go`). `Transfer` validates a request: the amount first, then the self-transfer check. It inserts a PENDING transaction row in a scope of its own. It then opens a balance scope and locks both accounts, lower id first. It checks funds, debits the sender, credits the receiver and commits. Finally it marks the row SUCCESS or FAILED and appends audit entries. The model keeps the wallet repository and the audit sink in memory:
  - `accounts`: account id to balance in cents;
  - `txns`: the transactions table with its auto-increment counter `nextTxnId`;
  - `audit`: the audit sink's entries.
- **The worker pool** (`internal/worker/pool.go`). `Submit` is a non-blocking put into a FIFO bounded by the size given to `NewPool`, and returns false when the FIFO is full. The worker loop takes jobs from the head and runs `Transfer` once on each. It logs any error and moves on. `Shutdown` closes the queue and lets the loop drain what is still buffered.

Layout:

- `models.dfy` (module `Models`): the account, request and transaction types. It also holds Go's `int64`/`uint64` and Go's wrapping `int64` addition.
- `audit.dfy` (module `Audit`): audit entries and the sink's `Log`.
- `ledger.dfy` (module `Ledger`): the store as a value (`Store`) and its well-formedness (`Valid`). It also holds the committed status update (`UpdateStatus`) and the sum of all balances (`Total`) with its lemmas.
- `service.dfy` (module `Billing`):
  - `TransferSpec` is a function giving each path of `Transfer`: the new store and the error returned.
  - The class `Service` holds the store's tables as fields. Its `Transfer` method is imperative and is proved to end in exactly the state and error `TransferSpec` gives.
- `transfer_properties.dfy` (module `TransferProperties`): what `Transfer` promises, as lemmas over `TransferSpec`.
- `pool.dfy` (module `Worker`):
  - `Offer`, `SubmitAll`, `Drain` and `ErrorLog` are functions that specify the queue.
  - The class `Pool` holds a bounded `seq` of jobs, a capacity and a `closed` flag. Its worker loop is a `while` loop proved against `Drain`.
- `pool_properties.dfy` (module `PoolProperties`): admission control, FIFO order and what a drain keeps.

How failures are modelled. Each repository call on `Transfer`'s path can fail, and the model says which one does with a `Faults` value:

- `store`: at most one failing step on the main path, in call order. The steps are:
  - the insert scope: begin, insert, commit;
  - the balance scope: begin, lock first, lock second, debit, credit, commit.
- `status`: whether the single status update fails at its begin, its UPDATE or its commit.
- `auditDown`: whether the audit sink's insert fails.

A missing account is not a precondition. The locking read finds no row and fails, which is the same path as a failing lock.

The balance scope is all-or-nothing:

- The debit and the credit are staged writes.
- Only the scope's commit applies them to `accounts`.
- Every early return drops them, as the deferred rollback at `service.go:117` does.

`Transfer`'s error is `None` for nil, or one of `InvalidAmount`, `SameAccount`, `InsufficientFunds` and `Infra`. These are the three sentinel errors of `service.go:11-15`, plus any store failure.

The credit at `service.go:166` has no overflow check, so the model credits with Go's wrapping `int64` addition (`AddInt64`):

- `CreditOverflowWraps` shows a successful transfer that wraps the receiver to the int64 minimum.
- `TransferConservesTotal` shows this cannot happen in a *solvent* ledger: no negative balance, and a total that fits an `int64`. Every transfer keeps such a ledger solvent and keeps its total.

Two behaviours of the code are worth stating plainly:

- Infrastructure failures write no audit entry (`service.go:94-135`, `168-181`). Only the validation failures, insufficient funds and success are audited. `InfrastructureFailure` states this.
- The PENDING row does not always reach a terminal status. A failing second `BeginTx` (`service.go:113-116`) returns before any status update is attempted. A failing status update also leaves the row PENDING, because its errors are ignored (`service.go:32-39`). `PendingRowLifecycle` states exactly when the row stays PENDING.

## Model

| member | source | states |
|---|---|---|
| Models.AddInt64 | internal/billing/service.go:166 | Go's int64 `+`: the exact sum when it fits; past the maximum, the sum less 2^64, which is negative |
| Models.AddInt64IsModular | internal/billing/service.go:166 | the wrapped credit differs from the true sum by a multiple of 2^64 |
| Models.PendingRow | internal/billing/service.go:85-91 | the inserted row carries the request's id, from, to and amount, status PENDING and no message |
| Audit.Log | internal/audit/repository.go:17-36 | the sink appends exactly the entry at the end, and leaves the log as it was when its insert fails |
| Ledger.UpdateStatus | internal/billing/service.go:31-51 | a status update in its own scope changes only the status and message of its own row, and only when every step succeeds and the row exists; a failure leaves the store as it was |
| Billing.LockOrder | internal/billing/service.go:119-123 | the accounts are locked in ascending-id order: the pair comes back with the smaller id first |
| Billing.AssignRoles | internal/billing/service.go:137-144 | whichever account was locked first, the sender is the `FromID` account and the receiver the `ToID` account |
| Billing.TransferSpec | internal/billing/service.go:62-196 | every path of one transfer: no account is created or removed, at most one transaction id is consumed, and the audit log only grows, by at most one entry |
| Billing.BalanceScope | internal/billing/service.go:117-195 | the balance scope creates or removes no account, consumes no id, and appends at most one audit entry |
| Billing.Settle | internal/billing/service.go:161-195 | the debit, credit and commit create or remove no account, consume no id, and append at most one audit entry |
| Billing.Service.constructor | internal/billing/service.go:23-29 | the service starts over the given store |
| Billing.Service.GetAccountForUpdate | internal/billing/mysql_repository.go:21-38 | the locking read returns the account with its balance exactly when the call does not fail and the row exists |
| Billing.Service.SetStatus | internal/billing/service.go:31-51 | begin, update, commit with every error dropped; the new state is `UpdateStatus` of the old |
| Billing.Service.MarkTransactionFailed | internal/billing/service.go:31-40 | the row becomes FAILED with the message, unless a step of the update fails |
| Billing.Service.MarkTransactionSuccess | internal/billing/service.go:42-51 | the row becomes SUCCESS with no message, unless a step of the update fails |
| Billing.Service.LogAudit | internal/billing/service.go:52-60 | appends one entry with the given request id, action, status and message, ignores a sink failure, and changes nothing else |
| Billing.Service.Transfer | internal/billing/service.go:62-196 | the new service state and the returned error are exactly those of `TransferSpec` on the old state |
| Billing.Service.RunBalanceScope | internal/billing/service.go:117-195 | locking in ascending order, role assignment, the funds check and the settlement end in the state and error of `BalanceScope` |
| Billing.Service.SettleTransfer | internal/billing/service.go:161-195 | the staged debit and credit reach the accounts only on commit, then the row is marked and audited; the result is `Settle` |
| TransferProperties.InvalidAmountComesFirst | internal/billing/service.go:71-74 | a non-positive amount gives InvalidAmount, even for a self-transfer; the only write is one FAILED "invalid amount" audit entry |
| TransferProperties.SelfTransferRejected | internal/billing/service.go:76-79 | a positive self-transfer gives SameAccount; the only write is one FAILED "self transfer not allowed" audit entry |
| TransferProperties.LockOrderIgnoresDirection | internal/billing/service.go:119-123 | the lock order for (a, b) equals that for (b, a); it is (min, max), strictly ascending for distinct ids |
| TransferProperties.TransferSucceedsIff | internal/billing/service.go:71-195 | nil is returned exactly when the amount is positive, the ids differ, no store step fails, both accounts exist and the sender holds the amount |
| TransferProperties.SuccessfulTransfer | internal/billing/service.go:165-188 | on success: the sender loses the amount and stays non-negative; the receiver gains it by int64 addition; other accounts are unchanged; the row is SUCCESS unless its update failed; one SUCCESS "transfer completed" entry is appended |
| TransferProperties.SuccessfulTransferConservesPair | internal/billing/service.go:165-176 | without overflow the credit is exact and the two balances keep their sum |
| TransferProperties.CreditOverflowWraps | internal/billing/service.go:166 | the unchecked credit: moving 1 cent to an account at the int64 maximum succeeds and leaves it at the int64 minimum |
| TransferProperties.InsufficientFundsIff | internal/billing/service.go:150-159 | InsufficientFunds is returned exactly when the request is valid, both rows are locked and the sender holds less than the amount; then no balance changes, the row is FAILED "insufficient funds" and one FAILED entry is appended |
| TransferProperties.InfrastructureFailure | internal/billing/service.go:94-181 | a store failure changes no balance and writes no audit entry; a failed insert leaves no row; a failed scope begin leaves the row PENDING; otherwise the row is FAILED with "account fetch failed", "balance update failed" or "commit failed" |
| TransferProperties.PendingRowLifecycle | internal/billing/service.go:85-187 | once the insert commits, exactly one new row exists with the request's fields; it stays PENDING exactly when the balance scope never begins or its status update fails, and otherwise gets exactly one status write |
| TransferProperties.TransferKeepsOtherRows | internal/billing/service.go:85-187 | a transfer keeps the store well formed, leaves every earlier row unchanged, adds at most one id and makes at most one status write |
| TransferProperties.InsertedTouchesOnlyItsRow | internal/billing/service.go:113-187 | after the insert commits, the transfer adds exactly its own row and writes the status of no other row |
| TransferProperties.BalanceScopeTouchesOnlyItsRow | internal/billing/service.go:117-187 | the balance scope and its status update touch no row but the transfer's own, and write it at most once |
| TransferProperties.UpdateStatusKeepsValid | internal/billing/service.go:31-51 | a terminal status written once to a row keeps the store well formed |
| TransferProperties.BalancesChangeOnlyOnSuccess | internal/billing/service.go:117-181 | balances change only when nil is returned, and then exactly by the debit and the wrapping credit |
| TransferProperties.MoveConservesTotal | internal/billing/service.go:165-166 | a funded move between two accounts of a solvent ledger keeps it solvent and keeps the total |
| TransferProperties.TransferConservesTotal | internal/billing/service.go:117-181 | every transfer over a solvent ledger, whatever its outcome, keeps the ledger solvent and the sum of all balances unchanged |
| TransferProperties.ScenarioTransferSucceeds | internal/billing/service.go:62-196 | accounts {1: 1000, 2: 500}, r1 moves 300 from 1 to 2: {1: 700, 2: 800}, row SUCCESS, one SUCCESS entry for r1 |
| TransferProperties.ScenarioInsufficientFunds | internal/billing/service.go:150-159 | accounts {1: 100, 2: 500}, r2 asks 300 from 1: balances unchanged, row FAILED "insufficient funds", one FAILED entry for r2 |
| Worker.Offer | internal/worker/pool.go:51-58 | the send succeeds exactly when the buffer has room; then the job is appended behind the unchanged contents, otherwise the queue is left as it was |
| Worker.Drain | internal/worker/pool.go:40-48 | the worker loop run until the queue is empty: one result per job, and no account is created or removed |
| Worker.Pool.constructor | internal/worker/pool.go:22-28 | a new pool has an empty, open queue whose capacity is the buffer size |
| Worker.Pool.Submit | internal/worker/pool.go:51-58 | the queue and the answer are those of `Offer`; the queue never exceeds its capacity; sending on a closed queue is excluded |
| Worker.Pool.RunWorker | internal/worker/pool.go:37-49 | the loop empties the queue; the ledger ends as `Drain` of the queue says, and the error log is `ErrorLog` of the queue and its results |
| Worker.Pool.Shutdown | internal/worker/pool.go:60-63 | the queue is closed, and what was buffered is drained in order until it is empty |
| PoolProperties.SubmitAllFillsThenRejects | internal/worker/pool.go:51-58 | back-to-back submissions are accepted exactly while there is room; the accepted jobs queue up in order behind the old contents, and the queue stays within capacity |
| PoolProperties.Backpressure | internal/worker/pool.go:22-58 | from an empty queue of capacity C with nothing draining, C submissions are accepted and the next one is rejected |
| PoolProperties.DrainConcat | internal/worker/pool.go:40-48 | draining two queues in turn is draining their concatenation |
| PoolProperties.DrainRunsJobsInOrder | internal/worker/pool.go:40-41 | the i-th job's result is `Transfer` on its own request, run once against the ledger left by the i jobs ahead of it |
| PoolProperties.DrainConservesTotal | internal/worker/pool.go:40-48 | a drain over a solvent ledger keeps it solvent and keeps the sum of all balances |
| PoolProperties.DrainKeepsEarlierRows | internal/worker/pool.go:40-48 | a drain keeps the store well formed and leaves every earlier row, terminal or not, unchanged |
| PoolProperties.ErrorLogNamesFailedJobs | internal/worker/pool.go:41-47 | an error is logged exactly when a job's transfer fails: every logged line names a failed job with exactly its error, every failed job is logged, and a queue with no failure logs nothing |
| PoolProperties.ErrorLogIsFailureLines | internal/worker/pool.go:41-47 | the error log is exactly one line per failed job, in queue order, as read front to back |
| PoolProperties.RunAllConcat | internal/worker/pool.go:40-48 | for any per-job step, running two queues in turn is running their concatenation |

## Left out

- Goroutines, `Start(workerCount)` and the `WaitGroup` (`pool.go:30-35`, `38`, `62`) are not modelled: they are concurrency. The worker loop is one sequential drain, so nothing is claimed about interleavings of several workers or about row-lock deadlock freedom beyond the lock order itself.
- Worker.Pool.Submit: with a buffer size of 0 the Go channel is unbuffered, and a send succeeds when a worker is waiting to receive. The model has no waiting receiver, so such a send is always rejected.
- Worker.Pool.constructor: the buffer size is a `nat`. In the source, `make` panics on a negative buffer size, so the model leaves that input out.
- Worker.Pool.Shutdown: runs the drain itself and so always ends with an empty queue. In the source, `Shutdown` only closes the channel and waits for the started workers. If `Start` was never called, or was called with 0 workers, `Shutdown` returns at once and the buffered jobs are never processed. The model assumes at least one worker was started; the server starts 10 (`cmd/server/main.go:41`).
- Worker.Pool.RunWorker: runs until the queue is empty. In the source the range loop also blocks while the queue is empty and still open, which a sequential model cannot express.
- SQL text, row scanning and `NOW()` timestamps of the MySQL repositories are not modelled. The store is in memory, and `CreatedAt`/`UpdatedAt` are left out of `Account` and `Transaction`.
- The `FromBalance`/`ToBalance` snapshots that `InsertTransaction` writes are not modelled. The `Transaction` type does not declare them.
- `GetAccountBalance`, `GetAllAccounts` and `GetRecentTransactions` are not modelled: `Transfer` never calls them.
- `slog` logging, `context` cancellation and the wrapped error texts from `fmt.Errorf` are not modelled. The worker's error log is modelled as the list of (request id, error) pairs it would log.
- Transaction ids are unbounded naturals, not `uint64`. The counter's own overflow is not modelled.
- Each transfer meets at most one failing store step on its main path, because every failure returns at once. The model also treats `BeginTx` as able to fail on its own, and gives the insert's auto-increment id away even when the insert's commit fails.
- A sink failure of the audit insert is modelled as a flag per transfer. No transfer writes more than one audit entry.
- The HTTP handlers, middleware, the admin and server commands, and the reporting queries are not part of this model.
