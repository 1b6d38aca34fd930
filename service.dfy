// The transfer engine: validation, the PENDING row, the balance scope with
// ascending-id locking, and the final status update and audit entry.
module Billing {
  import opened Models
  import opened Audit
  import opened Ledger

  /** The three sentinel errors of the service, and every store failure as Infra. */
  datatype TransferError = InvalidAmount | SameAccount | InsufficientFunds | Infra

  /** The repository call on Transfer's own path that fails, in the order they are made. */
  datatype Step =
    | BeginInsert | InsertRow | CommitInsert
    | BeginBalance | LockFirst | LockSecond
    | DebitSender | CreditReceiver | CommitBalance
  {
    /** A step taken once the balance scope has begun. */
    predicate InBalanceScope() {
      LockFirst? || LockSecond? || DebitSender? || CreditReceiver? || CommitBalance?
    }

    /** A step taken after both accounts are locked and funded. */
    predicate IsSettlement() {
      DebitSender? || CreditReceiver? || CommitBalance?
    }
  }

  /** What goes wrong during one transfer: at most one store step on the main
      path, at most one step of the (single) status update, and whether the
      audit sink's insert fails. */
  datatype Faults = Faults(store: Option<Step>, status: Option<StatusStep>, auditDown: bool)

  const NoFaults := Faults(None, None, false)

  /** The store after a transfer and the error it returned (None for nil). */
  datatype Outcome = Outcome(store: Store, err: Option<TransferError>)

  const MsgInvalidAmount: string := "invalid amount"
  const MsgSelfTransfer: string := "self transfer not allowed"
  const MsgInsufficientFunds: string := "insufficient funds"
  const MsgFetchFailed: string := "account fetch failed"
  const MsgUpdateFailed: string := "balance update failed"
  const MsgCommitFailed: string := "commit failed"
  const MsgCompleted: string := "transfer completed"

  function TransferEntry(req: TransferRequest, status: string, message: string): AuditEntry {
    AuditEntry(req.requestId, ActionTransfer, status, Some(message))
  }

  /** The deadlock-avoidance order: the two accounts are locked lower id first. */
  function LockOrder(fromId: AccountId, toId: AccountId): (r: (AccountId, AccountId))
    ensures r.0 <= r.1
    ensures (r.0 == fromId && r.1 == toId) || (r.0 == toId && r.1 == fromId)
  {
    if fromId > toId then (toId, fromId) else (fromId, toId)
  }

  /** Which locked account sends and which receives, whichever was locked first. */
  function AssignRoles(req: TransferRequest, acc1: Account, acc2: Account): (r: (Account, Account))
    requires (acc1.id, acc2.id) == LockOrder(req.fromId, req.toId)
    ensures r.0.id == req.fromId && r.1.id == req.toId
    ensures (r.0 == acc1 && r.1 == acc2) || (r.0 == acc2 && r.1 == acc1)
  {
    if req.fromId == acc1.id then (acc1, acc2) else (acc2, acc1)
  }

  /** The message a failing write or commit of the balance scope leaves on the row. */
  function InfraMessage(step: Step): string
    requires step.IsSettlement()
  {
    match step
    case DebitSender | CreditReceiver => MsgUpdateFailed
    case CommitBalance => MsgCommitFailed
  }

  /** What one call of Transfer does to the store, path by path. */
  function TransferSpec(s: Store, req: TransferRequest, f: Faults): (r: Outcome)
    ensures r.store.accounts.Keys == s.accounts.Keys
    ensures s.nextTxnId <= r.store.nextTxnId <= s.nextTxnId + 1
    ensures |s.audit| <= |r.store.audit| <= |s.audit| + 1 && r.store.audit[..|s.audit|] == s.audit
  {
    if req.amount <= 0 then
      Outcome(s.(audit := Log(s.audit, TransferEntry(req, StatusFailed, MsgInvalidAmount), f.auditDown)),
              Some(InvalidAmount))
    else if req.fromId == req.toId then
      Outcome(s.(audit := Log(s.audit, TransferEntry(req, StatusFailed, MsgSelfTransfer), f.auditDown)),
              Some(SameAccount))
    else if f.store == Some(BeginInsert) || f.store == Some(InsertRow) then
      Outcome(s, Some(Infra))
    else if f.store == Some(CommitInsert) then
      Outcome(s.(nextTxnId := s.nextTxnId + 1), Some(Infra))
    else
      var id := s.nextTxnId;
      var s1 := s.(txns := s.txns[id := PendingRow(id, req)], nextTxnId := id + 1);
      if f.store == Some(BeginBalance) then Outcome(s1, Some(Infra))
      else BalanceScope(s1, id, req, f)
  }

  /** The balance scope of TransferSpec, once the PENDING row `id` is committed. */
  function BalanceScope(s: Store, id: TxnId, req: TransferRequest, f: Faults): (r: Outcome)
    requires req.amount > 0
    requires f.store.Some? ==> f.store.value.InBalanceScope()
    ensures r.store.accounts.Keys == s.accounts.Keys && r.store.nextTxnId == s.nextTxnId
    ensures |s.audit| <= |r.store.audit| <= |s.audit| + 1 && r.store.audit[..|s.audit|] == s.audit
  {
    var (first, second) := LockOrder(req.fromId, req.toId);
    if f.store == Some(LockFirst) || first !in s.accounts
       || f.store == Some(LockSecond) || second !in s.accounts then
      Outcome(UpdateStatus(s, id, Failed, Some(MsgFetchFailed), f.status), Some(Infra))
    else if s.accounts[req.fromId] < req.amount then
      var logged := s.(audit := Log(s.audit, TransferEntry(req, StatusFailed, MsgInsufficientFunds), f.auditDown));
      Outcome(UpdateStatus(logged, id, Failed, Some(MsgInsufficientFunds), f.status), Some(InsufficientFunds))
    else
      Settle(s, id, req, f)
  }

  /** The debit, the credit and the commit of a funded transfer, then the
      SUCCESS mark and audit entry; a failing step marks the row instead. */
  function Settle(s: Store, id: TxnId, req: TransferRequest, f: Faults): (r: Outcome)
    requires req.fromId in s.accounts && req.toId in s.accounts
    requires 0 < req.amount <= s.accounts[req.fromId]
    requires f.store.Some? ==> f.store.value.IsSettlement()
    ensures r.store.accounts.Keys == s.accounts.Keys && r.store.nextTxnId == s.nextTxnId
    ensures |s.audit| <= |r.store.audit| <= |s.audit| + 1 && r.store.audit[..|s.audit|] == s.audit
  {
    if f.store.Some? then
      Outcome(UpdateStatus(s, id, Failed, Some(InfraMessage(f.store.value)), f.status), Some(Infra))
    else
      var sender := s.accounts[req.fromId];
      var receiver := s.accounts[req.toId];
      var moved := s.(accounts := s.accounts[req.fromId := sender - req.amount]
                                            [req.toId := AddInt64(receiver, req.amount)]);
      var marked := UpdateStatus(moved, id, Success, None, f.status);
      Outcome(marked.(audit := Log(marked.audit, TransferEntry(req, StatusSuccess, MsgCompleted), f.auditDown)),
              None)
  }

  /** The service over an in-memory wallet repository and audit sink. */
  class Service {
    var accounts: map<AccountId, int64>
    var txns: map<TxnId, Transaction>
    var nextTxnId: TxnId
    var statusWrites: seq<TxnId>
    var auditLog: seq<AuditEntry>

    function Snapshot(): Store
      reads this
    {
      Store(accounts, txns, nextTxnId, statusWrites, auditLog)
    }

    constructor (s: Store)
      ensures Snapshot() == s
    {
      accounts, txns, nextTxnId, statusWrites, auditLog :=
        s.accounts, s.txns, s.nextTxnId, s.statusWrites, s.audit;
    }

    /** GetAccountForUpdate: the locked row, or an error when the call fails
        or no such account exists. */
    method GetAccountForUpdate(id: AccountId, fails: bool) returns (acc: Option<Account>)
      ensures acc.Some? <==> !fails && id in accounts
      ensures acc.Some? ==> acc.value.id == id && acc.value.balance == accounts[id]
    {
      if fails || id !in accounts {
        return None;
      }
      return Some(Account(id, accounts[id]));
    }

    /** The shared body of both status helpers: begin, update, commit, with
        every error ignored and the deferred rollback dropping an uncommitted update. */
    method SetStatus(txnId: TxnId, status: TransactionStatus, message: Option<string>,
                     fault: Option<StatusStep>)
      modifies this
      ensures Snapshot() == UpdateStatus(old(Snapshot()), txnId, status, message, fault)
    {
      match fault {
        case Some(StatusBegin) =>
          // BeginTx failed: nothing was attempted.
          return;
        case Some(StatusUpdate) =>
          // The UPDATE failed; its error is dropped and the commit applies nothing.
          return;
        case Some(StatusCommit) =>
          // The commit failed; the deferred rollback discards the update.
          return;
        case None =>
          // An UPDATE that matches no row changes nothing and is no error.
          if txnId in txns {
            txns := txns[txnId := txns[txnId].(status := status, errorMessage := message)];
            statusWrites := statusWrites + [txnId];
          }
      }
    }

    method MarkTransactionFailed(txnId: TxnId, message: string, fault: Option<StatusStep>)
      modifies this
      ensures Snapshot() == UpdateStatus(old(Snapshot()), txnId, Failed, Some(message), fault)
    {
      SetStatus(txnId, Failed, Some(message), fault);
    }

    method MarkTransactionSuccess(txnId: TxnId, fault: Option<StatusStep>)
      modifies this
      ensures Snapshot() == UpdateStatus(old(Snapshot()), txnId, Success, None, fault)
    {
      SetStatus(txnId, Success, None, fault);
    }

    method LogAudit(requestId: string, action: string, status: string, message: string, sinkDown: bool)
      modifies this
      ensures auditLog == Log(old(auditLog), AuditEntry(requestId, action, status, Some(message)), sinkDown)
      ensures accounts == old(accounts) && txns == old(txns) && nextTxnId == old(nextTxnId)
      ensures statusWrites == old(statusWrites)
    {
      if !sinkDown {
        auditLog := auditLog + [AuditEntry(requestId, action, status, Some(message))];
      }
    }

    method Transfer(req: TransferRequest, f: Faults) returns (err: Option<TransferError>)
      modifies this
      ensures Outcome(Snapshot(), err) == TransferSpec(old(Snapshot()), req, f)
    {
      if req.amount <= 0 {
        LogAudit(req.requestId, ActionTransfer, StatusFailed, MsgInvalidAmount, f.auditDown);
        return Some(InvalidAmount);
      }
      if req.fromId == req.toId {
        LogAudit(req.requestId, ActionTransfer, StatusFailed, MsgSelfTransfer, f.auditDown);
        return Some(SameAccount);
      }

      // Step 1: the PENDING row, inserted and committed in a scope of its own.
      if f.store == Some(BeginInsert) || f.store == Some(InsertRow) {
        return Some(Infra);
      }
      var txnId := nextTxnId;
      var pendingTxn := PendingRow(txnId, req);
      nextTxnId := nextTxnId + 1;
      if f.store == Some(CommitInsert) {
        return Some(Infra);
      }
      txns := txns[txnId := pendingTxn];

      // Step 2: the balance scope, begun once the row is committed.
      if f.store == Some(BeginBalance) {
        return Some(Infra);
      }
      err := RunBalanceScope(txnId, req, f);
    }

    /** Steps 2 to 5 of Transfer inside the balance scope: lock both accounts in
        ascending-id order, check funds, debit and credit, commit, then mark
        the row. The writes are staged and reach the accounts only on commit;
        every early return drops them, as the deferred rollback does. */
    method RunBalanceScope(txnId: TxnId, req: TransferRequest, f: Faults) returns (err: Option<TransferError>)
      requires req.amount > 0
      requires f.store.Some? ==> f.store.value.InBalanceScope()
      modifies this
      ensures Outcome(Snapshot(), err) == BalanceScope(old(Snapshot()), txnId, req, f)
    {
      var (firstId, secondId) := LockOrder(req.fromId, req.toId);
      var acc1 := GetAccountForUpdate(firstId, f.store == Some(LockFirst));
      if acc1.None? {
        MarkTransactionFailed(txnId, MsgFetchFailed, f.status);
        return Some(Infra);
      }
      var acc2 := GetAccountForUpdate(secondId, f.store == Some(LockSecond));
      if acc2.None? {
        MarkTransactionFailed(txnId, MsgFetchFailed, f.status);
        return Some(Infra);
      }
      var (sender, receiver) := AssignRoles(req, acc1.value, acc2.value);

      // Step 3: the funds check.
      if sender.balance < req.amount {
        LogAudit(req.requestId, ActionTransfer, StatusFailed, MsgInsufficientFunds, f.auditDown);
        MarkTransactionFailed(txnId, MsgInsufficientFunds, f.status);
        return Some(InsufficientFunds);
      }

      err := SettleTransfer(txnId, req, sender, receiver, f);
    }

    /** Step 4 and 5 of Transfer: debit, credit (with Go's int64 wrap-around)
        and commit the balance scope, then mark the row SUCCESS and audit it. */
    method SettleTransfer(txnId: TxnId, req: TransferRequest, sender: Account, receiver: Account, f: Faults)
      returns (err: Option<TransferError>)
      requires req.fromId in accounts && req.toId in accounts
      requires sender == Account(req.fromId, accounts[req.fromId]) && receiver == Account(req.toId, accounts[req.toId])
      requires 0 < req.amount <= sender.balance
      requires f.store.Some? ==> f.store.value.IsSettlement()
      modifies this
      ensures Outcome(Snapshot(), err) == Settle(old(Snapshot()), txnId, req, f)
    {
      var staged: map<AccountId, int64> := map[];
      var newSenderBalance := sender.balance - req.amount;
      var newReceiverBalance := AddInt64(receiver.balance, req.amount);
      if f.store == Some(DebitSender) {
        MarkTransactionFailed(txnId, MsgUpdateFailed, f.status);
        return Some(Infra);
      }
      staged := staged[sender.id := newSenderBalance];
      if f.store == Some(CreditReceiver) {
        MarkTransactionFailed(txnId, MsgUpdateFailed, f.status);
        return Some(Infra);
      }
      staged := staged[receiver.id := newReceiverBalance];
      if f.store == Some(CommitBalance) {
        MarkTransactionFailed(txnId, MsgCommitFailed, f.status);
        return Some(Infra);
      }
      accounts := accounts + staged;
      assert accounts == old(accounts)[req.fromId := newSenderBalance][req.toId := newReceiverBalance];
      ghost var moved := Snapshot();
      assert moved == old(Snapshot()).(accounts := accounts);

      // Step 5: SUCCESS, outside the balance scope, then the audit entry.
      MarkTransactionSuccess(txnId, f.status);
      LogAudit(req.requestId, ActionTransfer, StatusSuccess, MsgCompleted, f.auditDown);
      return None;
    }
  }
}
