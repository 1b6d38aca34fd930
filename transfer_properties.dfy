// What one Transfer promises, stated over TransferSpec: validation order,
// lock order, the outcome of each path, the row lifecycle and conservation.
module TransferProperties {
  import opened Models
  import opened Audit
  import opened Ledger
  import opened Billing

  /** The store failures that stop a transfer before its funds check. */
  const BeforeFundsCheck: set<Option<Step>> :=
    {Some(BeginInsert), Some(InsertRow), Some(CommitInsert), Some(BeginBalance), Some(LockFirst), Some(LockSecond)}

  /** A row after one status update that is committed only when its scope has no fault. */
  function Marked(row: Transaction, status: TransactionStatus, message: Option<string>,
                  fault: Option<StatusStep>): Transaction {
    if fault == None then row.(status := status, errorMessage := message) else row
  }

  /** Ledger and audit log after a store operation that wrote nothing but this audit entry. */
  ghost predicate OnlyAudited(s: Store, r: Store, status: string, message: string, req: TransferRequest, f: Faults) {
    && r.accounts == s.accounts && r.txns == s.txns && r.nextTxnId == s.nextTxnId
    && r.statusWrites == s.statusWrites
    && r.audit == s.audit + (if f.auditDown then [] else [AuditEntry(req.requestId, "TRANSFER", status, Some(message))])
  }

  /** The amount is checked first: a non-positive amount is rejected even from
      an account to itself, with one FAILED audit entry and no other write. */
  lemma InvalidAmountComesFirst(s: Store, req: TransferRequest, f: Faults)
    requires req.amount <= 0
    ensures TransferSpec(s, req, f).err == Some(InvalidAmount)
    ensures OnlyAudited(s, TransferSpec(s, req, f).store, "FAILED", "invalid amount", req, f)
  {
  }

  /** A positive self-transfer is rejected with one FAILED audit entry and no other write. */
  lemma SelfTransferRejected(s: Store, req: TransferRequest, f: Faults)
    requires req.amount > 0 && req.fromId == req.toId
    ensures TransferSpec(s, req, f).err == Some(SameAccount)
    ensures OnlyAudited(s, TransferSpec(s, req, f).store, "FAILED", "self transfer not allowed", req, f)
  {
  }

  /** The lock order depends on the pair of ids only, not on the direction,
      and for two distinct accounts it is strictly ascending. */
  lemma LockOrderIgnoresDirection(a: AccountId, b: AccountId)
    ensures LockOrder(a, b) == LockOrder(b, a)
    ensures a != b ==> LockOrder(a, b).0 < LockOrder(a, b).1
    ensures LockOrder(a, b).0 == (if a <= b then a else b) && LockOrder(a, b).1 == (if a <= b then b else a)
  {
  }

  /** A transfer succeeds exactly when it is valid, no store step fails, both
      accounts exist and the sender holds at least the amount. */
  lemma TransferSucceedsIff(s: Store, req: TransferRequest, f: Faults)
    ensures TransferSpec(s, req, f).err == None <==>
      && req.amount > 0 && req.fromId != req.toId && f.store == None
      && req.fromId in s.accounts && req.toId in s.accounts
      && s.accounts[req.fromId] >= req.amount
  {
  }

  /** A successful transfer debits the sender by the amount (never below zero),
      credits the receiver with Go's int64 addition, leaves every other account
      alone, marks its own row SUCCESS and appends one SUCCESS audit entry. */
  lemma SuccessfulTransfer(s: Store, req: TransferRequest, f: Faults)
    requires TransferSpec(s, req, f).err == None
    ensures req.fromId in s.accounts && req.toId in s.accounts && req.fromId != req.toId
    ensures var r := TransferSpec(s, req, f).store;
      && r.accounts.Keys == s.accounts.Keys
      && r.accounts[req.fromId] as int == s.accounts[req.fromId] as int - req.amount as int >= 0
      && r.accounts[req.toId] == AddInt64(s.accounts[req.toId], req.amount)
      && (forall k | k in s.accounts && k != req.fromId && k != req.toId :: r.accounts[k] == s.accounts[k])
      && r.txns == s.txns[s.nextTxnId := Marked(PendingRow(s.nextTxnId, req), Success, None, f.status)]
      && r.nextTxnId == s.nextTxnId + 1
      && r.audit == s.audit + (if f.auditDown then [] else [AuditEntry(req.requestId, "TRANSFER", "SUCCESS", Some("transfer completed"))])
  {
    TransferSucceedsIff(s, req, f);
  }

  /** Without overflow the credit is exact and the two balances keep their sum. */
  lemma SuccessfulTransferConservesPair(s: Store, req: TransferRequest, f: Faults)
    requires TransferSpec(s, req, f).err == None
    requires req.toId in s.accounts && s.accounts[req.toId] as int + req.amount as int <= MaxInt64
    ensures var r := TransferSpec(s, req, f).store;
      && r.accounts[req.toId] as int == s.accounts[req.toId] as int + req.amount as int
      && r.accounts[req.fromId] as int + r.accounts[req.toId] as int
         == s.accounts[req.fromId] as int + s.accounts[req.toId] as int
  {
    SuccessfulTransfer(s, req, f);
  }

  /** The credit has no overflow check: a receiver at the int64 maximum wraps
      to the minimum and the pair loses 2^64 cents. */
  lemma CreditOverflowWraps()
    ensures var s := Store(map[1 := 1, 2 := MaxInt64 as int64], map[], 0, [], []);
      var r := TransferSpec(s, TransferRequest("r0", 1, 2, 1), NoFaults);
      && r.err == None
      && r.store.accounts[1] == 0
      && r.store.accounts[2] as int == MinInt64
      && r.store.accounts[1] as int + r.store.accounts[2] as int
         == s.accounts[1] as int + s.accounts[2] as int - TwoTo64
  {
    var s := Store(map[1 := 1, 2 := MaxInt64 as int64], map[], 0, [], []);
    var req := TransferRequest("r0", 1, 2, 1);
    SuccessfulTransfer(s, req, NoFaults);
  }

  /** Insufficient funds is reported exactly when the transfer is valid, both
      rows are locked and the sender holds less than the amount; then no
      balance changes, the row is marked FAILED and one FAILED entry is logged. */
  lemma InsufficientFundsIff(s: Store, req: TransferRequest, f: Faults)
    ensures TransferSpec(s, req, f).err == Some(InsufficientFunds) <==>
      && req.amount > 0 && req.fromId != req.toId && f.store !in BeforeFundsCheck
      && req.fromId in s.accounts && req.toId in s.accounts
      && s.accounts[req.fromId] < req.amount
    ensures var r := TransferSpec(s, req, f).store;
      TransferSpec(s, req, f).err == Some(InsufficientFunds) ==>
      && r.accounts == s.accounts
      && r.txns == s.txns[s.nextTxnId := Marked(PendingRow(s.nextTxnId, req), Failed, Some("insufficient funds"), f.status)]
      && r.audit == s.audit + (if f.auditDown then [] else [AuditEntry(req.requestId, "TRANSFER", "FAILED", Some("insufficient funds"))])
  {
  }

  /** A store failure leaves every balance as it was (the balance scope is
      all-or-nothing) and logs no audit entry; the row shows how far it got. */
  lemma InfrastructureFailure(s: Store, req: TransferRequest, f: Faults)
    requires TransferSpec(s, req, f).err == Some(Infra)
    ensures var r := TransferSpec(s, req, f).store;
      && r.accounts == s.accounts && r.audit == s.audit
      && (f.store in {Some(BeginInsert), Some(InsertRow), Some(CommitInsert)} ==> r.txns == s.txns)
      && (f.store == Some(BeginBalance) ==> r.txns == s.txns[s.nextTxnId := PendingRow(s.nextTxnId, req)])
      && (f.store !in {Some(BeginInsert), Some(InsertRow), Some(CommitInsert), Some(BeginBalance)} ==>
            var fetchFailed := f.store in {None, Some(LockFirst), Some(LockSecond)}
                               || req.fromId !in s.accounts || req.toId !in s.accounts;
            var message := if fetchFailed then "account fetch failed"
                           else if f.store == Some(CommitBalance) then "commit failed"
                           else "balance update failed";
            r.txns == s.txns[s.nextTxnId := Marked(PendingRow(s.nextTxnId, req), Failed, Some(message), f.status)])
  {
  }

  /** Once the PENDING insert commits, exactly one new row exists carrying the
      request; it stays PENDING only if the balance scope never began or its
      own status update failed, and otherwise it got exactly one status write. */
  lemma PendingRowLifecycle(s: Store, req: TransferRequest, f: Faults)
    requires Valid(s)
    requires req.amount > 0 && req.fromId != req.toId
    requires f.store !in {Some(BeginInsert), Some(InsertRow), Some(CommitInsert)}
    ensures var r := TransferSpec(s, req, f).store; var id := s.nextTxnId;
      && id !in s.txns
      && r.txns.Keys == s.txns.Keys + {id}
      && r.txns[id].requestId == req.requestId && r.txns[id].amount == req.amount
      && r.txns[id].fromAccountId == req.fromId && r.txns[id].toAccountId == req.toId
      && (r.txns[id].status == Pending <==> f.store == Some(BeginBalance) || f.status != None)
      && r.statusWrites == s.statusWrites + (if r.txns[id].status == Pending then [] else [id])
  {
  }

  /** A transfer touches no row but its own: earlier rows, terminal or not,
      are unchanged, at most one id is added and at most one status write is
      made, and the store stays well formed. */
  lemma TransferKeepsOtherRows(s: Store, req: TransferRequest, f: Faults)
    requires Valid(s)
    ensures var r := TransferSpec(s, req, f).store;
      && Valid(r)
      && (forall k | k in s.txns :: k in r.txns && r.txns[k] == s.txns[k])
      && r.txns.Keys <= s.txns.Keys + {s.nextTxnId}
      && s.nextTxnId <= r.nextTxnId <= s.nextTxnId + 1
      && (r.statusWrites == s.statusWrites || r.statusWrites == s.statusWrites + [s.nextTxnId])
  {
    if req.amount > 0 && req.fromId != req.toId
       && f.store !in {Some(BeginInsert), Some(InsertRow), Some(CommitInsert)} {
      InsertedTouchesOnlyItsRow(s, req, f);
    } else {
      var r := TransferSpec(s, req, f).store;
      assert r.txns == s.txns && r.statusWrites == s.statusWrites;
    }
  }

  /** The part of TransferKeepsOtherRows after the PENDING row is committed. */
  lemma InsertedTouchesOnlyItsRow(s: Store, req: TransferRequest, f: Faults)
    requires Valid(s) && req.amount > 0 && req.fromId != req.toId
    requires f.store !in {Some(BeginInsert), Some(InsertRow), Some(CommitInsert)}
    ensures var r := TransferSpec(s, req, f).store;
      && Valid(r)
      && (forall k | k in s.txns :: k in r.txns && r.txns[k] == s.txns[k])
      && r.txns.Keys == s.txns.Keys + {s.nextTxnId} && r.nextTxnId == s.nextTxnId + 1
      && (r.statusWrites == s.statusWrites || r.statusWrites == s.statusWrites + [s.nextTxnId])
  {
    var id := s.nextTxnId;
    var s1 := s.(txns := s.txns[id := PendingRow(id, req)], nextTxnId := id + 1);
    assert Valid(s1);
    if f.store != Some(BeginBalance) {
      assert TransferSpec(s, req, f) == BalanceScope(s1, id, req, f);
      BalanceScopeTouchesOnlyItsRow(s1, id, req, f);
    } else {
      assert TransferSpec(s, req, f).store == s1;
    }
  }

  lemma BalanceScopeTouchesOnlyItsRow(s: Store, id: TxnId, req: TransferRequest, f: Faults)
    requires Valid(s) && id in s.txns && id !in s.statusWrites && req.amount > 0
    requires f.store.Some? ==> f.store.value.InBalanceScope()
    ensures var r := BalanceScope(s, id, req, f).store;
      && Valid(r)
      && r.txns.Keys == s.txns.Keys && r.nextTxnId == s.nextTxnId
      && (forall k | k in s.txns && k != id :: r.txns[k] == s.txns[k])
      && (r.statusWrites == s.statusWrites || r.statusWrites == s.statusWrites + [id])
  {
    var (first, second) := LockOrder(req.fromId, req.toId);
    if f.store == Some(LockFirst) || first !in s.accounts
       || f.store == Some(LockSecond) || second !in s.accounts {
      UpdateStatusKeepsValid(s, id, Failed, Some(MsgFetchFailed), f.status);
    } else if s.accounts[req.fromId] < req.amount {
      var logged := s.(audit := Log(s.audit, TransferEntry(req, StatusFailed, MsgInsufficientFunds), f.auditDown));
      UpdateStatusKeepsValid(logged, id, Failed, Some(MsgInsufficientFunds), f.status);
    } else if f.store.Some? {
      UpdateStatusKeepsValid(s, id, Failed, Some(InfraMessage(f.store.value)), f.status);
    } else {
      var sender := s.accounts[req.fromId];
      var receiver := s.accounts[req.toId];
      var moved := s.(accounts := s.accounts[req.fromId := sender - req.amount]
                                            [req.toId := AddInt64(receiver, req.amount)]);
      UpdateStatusKeepsValid(moved, id, Success, None, f.status);
    }
  }

  /** A status write to a row not yet written keeps the store well formed. */
  lemma UpdateStatusKeepsValid(s: Store, id: TxnId, status: TransactionStatus, message: Option<string>,
                               fault: Option<StatusStep>)
    requires Valid(s) && status != Pending && id !in s.statusWrites
    ensures Valid(UpdateStatus(s, id, status, message, fault))
  {
  }

  /** In a solvent ledger every transfer, whatever its outcome, keeps the ledger
      solvent and the total of all balances unchanged: the credit cannot wrap. */
  lemma TransferConservesTotal(s: Store, req: TransferRequest, f: Faults)
    requires Solvent(s.accounts)
    ensures Solvent(TransferSpec(s, req, f).store.accounts)
    ensures Total(TransferSpec(s, req, f).store.accounts) == Total(s.accounts)
  {
    BalancesChangeOnlyOnSuccess(s, req, f);
    if TransferSpec(s, req, f).err == None {
      MoveConservesTotal(s.accounts, req.fromId, req.toId, req.amount);
    }
  }

  /** Balances change only when the transfer returns nil, and then exactly as
      the debit and the wrapping credit say. */
  lemma BalancesChangeOnlyOnSuccess(s: Store, req: TransferRequest, f: Faults)
    ensures var r := TransferSpec(s, req, f);
      if r.err == None then
        && req.fromId in s.accounts && req.toId in s.accounts && req.fromId != req.toId
        && 0 < req.amount <= s.accounts[req.fromId]
        && r.store.accounts == s.accounts[req.fromId := s.accounts[req.fromId] - req.amount]
                                         [req.toId := AddInt64(s.accounts[req.toId], req.amount)]
      else r.store.accounts == s.accounts
  {
  }

  /** Moving a funded amount between two accounts of a solvent ledger keeps it
      solvent and keeps the total. */
  lemma MoveConservesTotal(m: map<AccountId, int64>, from: AccountId, to: AccountId, a: int64)
    requires Solvent(m) && from in m && to in m && from != to && 0 < a <= m[from]
    ensures var m2 := m[from := m[from] - a][to := AddInt64(m[to], a)];
      Solvent(m2) && Total(m2) == Total(m)
  {
    TotalBoundsPair(m, from, to);
    var m1 := m[from := m[from] - a];
    TotalUpdate(m, from, m[from] - a);
    TotalUpdate(m1, to, AddInt64(m[to], a));
  }

  /** Accounts {1: 1000, 2: 500}; r1 moves 300 from 1 to 2. */
  lemma ScenarioTransferSucceeds()
    ensures var s := Store(map[1 := 1000, 2 := 500], map[], 1, [], []);
      var o := TransferSpec(s, TransferRequest("r1", 1, 2, 300), NoFaults);
      && o.err == None
      && o.store.accounts == map[1 := 700, 2 := 800]
      && o.store.txns[1].status == Success
      && o.store.audit == [AuditEntry("r1", "TRANSFER", "SUCCESS", Some("transfer completed"))]
  {
    var s := Store(map[1 := 1000, 2 := 500], map[], 1, [], []);
    SuccessfulTransfer(s, TransferRequest("r1", 1, 2, 300), NoFaults);
  }

  /** Accounts {1: 100, 2: 500}; r2 asks for 300 from 1 and fails. */
  lemma ScenarioInsufficientFunds()
    ensures var s := Store(map[1 := 100, 2 := 500], map[], 1, [], []);
      var o := TransferSpec(s, TransferRequest("r2", 1, 2, 300), NoFaults);
      && o.err == Some(InsufficientFunds)
      && o.store.accounts == s.accounts
      && o.store.txns[1].status == Failed && o.store.txns[1].errorMessage == Some("insufficient funds")
      && o.store.audit == [AuditEntry("r2", "TRANSFER", "FAILED", Some("insufficient funds"))]
  {
  }
}
