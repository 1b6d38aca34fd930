// The in-memory ledger store: the accounts table, the transactions table with
// its auto-increment counter, and the audit log, as one value.
module Ledger {
  import opened Models
  import opened Audit

  /** Which step of a status update's own scope fails: its BeginTx, the
      UPDATE statement, or its Commit. */
  datatype StatusStep = StatusBegin | StatusUpdate | StatusCommit

  /** accounts: id -> balance in cents.
      txns: the transactions table; nextTxnId: the next auto-increment value.
      statusWrites: the ids of the committed status updates, oldest first.
      audit: the audit sink's entries, oldest first. */
  datatype Store = Store(
    accounts: map<AccountId, int64>,
    txns: map<TxnId, Transaction>,
    nextTxnId: TxnId,
    statusWrites: seq<TxnId>,
    audit: seq<AuditEntry>)

  /** Every row sits under its own id, below the counter; a row is updated at
      most once, and only from PENDING to a terminal status. */
  ghost predicate Valid(s: Store) {
    && (forall id | id in s.txns :: id < s.nextTxnId && s.txns[id].id == id)
    && (forall i | 0 <= i < |s.statusWrites| ::
          s.statusWrites[i] in s.txns && s.txns[s.statusWrites[i]].status != Pending)
    && (forall i, j | 0 <= i < j < |s.statusWrites| :: s.statusWrites[i] != s.statusWrites[j])
  }

  /** UpdateTransactionStatus run in a scope of its own and committed, as both
      status helpers of the service do. Its errors are ignored by the caller,
      so a failing step just leaves the store as it was. */
  function UpdateStatus(s: Store, id: TxnId, status: TransactionStatus, message: Option<string>,
                        fault: Option<StatusStep>): (r: Store)
    ensures r.accounts == s.accounts && r.nextTxnId == s.nextTxnId && r.audit == s.audit
    ensures r.txns.Keys == s.txns.Keys
    ensures forall k | k in s.txns && k != id :: r.txns[k] == s.txns[k]
    ensures id in s.txns && fault == None ==>
      r.txns[id] == s.txns[id].(status := status, errorMessage := message)
      && r.statusWrites == s.statusWrites + [id]
    ensures id !in s.txns || fault != None ==> r == s
  {
    if fault == None && id in s.txns then
      s.(txns := s.txns[id := s.txns[id].(status := status, errorMessage := message)],
         statusWrites := s.statusWrites + [id])
    else
      s
  }

  /** The sum of all balances. */
  ghost function Total(m: map<AccountId, int64>): int
    decreases |m|
  {
    if m == map[] then 0
    else
      var k :| k in m;
      m[k] as int + Total(m - {k})
  }

  lemma {:induction false} TotalRemove(m: map<AccountId, int64>, k: AccountId)
    requires k in m
    ensures Total(m) == m[k] as int + Total(m - {k})
    decreases |m|
  {
    var j :| j in m && Total(m) == m[j] as int + Total(m - {j});
    if j != k {
      TotalRemove(m - {j}, k);
      TotalRemove(m - {k}, j);
      assert m - {j} - {k} == m - {k} - {j};
    }
  }

  /** Overwriting one balance changes the total by exactly the difference. */
  lemma TotalUpdate(m: map<AccountId, int64>, k: AccountId, v: int64)
    requires k in m
    ensures Total(m[k := v]) == Total(m) - m[k] as int + v as int
  {
    TotalRemove(m, k);
    TotalRemove(m[k := v], k);
    assert m[k := v] - {k} == m - {k};
  }

  ghost predicate NonNegative(m: map<AccountId, int64>) {
    forall k | k in m :: m[k] >= 0
  }

  lemma {:induction false} TotalNonNegative(m: map<AccountId, int64>)
    requires NonNegative(m)
    ensures Total(m) >= 0
    decreases |m|
  {
    if m != map[] {
      var k :| k in m;
      TotalRemove(m, k);
      TotalNonNegative(m - {k});
    }
  }

  /** With no negative balance, two accounts together hold at most the total. */
  lemma TotalBoundsPair(m: map<AccountId, int64>, a: AccountId, b: AccountId)
    requires NonNegative(m) && a in m && b in m && a != b
    ensures m[a] as int + m[b] as int <= Total(m)
  {
    TotalRemove(m, a);
    TotalRemove(m - {a}, b);
    TotalNonNegative(m - {a} - {b});
  }

  /** No balance is negative and the total fits an int64, so no credit can overflow. */
  ghost predicate Solvent(m: map<AccountId, int64>) {
    NonNegative(m) && Total(m) <= MaxInt64
  }
}
