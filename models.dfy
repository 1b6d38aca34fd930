// Value types of the billing package: accounts, transfer requests and
// transaction rows, with Go's fixed-width integers written out.
module Models {

  datatype Option<T> = None | Some(value: T)

  const MinInt64: int := -0x8000_0000_0000_0000
  const MaxInt64: int := 0x7fff_ffff_ffff_ffff
  const TwoTo64: int := 0x1_0000_0000_0000_0000

  /** Go's int64: balances and amounts are cents in this range. */
  newtype int64 = x: int | MinInt64 <= x <= MaxInt64

  /** Go's uint64: account ids. */
  newtype uint64 = x: int | 0 <= x < TwoTo64

  type AccountId = uint64

  /** Transaction ids come from an auto-increment column; they are not bounded here. */
  type TxnId = nat

  /** Go's `+` on two int64 values: the exact sum when it fits, otherwise the
      sum wrapped around by 2^64 (two's complement, no panic). */
  function AddInt64(a: int64, b: int64): (r: int64)
    ensures MinInt64 <= a as int + b as int <= MaxInt64 ==> r as int == a as int + b as int
    ensures a as int + b as int > MaxInt64 ==> r as int == a as int + b as int - TwoTo64 && r < 0
  {
    var x := a as int + b as int;
    if x > MaxInt64 then (x - TwoTo64) as int64
    else if x < MinInt64 then (x + TwoTo64) as int64
    else x as int64
  }

  /** AddInt64 is addition modulo 2^64. */
  lemma AddInt64IsModular(a: int64, b: int64)
    ensures (a as int + b as int - AddInt64(a, b) as int) % TwoTo64 == 0
  {
  }

  /** An account row; only the id and the balance take part in a transfer. */
  datatype Account = Account(id: AccountId, balance: int64)

  datatype TransactionStatus = Pending | Success | Failed

  /** A row of the transactions table. */
  datatype Transaction = Transaction(
    id: TxnId,
    requestId: string,
    fromAccountId: AccountId,
    toAccountId: AccountId,
    amount: int64,
    status: TransactionStatus,
    errorMessage: Option<string>)

  datatype TransferRequest = TransferRequest(
    requestId: string,
    fromId: AccountId,
    toId: AccountId,
    amount: int64)

  /** The row the engine inserts before touching any balance. */
  function PendingRow(id: TxnId, req: TransferRequest): (t: Transaction)
    ensures t.id == id && t.status == Pending && t.errorMessage == None
    ensures t.requestId == req.requestId && t.amount == req.amount
    ensures t.fromAccountId == req.fromId && t.toAccountId == req.toId
  {
    Transaction(id, req.requestId, req.fromId, req.toId, req.amount, Pending, None)
  }
}
