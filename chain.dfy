/**
 * The blockchain inputs the indexer reads: receipts, their actions and
 * execution outcomes, and the transaction a receipt belongs to. Only the
 * fields the indexer looks at are kept.
 */
module Chain {

  newtype byte = x: int | 0 <= x < 256

  /** A 32-byte hash (receipt and transaction ids); the width is not enforced. */
  type CryptoHash = seq<byte>

  /** A NEAR account name; its format is validated by foreign code. */
  type AccountId = string

  /** The outcome recorded for a receipt's execution. */
  datatype ExecutionStatus =
    | Unknown
    | Failure
    | SuccessValue(value: seq<byte>)
    | SuccessReceiptId(id: CryptoHash)

  /** One action of an action receipt. Only function calls matter here. */
  datatype Action =
    | FunctionCall(methodName: string, args: seq<byte>)
    | OtherAction  // account creation, transfer, staking, key management, ...

  /** A receipt either carries actions or carries data for another receipt. */
  datatype ReceiptBody =
    | ActionReceipt(actions: seq<Action>)
    | DataReceipt

  datatype TransactionReceipt = TransactionReceipt(
    receiptId: CryptoHash,
    predecessorId: AccountId,
    receiverId: AccountId,
    body: ReceiptBody,
    status: ExecutionStatus,
    blockHeight: nat,
    blockTimestampNanosec: nat)

  datatype IncompleteTransaction = IncompleteTransaction(hash: CryptoHash)

  /**
   * Whether the receipt executed successfully. An outcome that is not
   * known yet counts as success only when `ifUnknown` says so; the indexer
   * passes `false`, the strict check.
   */
  predicate IsSuccessful(status: ExecutionStatus, ifUnknown: bool)
  {
    match status
    case SuccessValue(_) => true
    case SuccessReceiptId(_) => true
    case Failure => false
    case Unknown => ifUnknown
  }
}
