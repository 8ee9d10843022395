/** The documents of the wallet platform's collections.

    A document's id is its position in its collection: ids are unique, never reused, and
    order the documents by creation time. An id that no document has yet is any larger number.
    Amounts are positive integers in minor units, as the request DTOs demand. */
module Domain {
  datatype Option<T> = None | Some(value: T)

  datatype Result<T> = Ok(value: T) | Err(error: Error)

  datatype Error =
    | SameWallet
    | WalletNotFound
    | SourceNotFound
    | DestinationNotFound
    | InsufficientBalance
    | CurrencyMismatch
    | DuplicateKey

  type Amount = n: int | 0 < n witness 1
  type Time = int

  type WalletId = nat
  type TransferId = nat
  type TransactionId = nat
  type EventId = nat
  type MessageId = nat

  datatype Wallet = Wallet(userId: string, ownerName: string, currency: string, balance: int)

  /** A transfer's idempotency key. A request may leave it out, or give an explicit null, which is
      stored and indexed like any other value. */
  datatype Key = NoKey | NullKey | TextKey(text: string)
  {
    /** What the code takes for a key when an insertion violates the index. */
    predicate Truthy() { TextKey? && text != "" }
  }

  datatype Status = Pending | Completed | Failed

  datatype Transfer = Transfer(
    from: WalletId, to: WalletId, amount: Amount, status: Status,
    key: Key, createdAt: Time, lastSweptAt: Option<Time>)
  {
    predicate Terminal() { status != Pending }
  }

  datatype Kind = Deposit | Withdrawal | TransferIn | TransferOut

  /** A caller's own reference, or the one the sweeper writes on a refund. */
  datatype Reference = ClientReference(text: string) | RefundOf(transfer: TransferId)

  datatype Transaction = Transaction(
    wallet: WalletId, kind: Kind, amount: Amount, balanceAfter: int,
    reference: Option<Reference>, transfer: Option<TransferId>, counterparty: Option<WalletId>)

  datatype Direction = Debit | Credit

  datatype LedgerEntry = LedgerEntry(
    transaction: TransactionId, wallet: WalletId, direction: Direction, amount: Amount, balanceAfter: int)

  datatype Payload =
    | WalletCreated(wallet: WalletId, userId: string, currency: string)
    | WalletDeposited(wallet: WalletId, transaction: TransactionId, amount: Amount, balanceAfter: int)
    | WalletWithdrawn(wallet: WalletId, transaction: TransactionId, amount: Amount, balanceAfter: int)
    | TransferInitiated(transfer: TransferId, from: WalletId, to: WalletId, amount: Amount)

  datatype OutboxEvent = OutboxEvent(payload: Payload, published: bool)

  datatype TransferDto = TransferDto(from: WalletId, to: WalletId, amount: Amount, key: Key)

  /** What the broker has done with one published message. A message whose routing key does
      not match the queue's binding is dropped; a queued one may be delivered any number of times. */
  datatype Fate = Unrouted | Queued | Acked | DeadLettered

  /** `event` records which outbox event was published; the message itself carries the payload only. */
  datatype Message = Message(event: EventId, payload: Payload, fate: Fate)

  function DirectionOf(kind: Kind): Direction {
    match kind
    case Deposit => Credit
    case TransferIn => Credit
    case Withdrawal => Debit
    case TransferOut => Debit
  }

  function RoutingKey(p: Payload): string {
    match p
    case WalletCreated(_, _, _) => "wallet.created"
    case WalletDeposited(_, _, _, _) => "wallet.deposited"
    case WalletWithdrawn(_, _, _, _) => "wallet.withdrawn"
    case TransferInitiated(_, _, _, _) => "transfer.initiated"
  }

  /** The topic pattern `transfer.*`: the word "transfer", a dot, and exactly one more word. */
  predicate MatchesTransferBinding(key: string) {
    "transfer." <= key && '.' !in key[|"transfer."|..]
  }

  lemma OnlyTransferEventsAreRouted(p: Payload)
    ensures MatchesTransferBinding(RoutingKey(p)) <==> p.TransferInitiated?
  {
    if !p.TransferInitiated? {
      assert RoutingKey(p)[0] == 'w' && "transfer."[0] == 't';
    }
  }
}
