/** The transactional store and the committed effect of each closure that runs against it.

    Every function here gives the state after the closure has committed or rolled back. The
    request functions check everything first; the service classes do what the code does, which
    is to write first, check later and roll back. */
module Database {
  import opened Domain

  datatype Db = Db(
    wallets: seq<Wallet>, transfers: seq<Transfer>, transactions: seq<Transaction>,
    ledger: seq<LedgerEntry>, outbox: seq<OutboxEvent>, inbox: set<MessageId>)

  const EMPTY := Db([], [], [], [], [], {})

  const RELAY_BATCH := 50
  const SWEEP_BATCH := 100
  const DEFAULT_CURRENCY := "GHS"

  function Delta(kind: Kind, amount: Amount): int {
    if DirectionOf(kind).Credit? then amount as int else -(amount as int)
  }

  /** One money movement: the balance, its transaction and its ledger entry. */
  function Post(db: Db, w: WalletId, kind: Kind, amount: Amount, reference: Option<Reference>,
                transfer: Option<TransferId>, counterparty: Option<WalletId>): Db
    requires w < |db.wallets|
  {
    var balance := db.wallets[w].balance + Delta(kind, amount);
    db.(wallets := db.wallets[w := db.wallets[w].(balance := balance)],
        transactions := db.transactions + [Transaction(w, kind, amount, balance, reference, transfer, counterparty)],
        ledger := db.ledger + [LedgerEntry(|db.transactions|, w, DirectionOf(kind), amount, balance)])
  }

  function Enqueue(db: Db, p: Payload): Db {
    db.(outbox := db.outbox + [OutboxEvent(p, false)])
  }

  function ClientRef(reference: Option<string>): Option<Reference> {
    match reference
    case None => None
    case Some(text) => Some(ClientReference(text))
  }

  function CreateWallet(db: Db, userId: string, ownerName: string, currency: Option<string>): Db {
    var c := if currency.Some? then currency.value else DEFAULT_CURRENCY;
    Enqueue(db.(wallets := db.wallets + [Wallet(userId, ownerName, c, 0)]),
            WalletCreated(|db.wallets|, userId, c))
  }

  function PostDeposit(db: Db, w: WalletId, amount: Amount, reference: Option<string>): (Db, Result<Wallet>) {
    if |db.wallets| <= w then
      (db, Err(WalletNotFound))
    else
      var posted := Post(db, w, Deposit, amount, ClientRef(reference), None, None);
      (Enqueue(posted, WalletDeposited(w, |db.transactions|, amount, posted.wallets[w].balance)), Ok(posted.wallets[w]))
  }

  function PostWithdrawal(db: Db, w: WalletId, amount: Amount, reference: Option<string>): (Db, Result<Wallet>) {
    if |db.wallets| <= w then
      (db, Err(WalletNotFound))
    else if db.wallets[w].balance < amount then
      (db, Err(InsufficientBalance))
    else
      var posted := Post(db, w, Withdrawal, amount, ClientRef(reference), None, None);
      (Enqueue(posted, WalletWithdrawn(w, |db.transactions|, amount, posted.wallets[w].balance)), Ok(posted.wallets[w]))
  }

  /** The wallet and balance checks of a transfer request, in the order the code reports them. */
  function TransferError(db: Db, dto: TransferDto): Option<Error> {
    if dto.from == dto.to then Some(SameWallet)
    else if |db.wallets| <= dto.to then Some(DestinationNotFound)
    else if |db.wallets| <= dto.from then Some(SourceNotFound)
    else if db.wallets[dto.from].balance < dto.amount then Some(InsufficientBalance)
    else if db.wallets[dto.from].currency != db.wallets[dto.to].currency then Some(CurrencyMismatch)
    else None
  }

  /** The transfer that already carries `key`, as the unique index would find it. The index is
      sparse: it leaves out transfers without a key. */
  function FindByKey(transfers: seq<Transfer>, key: Key): (r: Option<TransferId>)
    ensures r.Some? ==> r.value < |transfers| && transfers[r.value].key == key && key != NoKey
    ensures r.None? && key != NoKey ==> forall t :: 0 <= t < |transfers| ==> transfers[t].key != key
  {
    if key.NoKey? || |transfers| == 0 then None
    else
      var earlier := FindByKey(transfers[..|transfers| - 1], key);
      if earlier.Some? then earlier
      else if transfers[|transfers| - 1].key == key then Some(|transfers| - 1)
      else None
  }

  function OpenTransfer(db: Db, dto: TransferDto, now: Time): Db
    requires TransferError(db, dto).None?
  {
    var t := |db.transfers|;
    var created := db.(transfers := db.transfers + [Transfer(dto.from, dto.to, dto.amount, Pending, dto.key, now, None)]);
    Enqueue(Post(created, dto.from, TransferOut, dto.amount, None, Some(t), Some(dto.to)),
            TransferInitiated(t, dto.from, dto.to, dto.amount))
  }

  /** A null or empty key violates the unique index like any other, but the code's handler takes
      it for no key and reports the violation. */
  function RequestTransfer(db: Db, dto: TransferDto, now: Time): (Db, Result<TransferId>) {
    var invalid := TransferError(db, dto);
    if invalid.Some? then
      (db, Err(invalid.value))
    else
      var existing := FindByKey(db.transfers, dto.key);
      if existing.Some? then
        (db, if dto.key.Truthy() then Ok(existing.value) else Err(DuplicateKey))
      else
        (OpenTransfer(db, dto, now), Ok(|db.transfers|))
  }

  /** How the consumer's closure ended for one delivery. */
  datatype Outcome = Credited | AlreadySettled | TransferMissing | DuplicateClaim | WalletMissing

  function CompleteTransfer(db: Db, m: MessageId, t: TransferId, to: WalletId, amount: Amount): (r: (Db, Outcome))
    ensures r.1.Credited? ==> to < |r.0.wallets| && to < |db.wallets|
  {
    if m in db.inbox then
      (db, DuplicateClaim)
    else
      var claimed := db.(inbox := db.inbox + {m});
      if |db.transfers| <= t then (claimed, TransferMissing)
      else if db.transfers[t].Terminal() then (claimed, AlreadySettled)
      else if |db.wallets| <= to then (db, WalletMissing)
      else
        var completed := claimed.(transfers := db.transfers[t := db.transfers[t].(status := Completed)]);
        (Post(completed, to, TransferIn, amount, None, Some(t), Some(db.transfers[t].from)), Credited)
  }

  function Refund(db: Db, t: TransferId, now: Time): Db {
    if |db.transfers| <= t || db.transfers[t].Terminal() then
      db
    else
      var tr := db.transfers[t];
      var failed := db.(transfers := db.transfers[t := tr.(status := Failed, lastSweptAt := Some(now))]);
      if |db.wallets| <= tr.from then failed
      else Post(failed, tr.from, TransferIn, tr.amount, Some(RefundOf(t)), Some(t), None)
  }

  function MarkPublished(db: Db, e: EventId): Db {
    if |db.outbox| <= e then db
    else db.(outbox := db.outbox[e := db.outbox[e].(published := true)])
  }

  /** The oldest `limit` pending events at or after position `i`. */
  function PendingFrom(outbox: seq<OutboxEvent>, i: nat, limit: nat): (batch: seq<EventId>)
    ensures |batch| <= limit
    ensures forall j :: 0 <= j < |batch| ==> i <= batch[j] < |outbox| && !outbox[batch[j]].published
    ensures forall j, k :: 0 <= j < k < |batch| ==> batch[j] < batch[k]
    decreases |outbox| - i
  {
    if |outbox| <= i || limit == 0 then []
    else if outbox[i].published then PendingFrom(outbox, i + 1, limit)
    else [i] + PendingFrom(outbox, i + 1, limit - 1)
  }

  function FindPending(outbox: seq<OutboxEvent>): seq<EventId> {
    PendingFrom(outbox, 0, RELAY_BATCH)
  }

  predicate IsStale(tr: Transfer, cutoff: Time) {
    && tr.status == Pending
    && tr.createdAt < cutoff
    && (tr.lastSweptAt.None? || tr.lastSweptAt.value < cutoff)
  }

  /** What the sweeper's query may answer: distinct stale transfers, up to the limit, in no
      particular order. */
  predicate ValidPick(transfers: seq<Transfer>, cutoff: Time, picked: seq<TransferId>) {
    && |picked| <= SWEEP_BATCH
    && (forall i :: 0 <= i < |picked| ==> picked[i] < |transfers| && IsStale(transfers[picked[i]], cutoff))
    && (forall i, j :: 0 <= i < j < |picked| ==> picked[i] != picked[j])
    && (|picked| == SWEEP_BATCH
        || forall t: TransferId :: t < |transfers| && IsStale(transfers[t], cutoff) ==> t in picked)
  }
}
