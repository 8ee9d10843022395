/** The wallet operations as the service runs them: write in place, check, commit or roll back.
    Each is proved to be one client step of the protocol. */
module WalletOperations {
  import opened Domain
  import opened Database
  import opened Protocol
  import opened Cache
  import opened Idempotency
  import opened Paging
  import opened Reports
  import opened Storage

  datatype Activity = Activity(transaction: TransactionId, entries: seq<LedgerEntry>)

  datatype Dashboard = Dashboard(
    wallet: Wallet, totalDeposited: int, totalWithdrawn: int, transactionCount: nat, recent: seq<Activity>)

  const RECENT := 10

  /** The entries whose transaction is among `ids`, in commit order. */
  function EntriesAmong(ledger: seq<LedgerEntry>, ids: seq<TransactionId>): seq<LedgerEntry> {
    if |ledger| == 0 then []
    else
      var n := |ledger| - 1;
      EntriesAmong(ledger[..n], ids) + if ledger[n].transaction in ids then [ledger[n]] else []
  }

  lemma EntriesOfAppend(ledger: seq<LedgerEntry>, e: LedgerEntry, x: TransactionId)
    ensures EntriesOf(ledger + [e], x) == EntriesOf(ledger, x) + if e.transaction == x then [e] else []
  {
  }

  /** The next entry joins its own transaction's entries and no others. */
  lemma EntriesOfNext(entries: seq<LedgerEntry>, i: nat)
    requires i < |entries|
    ensures forall x: TransactionId ::
      EntriesOf(entries[..i + 1], x) == EntriesOf(entries[..i], x) + (if entries[i].transaction == x then [entries[i]] else [])
  {
    assert entries[..i + 1] == entries[..i] + [entries[i]];
    forall x: TransactionId
      ensures EntriesOf(entries[..i + 1], x) ==
        EntriesOf(entries[..i], x) + if entries[i].transaction == x then [entries[i]] else []
    {
      EntriesOfAppend(entries[..i], entries[i], x);
    }
  }

  lemma {:induction false} AmongKeepsEntries(ledger: seq<LedgerEntry>, ids: seq<TransactionId>, x: TransactionId)
    requires x in ids
    ensures EntriesOf(EntriesAmong(ledger, ids), x) == EntriesOf(ledger, x)
  {
    if |ledger| > 0 {
      var n := |ledger| - 1;
      AmongKeepsEntries(ledger[..n], ids, x);
      if ledger[n].transaction in ids {
        EntriesOfAppend(EntriesAmong(ledger[..n], ids), ledger[n], x);
      } else {
        assert EntriesAmong(ledger, ids) == EntriesAmong(ledger[..n], ids);
      }
    }
  }

  ghost function TransactionsOf(transactions: seq<Transaction>, w: WalletId): set<TransactionId> {
    set x: TransactionId | x < |transactions| && transactions[x].wallet == w
  }

  lemma WalletCount(transactions: seq<Transaction>, w: WalletId)
    ensures |Newest(transactions, TransactionFilter(Some(w), None))| == |TransactionsOf(transactions, w)|
  {
    ListingSize(transactions, TransactionFilter(Some(w), None));
    assert Matches(transactions, TransactionFilter(Some(w), None)) == TransactionsOf(transactions, w);
  }

  class WalletsService {
    const store: Store

    constructor (store: Store)
      ensures this.store == store
    {
      this.store := store;
    }

    method CreateWallet(userId: string, ownerName: string, currency: Option<string>) returns (wallet: Wallet)
      modifies store
      ensures forall k :: store.View(k) == Apply(old(store.View(k)), ClientCreateWallet(userId, ownerName, currency))
      ensures store.wallets == old(store.wallets) + [wallet]
      ensures wallet.userId == userId && wallet.ownerName == ownerName && wallet.balance == 0
      ensures wallet.currency == if currency.Some? then currency.value else "GHS"
    {
      var id := |store.wallets|;
      wallet := Wallet(userId, ownerName, if currency.Some? then currency.value else DEFAULT_CURRENCY, 0);
      store.wallets := store.wallets + [wallet];
      store.EnqueueEvent(WalletCreated(id, wallet.userId, wallet.currency));
    }

    method Deposit(w: WalletId, amount: Amount, reference: Option<string>) returns (r: Result<Wallet>)
      modifies store
      ensures forall k :: store.View(k) == Apply(old(store.View(k)), ClientDeposit(w, amount, reference))
      ensures r == PostDeposit(old(store.Documents()), w, amount, reference).1
      ensures w < |old(store.wallets)| ==> r == Ok(old(store.wallets[w]).(balance := old(store.wallets[w].balance) + amount))
      ensures |old(store.wallets)| <= w ==> r == Err(WalletNotFound)
    {
      if |store.wallets| <= w {
        return Err(WalletNotFound);
      }
      var wallet := store.IncrementBalance(w, amount);
      var x := store.CreateTransaction(w, Kind.Deposit, amount, wallet.balance, ClientRef(reference), None, None);
      store.RecordCredit(w, x, amount, wallet.balance);
      store.EnqueueEvent(WalletDeposited(w, x, amount, wallet.balance));
      store.SetCachedBalance(w, wallet.balance);
      return Ok(wallet);
    }

    method Withdraw(w: WalletId, amount: Amount, reference: Option<string>) returns (r: Result<Wallet>)
      modifies store
      ensures forall k :: store.View(k) == Apply(old(store.View(k)), ClientWithdraw(w, amount, reference))
      ensures r == PostWithdrawal(old(store.Documents()), w, amount, reference).1
      ensures w < |old(store.wallets)| && amount <= old(store.wallets[w].balance) ==>
        r == Ok(old(store.wallets[w]).(balance := old(store.wallets[w].balance) - amount))
      ensures w < |old(store.wallets)| && old(store.wallets[w].balance) < amount ==> r == Err(InsufficientBalance)
      ensures |old(store.wallets)| <= w ==> r == Err(WalletNotFound)
    {
      if |store.wallets| <= w || store.wallets[w].balance < amount {
        return Err(if |store.wallets| <= w then WalletNotFound else InsufficientBalance);
      }
      var wallet := store.IncrementBalance(w, -(amount as int));
      var x := store.CreateTransaction(w, Withdrawal, amount, wallet.balance, ClientRef(reference), None, None);
      store.RecordDebit(w, x, amount, wallet.balance);
      store.EnqueueEvent(WalletWithdrawn(w, x, amount, wallet.balance));
      store.SetCachedBalance(w, wallet.balance);
      return Ok(wallet);
    }

    /** The sender is debited before the receiver, the currencies and the key are checked; every
        failure after that rolls the debit back. */
    method Transfer(dto: TransferDto, now: Time) returns (r: Result<TransferId>)
      modifies store
      ensures forall k :: store.View(k) == Apply(old(store.View(k)), ClientTransfer(dto, now))
      ensures r == RequestTransfer(old(store.Documents()), dto, now).1
      ensures |store.transfers| == |old(store.transfers)| + 1 <==>
        old(ChecksPass(store.Documents(), dto)) && !KeyUsed(old(store.transfers), dto.key)
    {
      forall k: Workers
        ensures Apply(store.View(k), ClientTransfer(dto, now)) == DoTransfer(store.View(k), dto, now)
      {
      }
      hide Apply, FindByKey;
      if dto.from == dto.to {
        return Err(SameWallet);
      }
      var saved := store.Documents();
      var debited := dto.from < |store.wallets| && dto.amount <= store.wallets[dto.from].balance;
      var balance := 0;
      if debited {
        var wallet := store.IncrementBalance(dto.from, -(dto.amount as int));
        balance := wallet.balance;
      }
      if |store.wallets| <= dto.to {
        store.Rollback(saved);
        return Err(DestinationNotFound);
      }
      if !debited {
        store.Rollback(saved);
        return Err(if |store.wallets| <= dto.from then SourceNotFound else InsufficientBalance);
      }
      if store.wallets[dto.from].currency != store.wallets[dto.to].currency {
        store.Rollback(saved);
        return Err(CurrencyMismatch);
      }
      var existing := FindByKey(store.transfers, dto.key);
      if existing.Some? {
        store.Rollback(saved);
        if !dto.key.Truthy() {
          return Err(DuplicateKey);
        }
        return Ok(existing.value);
      }
      var t := RecordTransfer(dto, balance, now);
      return Ok(t);
    }

    /** The documents of an accepted transfer, once the sender has been debited to `balance`. */
    method RecordTransfer(dto: TransferDto, balance: int, now: Time) returns (t: TransferId)
      modifies store`transfers, store`transactions, store`ledger, store`outbox, store`cache
      ensures t == |old(store.transfers)|
      ensures store.transfers == old(store.transfers) + [Domain.Transfer(dto.from, dto.to, dto.amount, Pending, dto.key, now, None)]
      ensures store.transactions == old(store.transactions)
        + [Transaction(dto.from, TransferOut, dto.amount, balance, None, Some(t), Some(dto.to))]
      ensures store.ledger == old(store.ledger) + [LedgerEntry(|old(store.transactions)|, dto.from, Debit, dto.amount, balance)]
      ensures store.outbox == old(store.outbox) + [OutboxEvent(TransferInitiated(t, dto.from, dto.to, dto.amount), false)]
      ensures store.cache == old(store.cache)[dto.from := Cached(balance, |store.transactions|)]
    {
      t := |store.transfers|;
      store.transfers := store.transfers + [Domain.Transfer(dto.from, dto.to, dto.amount, Pending, dto.key, now, None)];
      var x := store.CreateTransaction(dto.from, TransferOut, dto.amount, balance, None, Some(t), Some(dto.to));
      store.RecordDebit(dto.from, x, dto.amount, balance);
      store.EnqueueEvent(TransferInitiated(t, dto.from, dto.to, dto.amount));
      store.SetCachedBalance(dto.from, balance);
    }

    method GetWallet(w: WalletId) returns (r: Result<Wallet>)
      modifies store`cache
      ensures forall k :: store.View(k) == Apply(old(store.View(k)), ClientGetWallet(w))
      ensures |store.wallets| <= w ==> r == Err(WalletNotFound) && store.cache == old(store.cache)
      ensures w < |store.wallets| ==>
        forall k :: r == Ok(store.wallets[w].(balance := ReportedBalance(old(store.View(k)), w)))
      ensures w in old(store.cache) ==> store.cache == old(store.cache)
      ensures w < |store.wallets| && w !in old(store.cache) ==>
        store.cache == old(store.cache)[w := Cached(store.wallets[w].balance, |store.transactions|)]
    {
      if |store.wallets| <= w {
        return Err(WalletNotFound);
      }
      var wallet := store.wallets[w];
      if w in store.cache {
        return Ok(wallet.(balance := store.cache[w].balance));
      }
      store.SetCachedBalance(w, wallet.balance);
      return Ok(wallet);
    }

    method GetDashboard(w: WalletId) returns (r: Result<Dashboard>)
      ensures |store.wallets| <= w ==> r == Err(WalletNotFound)
      ensures w < |store.wallets| ==>
        && r.Ok?
        && r.value.wallet == store.wallets[w]
        && r.value.totalDeposited == TotalDeposited(store.Documents(), w)
        && r.value.totalWithdrawn == TotalWithdrawn(store.Documents(), w)
        && r.value.transactionCount == |TransactionsOf(store.transactions, w)|
        && var ids := RecentIds(store.transactions, w, 10);
        && |r.value.recent| == |ids|
        && forall i :: 0 <= i < |ids| ==> r.value.recent[i] == Activity(ids[i], EntriesOf(store.ledger, ids[i]))
    {
      if |store.wallets| <= w {
        return Err(WalletNotFound);
      }
      var ids := RecentIds(store.transactions, w, RECENT);
      var entries := EntriesAmong(store.ledger, ids);
      var byTransaction := GroupByTransaction(entries);
      forall x | x in ids ensures EntriesOf(entries, x) == EntriesOf(store.ledger, x) {
        AmongKeepsEntries(store.ledger, ids, x);
      }
      var count := |Newest(store.transactions, TransactionFilter(Some(w), None))|;
      WalletCount(store.transactions, w);
      hide EntriesOf, RecentIds, Newest;
      var recent := seq(|ids|, i requires 0 <= i < |ids| =>
        Activity(ids[i], if ids[i] in byTransaction then byTransaction[ids[i]] else []));
      return Ok(Dashboard(store.wallets[w], TotalDeposited(store.Documents(), w), TotalWithdrawn(store.Documents(), w),
                          count, recent));
    }
  }

  /** Groups entries by transaction id in one pass. */
  method GroupByTransaction(entries: seq<LedgerEntry>) returns (groups: map<TransactionId, seq<LedgerEntry>>)
    ensures forall x: TransactionId :: (if x in groups then groups[x] else []) == EntriesOf(entries, x)
  {
    groups := map[];
    for i := 0 to |entries|
      invariant forall x: TransactionId :: (if x in groups then groups[x] else []) == EntriesOf(entries[..i], x)
    {
      hide EntriesOf;
      EntriesOfNext(entries, i);
      var key := entries[i].transaction;
      if key !in groups {
        groups := groups[key := []];
      }
      groups := groups[key := groups[key] + [entries[i]]];
    }
    assert entries[..|entries|] == entries;
  }
}
