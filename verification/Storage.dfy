/** The collections as mutable state, with the writes that the services make inside a session. */
module Storage {
  import opened Domain
  import opened Database
  import opened Protocol

  class Store {
    var wallets: seq<Wallet>
    var transfers: seq<Transfer>
    var transactions: seq<Transaction>
    var ledger: seq<LedgerEntry>
    var outbox: seq<OutboxEvent>
    var inbox: set<MessageId>
    var messages: seq<Message>
    var cache: map<WalletId, Cached>

    function Documents(): Db
      reads this
    {
      Db(wallets, transfers, transactions, ledger, outbox, inbox)
    }

    /** The protocol state whose workers' local state is `k`. */
    function View(k: Workers): Sys
      reads this
    {
      Sys(Documents(), messages, cache, k)
    }

    constructor ()
      ensures View(INIT.workers) == INIT
    {
      wallets, transfers, transactions, ledger, outbox := [], [], [], [], [];
      inbox, messages, cache := {}, [], map[];
    }

    /** While a caller awaits a remote call, other actors take `steps`. */
    method Await(steps: seq<Step>, k: Workers) returns (k': Workers)
      modifies this
      ensures View(k') == RunFrom(old(View(k)), steps)
    {
      var now := RunFrom(View(k), steps);
      wallets, transfers, transactions := now.db.wallets, now.db.transfers, now.db.transactions;
      ledger, outbox, inbox := now.db.ledger, now.db.outbox, now.db.inbox;
      messages, cache, k' := now.messages, now.cache, now.workers;
    }

    /** Aborting a session puts the documents back as they were when it began. */
    method Rollback(saved: Db)
      modifies this
      ensures Documents() == saved && messages == old(messages) && cache == old(cache)
    {
      wallets, transfers, transactions := saved.wallets, saved.transfers, saved.transactions;
      ledger, outbox, inbox := saved.ledger, saved.outbox, saved.inbox;
    }

    method IncrementBalance(w: WalletId, delta: int) returns (wallet: Wallet)
      requires w < |wallets|
      modifies this`wallets
      ensures wallet == old(wallets)[w].(balance := old(wallets)[w].balance + delta)
      ensures wallets == old(wallets)[w := wallet]
    {
      wallet := wallets[w].(balance := wallets[w].balance + delta);
      wallets := wallets[w := wallet];
    }

    method CreateTransaction(w: WalletId, kind: Kind, amount: Amount, balanceAfter: int, reference: Option<Reference>,
                             transfer: Option<TransferId>, counterparty: Option<WalletId>) returns (x: TransactionId)
      modifies this`transactions
      ensures x == |old(transactions)|
      ensures transactions == old(transactions) + [Transaction(w, kind, amount, balanceAfter, reference, transfer, counterparty)]
    {
      x := |transactions|;
      transactions := transactions + [Transaction(w, kind, amount, balanceAfter, reference, transfer, counterparty)];
    }

    method RecordDebit(w: WalletId, x: TransactionId, amount: Amount, balanceAfter: int)
      modifies this`ledger
      ensures ledger == old(ledger) + [LedgerEntry(x, w, Debit, amount, balanceAfter)]
    {
      CreateEntry(w, x, Debit, amount, balanceAfter);
    }

    method RecordCredit(w: WalletId, x: TransactionId, amount: Amount, balanceAfter: int)
      modifies this`ledger
      ensures ledger == old(ledger) + [LedgerEntry(x, w, Credit, amount, balanceAfter)]
    {
      CreateEntry(w, x, Credit, amount, balanceAfter);
    }

    method CreateEntry(w: WalletId, x: TransactionId, direction: Direction, amount: Amount, balanceAfter: int)
      modifies this`ledger
      ensures ledger == old(ledger) + [LedgerEntry(x, w, direction, amount, balanceAfter)]
    {
      ledger := ledger + [LedgerEntry(x, w, direction, amount, balanceAfter)];
    }

    method EnqueueEvent(p: Payload)
      modifies this`outbox
      ensures outbox == old(outbox) + [OutboxEvent(p, false)]
    {
      outbox := outbox + [OutboxEvent(p, false)];
    }

    method SetCachedBalance(w: WalletId, balance: int)
      modifies this`cache
      ensures cache == old(cache)[w := Cached(balance, |transactions|)]
    {
      cache := cache[w := Cached(balance, |transactions|)];
    }
  }
}
