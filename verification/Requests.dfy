/** What each client request does on any store, said through the documents alone: when it is
    accepted, everything it then changes, and which error it answers otherwise. */
module Requests {
  import opened Domain
  import opened Database
  import opened Protocol
  import opened Cache

  /** The whole difference that a deposit or withdrawal makes: `x` is its transaction. */
  ghost predicate Recorded(s: Sys, s': Sys, x: Transaction, direction: Direction, event: Payload) {
    && x.wallet < |s.db.wallets|
    && s'.db.wallets == s.db.wallets[x.wallet := s.db.wallets[x.wallet].(balance := x.balanceAfter)]
    && s'.db.transfers == s.db.transfers
    && s'.db.transactions == s.db.transactions + [x]
    && s'.db.ledger == s.db.ledger + [LedgerEntry(|s.db.transactions|, x.wallet, direction, x.amount, x.balanceAfter)]
    && s'.db.outbox == s.db.outbox + [OutboxEvent(event, false)]
    && s'.db.inbox == s.db.inbox
    && s'.messages == s.messages
    && s'.cache == s.cache[x.wallet := Cached(x.balanceAfter, |s.db.transactions| + 1)]
    && s'.workers == s.workers
  }

  /** The reference a client gave is kept as it is. */
  predicate KeepsReference(kept: Option<Reference>, given: Option<string>) {
    && (kept.None? <==> given.None?)
    && (given.Some? ==> kept.value == ClientReference(given.value))
  }

  /** A deposit goes through exactly when the wallet exists. */
  lemma DepositAllOrNothing(s: Sys, w: WalletId, amount: Amount, reference: Option<string>)
    ensures
      var s' := Apply(s, ClientDeposit(w, amount, reference));
      var r := PostDeposit(s.db, w, amount, reference).1;
      && s'.db == PostDeposit(s.db, w, amount, reference).0
      && (|s.db.wallets| <= w ==> s' == s && r == Err(WalletNotFound))
      && (w < |s.db.wallets| ==>
            var x := |s.db.transactions|;
            && x < |s'.db.transactions|
            && var balance := s.db.wallets[w].balance + amount;
            && var kept := s'.db.transactions[x].reference;
            && KeepsReference(kept, reference)
            && Recorded(s, s', Transaction(w, Kind.Deposit, amount, balance, kept, None, None), Credit,
                        WalletDeposited(w, x, amount, balance))
            && r == Ok(s.db.wallets[w].(balance := balance)))
  {
    assert Apply(s, ClientDeposit(w, amount, reference)) == DoDeposit(s, w, amount, reference);
  }

  /** A withdrawal goes through exactly when the wallet exists and holds at least the amount, the
      whole balance included. */
  lemma WithdrawalAllOrNothing(s: Sys, w: WalletId, amount: Amount, reference: Option<string>)
    ensures
      var s' := Apply(s, ClientWithdraw(w, amount, reference));
      var r := PostWithdrawal(s.db, w, amount, reference).1;
      && s'.db == PostWithdrawal(s.db, w, amount, reference).0
      && (|s.db.wallets| <= w ==> s' == s && r == Err(WalletNotFound))
      && (w < |s.db.wallets| && s.db.wallets[w].balance < amount ==> s' == s && r == Err(InsufficientBalance))
      && (w < |s.db.wallets| && amount <= s.db.wallets[w].balance ==>
            var x := |s.db.transactions|;
            && x < |s'.db.transactions|
            && var balance := s.db.wallets[w].balance - amount;
            && var kept := s'.db.transactions[x].reference;
            && KeepsReference(kept, reference)
            && Recorded(s, s', Transaction(w, Withdrawal, amount, balance, kept, None, None), Debit,
                        WalletWithdrawn(w, x, amount, balance))
            && r == Ok(s.db.wallets[w].(balance := balance)))
  {
    assert Apply(s, ClientWithdraw(w, amount, reference)) == DoWithdraw(s, w, amount, reference);
  }

  /** A new wallet is empty, keeps the currency asked for or else is in cedis, and is announced. */
  lemma WalletIsCreated(s: Sys, userId: string, ownerName: string, currency: Option<string>)
    ensures
      var s' := Apply(s, ClientCreateWallet(userId, ownerName, currency));
      var n := |s.db.wallets|;
      && |s'.db.wallets| == n + 1
      && var wallet := s'.db.wallets[n];
      && s'.db.wallets == s.db.wallets + [wallet]
      && wallet.userId == userId && wallet.ownerName == ownerName && wallet.balance == 0
      && (currency.Some? ==> wallet.currency == currency.value)
      && (currency.None? ==> wallet.currency == "GHS")
      && s' == s.(db := s.db.(wallets := s'.db.wallets,
                              outbox := s.db.outbox + [OutboxEvent(WalletCreated(n, userId, wallet.currency), false)]))
  {
    assert Apply(s, ClientCreateWallet(userId, ownerName, currency)).db == CreateWallet(s.db, userId, ownerName, currency);
  }

  /** Reading a wallet never changes a cached balance, caches the stored one when there is none,
      and so never changes what the next reader is told. */
  lemma ReadingKeepsTheAnswer(s: Sys, w: WalletId, v: WalletId)
    requires v < |s.db.wallets|
    ensures
      var s' := Apply(s, ClientGetWallet(w));
      && (w in s.cache || |s.db.wallets| <= w ==> s' == s)
      && (w !in s.cache && w < |s.db.wallets| ==>
            s' == s.(cache := s.cache[w := Cached(s.db.wallets[w].balance, |s.db.transactions|)]))
      && ReportedBalance(s', v) == ReportedBalance(s, v)
  {
    assert Apply(s, ClientGetWallet(w)) == DoGetWallet(s, w);
  }

  /** Once a wallet's cache entry has expired, the stored balance is reported again. */
  lemma ExpiryEndsStaleness(s: Sys, wallets: set<WalletId>, w: WalletId)
    requires w < |s.db.wallets|
    ensures
      var s' := Apply(s, ExpireCache(wallets));
      ReportedBalance(s', w) == if w in wallets then s.db.wallets[w].balance else ReportedBalance(s, w)
  {
  }
}
