/** The read-through balance cache. Every committing closure writes it except the sweeper's
    refund, so a cached value can lag behind the stored one by exactly the refunds since. */
module Cache {
  import opened Domain
  import opened Sums
  import opened Database
  import opened Protocol

  predicate IsRefundTo(x: Transaction, w: WalletId) {
    x.wallet == w && x.reference.Some? && x.reference.value.RefundOf?
  }

  function RefundTo(w: WalletId): Transaction -> int {
    (x: Transaction) => if IsRefundTo(x, w) then x.amount as int else 0
  }

  /** What refunds have added to wallet `w` since the first `mark` transactions. */
  function RefundedSince(transactions: seq<Transaction>, mark: nat, w: WalletId): int
    requires mark <= |transactions|
  {
    Sum(transactions, RefundTo(w)) - Sum(transactions[..mark], RefundTo(w))
  }

  predicate Lags(db: Db, w: WalletId, entry: Cached) {
    && w < |db.wallets|
    && entry.mark <= |db.transactions|
    && entry.balance + RefundedSince(db.transactions, entry.mark, w) == db.wallets[w].balance
  }

  ghost predicate CacheValid(db: Db, cache: map<WalletId, Cached>) {
    forall w: WalletId :: w in cache ==> Lags(db, w, cache[w])
  }

  lemma PostKeepsLag(db: Db, w: WalletId, kind: Kind, amount: Amount, reference: Option<Reference>,
                     transfer: Option<TransferId>, counterparty: Option<WalletId>, v: WalletId, entry: Cached)
    requires w < |db.wallets| && Lags(db, v, entry)
    requires v != w || (reference.Some? && reference.value.RefundOf? && DirectionOf(kind).Credit?)
    ensures Lags(Post(db, w, kind, amount, reference, transfer, counterparty), v, entry)
  {
    var db' := Post(db, w, kind, amount, reference, transfer, counterparty);
    assert db'.transactions[..entry.mark] == db.transactions[..entry.mark];
    SumAppend(db.transactions, db'.transactions[|db.transactions|], RefundTo(v));
  }

  /** A posting to `w` followed by writing `w`'s balance to the cache. */
  lemma PostAndPutKeepsCache(db: Db, w: WalletId, kind: Kind, amount: Amount, reference: Option<Reference>,
                             transfer: Option<TransferId>, counterparty: Option<WalletId>,
                             cache: map<WalletId, Cached>)
    requires w < |db.wallets| && CacheValid(db, cache)
    ensures
      var db' := Post(db, w, kind, amount, reference, transfer, counterparty);
      CacheValid(db', cache[w := Cached(db'.wallets[w].balance, |db'.transactions|)])
  {
    var db' := Post(db, w, kind, amount, reference, transfer, counterparty);
    var cache' := cache[w := Cached(db'.wallets[w].balance, |db'.transactions|)];
    assert db'.transactions[..|db'.transactions|] == db'.transactions;
    forall v: WalletId | v in cache' ensures Lags(db', v, cache'[v]) {
      if v != w {
        PostKeepsLag(db, w, kind, amount, reference, transfer, counterparty, v, cache[v]);
      }
    }
  }

  lemma RefundPostKeepsCache(db: Db, w: WalletId, amount: Amount, t: TransferId, cache: map<WalletId, Cached>)
    requires w < |db.wallets| && CacheValid(db, cache)
    ensures CacheValid(Post(db, w, TransferIn, amount, Some(RefundOf(t)), Some(t), None), cache)
  {
    var db' := Post(db, w, TransferIn, amount, Some(RefundOf(t)), Some(t), None);
    forall v: WalletId | v in cache ensures Lags(db', v, cache[v]) {
      PostKeepsLag(db, w, TransferIn, amount, Some(RefundOf(t)), Some(t), None, v, cache[v]);
    }
  }

  lemma PutKeepsCache(db: Db, w: WalletId, cache: map<WalletId, Cached>)
    requires w < |db.wallets| && CacheValid(db, cache)
    ensures CacheValid(db, cache[w := Cached(db.wallets[w].balance, |db.transactions|)])
  {
    assert db.transactions[..|db.transactions|] == db.transactions;
  }

  lemma CacheIgnoresOtherCollections(db: Db, db': Db, cache: map<WalletId, Cached>)
    requires CacheValid(db, cache) && db'.transactions == db.transactions && db.wallets <= db'.wallets
    ensures CacheValid(db', cache)
  {
  }

  /** The balance `getWallet` reports for an existing wallet. */
  function ReportedBalance(s: Sys, w: WalletId): int
    requires w < |s.db.wallets|
  {
    if w in s.cache then s.cache[w].balance else s.db.wallets[w].balance
  }
}
