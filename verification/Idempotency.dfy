/** Transfer requests: all or nothing, one transfer per key, and when a retry succeeds. */
module Idempotency {
  import opened Domain
  import opened Database
  import opened Protocol
  import opened Settlement
  import opened Invariant

  /** The checks that come before the insertion. */
  predicate ChecksPass(db: Db, dto: TransferDto) {
    && dto.from != dto.to
    && dto.to < |db.wallets| && dto.from < |db.wallets|
    && dto.amount <= db.wallets[dto.from].balance
    && db.wallets[dto.from].currency == db.wallets[dto.to].currency
  }

  /** A request either creates exactly one pending transfer, debits exactly its sender and appends
      the debit's transaction, its entry and the transfer's event, or changes nothing; the error is
      reported exactly when it creates nothing and finds no transfer to return. */
  lemma AllOrNothing(s: Sys, dto: TransferDto, now: Time)
    ensures
      var s' := Apply(s, ClientTransfer(dto, now));
      var r := RequestTransfer(s.db, dto, now).1;
      && s'.db == RequestTransfer(s.db, dto, now).0
      && (r == Ok(|s.db.transfers|) <==> s' != s)
      && (s' == s ==> r.Err? || (r.value < |s.db.transfers| && s.db.transfers[r.value].key == dto.key))
      && (s' != s ==>
            && dto.from < |s.db.wallets| && |s'.db.wallets| == |s.db.wallets|
            && s'.db.transfers == s.db.transfers + [Transfer(dto.from, dto.to, dto.amount, Pending, dto.key, now, None)]
            && s'.db.wallets[dto.from].balance == s.db.wallets[dto.from].balance - dto.amount
            && 0 <= s'.db.wallets[dto.from].balance
            && (forall w :: 0 <= w < |s.db.wallets| && w != dto.from ==> s'.db.wallets[w] == s.db.wallets[w])
            && var balance, t := s'.db.wallets[dto.from].balance, |s.db.transfers|;
               && s'.db.transactions == s.db.transactions
                    + [Transaction(dto.from, TransferOut, dto.amount, balance, None, Some(t), Some(dto.to))]
               && s'.db.ledger == s.db.ledger
                    + [LedgerEntry(|s.db.transactions|, dto.from, Debit, dto.amount, balance)]
               && s'.db.outbox == s.db.outbox
                    + [OutboxEvent(TransferInitiated(t, dto.from, dto.to, dto.amount), false)]
               && s'.db.inbox == s.db.inbox
               && s'.cache == s.cache[dto.from := Cached(balance, |s.db.transactions| + 1)]
               && s'.messages == s.messages && s'.workers == s.workers)
  {
    hide FindByKey;
    assert Apply(s, ClientTransfer(dto, now)) == DoTransfer(s, dto, now);
    if TransferError(s.db, dto).None? && FindByKey(s.db.transfers, dto.key).None? {
      assert DoTransfer(s, dto, now).db == OpenTransfer(s.db, dto, now);
    }
  }

  /** Some transfer carries the key; no transfer clashes with a request without one. */
  predicate KeyUsed(transfers: seq<Transfer>, key: Key) {
    key != NoKey && exists t :: 0 <= t < |transfers| && transfers[t].key == key
  }

  /** On any store: a request creates a transfer exactly when its checks pass and its key is free;
      otherwise the first check that fails decides the error, and a used key is answered with the
      transfer that carries it unless it is null or empty. */
  lemma AcceptedExactlyWhen(s: Sys, dto: TransferDto, now: Time)
    ensures
      var s' := Apply(s, ClientTransfer(dto, now));
      var r := RequestTransfer(s.db, dto, now).1;
      var known := dto.from < |s.db.wallets| && dto.to < |s.db.wallets|;
      var covered := known && dto.amount <= s.db.wallets[dto.from].balance;
      var used := KeyUsed(s.db.transfers, dto.key);
      && (s' != s <==> ChecksPass(s.db, dto) && !used)
      && (r == Ok(|s.db.transfers|) <==> ChecksPass(s.db, dto) && !used)
      && (r == Err(SameWallet) <==> dto.from == dto.to)
      && (r == Err(DestinationNotFound) <==> dto.from != dto.to && |s.db.wallets| <= dto.to)
      && (r == Err(SourceNotFound) <==> dto.from != dto.to && dto.to < |s.db.wallets| && |s.db.wallets| <= dto.from)
      && (r == Err(InsufficientBalance) <==> dto.from != dto.to && known && !covered)
      && (r == Err(CurrencyMismatch) <==>
            && dto.from != dto.to && covered
            && s.db.wallets[dto.from].currency != s.db.wallets[dto.to].currency)
      && (r == Err(DuplicateKey) <==>
            ChecksPass(s.db, dto) && used && (dto.key == NullKey || dto.key == TextKey("")))
      && (r.Ok? && r.value != |s.db.transfers| ==> r.value < |s.db.transfers| && s.db.transfers[r.value].key == dto.key)
  {
    hide FindByKey;
    assert Apply(s, ClientTransfer(dto, now)) == DoTransfer(s, dto, now);
    if TransferError(s.db, dto).None? && FindByKey(s.db.transfers, dto.key).None? {
      assert |OpenTransfer(s.db, dto, now).transfers| == |s.db.transfers| + 1;
    }
  }

  lemma UniqueKeyFinds(transfers: seq<Transfer>, t: TransferId)
    requires UniqueKeys(transfers) && t < |transfers| && transfers[t].key != NoKey
    ensures FindByKey(transfers, transfers[t].key) == Some(t)
  {
  }

  /** A key names at most one transfer, and a lookup finds it. */
  lemma OneTransferPerKey(steps: seq<Step>, t: TransferId)
    requires t < |Run(steps).db.transfers| && Run(steps).db.transfers[t].key != NoKey
    ensures FindByKey(Run(steps).db.transfers, Run(steps).db.transfers[t].key) == Some(t)
  {
    hide Run, FindByKey;
    ReachableHolds(steps);
    UniqueKeyFinds(Run(steps).db.transfers, t);
  }

  /** A request with a used key never changes anything. It returns the transfer that has the key
      exactly when the request would pass the checks that precede the insertion and the key is
      neither null nor empty; the key does not protect it from failing the checks. */
  lemma RetryWithUsedKey(steps: seq<Step>, t: TransferId, dto: TransferDto, now: Time)
    requires t < |Run(steps).db.transfers|
    requires dto.key != NoKey && Run(steps).db.transfers[t].key == dto.key
    ensures
      var s := Run(steps);
      var r := RequestTransfer(s.db, dto, now).1;
      var passes := ChecksPass(s.db, dto);
      && Apply(s, ClientTransfer(dto, now)) == s
      && (r == Ok(t) <==> passes && dto.key.Truthy())
      && (r == Err(DuplicateKey) <==> passes && !dto.key.Truthy())
      && (r != Ok(t) ==> r.Err?)
  {
    hide Run, FindByKey;
    OneTransferPerKey(steps, t);
  }

  /** The same request again returns the first transfer exactly when the sender could still
      afford it a second time. */
  lemma SameRequestAgain(steps: seq<Step>, t: TransferId, now: Time)
    requires t < |Run(steps).db.transfers|
    requires Run(steps).db.transfers[t].key.Truthy()
    ensures
      var s := Run(steps);
      var tr := s.db.transfers[t];
      var dto := TransferDto(tr.from, tr.to, tr.amount, tr.key);
      && tr.from < |s.db.wallets|
      && RequestTransfer(s.db, dto, now).0 == s.db
      && RequestTransfer(s.db, dto, now).1 ==
           if tr.amount <= s.db.wallets[tr.from].balance then Ok(t) else Err(InsufficientBalance)
  {
    hide Run, FindByKey;
    ReachableHolds(steps);
    OneTransferPerKey(steps, t);
    var s := Run(steps);
    assert WellFormed(s.db, s.db.transfers[t]);
  }
}
