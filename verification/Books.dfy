/** The double-entry books: every transaction has exactly its one ledger entry, the entries of
    a wallet chain their running balances, and the ledger explains every stored balance. */
module Books {
  import opened Domain
  import opened Sums
  import opened Database

  function Signed(e: LedgerEntry): int {
    if e.direction.Credit? then e.amount as int else -(e.amount as int)
  }

  /** The contribution of a ledger entry to wallet `w`. */
  function NetOf(w: WalletId): LedgerEntry -> int {
    (e: LedgerEntry) => if e.wallet == w then Signed(e) else 0
  }

  function Net(ledger: seq<LedgerEntry>, w: WalletId): int {
    Sum(ledger, NetOf(w))
  }

  /** Entry `i` records transaction `i`. */
  predicate Mirrors(e: LedgerEntry, x: Transaction, i: TransactionId) {
    && e.transaction == i
    && e.wallet == x.wallet
    && e.amount == x.amount
    && e.balanceAfter == x.balanceAfter
    && e.direction == DirectionOf(x.kind)
  }

  ghost predicate OneToOne(db: Db) {
    && |db.ledger| == |db.transactions|
    && forall i :: 0 <= i < |db.ledger| ==>
         Mirrors(db.ledger[i], db.transactions[i], i) && db.ledger[i].wallet < |db.wallets|
  }

  /** Entry `i` carries its wallet's balance after the first `i + 1` entries. */
  predicate Chained(ledger: seq<LedgerEntry>, i: nat)
    requires i < |ledger|
  {
    && ledger[i].balanceAfter == Net(ledger[..i + 1], ledger[i].wallet)
    && 0 <= ledger[i].balanceAfter
  }

  predicate Explained(db: Db, w: WalletId)
    requires w < |db.wallets|
  {
    db.wallets[w].balance == Net(db.ledger, w) && 0 <= db.wallets[w].balance
  }

  ghost predicate Balanced(db: Db) {
    && OneToOne(db)
    && (forall i :: 0 <= i < |db.ledger| ==> Chained(db.ledger, i))
    && (forall w: WalletId :: w < |db.wallets| ==> Explained(db, w))
  }

  lemma PostKeepsBalanced(db: Db, w: WalletId, kind: Kind, amount: Amount, reference: Option<Reference>,
                          transfer: Option<TransferId>, counterparty: Option<WalletId>)
    requires Balanced(db) && w < |db.wallets|
    requires DirectionOf(kind).Credit? || amount <= db.wallets[w].balance
    ensures Balanced(Post(db, w, kind, amount, reference, transfer, counterparty))
  {
    var db' := Post(db, w, kind, amount, reference, transfer, counterparty);
    var n := |db.ledger|;
    var e := db'.ledger[n];
    forall v: WalletId | v < |db'.wallets| ensures Explained(db', v) {
      assert Explained(db, v);
      SumAppend(db.ledger, e, NetOf(v));
    }
    forall i | 0 <= i < |db'.ledger| ensures Chained(db'.ledger, i) {
      if i < n {
        assert Chained(db.ledger, i);
        assert db'.ledger[..i + 1] == db.ledger[..i + 1];
      } else {
        assert db'.ledger[..i + 1] == db'.ledger;
        assert Explained(db', w);
      }
    }
  }

  /** A new wallet starts with a zero balance, which no entry has to explain. */
  lemma NewWalletKeepsBalanced(db: Db, wallet: Wallet)
    requires Balanced(db) && wallet.balance == 0
    ensures Balanced(db.(wallets := db.wallets + [wallet]))
  {
    var db' := db.(wallets := db.wallets + [wallet]);
    forall v: WalletId | v < |db'.wallets| ensures Explained(db', v) {
      if v == |db.wallets| {
        SumZero(db.ledger, NetOf(v));
      } else {
        assert Explained(db, v);
      }
    }
  }

  lemma BooksIgnoreOtherCollections(db: Db, db': Db)
    requires Balanced(db)
    requires db'.transactions == db.transactions && db'.ledger == db.ledger && db'.wallets == db.wallets
    ensures Balanced(db')
  {
    forall v: WalletId | v < |db'.wallets| ensures Explained(db', v) {
      assert Explained(db, v);
    }
  }

  /** The position of wallet `w`'s latest entry before position `i`, if it has one. */
  function PreviousEntry(ledger: seq<LedgerEntry>, i: nat, w: WalletId): (r: Option<nat>)
    requires i <= |ledger|
    ensures r.Some? ==> r.value < i && ledger[r.value].wallet == w
    ensures r.Some? ==> forall j :: r.value < j < i ==> ledger[j].wallet != w
    ensures r.None? ==> forall j :: 0 <= j < i ==> ledger[j].wallet != w
  {
    if i == 0 then None
    else if ledger[i - 1].wallet == w then Some(i - 1)
    else PreviousEntry(ledger, i - 1, w)
  }

  lemma {:induction false} NetSincePrevious(ledger: seq<LedgerEntry>, k: nat, i: nat, w: WalletId)
    requires k <= i <= |ledger|
    requires forall j :: k <= j < i ==> ledger[j].wallet != w
    ensures Net(ledger[..i], w) == Net(ledger[..k], w)
  {
    if k < i {
      NetSincePrevious(ledger, k, i - 1, w);
      assert ledger[..i] == ledger[..i - 1] + [ledger[i - 1]];
      SumAppend(ledger[..i - 1], ledger[i - 1], NetOf(w));
    }
  }

  function BalanceBefore(ledger: seq<LedgerEntry>, i: nat): int
    requires i < |ledger|
  {
    var before := PreviousEntry(ledger, i, ledger[i].wallet);
    if before.Some? then ledger[before.value].balanceAfter else 0
  }

  lemma NetBefore(ledger: seq<LedgerEntry>, i: nat)
    requires i < |ledger|
    requires forall j :: 0 <= j < i ==> Chained(ledger, j)
    ensures BalanceBefore(ledger, i) == Net(ledger[..i], ledger[i].wallet)
  {
    var w := ledger[i].wallet;
    var before := PreviousEntry(ledger, i, w);
    if before.Some? {
      assert Chained(ledger, before.value);
      NetSincePrevious(ledger, before.value + 1, i, w);
    } else {
      NetSincePrevious(ledger, 0, i, w);
    }
  }

  /** Each entry's running balance is the previous one of the same wallet, or zero, moved by
      the entry's own signed amount; none is negative. */
  lemma RunningBalances(db: Db, i: nat)
    requires Balanced(db) && i < |db.ledger|
    ensures db.ledger[i].balanceAfter == BalanceBefore(db.ledger, i) + Signed(db.ledger[i])
    ensures 0 <= db.ledger[i].balanceAfter
  {
    var ledger := db.ledger;
    assert Chained(ledger, i);
    NetBefore(ledger, i);
    assert ledger[..i + 1] == ledger[..i] + [ledger[i]];
    SumAppend(ledger[..i], ledger[i], NetOf(ledger[i].wallet));
  }

  /** The latest running balance of a wallet is its stored balance; a wallet without entries has none. */
  lemma LatestRunningBalance(db: Db, w: WalletId)
    requires Balanced(db) && w < |db.wallets|
    ensures
      var last := PreviousEntry(db.ledger, |db.ledger|, w);
      db.wallets[w].balance == if last.Some? then db.ledger[last.value].balanceAfter else 0
  {
    var ledger := db.ledger;
    var last := PreviousEntry(ledger, |ledger|, w);
    assert Explained(db, w);
    assert ledger[..|ledger|] == ledger;
    if last.Some? {
      assert Chained(ledger, last.value);
      NetSincePrevious(ledger, last.value + 1, |ledger|, w);
    } else {
      NetSincePrevious(ledger, 0, |ledger|, w);
    }
  }
}
