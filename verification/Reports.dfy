/** The read side: reconciliation, the dashboard, the audit trail and the transaction listing. */
module Reports {
  import opened Domain
  import opened Sums
  import opened Database
  import opened Protocol
  import opened Books
  import opened Delivery
  import opened Invariant
  import opened Paging

  /** The entries of a wallet, oldest first. */
  function EntriesFor(ledger: seq<LedgerEntry>, w: WalletId): seq<LedgerEntry> {
    if |ledger| == 0 then []
    else
      var n := |ledger| - 1;
      EntriesFor(ledger[..n], w) + if ledger[n].wallet == w then [ledger[n]] else []
  }

  /** The reduce of `computeBalanceFromLedger`, from a running total. */
  function Reduce(entries: seq<LedgerEntry>, total: int): int {
    if |entries| == 0 then total
    else Reduce(entries[1..], if entries[0].direction.Credit? then total + entries[0].amount else total - entries[0].amount)
  }

  function ComputeBalanceFromLedger(ledger: seq<LedgerEntry>, w: WalletId): int {
    Reduce(EntriesFor(ledger, w), 0)
  }

  /** The grouped sum: one group per wallet id among the matching entries, so no group at all
      for a wallet without entries. */
  function GroupNet(ledger: seq<LedgerEntry>, w: WalletId): Option<int> {
    if |ledger| == 0 then None
    else
      var n := |ledger| - 1;
      var rest := GroupNet(ledger[..n], w);
      if ledger[n].wallet != w then rest
      else Some((if rest.Some? then rest.value else 0)
                + if ledger[n].direction.Credit? then ledger[n].amount as int else (ledger[n].amount as int) * -1)
  }

  function AggregateNetByWallet(ledger: seq<LedgerEntry>, w: WalletId): int {
    var group := GroupNet(ledger, w);
    if group.Some? then group.value else 0
  }

  lemma {:induction false} ReduceAppend(entries: seq<LedgerEntry>, e: LedgerEntry, total: int)
    ensures Reduce(entries + [e], total) == Reduce(entries, total) + Signed(e)
  {
    if |entries| == 0 {
      assert entries + [e] == [e] && [e][1..] == [];
      assert Reduce([e][1..], total + Signed(e)) == total + Signed(e);
    } else {
      assert (entries + [e])[1..] == entries[1..] + [e];
      ReduceAppend(entries[1..], e, total + Signed(entries[0]));
    }
  }

  /** Both recomputations are the ledger's net for the wallet, for any ledger. */
  lemma {:induction false} RecomputationsAgree(ledger: seq<LedgerEntry>, w: WalletId)
    ensures ComputeBalanceFromLedger(ledger, w) == Net(ledger, w)
    ensures AggregateNetByWallet(ledger, w) == Net(ledger, w)
  {
    if |ledger| > 0 {
      var n := |ledger| - 1;
      RecomputationsAgree(ledger[..n], w);
      if ledger[n].wallet == w {
        ReduceAppend(EntriesFor(ledger[..n], w), ledger[n], 0);
      } else {
        assert EntriesFor(ledger, w) == EntriesFor(ledger[..n], w);
      }
    }
  }

  datatype Reconciliation = Reconciliation(wallet: WalletId, recorded: int, computed: int, difference: int, inSync: bool)

  function Reconcile(db: Db, w: WalletId): Result<Reconciliation> {
    if |db.wallets| <= w then Err(WalletNotFound)
    else
      var recorded := db.wallets[w].balance;
      var computed := AggregateNetByWallet(db.ledger, w);
      Ok(Reconciliation(w, recorded, computed, computed - recorded, computed == recorded))
  }

  /** On any store, reachable or corrupted, reconciliation reports the stored balance beside the
      ledger's net, their difference, and whether they agree. */
  lemma ReconcileDetects(db: Db, w: WalletId)
    ensures Reconcile(db, w) == Err(WalletNotFound) <==> |db.wallets| <= w
    ensures w < |db.wallets| ==>
      var r := Reconcile(db, w);
      && r.Ok? && r.value.wallet == w
      && r.value.recorded == db.wallets[w].balance
      && r.value.computed == Net(db.ledger, w)
      && r.value.difference == Net(db.ledger, w) - db.wallets[w].balance
      && (r.value.inSync <==> r.value.difference == 0)
      && (r.value.inSync <==> db.wallets[w].balance == Net(db.ledger, w))
  {
    RecomputationsAgree(db.ledger, w);
  }

  /** In every reachable state the stored balance, the fold and the grouped sum agree. */
  lemma AlwaysInSync(steps: seq<Step>, w: WalletId)
    requires w < |Run(steps).db.wallets|
    ensures
      var db := Run(steps).db;
      var balance := db.wallets[w].balance;
      && Reconcile(db, w) == Ok(Reconciliation(w, balance, balance, 0, true))
      && ComputeBalanceFromLedger(db.ledger, w) == balance
  {
    hide Run, Net, AggregateNetByWallet, ComputeBalanceFromLedger;
    ReachableHolds(steps);
    assert Explained(Run(steps).db, w);
    RecomputationsAgree(Run(steps).db.ledger, w);
  }

  function CreditedTo(w: WalletId): Transaction -> int {
    (x: Transaction) => if x.wallet == w && (x.kind == Kind.Deposit || x.kind == TransferIn) then x.amount as int else 0
  }

  function DebitedFrom(w: WalletId): Transaction -> int {
    (x: Transaction) => if x.wallet == w && (x.kind == Withdrawal || x.kind == TransferOut) then x.amount as int else 0
  }

  function TotalDeposited(db: Db, w: WalletId): int { Sum(db.transactions, CreditedTo(w)) }
  function TotalWithdrawn(db: Db, w: WalletId): int { Sum(db.transactions, DebitedFrom(w)) }

  lemma {:induction false} TotalsAreTheNet(transactions: seq<Transaction>, ledger: seq<LedgerEntry>, w: WalletId)
    requires |transactions| == |ledger|
    requires forall i :: 0 <= i < |ledger| ==> Mirrors(ledger[i], transactions[i], i)
    ensures Sum(transactions, CreditedTo(w)) - Sum(transactions, DebitedFrom(w)) == Net(ledger, w)
  {
    if |ledger| > 0 {
      var n := |ledger| - 1;
      TotalsAreTheNet(transactions[..n], ledger[..n], w);
    }
  }

  /** The dashboard's totals differ by the balance: refunds count as deposited, and the debits
      they give back as withdrawn. */
  lemma DashboardTotals(steps: seq<Step>, w: WalletId)
    requires w < |Run(steps).db.wallets|
    ensures
      var db := Run(steps).db;
      TotalDeposited(db, w) - TotalWithdrawn(db, w) == db.wallets[w].balance
  {
    ReachableHolds(steps);
    var db := Run(steps).db;
    assert Explained(db, w);
    TotalsAreTheNet(db.transactions, db.ledger, w);
  }

  /** The ids of a wallet's latest transactions, newest first. */
  function RecentIds(transactions: seq<Transaction>, w: WalletId, limit: nat): (ids: seq<TransactionId>)
    ensures |ids| <= limit
    ensures forall i :: 0 <= i < |ids| ==> ids[i] < |transactions| && transactions[ids[i]].wallet == w
    ensures forall i, j :: 0 <= i < j < |ids| ==> ids[j] < ids[i]
    ensures |ids| == limit || forall x: TransactionId :: x < |transactions| && transactions[x].wallet == w ==> x in ids
    ensures forall x: TransactionId, i :: 0 <= i < |ids| && ids[i] < x < |transactions| && transactions[x].wallet == w ==> x in ids
  {
    if |transactions| == 0 || limit == 0 then []
    else
      var n := |transactions| - 1;
      if transactions[n].wallet == w then [n] + RecentIds(transactions[..n], w, limit - 1)
      else RecentIds(transactions[..n], w, limit)
  }

  /** The entries that record transaction `x`, in commit order. */
  function EntriesOf(ledger: seq<LedgerEntry>, x: TransactionId): seq<LedgerEntry> {
    if |ledger| == 0 then []
    else
      var n := |ledger| - 1;
      EntriesOf(ledger[..n], x) + if ledger[n].transaction == x then [ledger[n]] else []
  }

  lemma {:induction false} OneEntryEach(ledger: seq<LedgerEntry>, x: TransactionId)
    requires forall i :: 0 <= i < |ledger| ==> ledger[i].transaction == i
    ensures EntriesOf(ledger, x) == if x < |ledger| then [ledger[x]] else []
  {
    if |ledger| > 0 {
      OneEntryEach(ledger[..|ledger| - 1], x);
    }
  }

  /** Every transaction has exactly one ledger entry, with its wallet, amount and running balance
      and the direction its type fixes. */
  lemma TransactionsAndEntriesCorrespond(steps: seq<Step>, x: TransactionId)
    requires x < |Run(steps).db.transactions|
    ensures
      var db := Run(steps).db;
      && |db.ledger| == |db.transactions|
      && EntriesOf(db.ledger, x) == [db.ledger[x]]
      && db.ledger[x].wallet == db.transactions[x].wallet
      && db.ledger[x].amount == db.transactions[x].amount
      && db.ledger[x].balanceAfter == db.transactions[x].balanceAfter
      && (db.ledger[x].direction.Credit? <==> db.transactions[x].kind in {Kind.Deposit, TransferIn})
  {
    ReachableHolds(steps);
    var db := Run(steps).db;
    assert Mirrors(db.ledger[x], db.transactions[x], x);
    OneEntryEach(db.ledger, x);
  }

  datatype Listing<T> = Listing(items: seq<T>, total: nat, page: nat, limit: nat)

  function ListPage<T>(s: seq<T>, p: T -> bool, page: nat, limit: nat): Listing<T>
    requires 1 <= page && 1 <= limit
  {
    var all := Newest(s, p);
    Listing(Page(all, page, limit), |all|, page, limit)
  }

  function EntryFilter(w: WalletId, direction: Option<Direction>): LedgerEntry -> bool {
    (e: LedgerEntry) => e.wallet == w && (direction.None? || e.direction == direction.value)
  }

  function AuditTrail(db: Db, w: WalletId, page: nat, limit: nat, direction: Option<Direction>): Result<Listing<LedgerEntry>>
    requires 1 <= page && 1 <= limit
  {
    if |db.wallets| <= w then Err(WalletNotFound)
    else Ok(ListPage(db.ledger, EntryFilter(w, direction), page, limit))
  }

  function TransactionFilter(w: Option<WalletId>, kind: Option<Kind>): Transaction -> bool {
    (x: Transaction) => (w.None? || x.wallet == w.value) && (kind.None? || x.kind == kind.value)
  }

  function FindAll(db: Db, w: Option<WalletId>, kind: Option<Kind>, page: nat, limit: nat): Listing<Transaction>
    requires 1 <= page && 1 <= limit
  {
    ListPage(db.transactions, TransactionFilter(w, kind), page, limit)
  }

  /** The listing shows, of the documents with the given ids, those that fall on the page. */
  ghost predicate Shows<T>(listing: Listing<T>, s: seq<T>, ids: seq<nat>) {
    && 1 <= listing.page
    && listing.total == |ids|
    && var skipped := (listing.page - 1) * listing.limit;
    && |listing.items| == (if |ids| <= skipped then 0 else Least(listing.limit, |ids| - skipped))
    && forall q :: 0 <= q < |listing.items| ==>
         skipped + q < |ids| && ids[skipped + q] < |s| && listing.items[q] == s[ids[skipped + q]]
  }

  lemma ListPageShows<T>(s: seq<T>, p: T -> bool, page: nat, limit: nat)
    requires 1 <= page && 1 <= limit
    ensures Shows(ListPage(s, p, page, limit), s, NewestIds(s, p))
  {
    IdsMatch(s, p);
    hide Newest, NewestIds;
  }

  /** The audit trail lists the ids of exactly the wallet's entries, in the direction asked for if
      any, the latest first; every page shows its part of them, and reading an unchanged ledger up
      to the page its `total` calls for reads them all. */
  lemma AuditTrailIsComplete(db: Db, w: WalletId, limit: nat, direction: Option<Direction>) returns (ids: seq<nat>)
    requires 1 <= limit
    ensures forall k, l :: 0 <= k < l < |ids| ==> ids[l] < ids[k]
    ensures forall x: nat :: x in ids <==>
      x < |db.ledger| && db.ledger[x].wallet == w && (direction.None? || direction == Some(db.ledger[x].direction))
    ensures forall page: nat :: 1 <= page ==>
      var r := AuditTrail(db, w, page, limit, direction);
      if |db.wallets| <= w then r == Err(WalletNotFound)
      else r.Ok? && r.value.page == page && r.value.limit == limit && Shows(r.value, db.ledger, ids)
    ensures
      var all := Newest(db.ledger, EntryFilter(w, direction));
      |all| == |ids| && FirstPages(all, PageCount(|ids|, limit), limit) == all
  {
    ids := ReadInPages(db.ledger, EntryFilter(w, direction), limit);
  }

  /** The same for the transaction listing, for one wallet or all and for one type or all. */
  lemma TransactionListingIsComplete(db: Db, w: Option<WalletId>, kind: Option<Kind>, limit: nat) returns (ids: seq<nat>)
    requires 1 <= limit
    ensures forall k, l :: 0 <= k < l < |ids| ==> ids[l] < ids[k]
    ensures forall x: nat :: x in ids <==>
      && x < |db.transactions|
      && (w.None? || w == Some(db.transactions[x].wallet)) && (kind.None? || kind == Some(db.transactions[x].kind))
    ensures forall page: nat :: 1 <= page ==>
      var r := FindAll(db, w, kind, page, limit);
      r.page == page && r.limit == limit && Shows(r, db.transactions, ids)
    ensures
      var all := Newest(db.transactions, TransactionFilter(w, kind));
      |all| == |ids| && FirstPages(all, PageCount(|ids|, limit), limit) == all
  {
    ids := ReadInPages(db.transactions, TransactionFilter(w, kind), limit);
  }

  lemma ReadInPages<T>(s: seq<T>, p: T -> bool, limit: nat) returns (ids: seq<nat>)
    requires 1 <= limit
    ensures forall k, l :: 0 <= k < l < |ids| ==> ids[l] < ids[k]
    ensures forall x: nat :: x in ids <==> x < |s| && p(s[x])
    ensures forall page: nat :: 1 <= page ==> Shows(ListPage(s, p, page, limit), s, ids)
    ensures |Newest(s, p)| == |ids| && FirstPages(Newest(s, p), PageCount(|ids|, limit), limit) == Newest(s, p)
  {
    ids := NewestIds(s, p);
    IdsAreTheMatches(s, p);
    IdsMatch(s, p);
    PagesCoverTheListing(Newest(s, p), limit);
    hide Newest, NewestIds, Shows, FirstPages, ListPage;
    forall page: nat | 1 <= page ensures Shows(ListPage(s, p, page, limit), s, ids) {
      ListPageShows(s, p, page, limit);
    }
  }

  /** `runs[j]` is what has happened when page `j + 1` is read. */
  ghost predicate Continuing(runs: seq<seq<Step>>) {
    forall j, k :: 0 <= j <= k < |runs| ==> runs[j] <= runs[k]
  }

  lemma LaterKeepsHistory(before: seq<Step>, after: seq<Step>)
    requires before <= after
    ensures History(Run(before).db, Run(after).db)
  {
    hide Apply, Inv;
    ReachableHolds(before);
    var more := after[|before|..];
    assert after == before + more;
    RunConcat(INIT, before, more);
    RunKeeps(Run(before), more);
  }

  lemma LedgersGrow(before: seq<Step>, after: seq<Step>)
    requires before <= after
    ensures Run(before).db.ledger <= Run(after).db.ledger
    ensures Run(before).db.transactions <= Run(after).db.transactions
    ensures |Run(before).db.wallets| <= |Run(after).db.wallets|
  {
    hide Run;
    LaterKeepsHistory(before, after);
  }

  /** Paging through the audit trail while the system runs on never skips an entry that was there
      when page one was read: entry `x` is item `q` of page `j + 1`. */
  lemma AuditTrailSkipsNothing(runs: seq<seq<Step>>, w: WalletId, limit: nat, direction: Option<Direction>, x: nat)
      returns (j: nat, q: nat)
    requires 1 <= limit && |runs| > 0 && Continuing(runs)
    requires w < |Run(runs[0]).db.wallets|
    requires var last := AuditTrail(Run(runs[|runs| - 1]).db, w, |runs|, limit, direction);
      last.Ok? ==> last.value.total <= |runs| * limit
    requires x < |Run(runs[0]).db.ledger| && Run(runs[0]).db.ledger[x].wallet == w
    requires direction.None? || direction == Some(Run(runs[0]).db.ledger[x].direction)
    ensures j < |runs| && x < |Run(runs[j]).db.ledger| && Run(runs[j]).db.ledger[x] == Run(runs[0]).db.ledger[x]
    ensures
      var r := AuditTrail(Run(runs[j]).db, w, j + 1, limit, direction);
      r.Ok? && q < |r.value.items| && r.value.items[q] == Run(runs[0]).db.ledger[x]
    ensures
      var ids := Page(NewestIds(Run(runs[j]).db.ledger, EntryFilter(w, direction)), j + 1, limit);
      q < |ids| && ids[q] == x
  {
    hide Run, History, Page, Newest, NewestIds;
    var logs := seq(|runs|, k requires 0 <= k < |runs| => Run(runs[k]).db.ledger);
    forall a, b | 0 <= a <= b < |runs|
      ensures logs[a] <= logs[b] && |Run(runs[a]).db.wallets| <= |Run(runs[b]).db.wallets|
    {
      LedgersGrow(runs[a], runs[b]);
    }
    j, q := NothingIsSkipped(logs, limit, EntryFilter(w, direction), x);
  }

  /** The same for the transaction listing: transaction `x` is item `q` of page `j + 1`. */
  lemma TransactionListingSkipsNothing(runs: seq<seq<Step>>, w: Option<WalletId>, kind: Option<Kind>, limit: nat, x: TransactionId)
      returns (j: nat, q: nat)
    requires 1 <= limit && |runs| > 0 && Continuing(runs)
    requires FindAll(Run(runs[|runs| - 1]).db, w, kind, |runs|, limit).total <= |runs| * limit
    requires x < |Run(runs[0]).db.transactions|
    requires w.None? || w == Some(Run(runs[0]).db.transactions[x].wallet)
    requires kind.None? || kind == Some(Run(runs[0]).db.transactions[x].kind)
    ensures j < |runs| && x < |Run(runs[j]).db.transactions|
    ensures Run(runs[j]).db.transactions[x] == Run(runs[0]).db.transactions[x]
    ensures
      var items := FindAll(Run(runs[j]).db, w, kind, j + 1, limit).items;
      q < |items| && items[q] == Run(runs[0]).db.transactions[x]
    ensures
      var ids := Page(NewestIds(Run(runs[j]).db.transactions, TransactionFilter(w, kind)), j + 1, limit);
      q < |ids| && ids[q] == x
  {
    hide Run, History, Page, Newest, NewestIds;
    var logs := seq(|runs|, k requires 0 <= k < |runs| => Run(runs[k]).db.transactions);
    forall a, b | 0 <= a <= b < |runs| ensures logs[a] <= logs[b] {
      LedgersGrow(runs[a], runs[b]);
    }
    j, q := NothingIsSkipped(logs, limit, TransactionFilter(w, kind), x);
  }
}
