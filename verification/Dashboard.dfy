/** The dashboard's totals in closed form, by counting every transfer's transactions. */
module Dashboard {
  import opened Domain
  import opened Sums
  import opened Database
  import opened Protocol
  import opened Settlement
  import opened Invariant
  import opened Reports

  function KindAt(w: WalletId, kind: Kind): Transaction -> int {
    (x: Transaction) => if x.wallet == w && x.kind == kind then x.amount as int else 0
  }

  function LegAt(w: WalletId, kind: Kind): Leg -> int {
    (leg: Leg) => if leg.wallet == w && leg.kind == kind then leg.amount as int else 0
  }

  /** On any store each total is made up of two types of transaction. */
  lemma {:induction false} TotalsByKind(transactions: seq<Transaction>, w: WalletId)
    ensures Sum(transactions, CreditedTo(w)) == Sum(transactions, KindAt(w, Kind.Deposit)) + Sum(transactions, KindAt(w, TransferIn))
    ensures Sum(transactions, DebitedFrom(w)) == Sum(transactions, KindAt(w, Withdrawal)) + Sum(transactions, KindAt(w, TransferOut))
  {
    if |transactions| > 0 {
      TotalsByKind(transactions[..|transactions| - 1], w);
    }
  }

  /** What the legs of transfers `0` to `n - 1` add up to. */
  function LegSum(transactions: seq<Transaction>, n: nat, w: WalletId, kind: Kind): int {
    if n == 0 then 0
    else LegSum(transactions, n - 1, w, kind) + Sum(LegsOf(transactions, n - 1), LegAt(w, kind))
  }

  lemma LegsOfAppend(transactions: seq<Transaction>, x: Transaction, t: TransferId)
    ensures LegsOf(transactions + [x], t) == LegsOf(transactions, t) + if x.transfer == Some(t) then [LegOf(x)] else []
  {
  }

  lemma {:induction false} LegSumAppend(transactions: seq<Transaction>, x: Transaction, n: nat, w: WalletId, kind: Kind)
    ensures LegSum(transactions + [x], n, w, kind) ==
      LegSum(transactions, n, w, kind) + if x.transfer.Some? && x.transfer.value < n then LegAt(w, kind)(LegOf(x)) else 0
  {
    hide LegsOf, Sum;
    if n > 0 {
      LegSumAppend(transactions, x, n - 1, w, kind);
      LegsOfAppend(transactions, x, n - 1);
      SumAppend(LegsOf(transactions, n - 1), LegOf(x), LegAt(w, kind));
      assert LegsOf(transactions, n - 1) + [] == LegsOf(transactions, n - 1);
    }
  }

  lemma {:induction false} NoLegs(n: nat, w: WalletId, kind: Kind)
    ensures LegSum([], n, w, kind) == 0
  {
    if n > 0 {
      NoLegs(n - 1, w, kind);
    }
  }

  /** Adding up by transaction and adding up by transfer is the same. */
  lemma {:induction false} ByTransfer(transactions: seq<Transaction>, n: nat, w: WalletId, kind: Kind)
    requires !External(kind)
    requires forall i :: 0 <= i < |transactions| && !External(transactions[i].kind) ==>
      transactions[i].transfer.Some? && transactions[i].transfer.value < n
    ensures Sum(transactions, KindAt(w, kind)) == LegSum(transactions, n, w, kind)
  {
    if |transactions| == 0 {
      NoLegs(n, w, kind);
      assert transactions == [];
    } else {
      var last := |transactions| - 1;
      ByTransfer(transactions[..last], n, w, kind);
      LegSumAppend(transactions[..last], transactions[last], n, w, kind);
      assert transactions[..last] + [transactions[last]] == transactions;
    }
  }

  /** Every transfer out of `w`, whatever became of it. */
  function SentBy(w: WalletId): Transfer -> int {
    (tr: Transfer) => if tr.from == w then tr.amount as int else 0
  }

  /** Completed transfers to `w`, and the refunds of failed ones from it. */
  function ReceivedBy(w: WalletId): Transfer -> int {
    (tr: Transfer) =>
      (if tr.to == w && tr.status == Completed then tr.amount as int else 0)
      + (if tr.from == w && tr.status == Failed then tr.amount as int else 0)
  }

  lemma LegsAddUp(tr: Transfer, t: TransferId, w: WalletId)
    ensures Sum(ExpectedLegs(tr, t), LegAt(w, TransferOut)) == SentBy(w)(tr)
    ensures Sum(ExpectedLegs(tr, t), LegAt(w, TransferIn)) == ReceivedBy(w)(tr)
  {
    var first := [DebitLeg(tr)];
    var second := if tr.status == Completed then CreditLeg(tr) else RefundLeg(tr, t);
    SumAppend([], DebitLeg(tr), LegAt(w, TransferOut));
    SumAppend([], DebitLeg(tr), LegAt(w, TransferIn));
    assert [] + first == first;
    SumAppend(first, second, LegAt(w, TransferOut));
    SumAppend(first, second, LegAt(w, TransferIn));
    assert first + [second] == [DebitLeg(tr), second];
  }

  /** Transfer `t`'s own legs. */
  lemma SettledLegsAddUp(db: Db, t: TransferId, w: WalletId)
    requires Settled(db) && t < |db.transfers|
    ensures Sum(LegsOf(db.transactions, t), LegAt(w, TransferOut)) == SentBy(w)(db.transfers[t])
    ensures Sum(LegsOf(db.transactions, t), LegAt(w, TransferIn)) == ReceivedBy(w)(db.transfers[t])
  {
    hide Sum, LegsOf, ExpectedLegs, Refers, UniqueKeys, WellFormed;
    assert SettledOnce(db, t);
    LegsAddUp(db.transfers[t], t, w);
  }

  lemma {:induction false} LegSumIsTransferSum(db: Db, n: nat, w: WalletId)
    requires Settled(db) && n <= |db.transfers|
    ensures LegSum(db.transactions, n, w, TransferOut) == Sum(db.transfers[..n], SentBy(w))
    ensures LegSum(db.transactions, n, w, TransferIn) == Sum(db.transfers[..n], ReceivedBy(w))
  {
    hide Settled, LegsOf, Sum, LegAt;
    if n == 0 {
      SumZero(db.transfers[..n], SentBy(w));
      SumZero(db.transfers[..n], ReceivedBy(w));
    } else {
      LegSumIsTransferSum(db, n - 1, w);
      SettledLegsAddUp(db, n - 1, w);
      SumAppend(db.transfers[..n - 1], db.transfers[n - 1], SentBy(w));
      SumAppend(db.transfers[..n - 1], db.transfers[n - 1], ReceivedBy(w));
      assert db.transfers[..n] == db.transfers[..n - 1] + [db.transfers[n - 1]];
    }
  }

  /** In every reachable state the dashboard shows as deposited the deposits, the transfers received
      and the refunds, and as withdrawn the withdrawals and every transfer sent, refunded or not. */
  lemma DashboardInClosedForm(steps: seq<Step>, w: WalletId)
    ensures
      var db := Run(steps).db;
      && TotalDeposited(db, w) == Sum(db.transactions, KindAt(w, Kind.Deposit)) + Sum(db.transfers, ReceivedBy(w))
      && TotalWithdrawn(db, w) == Sum(db.transactions, KindAt(w, Withdrawal)) + Sum(db.transfers, SentBy(w))
  {
    ReachableHolds(steps);
    var db := Run(steps).db;
    forall i | 0 <= i < |db.transactions| && !External(db.transactions[i].kind)
      ensures db.transactions[i].transfer.Some? && db.transactions[i].transfer.value < |db.transfers|
    {
      assert Refers(db, db.transactions[i]);
    }
    TotalsByKind(db.transactions, w);
    ByTransfer(db.transactions, |db.transfers|, w, TransferIn);
    ByTransfer(db.transactions, |db.transfers|, w, TransferOut);
    LegSumIsTransferSum(db, |db.transfers|, w);
    assert db.transfers[..|db.transfers|] == db.transfers;
  }
}
