/** What holds in every reachable state, whatever the interleaving. */
module Guarantees {
  import opened Domain
  import opened Sums
  import opened Database
  import opened Protocol
  import opened Books
  import opened Settlement
  import opened Delivery
  import opened Cache
  import opened Invariant

  function IsLeg(leg: Leg, kind: Kind, wallet: WalletId): nat {
    if leg.kind == kind && leg.wallet == wallet then 1 else 0
  }

  function Count(legs: seq<Leg>, kind: Kind, wallet: WalletId): nat {
    if |legs| == 0 then 0 else IsLeg(legs[0], kind, wallet) + Count(legs[1..], kind, wallet)
  }

  lemma CountFew(a: Leg, b: Leg, kind: Kind, wallet: WalletId)
    ensures Count([a], kind, wallet) == IsLeg(a, kind, wallet)
    ensures Count([a, b], kind, wallet) == IsLeg(a, kind, wallet) + IsLeg(b, kind, wallet)
  {
  }

  lemma CountExpected(tr: Transfer, t: TransferId)
    requires tr.from != tr.to
    ensures
      var legs := ExpectedLegs(tr, t);
      && Count(legs, TransferOut, tr.from) == 1
      && Count(legs, TransferIn, tr.to) == (if tr.status == Completed then 1 else 0)
      && Count(legs, TransferIn, tr.from) == (if tr.status == Failed then 1 else 0)
      && |legs| == (if tr.status == Pending then 1 else 2)
      && (forall i :: 0 <= i < |legs| ==> legs[i].amount == tr.amount)
  {
    var close := if tr.status == Completed then CreditLeg(tr) else RefundLeg(tr, t);
    CountFew(DebitLeg(tr), close, TransferOut, tr.from);
    CountFew(DebitLeg(tr), close, TransferIn, tr.to);
    CountFew(DebitLeg(tr), close, TransferIn, tr.from);
  }

  /** Exactly-once settlement, counted: one debit at the sender always; one credit, at the
      receiver, exactly when completed; one refund, at the sender, exactly when failed. */
  lemma ExactlyOnce(steps: seq<Step>, t: TransferId)
    requires t < |Run(steps).db.transfers|
    ensures
      var db := Run(steps).db;
      var tr := db.transfers[t];
      var legs := LegsOf(db.transactions, t);
      && Count(legs, TransferOut, tr.from) == 1
      && Count(legs, TransferIn, tr.to) == (if tr.status == Completed then 1 else 0)
      && Count(legs, TransferIn, tr.from) == (if tr.status == Failed then 1 else 0)
      && |legs| == (if tr.status == Pending then 1 else 2)
      && (forall i :: 0 <= i < |legs| ==> legs[i].amount == tr.amount)
  {
    ReachableHolds(steps);
    var db := Run(steps).db;
    assert SettledOnce(db, t) && WellFormed(db, db.transfers[t]);
    CountExpected(db.transfers[t], t);
  }

  /** A settled transfer never changes again, and neither do its transactions. */
  lemma SettledForever(steps: seq<Step>, more: seq<Step>, t: TransferId)
    requires t < |Run(steps).db.transfers| && Run(steps).db.transfers[t].Terminal()
    ensures
      var before, after := Run(steps).db, Run(steps + more).db;
      && t < |after.transfers|
      && after.transfers[t] == before.transfers[t]
      && LegsOf(after.transactions, t) == LegsOf(before.transactions, t)
  {
    ReachableHolds(steps);
    ReachableHolds(steps + more);
    RunConcat(INIT, steps, more);
    RunKeeps(Run(steps), more);
    var before, after := Run(steps).db, Run(steps + more).db;
    assert Advances(before.transfers[t], after.transfers[t]);
    assert SettledOnce(before, t) && SettledOnce(after, t);
  }

  /** No money is created or lost in any currency. */
  lemma Conservation(steps: seq<Step>, c: string)
    ensures
      var db := Run(steps).db;
      Held(db, c) + InFlight(db, c) == Supplied(db, c)
  {
    ReachableHolds(steps);
    assert Conserved(Run(steps).db, c);
  }

  /** The closed form of every balance; it is never negative. */
  lemma BalanceInClosedForm(steps: seq<Step>, w: WalletId)
    requires w < |Run(steps).db.wallets|
    ensures
      var db := Run(steps).db;
      && db.wallets[w].balance == Sum(db.transactions, ExternalTo(w)) + Sum(db.transfers, MovedAt(w))
      && 0 <= db.wallets[w].balance
  {
    ReachableHolds(steps);
    var db := Run(steps).db;
    assert ClosedForm(db, w) && Explained(db, w);
  }

  /** A transfer without its position, key and times. */
  datatype Move = Move(from: WalletId, to: WalletId, amount: Amount, status: Status)

  function MoveOf(tr: Transfer): Move {
    Move(tr.from, tr.to, tr.amount, tr.status)
  }

  function Moves(transfers: seq<Transfer>): seq<Move> {
    seq(|transfers|, t requires 0 <= t < |transfers| => MoveOf(transfers[t]))
  }

  /** A deposit or a withdrawal without its position and running balance. */
  datatype Flow = Flow(kind: Kind, amount: Amount)

  /** The deposits to and withdrawals from wallet `w`. */
  function FlowsAt(transactions: seq<Transaction>, w: WalletId): seq<Flow> {
    if |transactions| == 0 then []
    else
      var n := |transactions| - 1;
      var x := transactions[n];
      FlowsAt(transactions[..n], w) + if x.wallet == w && External(x.kind) then [Flow(x.kind, x.amount)] else []
  }

  function FlowValue(): Flow -> int {
    (flow: Flow) => Delta(flow.kind, flow.amount)
  }

  function MoveValue(w: WalletId): Move -> int {
    (move: Move) =>
      (if move.from == w && move.status != Failed then -(move.amount as int) else 0)
      + (if move.to == w && move.status == Completed then move.amount as int else 0)
  }

  lemma {:induction false} FlowsSum(transactions: seq<Transaction>, w: WalletId)
    ensures Sum(transactions, ExternalTo(w)) == Sum(FlowsAt(transactions, w), FlowValue())
  {
    if |transactions| > 0 {
      var n := |transactions| - 1;
      FlowsSum(transactions[..n], w);
      SumAppend(FlowsAt(transactions[..n], w), Flow(transactions[n].kind, transactions[n].amount), FlowValue());
      assert FlowsAt(transactions[..n], w) + [] == FlowsAt(transactions[..n], w);
    }
  }

  lemma {:induction false} MovesSum(transfers: seq<Transfer>, w: WalletId)
    ensures Sum(transfers, MovedAt(w)) == Sum(Moves(transfers), MoveValue(w))
  {
    if |transfers| > 0 {
      var n := |transfers| - 1;
      MovesSum(transfers[..n], w);
      assert Moves(transfers)[..n] == Moves(transfers[..n]);
    }
  }

  /** Two runs that accepted the same deposits and withdrawals at a wallet and the same transfers
      with the same final states, in whatever orders, agree on its balance. */
  lemma BalancesDoNotDependOnInterleaving(a: seq<Step>, b: seq<Step>, w: WalletId)
    requires w < |Run(a).db.wallets| && w < |Run(b).db.wallets|
    requires multiset(FlowsAt(Run(a).db.transactions, w)) == multiset(FlowsAt(Run(b).db.transactions, w))
    requires multiset(Moves(Run(a).db.transfers)) == multiset(Moves(Run(b).db.transfers))
    ensures Run(a).db.wallets[w].balance == Run(b).db.wallets[w].balance
  {
    hide Run, FlowsAt, Moves;
    var x, y := Run(a).db, Run(b).db;
    BalanceInClosedForm(a, w);
    BalanceInClosedForm(b, w);
    FlowsSum(x.transactions, w);
    FlowsSum(y.transactions, w);
    SumPermutation(FlowsAt(x.transactions, w), FlowsAt(y.transactions, w), FlowValue());
    MovesSum(x.transfers, w);
    MovesSum(y.transfers, w);
    SumPermutation(Moves(x.transfers), Moves(y.transfers), MoveValue(w));
  }

  /** The running-balance chain of every wallet in every reachable state, from zero to the
      stored balance. */
  lemma RunningBalanceChain(steps: seq<Step>, w: WalletId, i: nat)
    requires w < |Run(steps).db.wallets| && i < |Run(steps).db.ledger|
    ensures
      var db := Run(steps).db;
      var last := PreviousEntry(db.ledger, |db.ledger|, w);
      && db.ledger[i].balanceAfter == BalanceBefore(db.ledger, i) + Signed(db.ledger[i])
      && 0 <= db.ledger[i].balanceAfter
      && db.wallets[w].balance == (if last.Some? then db.ledger[last.value].balanceAfter else 0)
  {
    ReachableHolds(steps);
    RunningBalances(Run(steps).db, i);
    LatestRunningBalance(Run(steps).db, w);
  }

  /** Every event and every message is about an existing transfer and carries its wallets and
      amount; each transfer has exactly one event; so no delivery can find its transfer or its
      receiver missing, and no message is ever dead-lettered. */
  lemma EventFidelity(steps: seq<Step>)
    ensures
      var s := Run(steps);
      && (forall e :: 0 <= e < |s.db.outbox| ==> Faithful(s.db, s.db.outbox[e].payload))
      && (forall m :: 0 <= m < |s.messages| ==> Faithful(s.db, s.messages[m].payload) && !s.messages[m].fate.DeadLettered?)
      && Announced(s.db.outbox) == seq(|s.db.transfers|, t => t)
      && (forall m: MessageId :: Consumable(s, m) ==>
            var p := s.messages[m].payload;
            CompleteTransfer(s.db, m, p.transfer, p.to, p.amount).1 in {Credited, AlreadySettled, DuplicateClaim})
  {
    ReachableHolds(steps);
    var s := Run(steps);
    forall m | 0 <= m < |s.messages|
      ensures Faithful(s.db, s.messages[m].payload) && !s.messages[m].fate.DeadLettered?
    {
      assert MessageFaithful(s.db, s.messages[m]);
      assert Faithful(s.db, s.db.outbox[s.messages[m].event].payload);
    }
    forall m: MessageId | Consumable(s, m)
      ensures
        var p := s.messages[m].payload;
        CompleteTransfer(s.db, m, p.transfer, p.to, p.amount).1 in {Credited, AlreadySettled, DuplicateClaim}
    {
      assert Faithful(s.db, s.messages[m].payload);
      assert WellFormed(s.db, s.db.transfers[s.messages[m].payload.transfer]);
    }
  }

  /** Deduplication never swallows a needed credit: a claimed, returned or acked message is about
      a settled transfer. */
  lemma ClaimedMeansSettled(steps: seq<Step>, m: MessageId)
    requires
      var s := Run(steps);
      || m in s.db.inbox || m in s.workers.returned
      || (m < |s.messages| && s.messages[m].fate.Acked?)
    ensures
      var s := Run(steps);
      && m < |s.messages| && s.messages[m].payload.TransferInitiated?
      && s.messages[m].payload.transfer < |s.db.transfers|
      && s.db.transfers[s.messages[m].payload.transfer].Terminal()
  {
    ReachableHolds(steps);
    var s := Run(steps);
    assert Done(s.db, s.messages, m);
  }

  /** A message that can still complete its transfer: queued and not claimed. */
  predicate Live(s: Sys, m: MessageId) {
    m < |s.messages| && s.messages[m].fate.Queued? && m !in s.db.inbox && m !in s.workers.returned
  }

  predicate Announces(db: Db, e: EventId, t: TransferId) {
    e < |db.outbox| && db.outbox[e].payload.TransferInitiated? && db.outbox[e].payload.transfer == t
  }

  lemma LiveMessage(s: Sys, e: EventId, t: TransferId) returns (m: MessageId)
    requires Inv(s) && t < |s.db.transfers| && s.db.transfers[t].status == Pending
    requires Announces(s.db, e, t) && s.db.outbox[e].published
    ensures Live(s, m) && s.messages[m].event == e && s.messages[m].payload == s.db.outbox[e].payload
  {
    assert Sent(s.messages, e);
    m :| 0 <= m < |s.messages| && s.messages[m].event == e;
    assert MessageFaithful(s.db, s.messages[m]);
    assert !Done(s.db, s.messages, m);
  }

  /** No transfer is lost: a pending transfer's event is still pending, or a live message carries it. */
  lemma NoTransferIsLost(steps: seq<Step>, t: TransferId) returns (e: EventId)
    requires t < |Run(steps).db.transfers| && Run(steps).db.transfers[t].status == Pending
    ensures
      var s := Run(steps);
      && Announces(s.db, e, t)
      && (!s.db.outbox[e].published || exists m: MessageId :: Live(s, m) && s.messages[m].event == e)
  {
    ReachableHolds(steps);
    var s := Run(steps);
    e := EventOf(s.db, t);
    if s.db.outbox[e].published {
      var m := LiveMessage(s, e, t);
    }
  }

  /** Delivering a message about a pending transfer completes it and credits the receiver, in one
      posting; nothing else changes but the receiver's cache entry and the claim. */
  lemma DeliveryCompletes(s: Sys, m: MessageId, d: bool)
    requires Inv(s) && m < |s.messages| && s.messages[m].payload.TransferInitiated?
    requires var t := s.messages[m].payload.transfer; t < |s.db.transfers| && s.db.transfers[t].status == Pending
    ensures
      var t := s.messages[m].payload.transfer;
      var tr, s' := s.db.transfers[t], Apply(s, Consume(m, d));
      && s'.db.transfers == s.db.transfers[t := tr.(status := Completed)]
      && tr.to < |s.db.wallets|
      && var balance := s.db.wallets[tr.to].balance + tr.amount;
      && s'.db.wallets == s.db.wallets[tr.to := s.db.wallets[tr.to].(balance := balance)]
      && s'.db.transactions == s.db.transactions
           + [Transaction(tr.to, TransferIn, tr.amount, balance, None, Some(t), Some(tr.from))]
      && s'.db.ledger == s.db.ledger + [LedgerEntry(|s.db.transactions|, tr.to, Credit, tr.amount, balance)]
      && s'.db.outbox == s.db.outbox && s'.db.inbox == s.db.inbox + {m}
      && s'.cache == s.cache[tr.to := Cached(balance, |s.db.transactions| + 1)]
      && s'.messages == s.messages
  {
    assert MessageFaithful(s.db, s.messages[m]);
    MessageFacts(s, m);
    hide Inv;
    assert Apply(s, Consume(m, d)) == DoConsume(s, m, d);
  }

  /** Delivering a message about a settled transfer claims it and does nothing else. */
  lemma DuplicateOnlyClaims(s: Sys, m: MessageId, d: bool)
    requires Inv(s) && m < |s.messages| && s.messages[m].payload.TransferInitiated?
    requires var t := s.messages[m].payload.transfer; t < |s.db.transfers| && s.db.transfers[t].status != Pending
    ensures
      var s' := Apply(s, Consume(m, d));
      && s'.db == s.db.(inbox := s.db.inbox + {m})
      && s'.messages == s.messages && s'.cache == s.cache
      && s'.workers == s.workers.(returned := s'.workers.returned)
      && (m in s'.workers.returned <==> m in s.workers.returned || m !in s.db.inbox || d)
  {
    assert MessageFaithful(s.db, s.messages[m]);
    hide Inv;
    assert Apply(s, Consume(m, d)) == DoConsume(s, m, d);
  }

  /** The cached balance is the stored one exactly when no refund to the wallet was posted since
      the value was cached. */
  lemma CacheLagIsTheRefunds(steps: seq<Step>, w: WalletId)
    requires w < |Run(steps).db.wallets|
    ensures
      var s := Run(steps);
      && (w in s.cache ==>
            && s.cache[w].mark <= |s.db.transactions|
            && ReportedBalance(s, w) == s.db.wallets[w].balance - RefundedSince(s.db.transactions, s.cache[w].mark, w))
      && ReportedBalance(s, w) <= s.db.wallets[w].balance
      && (ReportedBalance(s, w) == s.db.wallets[w].balance <==>
            (w in s.cache ==>
               forall i :: s.cache[w].mark <= i < |s.db.transactions| ==> !IsRefundTo(s.db.transactions[i], w)))
  {
    ReachableHolds(steps);
    var s := Run(steps);
    if w in s.cache {
      assert Lags(s.db, w, s.cache[w]);
      SumUnchangedSince(s.db.transactions, s.cache[w].mark, RefundTo(w));
      var f := RefundTo(w);
      assert forall i :: 0 <= i < |s.db.transactions| ==> (f(s.db.transactions[i]) == 0 <==> !IsRefundTo(s.db.transactions[i], w));
    }
  }
}
