/** What the transfers' states mean in money: which transactions each transfer has, the closed
    form of every balance, and conservation per currency. */
module Settlement {
  import opened Domain
  import opened Sums
  import opened Database
  import opened Books

  /** A transaction without its running balance. */
  datatype Leg = Leg(wallet: WalletId, kind: Kind, amount: Amount, reference: Option<Reference>, counterparty: Option<WalletId>)

  function LegOf(x: Transaction): Leg {
    Leg(x.wallet, x.kind, x.amount, x.reference, x.counterparty)
  }

  /** The transactions of transfer `t`, in commit order. */
  function LegsOf(transactions: seq<Transaction>, t: TransferId): seq<Leg> {
    if |transactions| == 0 then []
    else
      var n := |transactions| - 1;
      LegsOf(transactions[..n], t) + if transactions[n].transfer == Some(t) then [LegOf(transactions[n])] else []
  }

  function DebitLeg(tr: Transfer): Leg {
    Leg(tr.from, TransferOut, tr.amount, None, Some(tr.to))
  }

  function CreditLeg(tr: Transfer): Leg {
    Leg(tr.to, TransferIn, tr.amount, None, Some(tr.from))
  }

  function RefundLeg(tr: Transfer, t: TransferId): Leg {
    Leg(tr.from, TransferIn, tr.amount, Some(RefundOf(t)), None)
  }

  /** Exactly-once settlement: a pending transfer has its one debit, a completed one also its one
      credit to the receiver, a failed one also its one refund to the sender, and nothing else. */
  function ExpectedLegs(tr: Transfer, t: TransferId): seq<Leg> {
    match tr.status
    case Pending => [DebitLeg(tr)]
    case Completed => [DebitLeg(tr), CreditLeg(tr)]
    case Failed => [DebitLeg(tr), RefundLeg(tr, t)]
  }

  predicate SettledOnce(db: Db, t: TransferId)
    requires t < |db.transfers|
  {
    LegsOf(db.transactions, t) == ExpectedLegs(db.transfers[t], t)
  }

  predicate WellFormed(db: Db, tr: Transfer) {
    && tr.from < |db.wallets| && tr.to < |db.wallets| && tr.from != tr.to
    && db.wallets[tr.from].currency == db.wallets[tr.to].currency
    && (tr.status.Pending? ==> tr.lastSweptAt.None?)
  }

  ghost predicate UniqueKeys(transfers: seq<Transfer>) {
    forall t, u :: 0 <= t < u < |transfers| && transfers[t].key != NoKey ==> transfers[t].key != transfers[u].key
  }

  predicate External(kind: Kind) {
    kind.Deposit? || kind.Withdrawal?
  }

  predicate Refers(db: Db, x: Transaction) {
    && x.wallet < |db.wallets|
    && (External(x.kind) <==> x.transfer.None?)
    && (x.transfer.Some? ==> x.transfer.value < |db.transfers|)
  }

  ghost predicate Settled(db: Db) {
    && (forall t: TransferId :: t < |db.transfers| ==> SettledOnce(db, t) && WellFormed(db, db.transfers[t]))
    && UniqueKeys(db.transfers)
    && (forall i :: 0 <= i < |db.transactions| ==> Refers(db, db.transactions[i]))
  }

  /** Deposits to wallet `w` less withdrawals from it. */
  function ExternalTo(w: WalletId): Transaction -> int {
    (x: Transaction) => if x.wallet == w && External(x.kind) then Delta(x.kind, x.amount) else 0
  }

  /** What a transfer has moved at wallet `w`: out unless it failed, in once it completed. */
  function MovedAt(w: WalletId): Transfer -> int {
    (tr: Transfer) =>
      (if tr.from == w && tr.status != Failed then -(tr.amount as int) else 0)
      + (if tr.to == w && tr.status == Completed then tr.amount as int else 0)
  }

  predicate ClosedForm(db: Db, w: WalletId)
    requires w < |db.wallets|
  {
    db.wallets[w].balance == Sum(db.transactions, ExternalTo(w)) + Sum(db.transfers, MovedAt(w))
  }

  function Currencies(wallets: seq<Wallet>): (cs: seq<string>)
    ensures |cs| == |wallets|
    ensures forall w :: 0 <= w < |wallets| ==> cs[w] == wallets[w].currency
  {
    seq(|wallets|, w requires 0 <= w < |wallets| => wallets[w].currency)
  }

  predicate Carries(cs: seq<string>, w: WalletId, c: string) {
    w < |cs| && cs[w] == c
  }

  function HeldIn(c: string): Wallet -> int {
    (wallet: Wallet) => if wallet.currency == c then wallet.balance else 0
  }

  function InFlightIn(cs: seq<string>, c: string): Transfer -> int {
    (tr: Transfer) => if tr.status == Pending && Carries(cs, tr.from, c) then tr.amount as int else 0
  }

  function ExternalIn(cs: seq<string>, c: string): Transaction -> int {
    (x: Transaction) => if External(x.kind) && Carries(cs, x.wallet, c) then Delta(x.kind, x.amount) else 0
  }

  function Held(db: Db, c: string): int { Sum(db.wallets, HeldIn(c)) }
  function InFlight(db: Db, c: string): int { Sum(db.transfers, InFlightIn(Currencies(db.wallets), c)) }
  function Supplied(db: Db, c: string): int { Sum(db.transactions, ExternalIn(Currencies(db.wallets), c)) }

  /** Money held in wallets plus money in pending transfers is what clients put in less what
      they took out. */
  predicate Conserved(db: Db, c: string) {
    Held(db, c) + InFlight(db, c) == Supplied(db, c)
  }

  ghost predicate Sound(db: Db) {
    && Balanced(db)
    && Settled(db)
    && (forall w: WalletId :: w < |db.wallets| ==> ClosedForm(db, w))
    && (forall c: string :: Conserved(db, c))
  }

  lemma {:induction false} NoLegs(transactions: seq<Transaction>, t: TransferId)
    requires forall i :: 0 <= i < |transactions| ==> transactions[i].transfer != Some(t)
    ensures LegsOf(transactions, t) == []
  {
    if |transactions| > 0 {
      NoLegs(transactions[..|transactions| - 1], t);
    }
  }

  /** The effect of one posting on every view above, for one wallet, transfer and currency. */
  lemma PostEffect(db: Db, w: WalletId, kind: Kind, amount: Amount, reference: Option<Reference>,
                   transfer: Option<TransferId>, counterparty: Option<WalletId>, v: WalletId, t: TransferId, c: string)
    requires w < |db.wallets|
    ensures
      var db' := Post(db, w, kind, amount, reference, transfer, counterparty);
      && LegsOf(db'.transactions, t) == LegsOf(db.transactions, t)
           + (if transfer == Some(t) then [Leg(w, kind, amount, reference, counterparty)] else [])
      && Sum(db'.transactions, ExternalTo(v)) == Sum(db.transactions, ExternalTo(v))
           + (if v == w && External(kind) then Delta(kind, amount) else 0)
      && Currencies(db'.wallets) == Currencies(db.wallets)
      && Held(db', c) == Held(db, c) + (if db.wallets[w].currency == c then Delta(kind, amount) else 0)
      && Supplied(db', c) == Supplied(db, c)
           + (if External(kind) && db.wallets[w].currency == c then Delta(kind, amount) else 0)
  {
    var db' := Post(db, w, kind, amount, reference, transfer, counterparty);
    var x := db'.transactions[|db.transactions|];
    assert db'.transactions[..|db.transactions|] == db.transactions;
    assert Currencies(db'.wallets) == Currencies(db.wallets);
    SumAppend(db.transactions, x, ExternalTo(v));
    SumAppend(db.transactions, x, ExternalIn(Currencies(db.wallets), c));
    SumUpdate(db.wallets, w, db'.wallets[w], HeldIn(c));
  }

  lemma FlowKeepsSound(db: Db, w: WalletId, kind: Kind, amount: Amount, reference: Option<Reference>)
    requires Sound(db) && w < |db.wallets| && External(kind)
    requires kind.Deposit? || amount <= db.wallets[w].balance
    ensures Sound(Post(db, w, kind, amount, reference, None, None))
  {
    var db' := Post(db, w, kind, amount, reference, None, None);
    PostKeepsBalanced(db, w, kind, amount, reference, None, None);
    forall t: TransferId | t < |db'.transfers| ensures SettledOnce(db', t) && WellFormed(db', db'.transfers[t]) {
      PostEffect(db, w, kind, amount, reference, None, None, 0, t, "");
      assert SettledOnce(db, t) && WellFormed(db, db.transfers[t]);
    }
    forall i | 0 <= i < |db'.transactions| ensures Refers(db', db'.transactions[i]) {
      if i < |db.transactions| { assert Refers(db, db.transactions[i]); }
    }
    forall v: WalletId | v < |db'.wallets| ensures ClosedForm(db', v) {
      PostEffect(db, w, kind, amount, reference, None, None, v, 0, "");
      assert ClosedForm(db, v);
    }
    forall c: string ensures Conserved(db', c) {
      PostEffect(db, w, kind, amount, reference, None, None, 0, 0, c);
      assert Conserved(db, c);
    }
  }

  lemma OpenKeepsBalanced(db: Db, dto: TransferDto, now: Time)
    requires Balanced(db) && TransferError(db, dto).None?
    ensures Balanced(OpenTransfer(db, dto, now))
  {
    var n := |db.transfers|;
    var created := db.(transfers := OpenTransfer(db, dto, now).transfers);
    BooksIgnoreOtherCollections(db, created);
    PostKeepsBalanced(created, dto.from, TransferOut, dto.amount, None, Some(n), Some(dto.to));
    BooksIgnoreOtherCollections(
      Post(created, dto.from, TransferOut, dto.amount, None, Some(n), Some(dto.to)), OpenTransfer(db, dto, now));
  }

  lemma NextTransferHasNoLegs(db: Db)
    requires Settled(db)
    ensures LegsOf(db.transactions, |db.transfers|) == []
  {
    forall i | 0 <= i < |db.transactions| ensures db.transactions[i].transfer != Some(|db.transfers|) {
      assert Refers(db, db.transactions[i]);
    }
    NoLegs(db.transactions, |db.transfers|);
  }

  lemma OpenKeepsSettled(db: Db, dto: TransferDto, now: Time)
    requires Settled(db) && TransferError(db, dto).None? && FindByKey(db.transfers, dto.key).None?
    ensures Settled(OpenTransfer(db, dto, now))
  {
    var n := |db.transfers|;
    var db' := OpenTransfer(db, dto, now);
    var created := db.(transfers := db'.transfers);
    hide LegsOf;
    forall i | 0 <= i < |db'.transactions| ensures Refers(db', db'.transactions[i]) {
      if i < |db.transactions| { assert Refers(db, db.transactions[i]); }
    }
    forall t: TransferId | t < |db'.transfers| ensures SettledOnce(db', t) && WellFormed(db', db'.transfers[t]) {
      PostEffect(created, dto.from, TransferOut, dto.amount, None, Some(n), Some(dto.to), 0, t, "");
      if t < n {
        assert SettledOnce(db, t) && WellFormed(db, db.transfers[t]);
      } else {
        NextTransferHasNoLegs(db);
      }
    }
  }

  lemma OpenMovesMoney(db: Db, dto: TransferDto, now: Time, v: WalletId, c: string)
    requires TransferError(db, dto).None?
    ensures v < |db.wallets| && ClosedForm(db, v) ==> ClosedForm(OpenTransfer(db, dto, now), v)
    ensures Conserved(db, c) ==> Conserved(OpenTransfer(db, dto, now), c)
  {
    var n := |db.transfers|;
    var db' := OpenTransfer(db, dto, now);
    var created := db.(transfers := db'.transfers);
    PostEffect(created, dto.from, TransferOut, dto.amount, None, Some(n), Some(dto.to), v, 0, c);
    SumAppend(db.transfers, db'.transfers[n], MovedAt(v));
    SumAppend(db.transfers, db'.transfers[n], InFlightIn(Currencies(db.wallets), c));
  }

  lemma OpenKeepsSound(db: Db, dto: TransferDto, now: Time)
    requires Sound(db) && TransferError(db, dto).None? && FindByKey(db.transfers, dto.key).None?
    ensures Sound(OpenTransfer(db, dto, now))
  {
    var db' := OpenTransfer(db, dto, now);
    OpenKeepsBalanced(db, dto, now);
    OpenKeepsSettled(db, dto, now);
    forall v: WalletId | v < |db'.wallets| ensures ClosedForm(db', v) {
      assert ClosedForm(db, v);
      OpenMovesMoney(db, dto, now, v, "");
    }
    forall c: string ensures Conserved(db', c) {
      assert Conserved(db, c);
      OpenMovesMoney(db, dto, now, 0, c);
    }
  }

  /** The closing posting of a pending transfer: the credit that completes it or the refund that
      fails it. */
  function Close(db: Db, t: TransferId, closed: Transfer, leg: Leg): Db
    requires t < |db.transfers| && leg.wallet < |db.wallets|
  {
    Post(db.(transfers := db.transfers[t := closed]), leg.wallet, leg.kind, leg.amount, leg.reference, Some(t), leg.counterparty)
  }

  predicate Closes(tr: Transfer, t: TransferId, closed: Transfer, leg: Leg) {
    && tr.status == Pending
    && closed == tr.(status := closed.status, lastSweptAt := closed.lastSweptAt)
    && (|| (closed.status == Completed && leg == CreditLeg(tr))
        || (closed.status == Failed && leg == RefundLeg(tr, t)))
  }

  lemma CloseKeepsBalanced(db: Db, t: TransferId, closed: Transfer, leg: Leg)
    requires Balanced(db) && t < |db.transfers| && leg.wallet < |db.wallets| && leg.kind == TransferIn
    ensures Balanced(Close(db, t, closed, leg))
  {
    var mid := db.(transfers := db.transfers[t := closed]);
    BooksIgnoreOtherCollections(db, mid);
    PostKeepsBalanced(mid, leg.wallet, leg.kind, leg.amount, leg.reference, Some(t), leg.counterparty);
  }

  lemma CloseKeepsSettled(db: Db, t: TransferId, closed: Transfer, leg: Leg)
    requires Settled(db) && t < |db.transfers| && leg.wallet < |db.wallets|
    requires Closes(db.transfers[t], t, closed, leg)
    ensures Settled(Close(db, t, closed, leg))
  {
    var mid := db.(transfers := db.transfers[t := closed]);
    var db' := Close(db, t, closed, leg);
    hide LegsOf;
    forall i | 0 <= i < |db'.transactions| ensures Refers(db', db'.transactions[i]) {
      if i < |db.transactions| { assert Refers(db, db.transactions[i]); }
    }
    forall u: TransferId | u < |db'.transfers| ensures SettledOnce(db', u) && WellFormed(db', db'.transfers[u]) {
      PostEffect(mid, leg.wallet, leg.kind, leg.amount, leg.reference, Some(t), leg.counterparty, 0, u, "");
      assert SettledOnce(db, u) && WellFormed(db, db.transfers[u]);
    }
  }

  lemma CloseMovesMoney(db: Db, t: TransferId, closed: Transfer, leg: Leg, v: WalletId, c: string)
    requires t < |db.transfers| && leg.wallet < |db.wallets|
    requires WellFormed(db, db.transfers[t]) && Closes(db.transfers[t], t, closed, leg)
    ensures v < |db.wallets| && ClosedForm(db, v) ==> ClosedForm(Close(db, t, closed, leg), v)
    ensures Conserved(db, c) ==> Conserved(Close(db, t, closed, leg), c)
  {
    var mid := db.(transfers := db.transfers[t := closed]);
    PostEffect(mid, leg.wallet, leg.kind, leg.amount, leg.reference, Some(t), leg.counterparty, v, 0, c);
    SumUpdate(db.transfers, t, closed, MovedAt(v));
    SumUpdate(db.transfers, t, closed, InFlightIn(Currencies(db.wallets), c));
  }

  lemma CloseKeepsSound(db: Db, t: TransferId, closed: Transfer, leg: Leg)
    requires Sound(db) && t < |db.transfers| && leg.wallet < |db.wallets|
    requires Closes(db.transfers[t], t, closed, leg)
    ensures Sound(Close(db, t, closed, leg))
  {
    var db' := Close(db, t, closed, leg);
    CloseKeepsBalanced(db, t, closed, leg);
    CloseKeepsSettled(db, t, closed, leg);
    assert SettledOnce(db, t) && WellFormed(db, db.transfers[t]);
    forall v: WalletId | v < |db'.wallets| ensures ClosedForm(db', v) {
      assert ClosedForm(db, v);
      CloseMovesMoney(db, t, closed, leg, v, "");
    }
    forall c: string ensures Conserved(db', c) {
      assert Conserved(db, c);
      CloseMovesMoney(db, t, closed, leg, 0, c);
    }
  }

  lemma NewWalletKeepsClosedForm(db: Db, wallet: Wallet)
    requires Settled(db) && wallet.balance == 0
    ensures ClosedForm(db.(wallets := db.wallets + [wallet]), |db.wallets|)
  {
    var v := |db.wallets|;
    forall i | 0 <= i < |db.transactions| ensures db.transactions[i].wallet != v {
      assert Refers(db, db.transactions[i]);
    }
    SumZero(db.transactions, ExternalTo(v));
    forall t | 0 <= t < |db.transfers| ensures db.transfers[t].from != v && db.transfers[t].to != v {
      assert WellFormed(db, db.transfers[t]);
    }
    SumZero(db.transfers, MovedAt(v));
  }

  lemma NewWalletKeepsConserved(db: Db, wallet: Wallet, c: string)
    requires Settled(db) && wallet.balance == 0 && Conserved(db, c)
    ensures Conserved(db.(wallets := db.wallets + [wallet]), c)
  {
    var db' := db.(wallets := db.wallets + [wallet]);
    SumAppend(db.wallets, wallet, HeldIn(c));
    var cs, cs' := Currencies(db.wallets), Currencies(db'.wallets);
    forall t | 0 <= t < |db.transfers| ensures InFlightIn(cs, c)(db.transfers[t]) == InFlightIn(cs', c)(db.transfers[t]) {
      assert WellFormed(db, db.transfers[t]);
    }
    SumSame(db.transfers, InFlightIn(cs, c), InFlightIn(cs', c));
    forall i | 0 <= i < |db.transactions| ensures ExternalIn(cs, c)(db.transactions[i]) == ExternalIn(cs', c)(db.transactions[i]) {
      assert Refers(db, db.transactions[i]);
    }
    SumSame(db.transactions, ExternalIn(cs, c), ExternalIn(cs', c));
  }

  lemma NewWalletKeepsSound(db: Db, wallet: Wallet)
    requires Sound(db) && wallet.balance == 0
    ensures Sound(db.(wallets := db.wallets + [wallet]))
  {
    var db' := db.(wallets := db.wallets + [wallet]);
    NewWalletKeepsBalanced(db, wallet);
    NewWalletKeepsClosedForm(db, wallet);
    forall i | 0 <= i < |db'.transactions| ensures Refers(db', db'.transactions[i]) {
      assert Refers(db, db.transactions[i]);
    }
    forall t: TransferId | t < |db'.transfers| ensures SettledOnce(db', t) && WellFormed(db', db'.transfers[t]) {
      assert SettledOnce(db, t) && WellFormed(db, db.transfers[t]);
    }
    forall v: WalletId | v < |db'.wallets| ensures ClosedForm(db', v) {
      if v < |db.wallets| { assert ClosedForm(db, v); }
    }
    forall c: string ensures Conserved(db', c) {
      assert Conserved(db, c);
      NewWalletKeepsConserved(db, wallet, c);
    }
  }

  /** The outbox and the inbox carry no money. */
  lemma SoundIgnoresQueues(db: Db, outbox: seq<OutboxEvent>, inbox: set<MessageId>)
    requires Sound(db)
    ensures Sound(db.(outbox := outbox, inbox := inbox))
  {
    var db' := db.(outbox := outbox, inbox := inbox);
    BooksIgnoreOtherCollections(db, db');
    forall i | 0 <= i < |db'.transactions| ensures Refers(db', db'.transactions[i]) {
      assert Refers(db, db.transactions[i]);
    }
    forall t: TransferId | t < |db'.transfers| ensures SettledOnce(db', t) && WellFormed(db', db'.transfers[t]) {
      assert SettledOnce(db, t) && WellFormed(db, db.transfers[t]);
    }
    forall v: WalletId | v < |db'.wallets| ensures ClosedForm(db', v) {
      assert ClosedForm(db, v);
    }
    forall c: string ensures Conserved(db', c) {
      assert Conserved(db, c);
    }
  }
}
