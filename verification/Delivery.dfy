/** The path of a transfer's event from the outbox through the broker to the consumer: what an
    event and a message say, what a claim or an ack implies, and that history only grows. */
module Delivery {
  import opened Domain
  import opened Database
  import opened Protocol

  /** A transfer never changes except that a pending one may become completed or failed. */
  predicate Advances(tr: Transfer, tr': Transfer) {
    || tr' == tr
    || (&& tr.status == Pending && tr'.Terminal()
        && tr' == tr.(status := tr'.status, lastSweptAt := tr'.lastSweptAt))
  }

  /** What no step ever undoes: documents are never deleted, the transaction and ledger
      collections only grow, and wallets, transfers and events keep everything but balance,
      status and publication. */
  ghost predicate History(db: Db, db': Db) {
    && |db.wallets| <= |db'.wallets|
    && (forall w :: 0 <= w < |db.wallets| ==> db'.wallets[w] == db.wallets[w].(balance := db'.wallets[w].balance))
    && |db.transfers| <= |db'.transfers|
    && (forall t :: 0 <= t < |db.transfers| ==> Advances(db.transfers[t], db'.transfers[t]))
    && db.transactions <= db'.transactions
    && db.ledger <= db'.ledger
    && |db.outbox| <= |db'.outbox|
    && (forall e :: 0 <= e < |db.outbox| ==>
          db'.outbox[e].payload == db.outbox[e].payload && (db.outbox[e].published ==> db'.outbox[e].published))
  }

  lemma HistoryTransitive(a: Db, b: Db, c: Db)
    requires History(a, b) && History(b, c)
    ensures History(a, c)
  {
  }

  /** A transfer event names an existing transfer and carries its wallets and amount. */
  predicate Faithful(db: Db, p: Payload) {
    p.TransferInitiated? ==>
      && p.transfer < |db.transfers|
      && var tr := db.transfers[p.transfer];
      p.from == tr.from && p.to == tr.to && p.amount == tr.amount
  }

  /** The transfers announced in the outbox, in order. */
  function Announced(outbox: seq<OutboxEvent>): seq<TransferId> {
    if |outbox| == 0 then []
    else
      var p := outbox[|outbox| - 1].payload;
      Announced(outbox[..|outbox| - 1]) + if p.TransferInitiated? then [p.transfer] else []
  }

  /** Every transfer has exactly one event, in the order of creation, and every event is faithful. */
  ghost predicate AllFaithful(db: Db) {
    && (forall e :: 0 <= e < |db.outbox| ==> Faithful(db, db.outbox[e].payload))
    && |Announced(db.outbox)| == |db.transfers|
    && (forall t :: 0 <= t < |db.transfers| ==> Announced(db.outbox)[t] == t)
  }

  lemma {:induction false} AnnouncedSame(a: seq<OutboxEvent>, b: seq<OutboxEvent>)
    requires |a| == |b|
    requires forall e :: 0 <= e < |a| ==> a[e].payload == b[e].payload
    ensures Announced(a) == Announced(b)
  {
    if |a| > 0 {
      AnnouncedSame(a[..|a| - 1], b[..|b| - 1]);
    }
  }

  lemma {:induction false} AnnouncedSource(outbox: seq<OutboxEvent>, i: nat) returns (e: EventId)
    requires i < |Announced(outbox)|
    ensures e < |outbox| && outbox[e].payload.TransferInitiated? && outbox[e].payload.transfer == Announced(outbox)[i]
  {
    var n := |outbox| - 1;
    if i < |Announced(outbox[..n])| {
      e := AnnouncedSource(outbox[..n], i);
    } else {
      e := n;
    }
  }

  /** The event that announced transfer `t`. */
  lemma EventOf(db: Db, t: TransferId) returns (e: EventId)
    requires AllFaithful(db) && t < |db.transfers|
    ensures e < |db.outbox| && db.outbox[e].payload.TransferInitiated? && db.outbox[e].payload.transfer == t
  {
    e := AnnouncedSource(db.outbox, t);
  }

  lemma HistoryKeepsFaithful(db: Db, db': Db, p: Payload)
    requires History(db, db') && Faithful(db, p)
    ensures Faithful(db', p)
  {
  }

  /** An operation that grows the history, announces each transfer it creates and nothing else,
      keeps fidelity. */
  lemma EnqueueKeepsFaithful(db: Db, db': Db, p: Payload)
    requires AllFaithful(db) && History(db, db') && db'.outbox == db.outbox + [OutboxEvent(p, false)]
    requires Faithful(db', p)
    requires |db'.transfers| == |db.transfers| + (if p.TransferInitiated? then 1 else 0)
    requires p.TransferInitiated? ==> p.transfer == |db.transfers|
    ensures AllFaithful(db')
  {
  }

  lemma QuietKeepsFaithful(db: Db, db': Db)
    requires AllFaithful(db) && History(db, db') && |db'.outbox| == |db.outbox| && |db'.transfers| == |db.transfers|
    ensures AllFaithful(db')
  {
    AnnouncedSame(db.outbox, db'.outbox);
    forall e | 0 <= e < |db'.outbox| ensures Faithful(db', db'.outbox[e].payload) {
      HistoryKeepsFaithful(db, db', db.outbox[e].payload);
    }
  }

  predicate MessageFaithful(db: Db, msg: Message) {
    && msg.event < |db.outbox|
    && msg.payload == db.outbox[msg.event].payload
    && (msg.fate.Unrouted? <==> !msg.payload.TransferInitiated?)
    && !msg.fate.DeadLettered?
  }

  /** Message `m` is about a transfer that has been settled. */
  predicate Done(db: Db, messages: seq<Message>, m: MessageId) {
    && m < |messages|
    && messages[m].payload.TransferInitiated?
    && messages[m].payload.transfer < |db.transfers|
    && db.transfers[messages[m].payload.transfer].Terminal()
  }

  ghost predicate Sent(messages: seq<Message>, e: EventId) {
    exists m :: 0 <= m < |messages| && messages[m].event == e
  }

  ghost predicate RunValid(db: Db, messages: seq<Message>, run: RelayRun) {
    && run.pos < |run.batch|
    && (forall j :: 0 <= j < |run.batch| ==> run.batch[j] < |db.outbox|)
    && (run.sent ==> Sent(messages, run.batch[run.pos]))
  }

  /** A sweep that has met no error has left every transfer it tried settled. */
  ghost predicate SweepValid(db: Db, run: SweepRun) {
    && run.pos <= |run.picked|
    && (forall j :: 0 <= j < |run.picked| ==> run.picked[j] < |db.transfers|)
    && (run.errors == 0 ==> forall j :: 0 <= j < run.pos ==> db.transfers[run.picked[j]].Terminal())
  }

  ghost predicate Delivered(db: Db, messages: seq<Message>, workers: Workers) {
    && (forall m :: 0 <= m < |messages| ==> MessageFaithful(db, messages[m]))
    && (forall m: MessageId :: m in db.inbox ==> Done(db, messages, m))
    && (forall m: MessageId :: m in workers.returned ==> Done(db, messages, m))
    && (forall m: MessageId :: m < |messages| && messages[m].fate.Acked? ==> Done(db, messages, m))
    && (forall e: EventId :: e < |db.outbox| && db.outbox[e].published ==> Sent(messages, e))
    && (forall r: nat :: r in workers.relays ==> RunValid(db, messages, workers.relays[r]))
    && (forall k: nat :: k in workers.sweeps ==> SweepValid(db, workers.sweeps[k]))
  }

  ghost predicate NothingPublished(db: Db, db': Db) {
    forall e :: 0 <= e < |db'.outbox| && db'.outbox[e].published ==> e < |db.outbox| && db.outbox[e].published
  }

  lemma HistoryKeepsSweep(db: Db, db': Db, run: SweepRun)
    requires History(db, db') && SweepValid(db, run)
    ensures SweepValid(db', run)
  {
  }

  /** A commit that publishes no event and claims only messages whose transfers it leaves settled. */
  lemma CommitKeepsDelivered(db: Db, db': Db, messages: seq<Message>, workers: Workers)
    requires Delivered(db, messages, workers) && History(db, db') && NothingPublished(db, db')
    requires forall m: MessageId :: m in db'.inbox ==> m in db.inbox || Done(db', messages, m)
    ensures Delivered(db', messages, workers)
  {
  }

  lemma SendKeepsDelivered(s: Sys, e: EventId)
    requires Delivered(s.db, s.messages, s.workers) && e < |s.db.outbox|
    ensures Delivered(s.db, Send(s, e).messages, s.workers) && Sent(Send(s, e).messages, e)
  {
    var messages' := Send(s, e).messages;
    OnlyTransferEventsAreRouted(s.db.outbox[e].payload);
    forall d: EventId | Sent(s.messages, d) ensures Sent(messages', d) {
      var m :| 0 <= m < |s.messages| && s.messages[m].event == d;
      assert messages'[m].event == d;
    }
    assert messages'[|s.messages|].event == e;
    forall m: MessageId | Done(s.db, s.messages, m) ensures Done(s.db, messages', m) {
    }
    forall m | 0 <= m < |messages'| ensures MessageFaithful(s.db, messages'[m]) {
      if m < |s.messages| { assert MessageFaithful(s.db, s.messages[m]); }
    }
    forall r: nat | r in s.workers.relays ensures RunValid(s.db, messages', s.workers.relays[r]) {
      assert RunValid(s.db, s.messages, s.workers.relays[r]);
    }
  }

  /** Marking an event that has been sent. */
  lemma MarkKeepsDelivered(db: Db, messages: seq<Message>, workers: Workers, e: EventId)
    requires Delivered(db, messages, workers) && Sent(messages, e) && e < |db.outbox|
    ensures History(db, MarkPublished(db, e))
    ensures Delivered(MarkPublished(db, e), messages, workers)
  {
  }

  lemma AckKeepsDelivered(s: Sys, m: MessageId)
    requires Delivered(s.db, s.messages, s.workers) && m < |s.messages| && m in s.workers.returned
    ensures Delivered(s.db, SetFate(s, m, Acked).messages, s.workers)
  {
    var messages' := SetFate(s, m, Acked).messages;
    assert Done(s.db, s.messages, m);
    forall d: EventId | Sent(s.messages, d) ensures Sent(messages', d) {
      var i :| 0 <= i < |s.messages| && s.messages[i].event == d;
      assert messages'[i].event == d;
    }
    forall i: MessageId | Done(s.db, s.messages, i) ensures Done(s.db, messages', i) {
    }
    forall i | 0 <= i < |messages'| ensures MessageFaithful(s.db, messages'[i]) {
      assert MessageFaithful(s.db, s.messages[i]) && MessageFaithful(s.db, s.messages[m]);
    }
    forall r: nat | r in s.workers.relays ensures RunValid(s.db, messages', s.workers.relays[r]) {
      assert RunValid(s.db, s.messages, s.workers.relays[r]);
    }
  }
}
