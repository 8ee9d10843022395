/** One delivery as the consumer handles it: the closure, and the ack, requeue or dead-letter that
    follows. */
module Handling {
  import opened Domain
  import opened Database
  import opened Protocol
  import opened Interference
  import opened Delivery
  import opened Invariant

  /** The closure of this delivery returns, so that the handler goes on to ack. */
  predicate Returns(s: Sys, m: MessageId, duplicateReturns: bool)
    requires Consumable(s, m)
  {
    var p := s.messages[m].payload;
    var outcome := CompleteTransfer(s.db, m, p.transfer, p.to, p.amount).1;
    !outcome.WalletMissing? && (!outcome.DuplicateClaim? || duplicateReturns)
  }

  /** One delivery: nothing if the session fails before it commits; otherwise the closure, and the
      ack if it returns. */
  function HandlingSteps(s: Sys, m: MessageId, call: Call, duplicateReturns: bool, others: seq<Step>): seq<Step>
    requires Consumable(s, m)
  {
    if call.FailedBefore? then []
    else
      [Consume(m, duplicateReturns)]
      + if call.Confirmed? && Returns(s, m, duplicateReturns) then others + [Ack(m)] else []
  }

  lemma HandlingRuns(s: Sys, m: MessageId, call: Call, duplicateReturns: bool, others: seq<Step>)
    requires Consumable(s, m) && !call.FailedBefore?
    ensures
      var s1 := DoConsume(s, m, duplicateReturns);
      var s2 := RunFrom(s1, others);
      && RunFrom(s, HandlingSteps(s, m, call, duplicateReturns, others)) ==
           (if call.Confirmed? && Returns(s, m, duplicateReturns) then SetAcked(s2, m) else s1)
      && (Returns(s, m, duplicateReturns) ==> m < |s2.messages|)
  {
    var s1 := DoConsume(s, m, duplicateReturns);
    assert Apply(s, Consume(m, duplicateReturns)) == s1;
    if Returns(s, m, duplicateReturns) {
      ReturnedAfter(s, m, duplicateReturns);
    }
    hide Apply, RunFrom, DoConsume, Returns;
    RunGrows(s1, others);
    if call.Confirmed? && Returns(s, m, duplicateReturns) {
      RunFirst(s, Consume(m, duplicateReturns), others + [Ack(m)]);
      RunConcat(s1, others, [Ack(m)]);
      AckRuns(RunFrom(s1, others), m);
    } else {
      RunOne(s, Consume(m, duplicateReturns));
    }
  }

  lemma ReturnedAfter(s: Sys, m: MessageId, duplicateReturns: bool)
    requires Consumable(s, m) && Returns(s, m, duplicateReturns)
    ensures
      var s1 := DoConsume(s, m, duplicateReturns);
      m in s1.workers.returned && m < |s1.messages|
  {
  }

  function SetAcked(s: Sys, m: MessageId): Sys {
    if m < |s.messages| then SetFate(s, m, Acked) else s
  }

  lemma AckRuns(s: Sys, m: MessageId)
    requires m in s.workers.returned
    ensures RunFrom(s, [Ack(m)]) == SetAcked(s, m)
  {
    assert Apply(s, Ack(m)) == SetAcked(s, m);
    hide Apply;
    RunOne(s, Ack(m));
  }

  /** The transfer that message `m` announces is completed or failed. */
  predicate AnnouncesSettled(s: Sys, m: MessageId) {
    && m < |s.messages| && s.messages[m].payload.TransferInitiated?
    && s.messages[m].payload.transfer < |s.db.transfers|
    && s.db.transfers[s.messages[m].payload.transfer].status != Pending
  }

  /** What handling a delivery must come to. The message is acked exactly when the session ends well
      and the message was not claimed before, or was and that lets the session end well. Then, and
      also when the commit took effect unnoticed, the transfer is settled. A failed session, and a
      duplicate that is requeued, change nothing. */
  ghost predicate Handled(s: Sys, s': Sys, m: MessageId, call: Call, duplicateReturns: bool) {
    var claimed := m in s.db.inbox;
    && (call.FailedBefore? ==> s' == s)
    && (call.FailedAfter? ==> s'.messages == s.messages && AnnouncesSettled(s', m))
    && (call.Confirmed? && (!claimed || duplicateReturns) ==> AnnouncesSettled(s', m) && s'.messages[m].fate == Acked)
    && (call.Confirmed? && claimed && !duplicateReturns ==> s' == s)
  }

  /** The closure's own effect on a message that announces a transfer. */
  lemma ClosureSettles(s: Sys, m: MessageId, duplicateReturns: bool)
    requires Inv(s) && m < |s.messages| && s.messages[m].payload.TransferInitiated?
    ensures Consumable(s, m)
    ensures Returns(s, m, duplicateReturns) <==> m !in s.db.inbox || duplicateReturns
    ensures DoConsume(s, m, duplicateReturns).messages == s.messages
    ensures AnnouncesSettled(DoConsume(s, m, duplicateReturns), m)
    ensures !Returns(s, m, duplicateReturns) ==> DoConsume(s, m, duplicateReturns) == s
  {
    assert MessageFaithful(s.db, s.messages[m]);
    hide Inv;
    MessageFacts(s, m);
  }

  lemma OthersKeepSettled(s: Sys, others: seq<Step>, m: MessageId)
    requires AnnouncesSettled(s, m)
    ensures AnnouncesSettled(RunFrom(s, others), m)
  {
    hide RunFrom;
    RunGrows(s, others);
  }

  /** Handling a delivery, whatever other actors do before its ack. */
  lemma HandlingIsRight(s: Sys, m: MessageId, call: Call, duplicateReturns: bool, others: seq<Step>)
    requires Inv(s) && m < |s.messages| && s.messages[m].payload.TransferInitiated?
    ensures Consumable(s, m)
    ensures Handled(s, RunFrom(s, HandlingSteps(s, m, call, duplicateReturns, others)), m, call, duplicateReturns)
  {
    ClosureSettles(s, m, duplicateReturns);
    if call.FailedBefore? {
      RunNone(s);
    } else {
      OthersKeepSettled(DoConsume(s, m, duplicateReturns), others, m);
      hide Inv, Apply, RunFrom, DoConsume, Returns, HandlingSteps;
      HandlingRuns(s, m, call, duplicateReturns, others);
    }
  }

  /** A duplicate that keeps being requeued is acked once its claim has expired, and the transfer
      does not change. */
  lemma ExpiredClaimIsAcked(s: Sys, m: MessageId, duplicateReturns: bool)
    requires Inv(s) && m in s.db.inbox
    ensures
      var s1 := Apply(s, ExpireInbox({m}));
      && Consumable(s1, m)
      && var s2 := RunFrom(s1, HandlingSteps(s1, m, Confirmed, duplicateReturns, []));
      && m < |s2.messages| && s2.messages[m].fate == Acked
      && s2.db.transfers == s.db.transfers && s2.db.wallets == s.db.wallets
  {
    assert Done(s.db, s.messages, m);
    var s1 := Apply(s, ExpireInbox({m}));
    ExpireInboxKeeps(s, {m});
    HandlingIsRight(s1, m, Confirmed, duplicateReturns, []);
    hide Inv;
    HandlingRuns(s1, m, Confirmed, duplicateReturns, []);
    RunNone(DoConsume(s1, m, duplicateReturns));
  }

  /** Events that name documents which do not exist, on any store: a missing transfer is skipped and
      acked, a missing receiver rolls back and dead-letters the message. */
  lemma BrokenEvents(s: Sys, m: MessageId, duplicateReturns: bool)
    requires Consumable(s, m) && m !in s.db.inbox
    ensures
      var p := s.messages[m].payload;
      var s' := RunFrom(s, HandlingSteps(s, m, Confirmed, duplicateReturns, []));
      && (|s.db.transfers| <= p.transfer ==>
            && s'.db == s.db.(inbox := s.db.inbox + {m})
            && s'.messages == s.messages[m := s.messages[m].(fate := Acked)])
      && (p.transfer < |s.db.transfers| && s.db.transfers[p.transfer].status == Pending && |s.db.wallets| <= p.to ==>
            && s'.db == s.db
            && s'.messages == s.messages[m := s.messages[m].(fate := DeadLettered)])
  {
    HandlingRuns(s, m, Confirmed, duplicateReturns, []);
    RunNone(DoConsume(s, m, duplicateReturns));
    hide RunFrom, HandlingSteps;
  }
}
