/** Inbox claims and their expiry, acks and redelivery: none of it moves money over a whole run. */
module Expiry {
  import opened Domain
  import opened Database
  import opened Protocol
  import opened Delivery
  import opened Invariant

  /** The same but for the inbox, the messages' fates and which deliveries returned. */
  ghost predicate Alike(s: Sys, u: Sys) {
    && s.db == u.db.(inbox := s.db.inbox)
    && s.cache == u.cache
    && s.workers == u.workers.(returned := s.workers.returned)
    && |s.messages| == |u.messages|
    && forall m :: 0 <= m < |s.messages| ==> s.messages[m] == u.messages[m].(fate := s.messages[m].fate)
  }

  /** The steps without the expiry of claims and without the acks. */
  function Moving(steps: seq<Step>): seq<Step> {
    if |steps| == 0 then []
    else
      var n := |steps| - 1;
      Moving(steps[..n]) + if steps[n].ExpireInbox? || steps[n].Ack? then [] else [steps[n]]
  }

  /** What a delivery does is decided by the transfer's status: a claim can only stand when there
      is nothing left to do. */
  lemma DeliveryIgnoresClaims(s: Sys, m: MessageId, duplicateReturns: bool)
    requires Inv(s) && Consumable(s, m)
    ensures
      var p := s.messages[m].payload;
      var s' := DoConsume(s, m, duplicateReturns);
      && p.transfer < |s.db.transfers| && p.to < |s.db.wallets|
      && (s.db.transfers[p.transfer].Terminal() ==> Alike(s', s))
      && (!s.db.transfers[p.transfer].Terminal() ==>
            var claimed := s.db.(inbox := s.db.inbox + {m});
            && m !in s.db.inbox
            && s' == Returned(CachePut(s.(db := Completion(claimed, p.transfer, p.to, p.amount)), p.to), m))
  {
    hide Inv;
    MessageFacts(s, m);
  }

  function Completion(db: Db, t: TransferId, to: WalletId, amount: Amount): Db
    requires t < |db.transfers| && to < |db.wallets|
  {
    var completed := db.(transfers := db.transfers[t := db.transfers[t].(status := Completed)]);
    Post(completed, to, TransferIn, amount, None, Some(t), Some(db.transfers[t].from))
  }

  lemma ConsumeAlike(s: Sys, u: Sys, m: MessageId, d: bool)
    requires Inv(s) && Inv(u) && Alike(s, u)
    ensures Alike(DoConsume(s, m, d), DoConsume(u, m, d))
  {
    hide Inv;
    if Consumable(s, m) || Consumable(u, m) {
      RoutedByPayload(s, m);
      RoutedByPayload(u, m);
      DeliveryIgnoresClaims(s, m, d);
      DeliveryIgnoresClaims(u, m, d);
      hide DoConsume;
    }
  }

  lemma RoutedByPayload(s: Sys, m: MessageId)
    requires Inv(s) && m < |s.messages|
    ensures Consumable(s, m) <==> s.messages[m].payload.TransferInitiated?
  {
    assert MessageFaithful(s.db, s.messages[m]);
  }

  lemma TransferAlike(s: Sys, u: Sys, dto: TransferDto, now: Time)
    requires Alike(s, u)
    ensures Alike(DoTransfer(s, dto, now), DoTransfer(u, dto, now))
  {
    hide FindByKey;
  }

  lemma ClientAlike(s: Sys, u: Sys, step: Step)
    requires Alike(s, u) && ClientStep(step)
    ensures Alike(Apply(s, step), Apply(u, step))
  {
    hide DoTransfer;
    if step.ClientTransfer? {
      TransferAlike(s, u, step.dto, step.now);
    }
  }

  lemma FetchAlike(s: Sys, u: Sys, r: nat)
    requires Alike(s, u)
    ensures Alike(DoFetch(s, r), DoFetch(u, r))
  {
    hide FindPending;
  }

  lemma PublishAlike(s: Sys, u: Sys, r: nat, call: Call)
    requires Alike(s, u)
    ensures Alike(DoPublish(s, r, call), DoPublish(u, r, call))
  {
  }

  lemma MarkAlike(s: Sys, u: Sys, r: nat, call: Call)
    requires Alike(s, u)
    ensures Alike(DoMark(s, r, call), DoMark(u, r, call))
  {
  }

  lemma CrashAlike(s: Sys, u: Sys, r: nat)
    requires Alike(s, u)
    ensures Alike(DoCrash(s, r), DoCrash(u, r))
  {
  }

  lemma RelayAlike(s: Sys, u: Sys, step: Step)
    requires Alike(s, u) && RelayOf(step).Some?
    ensures Alike(Apply(s, step), Apply(u, step))
  {
    hide Alike, DoFetch, DoPublish, DoMark, DoCrash;
    match step
    case RelayFetch(r) => FetchAlike(s, u, r);
    case RelayPublish(r, call) => PublishAlike(s, u, r, call);
    case RelayMark(r, call) => MarkAlike(s, u, r, call);
    case RelayCrash(r) => CrashAlike(s, u, r);
  }

  lemma SweepAlike(s: Sys, u: Sys, step: Step)
    requires Alike(s, u) && SweepOf(step).Some?
    ensures Alike(Apply(s, step), Apply(u, step))
  {
    hide ValidPick;
  }

  lemma StepAlike(s: Sys, u: Sys, step: Step)
    requires Inv(s) && Inv(u) && Alike(s, u)
    ensures Alike(Apply(s, step), Apply(u, step))
    ensures step.ExpireInbox? || step.Ack? ==> Alike(Apply(s, step), u)
  {
    hide Inv, DoConsume, Refund;
    if ClientStep(step) {
      ClientAlike(s, u, step);
    } else if RelayOf(step).Some? {
      RelayAlike(s, u, step);
    } else if SweepOf(step).Some? {
      SweepAlike(s, u, step);
    } else if step.Consume? {
      ConsumeAlike(s, u, step.message, step.duplicateReturns);
    }
  }

  lemma {:induction false} RunAlike(steps: seq<Step>)
    ensures Alike(Run(steps), Run(Moving(steps)))
  {
    if |steps| > 0 {
      hide Apply, Alike;
      var n := |steps| - 1;
      var kept := Moving(steps[..n]);
      RunAlike(steps[..n]);
      ReachableHolds(steps[..n]);
      ReachableHolds(kept);
      StepAlike(Run(steps[..n]), Run(kept), steps[n]);
      RunMore(kept, [steps[n]]);
      RunOne(Run(kept), steps[n]);
      assert kept + [] == kept;
    }
  }

  /** Two runs that differ only in when claims expire and when messages are acked have the same
      wallets, transfers, transactions, ledger, outbox and cache, and have published the same. */
  lemma {:induction false} ClaimsDoNotMoveMoney(a: seq<Step>, b: seq<Step>)
    requires Moving(a) == Moving(b)
    ensures
      var s, u := Run(a), Run(b);
      && s.db.wallets == u.db.wallets && s.db.transfers == u.db.transfers
      && s.db.transactions == u.db.transactions && s.db.ledger == u.db.ledger
      && s.db.outbox == u.db.outbox && s.cache == u.cache
      && |s.messages| == |u.messages|
      && forall m :: 0 <= m < |s.messages| ==>
           s.messages[m].event == u.messages[m].event && s.messages[m].payload == u.messages[m].payload
  {
    hide Run;
    RunAlike(a);
    RunAlike(b);
  }
}
