/** Why a transfer ended as it did: what the timeout sweeper may fail and what a refund is, and that
    only a delivery of its own event completes a transfer. */
module Outcomes {
  import opened Domain
  import opened Database
  import opened Protocol
  import opened Delivery
  import opened Invariant
  import opened SweepProgress

  /** Still pending, and older than the cutoff. */
  predicate Overdue(tr: Transfer, cutoff: Time) {
    tr.status == Pending && tr.createdAt < cutoff
  }

  /** In this run, step `i` started a sweep that listed transfer `t`, which was overdue then. */
  ghost predicate FetchedAt(steps: seq<Step>, i: nat, t: TransferId)
    requires i < |steps|
  {
    && steps[i].SweepFetch?
    && t in steps[i].picked
    && steps[i].sweep !in Run(steps[..i]).workers.sweeps
    && steps[i].sweep in Run(steps[..i + 1]).workers.sweeps
    && t < |Run(steps[..i]).db.transfers|
    && Overdue(Run(steps[..i]).db.transfers[t], steps[i].cutoff)
  }

  lemma FetchedEarlier(steps: seq<Step>, n: nat, i: nat, t: TransferId)
    requires i < n <= |steps| && FetchedAt(steps[..n], i, t)
    ensures FetchedAt(steps, i, t)
  {
    assert steps[..n][..i] == steps[..i] && steps[..n][..i + 1] == steps[..i + 1];
  }

  /** A sweep's list is the one its fetch returned. */
  lemma ListsComeFromFetches(s: Sys, step: Step, k: nat, t: TransferId)
    requires k in Apply(s, step).workers.sweeps && t in Apply(s, step).workers.sweeps[k].picked
    ensures
      || (k in s.workers.sweeps && t in s.workers.sweeps[k].picked)
      || (&& step.SweepFetch? && step.sweep == k && k !in s.workers.sweeps && t in step.picked
          && t < |s.db.transfers| && Overdue(s.db.transfers[t], step.cutoff))
  {
    hide FindByKey, FindPending, Post;
  }

  /** Nothing but a sweep's item, whose commit took effect, makes a transfer fail. */
  lemma OnlySweepsFail(s: Sys, step: Step, t: TransferId)
    requires t < |Apply(s, step).db.transfers| && Apply(s, step).db.transfers[t].status == Failed
    requires t >= |s.db.transfers| || s.db.transfers[t].status != Failed
    ensures step.SweepItem? && !step.commit.FailedBefore? && step.sweep in s.workers.sweeps
    ensures t in s.workers.sweeps[step.sweep].picked
  {
    hide FindByKey, FindPending, ValidPick;
  }

  lemma {:induction false} ListedWasFetched(steps: seq<Step>, k: nat, t: TransferId) returns (i: nat)
    requires k in Run(steps).workers.sweeps && t in Run(steps).workers.sweeps[k].picked
    ensures i < |steps| && FetchedAt(steps, i, t) && steps[i].sweep == k
  {
    var n := |steps| - 1;
    var before := Run(steps[..n]);
    assert Run(steps) == Apply(before, steps[n]);
    ListsComeFromFetches(before, steps[n], k, t);
    hide Apply, Run;
    if k in before.workers.sweeps && t in before.workers.sweeps[k].picked {
      i := ListedWasFetched(steps[..n], k, t);
      FetchedEarlier(steps, n, i, t);
    } else {
      i := n;
      assert steps[..n + 1] == steps;
    }
  }

  /** A failed transfer was listed, pending and older than the cutoff, by a sweep that started
      earlier in the run, and that sweep's item failed it. */
  lemma {:induction false} FailedWasStale(steps: seq<Step>, t: TransferId) returns (i: nat, j: nat)
    requires t < |Run(steps).db.transfers| && Run(steps).db.transfers[t].status == Failed
    ensures i < j < |steps| && FetchedAt(steps, i, t)
    ensures steps[j].SweepItem? && steps[j].sweep == steps[i].sweep && !steps[j].commit.FailedBefore?
    ensures Run(steps).db.transfers[t].createdAt < steps[i].cutoff
  {
    var n := |steps| - 1;
    var before := Run(steps[..n]);
    assert Run(steps) == Apply(before, steps[n]);
    hide Run;
    if t < |before.db.transfers| && before.db.transfers[t].status == Failed {
      hide Apply;
      i, j := FailedWasStale(steps[..n], t);
      FetchedEarlier(steps, n, i, t);
    } else {
      OnlySweepsFail(before, steps[n], t);
      hide Apply;
      i := ListedWasFetched(steps[..n], steps[n].sweep, t);
      j := n;
      FetchedEarlier(steps, n, i, t);
    }
    CreationTimeStays(steps, i, t);
  }

  lemma CreationTimeStays(steps: seq<Step>, i: nat, t: TransferId)
    requires i <= |steps| && t < |Run(steps[..i]).db.transfers|
    ensures t < |Run(steps).db.transfers|
    ensures Run(steps).db.transfers[t].createdAt == Run(steps[..i]).db.transfers[t].createdAt
  {
    hide Run, Inv;
    ReachableHolds(steps[..i]);
    RunKeeps(Run(steps[..i]), steps[i..]);
    RunMore(steps[..i], steps[i..]);
    assert steps[..i] + steps[i..] == steps;
    assert Advances(Run(steps[..i]).db.transfers[t], Run(steps).db.transfers[t]);
  }

  /** A transfer that is not older than any cutoff used never times out. */
  lemma YoungTransfersNeverFail(steps: seq<Step>, t: TransferId)
    requires t < |Run(steps).db.transfers|
    requires forall i :: 0 <= i < |steps| && steps[i].SweepFetch? ==> steps[i].cutoff <= Run(steps).db.transfers[t].createdAt
    ensures Run(steps).db.transfers[t].status != Failed
  {
    if Run(steps).db.transfers[t].status == Failed {
      var i, j := FailedWasStale(steps, t);
    }
  }

  lemma OnlyDeliveriesComplete(s: Sys, step: Step, t: TransferId)
    requires t < |Apply(s, step).db.transfers| && Apply(s, step).db.transfers[t].status == Completed
    requires t >= |s.db.transfers| || s.db.transfers[t].status != Completed
    ensures step.Consume? && step.message < |s.messages|
    ensures s.messages[step.message].payload.TransferInitiated? && s.messages[step.message].payload.transfer == t
  {
    hide FindByKey, FindPending, ValidPick;
  }

  /** A completed transfer was completed by a delivery of a message that announced it. */
  lemma {:induction false} CompletedWasDelivered(steps: seq<Step>, t: TransferId) returns (i: nat)
    requires t < |Run(steps).db.transfers| && Run(steps).db.transfers[t].status == Completed
    ensures i < |steps| && steps[i].Consume? && steps[i].message < |Run(steps[..i]).messages|
    ensures
      var p := Run(steps[..i]).messages[steps[i].message].payload;
      p.TransferInitiated? && p.transfer == t
  {
    var n := |steps| - 1;
    var before := Run(steps[..n]);
    assert Run(steps) == Apply(before, steps[n]);
    hide Run;
    if t < |before.db.transfers| && before.db.transfers[t].status == Completed {
      hide Apply;
      i := CompletedWasDelivered(steps[..n], t);
      assert steps[..n][..i] == steps[..i];
    } else {
      OnlyDeliveriesComplete(before, steps[n], t);
      i := n;
    }
  }

  /** In every reachable state the stale query answers with distinct pending transfers older than
      the cutoff, and leaves one out only when it lists a hundred. */
  lemma QueryAnswers(steps: seq<Step>, cutoff: Time, picked: seq<TransferId>)
    ensures
      var transfers := Run(steps).db.transfers;
      ValidPick(transfers, cutoff, picked) <==>
        && |picked| <= 100
        && (forall i, j :: 0 <= i < j < |picked| ==> picked[i] != picked[j])
        && (forall i :: 0 <= i < |picked| ==> picked[i] < |transfers| && Overdue(transfers[picked[i]], cutoff))
        && (|picked| == 100 || forall t: TransferId :: t < |transfers| && Overdue(transfers[t], cutoff) ==> t in picked)
  {
    hide Run;
    var transfers := Run(steps).db.transfers;
    forall t: TransferId | t < |transfers|
      ensures IsStale(transfers[t], cutoff) <==> Overdue(transfers[t], cutoff)
    {
      StaleByAge(steps, t, cutoff);
    }
    hide IsStale, Overdue;
  }

  /** The query always has an answer. */
  lemma {:induction false} AnswerExists(transfers: seq<Transfer>, cutoff: Time) returns (picked: seq<TransferId>)
    ensures ValidPick(transfers, cutoff, picked)
  {
    picked := [];
    if |transfers| > 0 {
      var n := |transfers| - 1;
      picked := AnswerExists(transfers[..n], cutoff);
      if IsStale(transfers[n], cutoff) && |picked| < SWEEP_BATCH {
        picked := picked + [n];
      }
    }
  }

  /** A refund, on any store: a pending transfer fails and its sender, if there is one, gets the
      amount back in one posting; a settled or unknown transfer is left alone. */
  lemma RefundPaysBack(db: Db, t: TransferId, now: Time)
    ensures
      var db' := Refund(db, t, now);
      && (|db.transfers| <= t || db.transfers[t].status != Pending ==> db' == db)
      && (t < |db.transfers| && db.transfers[t].status == Pending ==>
            var tr := db.transfers[t];
            && db'.transfers == db.transfers[t := Transfer(tr.from, tr.to, tr.amount, Failed, tr.key, tr.createdAt, Some(now))]
            && db'.outbox == db.outbox && db'.inbox == db.inbox
            && (|db.wallets| <= tr.from ==> db' == db.(transfers := db'.transfers))
            && (tr.from < |db.wallets| ==>
                  var balance := db.wallets[tr.from].balance + tr.amount;
                  && db'.wallets == db.wallets[tr.from := db.wallets[tr.from].(balance := balance)]
                  && db'.transactions == db.transactions
                       + [Transaction(tr.from, TransferIn, tr.amount, balance, Some(RefundOf(t)), Some(t), None)]
                  && db'.ledger == db.ledger + [LedgerEntry(|db.transactions|, tr.from, Credit, tr.amount, balance)]))
  {
  }
}
