/** How long an event can wait for publication, with any number of relay instances, failures and
    crashes: the runs that one instance finishes bound it. */
module RelayDelay {
  import opened Domain
  import opened Database
  import opened Protocol
  import opened Interference
  import opened Delivery
  import opened Invariant
  import opened Progress

  /** Published events stay published and the outbox only grows. */
  ghost predicate OutboxGrows(outbox: seq<OutboxEvent>, outbox': seq<OutboxEvent>) {
    && |outbox| <= |outbox'|
    && forall e :: 0 <= e < |outbox| && outbox[e].published ==> outbox'[e].published
  }

  lemma {:induction false} PendingShrinks(outbox: seq<OutboxEvent>, outbox': seq<OutboxEvent>, i: nat, j: nat)
    requires j <= |outbox| && OutboxGrows(outbox, outbox')
    ensures PendingBetween(outbox', i, j) <= PendingBetween(outbox, i, j)
    decreases j - i
  {
    if i < j {
      PendingShrinks(outbox, outbox', i + 1, j);
    }
  }

  /** The outbox once the whole batch has been marked. */
  function Marked(outbox: seq<OutboxEvent>, batch: seq<EventId>): seq<OutboxEvent> {
    seq(|outbox|, e requires 0 <= e < |outbox| => outbox[e].(published := outbox[e].published || e in batch))
  }

  ghost predicate BatchDone(outbox: seq<OutboxEvent>, batch: seq<EventId>, n: nat)
    requires n <= |batch|
  {
    forall j :: 0 <= j < n ==> batch[j] < |outbox| && outbox[batch[j]].published
  }

  /** Working through the batch publishes event `i`, or leaves at most `left` pending events before it. */
  ghost predicate Covers(outbox: seq<OutboxEvent>, batch: seq<EventId>, i: EventId, left: int)
    requires i < |outbox|
  {
    i in batch || PendingBetween(Marked(outbox, batch), 0, i) <= left
  }

  lemma FindPendingCovers(outbox: seq<OutboxEvent>, i: EventId)
    requires i < |outbox| && !outbox[i].published
    ensures Covers(outbox, FindPending(outbox), i, PendingBetween(outbox, 0, i) - RELAY_BATCH)
  {
    BatchMembers(outbox, 0, RELAY_BATCH, i);
    MarkingDrains(outbox, Marked(outbox, FindPending(outbox)), 0, RELAY_BATCH, i);
  }

  lemma CoversGrows(outbox: seq<OutboxEvent>, outbox': seq<OutboxEvent>, batch: seq<EventId>, i: EventId, left: int)
    requires i < |outbox| && Covers(outbox, batch, i, left) && OutboxGrows(outbox, outbox')
    ensures Covers(outbox', batch, i, left)
  {
    PendingShrinks(Marked(outbox, batch), Marked(outbox', batch), 0, i);
  }

  /** Once the batch is done, what it covers has come true. */
  lemma CoveredWhenDone(outbox: seq<OutboxEvent>, batch: seq<EventId>, i: EventId, left: int)
    requires i < |outbox| && Covers(outbox, batch, i, left) && BatchDone(outbox, batch, |batch|)
    ensures outbox[i].published || PendingBetween(outbox, 0, i) <= left
  {
    if i !in batch {
      PendingShrinks(Marked(outbox, batch), outbox, 0, i);
    }
  }

  /** At the start `older` pending events are before event `i`. The first `finished` runs that
      instance `q` finishes do not count; each later one publishes 50 of the older events. */
  datatype Wait = Wait(q: nat, i: EventId, older: nat, finished: nat)

  /** What the runs counted so far leave before event `i`. */
  function Left(s: Sys, w: Wait): int {
    var n := FinishedRuns(s.workers, w.q) - w.finished;
    if n < 0 then w.older else w.older - RELAY_BATCH * n
  }

  /** The instance's run in hand, if it counts, will have published 50 more once it finishes. */
  ghost predicate RunInHandCovers(s: Sys, w: Wait)
    requires w.i < |s.db.outbox|
  {
    w.q in s.workers.relays && w.finished <= FinishedRuns(s.workers, w.q) ==>
      var run := s.workers.relays[w.q];
      && run.pos < |run.batch|
      && BatchDone(s.db.outbox, run.batch, run.pos)
      && Covers(s.db.outbox, run.batch, w.i, Left(s, w) - RELAY_BATCH)
  }

  ghost predicate Paced(s: Sys, w: Wait) {
    && w.i < |s.db.outbox|
    && (|| s.db.outbox[w.i].published
        || (PendingBetween(s.db.outbox, 0, w.i) <= Left(s, w) && RunInHandCovers(s, w)))
  }

  /** Steps that leave instance `q`'s run and count alone. */
  lemma GrowthKeepsPaced(s: Sys, s': Sys, w: Wait)
    requires Paced(s, w) && OutboxGrows(s.db.outbox, s'.db.outbox)
    requires FinishedRuns(s'.workers, w.q) == FinishedRuns(s.workers, w.q)
    requires w.q in s'.workers.relays ==>
      w.q in s.workers.relays && s'.workers.relays[w.q].(sent := false) == s.workers.relays[w.q].(sent := false)
    ensures Paced(s', w)
  {
    hide FinishedRuns, Marked, Covers;
    if !s.db.outbox[w.i].published {
      PendingShrinks(s.db.outbox, s'.db.outbox, 0, w.i);
      if w.q in s'.workers.relays && w.finished <= FinishedRuns(s.workers, w.q) {
        CoversGrows(s.db.outbox, s'.db.outbox, s.workers.relays[w.q].batch, w.i, Left(s, w) - RELAY_BATCH);
      }
    }
  }

  /** A run of instance `q` works through its batch. */
  lemma FinishKeepsPaced(s: Sys, s': Sys, w: Wait, batch: seq<EventId>)
    requires Paced(s, w) && OutboxGrows(s.db.outbox, s'.db.outbox)
    requires s'.workers == EndRun(s, w.q, true).workers
    requires
      || s.db.outbox[w.i].published || FinishedRuns(s.workers, w.q) < w.finished
      || (BatchDone(s'.db.outbox, batch, |batch|) && Covers(s.db.outbox, batch, w.i, Left(s, w) - RELAY_BATCH))
    ensures Paced(s', w)
  {
    hide Marked, Covers, BatchDone;
    PendingShrinks(s.db.outbox, s'.db.outbox, 0, w.i);
    if !s.db.outbox[w.i].published && w.finished <= FinishedRuns(s.workers, w.q) {
      CoversGrows(s.db.outbox, s'.db.outbox, batch, w.i, Left(s, w) - RELAY_BATCH);
      CoveredWhenDone(s'.db.outbox, batch, w.i, Left(s, w) - RELAY_BATCH);
    }
  }

  lemma FetchKeepsPaced(s: Sys, w: Wait)
    requires Paced(s, w)
    ensures Paced(DoFetch(s, w.q), w)
  {
    hide PendingFrom, PendingBetween, Marked;
    if w.q !in s.workers.relays {
      var batch := FindPending(s.db.outbox);
      if !s.db.outbox[w.i].published {
        FindPendingCovers(s.db.outbox, w.i);
      }
      if batch == [] {
        FinishKeepsPaced(s, DoFetch(s, w.q), w, batch);
      }
    }
  }

  lemma PublishKeepsPaced(s: Sys, w: Wait, call: Call)
    requires Paced(s, w)
    ensures Paced(DoPublish(s, w.q, call), w)
  {
    hide Paced, PendingBetween;
    GrowthKeepsPaced(s, DoPublish(s, w.q, call), w);
  }

  lemma MarkKeepsPaced(s: Sys, w: Wait, call: Call)
    requires Paced(s, w)
    ensures Paced(DoMark(s, w.q, call), w)
  {
    hide PendingBetween, Marked, Covers;
    var s' := DoMark(s, w.q, call);
    if CanMark(s, w.q) && call.Confirmed? {
      var run := s.workers.relays[w.q];
      if run.pos + 1 == |run.batch| {
        FinishKeepsPaced(s, s', w, run.batch);
      } else {
        GrowthKeepsPaced(s, s'.(workers := s.workers), w);
      }
    } else {
      GrowthKeepsPaced(s, s', w);
    }
  }

  lemma CrashKeepsPaced(s: Sys, w: Wait)
    requires Paced(s, w)
    ensures Paced(DoCrash(s, w.q), w)
  {
    hide Paced, PendingBetween;
    GrowthKeepsPaced(s, DoCrash(s, w.q), w);
  }

  lemma StepKeepsPaced(s: Sys, step: Step, w: Wait)
    requires Inv(s) && Paced(s, w)
    ensures Paced(Apply(s, step), w)
  {
    hide Inv, Paced, DoFetch, DoPublish, DoMark, DoCrash;
    if RelayOf(step) != Some(w.q) {
      hide Apply;
      StepKeeps(s, step);
      OthersLeaveRunAlone(s, step, w.q);
      GrowthKeepsPaced(s, Apply(s, step), w);
    } else {
      match step
      case RelayFetch(_) =>
        FetchKeepsPaced(s, w);
        assert Apply(s, step) == DoFetch(s, w.q);
      case RelayPublish(_, call) =>
        PublishKeepsPaced(s, w, call);
        assert Apply(s, step) == DoPublish(s, w.q, call);
      case RelayMark(_, call) =>
        MarkKeepsPaced(s, w, call);
        assert Apply(s, step) == DoMark(s, w.q, call);
      case RelayCrash(_) =>
        CrashKeepsPaced(s, w);
        assert Apply(s, step) == DoCrash(s, w.q);
    }
  }

  lemma {:induction false} RunKeepsPaced(s: Sys, steps: seq<Step>, w: Wait)
    requires Inv(s) && Paced(s, w)
    ensures Paced(RunFrom(s, steps), w)
  {
    hide Inv, History, Paced, Apply;
    if |steps| > 0 {
      var n := |steps| - 1;
      RunKeepsPaced(s, steps[..n], w);
      RunKeeps(s, steps[..n]);
      StepKeepsPaced(RunFrom(s, steps[..n]), steps[n], w);
    }
  }

  /** An event with `r` older pending events is published once any one instance has finished
      `r / 50 + 1` further runs, not counting the run it has in hand, whatever the other instances
      do, however many runs abort and however many newer events arrive meanwhile. */
  lemma DelayBound(steps: seq<Step>, more: seq<Step>, q: nat, i: EventId)
    requires i < |Run(steps).db.outbox|
    requires
      var k := Run(steps).workers;
      FinishedRuns(k, q) + (if q in k.relays then 1 else 0) + PendingBetween(Run(steps).db.outbox, 0, i) / 50 + 1
      <= FinishedRuns(Run(steps + more).workers, q)
    ensures i < |Run(steps + more).db.outbox| && Run(steps + more).db.outbox[i].published
  {
    hide Apply, Inv, FinishedRuns, PendingBetween, Run, Covers, BatchDone;
    var s := Run(steps);
    var w := Wait(q, i, PendingBetween(s.db.outbox, 0, i),
                  FinishedRuns(s.workers, q) + if q in s.workers.relays then 1 else 0);
    assert Paced(s, w);
    ReachableHolds(steps);
    RunKeepsPaced(s, more, w);
    RunMore(steps, more);
  }
}
