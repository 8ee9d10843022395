/** Every pending transfer can still be completed: failure-free relay runs followed by one
    delivery, with an exact bound on the number of runs. */
module Progress {
  import opened Domain
  import opened Database
  import opened Protocol
  import opened Delivery
  import opened Invariant
  import opened Guarantees

  /** The number of pending events at positions `[i, j)`. */
  function PendingBetween(outbox: seq<OutboxEvent>, i: nat, j: nat): nat
    requires j <= |outbox|
    decreases j - i
  {
    if j <= i then 0 else (if outbox[i].published then 0 else 1) + PendingBetween(outbox, i + 1, j)
  }

  /** The batch is exactly the pending events with fewer than `limit` older pending events. */
  lemma {:induction false} BatchMembers(outbox: seq<OutboxEvent>, i: nat, limit: nat, e: EventId)
    requires i <= e < |outbox|
    ensures e in PendingFrom(outbox, i, limit) <==> !outbox[e].published && PendingBetween(outbox, i, e) < limit
    decreases |outbox| - i
  {
    if limit > 0 {
      if i < e {
        BatchMembers(outbox, i + 1, if outbox[i].published then limit else limit - 1, e);
      }
    }
  }

  /** A fetch takes the pending events with fewer than fifty older pending ones, oldest first. */
  lemma FetchedEvents(outbox: seq<OutboxEvent>)
    ensures forall e: EventId :: e in FindPending(outbox) <==>
      e < |outbox| && !outbox[e].published && PendingBetween(outbox, 0, e) < 50
    ensures forall i, j :: 0 <= i < j < |FindPending(outbox)| ==> FindPending(outbox)[i] < FindPending(outbox)[j]
  {
    forall e: EventId | e < |outbox|
      ensures e in FindPending(outbox) <==> !outbox[e].published && PendingBetween(outbox, 0, e) < 50
    {
      BatchMembers(outbox, 0, RELAY_BATCH, e);
    }
    hide PendingBetween;
  }

  /** Marking a batch removes up to `limit` of the pending events before any position. */
  lemma {:induction false} MarkingDrains(outbox: seq<OutboxEvent>, marked: seq<OutboxEvent>, i: nat, limit: nat, j: nat)
    requires i <= j <= |outbox| == |marked|
    requires forall e :: i <= e < j ==> (marked[e].published <==> outbox[e].published || e in PendingFrom(outbox, i, limit))
    ensures
      var older := PendingBetween(outbox, i, j);
      PendingBetween(marked, i, j) == if older < limit then 0 else older - limit
    decreases j - i
  {
    if i < j {
      var rest := if outbox[i].published || limit == 0 then limit else limit - 1;
      MarkingDrains(outbox, marked, i + 1, rest, j);
    }
  }

  /** The steps of a run of instance `r` from item `i` of a batch of `n`, with those of other actors
      in between. `calls` says how each remote call goes: publishing item `i` is call `2 * i`,
      marking it call `2 * i + 1`. `others` are the steps before each call. The first failure ends
      the run. */
  function RelayItems(r: nat, i: nat, n: nat, calls: nat -> Call, others: nat -> seq<Step>): seq<Step>
    decreases n - i
  {
    if n <= i then []
    else others(2 * i) + [RelayPublish(r, calls(2 * i))] + AfterPublish(r, i, n, calls, others)
  }

  function AfterPublish(r: nat, i: nat, n: nat, calls: nat -> Call, others: nat -> seq<Step>): seq<Step>
    requires i < n
    decreases n - i, 0
  {
    if !calls(2 * i).Confirmed? then []
    else
      others(2 * i + 1) + [RelayMark(r, calls(2 * i + 1))]
      + if calls(2 * i + 1).Confirmed? then RelayItems(r, i + 1, n, calls, others) else []
  }

  function RelaySteps(outbox: seq<OutboxEvent>, r: nat, calls: nat -> Call, others: nat -> seq<Step>): seq<Step> {
    [RelayFetch(r)] + RelayItems(r, 0, |FindPending(outbox)|, calls, others)
  }

  function NoFailures(): nat -> Call {
    (_: nat) => Confirmed
  }

  function Alone(): nat -> seq<Step> {
    (_: nat) => []
  }

  /** What the relay leaves alone. */
  ghost predicate OnlyRelayed(s: Sys, s': Sys) {
    && s'.db == s.db.(outbox := s'.db.outbox)
    && |s'.db.outbox| == |s.db.outbox|
    && s'.workers.sweeps == s.workers.sweeps
    && s'.workers.returned == s.workers.returned
    && s'.cache == s.cache
  }

  predicate AtItem(s: Sys, r: nat, batch: seq<EventId>, i: nat) {
    && r in s.workers.relays && s.workers.relays[r] == RelayRun(batch, i, false) && i < |batch|
    && forall j :: 0 <= j < |batch| ==> batch[j] < |s.db.outbox|
  }

  /** The messages that publishing these events sends. */
  function Copies(outbox: seq<OutboxEvent>, events: seq<EventId>): seq<Message>
    requires forall j :: 0 <= j < |events| ==> events[j] < |outbox|
  {
    seq(|events|, j requires 0 <= j < |events| =>
      var p := outbox[events[j]].payload;
      Message(events[j], p, if p.TransferInitiated? then Queued else Unrouted))
  }

  /** A run of instance `r` over `batch` sent the first `sent` events, marked the first `marked`, and
      ended, as a finished run if `ok` and as an aborted one otherwise. */
  ghost predicate Worked(s: Sys, s': Sys, r: nat, batch: seq<EventId>, sent: nat, marked: nat, ok: bool) {
    && OnlyRelayed(s, s')
    && r !in s'.workers.relays
    && sent <= |batch| && marked <= |batch|
    && (forall j :: 0 <= j < |batch| ==> batch[j] < |s.db.outbox|)
    && s'.messages == s.messages + Copies(s.db.outbox, batch[..sent])
    && (forall e :: 0 <= e < |s.db.outbox| ==>
          && s'.db.outbox[e].payload == s.db.outbox[e].payload
          && (s'.db.outbox[e].published <==> s.db.outbox[e].published || e in batch[..marked]))
    && FinishedRuns(s'.workers, r) == FinishedRuns(s.workers, r) + (if ok then 1 else 0)
    && s'.workers.aborted == s.workers.aborted + (if ok then 0 else 1)
  }

  /** Publishing and marking one item without failure. */
  ghost predicate ItemWorked(s: Sys, s2: Sys, r: nat, batch: seq<EventId>, i: nat)
    requires AtItem(s, r, batch, i)
  {
    && OnlyRelayed(s, s2)
    && s2.messages == s.messages + Copies(s.db.outbox, [batch[i]])
    && (forall e :: 0 <= e < |s.db.outbox| ==>
          && s2.db.outbox[e].payload == s.db.outbox[e].payload
          && (s2.db.outbox[e].published <==> s.db.outbox[e].published || e == batch[i]))
    && s2.workers.aborted == s.workers.aborted
    && FinishedRuns(s2.workers, r) == FinishedRuns(s.workers, r) + (if i + 1 < |batch| then 0 else 1)
    && if i + 1 < |batch| then AtItem(s2, r, batch, i + 1) else r !in s2.workers.relays
  }

  lemma PublishedItem(s: Sys, r: nat, batch: seq<EventId>, i: nat, call: Call) returns (s1: Sys)
    requires AtItem(s, r, batch, i)
    ensures s1 == Apply(s, RelayPublish(r, call)) && s1.db == s.db && s1.cache == s.cache
    ensures s1.messages == s.messages + if call.FailedBefore? then [] else Copies(s.db.outbox, [batch[i]])
    ensures s1.workers ==
      if call.Confirmed? then s.workers.(relays := s.workers.relays[r := RelayRun(batch, i, true)]) else Ended(s.workers, r, false)
  {
    s1 := DoPublish(s, r, call);
    OnlyTransferEventsAreRouted(s.db.outbox[batch[i]].payload);
  }

  lemma MarkedItem(s1: Sys, r: nat, batch: seq<EventId>, i: nat, call: Call) returns (s2: Sys)
    requires r in s1.workers.relays && s1.workers.relays[r] == RelayRun(batch, i, true)
    requires i < |batch| && batch[i] < |s1.db.outbox|
    ensures s2 == Apply(s1, RelayMark(r, call)) && s2.messages == s1.messages && s2.cache == s1.cache
    ensures s2.db == if call.FailedBefore? then s1.db else s1.db.(outbox := s1.db.outbox[batch[i] := s1.db.outbox[batch[i]].(published := true)])
    ensures s2.workers ==
      if call.Confirmed? && i + 1 < |batch| then s1.workers.(relays := s1.workers.relays[r := RelayRun(batch, i + 1, false)])
      else Ended(s1.workers, r, call.Confirmed?)
  {
    s2 := DoMark(s1, r, call);
  }

  lemma ConfirmedItem(s: Sys, r: nat, batch: seq<EventId>, i: nat) returns (s2: Sys)
    requires AtItem(s, r, batch, i)
    ensures s2 == Apply(Apply(s, RelayPublish(r, Confirmed)), RelayMark(r, Confirmed))
    ensures ItemWorked(s, s2, r, batch, i)
  {
    hide Apply;
    var s1 := PublishedItem(s, r, batch, i, Confirmed);
    s2 := MarkedItem(s1, r, batch, i, Confirmed);
  }

  /** Publishing or marking the item fails, and that ends the run. */
  lemma FailedItem(s: Sys, r: nat, batch: seq<EventId>, i: nat, calls: nat -> Call)
    requires AtItem(s, r, batch, i)
    requires !(calls(2 * i).Confirmed? && calls(2 * i + 1).Confirmed?)
    ensures
      var s' := RunFrom(s, RelayItems(r, i, |batch|, calls, Alone()));
      Worked(s, s', r, batch[i..], if calls(2 * i).FailedBefore? then 0 else 1,
             if calls(2 * i).Confirmed? && !calls(2 * i + 1).FailedBefore? then 1 else 0, false)
  {
    hide Apply, RunFrom;
    var publish, mark := calls(2 * i), calls(2 * i + 1);
    var s1 := PublishedItem(s, r, batch, i, publish);
    assert batch[i..][..1] == [batch[i]] && batch[i..][..0] == [];
    if publish.Confirmed? {
      var s2 := MarkedItem(s1, r, batch, i, mark);
      RunTwo(s, RelayPublish(r, publish), RelayMark(r, mark), []);
      RunNone(s2);
      assert RelayItems(r, i, |batch|, calls, Alone()) == [RelayPublish(r, publish), RelayMark(r, mark)] + [];
    } else {
      RunOne(s, RelayPublish(r, publish));
      assert RelayItems(r, i, |batch|, calls, Alone()) == [RelayPublish(r, publish)];
    }
  }

  lemma ItemThenRest(s: Sys, s2: Sys, s': Sys, r: nat, batch: seq<EventId>, i: nat, sent: nat, marked: nat, ok: bool)
    requires AtItem(s, r, batch, i) && i + 1 < |batch| && ItemWorked(s, s2, r, batch, i)
    requires Worked(s2, s', r, batch[i + 1..], sent, marked, ok)
    ensures Worked(s, s', r, batch[i..], sent + 1, marked + 1, ok)
  {
    var rest := batch[i + 1..];
    assert batch[i..] == [batch[i]] + rest;
    assert batch[i..][..sent + 1] == [batch[i]] + rest[..sent];
    assert batch[i..][..marked + 1] == [batch[i]] + rest[..marked];
    assert Copies(s2.db.outbox, rest[..sent]) == Copies(s.db.outbox, rest[..sent]);
    assert Copies(s.db.outbox, [batch[i]] + rest[..sent]) == Copies(s.db.outbox, [batch[i]]) + Copies(s.db.outbox, rest[..sent]);
  }

  lemma LastItem(s: Sys, s2: Sys, r: nat, batch: seq<EventId>, i: nat)
    requires AtItem(s, r, batch, i) && i + 1 == |batch| && ItemWorked(s, s2, r, batch, i)
    ensures Worked(s, s2, r, batch[i..], 1, 1, true)
  {
    assert batch[i..] == [batch[i]] && batch[i..][..1] == [batch[i]];
  }

  /** The calls for items `i` to `d - 1` are confirmed, and item `d`, if there is one, is the first
      whose calls are not. */
  ghost predicate FirstFailure(calls: nat -> Call, i: nat, d: nat, n: nat) {
    && i <= d <= n
    && (forall j :: i <= j < d ==> calls(2 * j).Confirmed? && calls(2 * j + 1).Confirmed?)
    && (d < n ==> !(calls(2 * d).Confirmed? && calls(2 * d + 1).Confirmed?))
  }

  lemma NoItems(r: nat, n: nat, calls: nat -> Call, others: nat -> seq<Step>)
    ensures RelayItems(r, n, n, calls, others) == []
  {
  }

  lemma FailureOrNot(r: nat, calls: nat -> Call, i: nat, d: nat, n: nat)
    requires FirstFailure(calls, i, d, n) && i < n
    ensures i == d ==> !(calls(2 * i).Confirmed? && calls(2 * i + 1).Confirmed?)
    ensures i != d ==> FirstFailure(calls, i + 1, d, n)
    ensures i != d ==>
      var rest := RelayItems(r, i + 1, n, calls, Alone());
      RelayItems(r, i, n, calls, Alone()) == [RelayPublish(r, Confirmed), RelayMark(r, Confirmed)] + rest
    ensures i <= d <= n
  {
    if i != d {
      assert calls(2 * i).Confirmed? && calls(2 * i + 1).Confirmed?;
    }
  }

  lemma {:induction false} ItemsOutcome(s: Sys, r: nat, batch: seq<EventId>, i: nat, d: nat, calls: nat -> Call)
    requires AtItem(s, r, batch, i) && FirstFailure(calls, i, d, |batch|)
    ensures
      var s' := RunFrom(s, RelayItems(r, i, |batch|, calls, Alone()));
      Worked(s, s', r, batch[i..],
             d - i + (if d < |batch| && !calls(2 * d).FailedBefore? then 1 else 0),
             d - i + (if d < |batch| && calls(2 * d).Confirmed? && !calls(2 * d + 1).FailedBefore? then 1 else 0),
             d == |batch|)
    decreases |batch| - i
  {
    hide Apply, RunFrom, Worked, ItemWorked, RelayItems, FirstFailure;
    FailureOrNot(r, calls, i, d, |batch|);
    if i == d {
      FailedItem(s, r, batch, i, calls);
    } else {
      var rest := RelayItems(r, i + 1, |batch|, calls, Alone());
      var s2 := ConfirmedItem(s, r, batch, i);
      RunTwo(s, RelayPublish(r, Confirmed), RelayMark(r, Confirmed), rest);
      if i + 1 < |batch| {
        NextItem(s, s2, r, batch, i);
        ItemsOutcome(s2, r, batch, i + 1, d, calls);
        ItemThenRest(s, s2, RunFrom(s2, rest), r, batch, i,
                     d - i - 1 + (if d < |batch| && !calls(2 * d).FailedBefore? then 1 else 0),
                     d - i - 1 + (if d < |batch| && calls(2 * d).Confirmed? && !calls(2 * d + 1).FailedBefore? then 1 else 0),
                     d == |batch|);
      } else {
        NoItems(r, i + 1, calls, Alone());
        RunNone(s2);
        LastItem(s, s2, r, batch, i);
      }
    }
  }

  lemma NextItem(s: Sys, s2: Sys, r: nat, batch: seq<EventId>, i: nat)
    requires AtItem(s, r, batch, i) && i + 1 < |batch| && ItemWorked(s, s2, r, batch, i)
    ensures AtItem(s2, r, batch, i + 1)
  {
  }

  lemma FetchedBatch(s: Sys, r: nat) returns (s1: Sys)
    requires r !in s.workers.relays
    ensures s1 == Apply(s, RelayFetch(r)) && s1.db == s.db && s1.messages == s.messages && s1.cache == s.cache
    ensures
      var batch := FindPending(s.db.outbox);
      && s1.workers == (if batch == [] then Ended(s.workers, r, true)
                        else s.workers.(relays := s.workers.relays[r := RelayRun(batch, 0, false)]))
      && (batch != [] ==> AtItem(s1, r, batch, 0))
  {
    s1 := DoFetch(s, r);
  }

  /** What a run of an idle instance comes to, however its calls go: it works through the fetched
      batch in order up to the first failure. The failing item is sent or marked too if its call
      took effect. */
  lemma RunOutcome(s: Sys, r: nat, calls: nat -> Call, d: nat)
    requires r !in s.workers.relays && FirstFailure(calls, 0, d, |FindPending(s.db.outbox)|)
    ensures
      var batch := FindPending(s.db.outbox);
      var s' := RunFrom(s, RelaySteps(s.db.outbox, r, calls, Alone()));
      Worked(s, s', r, batch,
             d + (if d < |batch| && !calls(2 * d).FailedBefore? then 1 else 0),
             d + (if d < |batch| && calls(2 * d).Confirmed? && !calls(2 * d + 1).FailedBefore? then 1 else 0),
             d == |batch|)
  {
    hide Apply, RunFrom, RelayItems, PendingFrom;
    var batch := FindPending(s.db.outbox);
    var items := RelayItems(r, 0, |batch|, calls, Alone());
    var s1 := FetchedBatch(s, r);
    RunFirst(s, RelayFetch(r), items);
    if batch != [] {
      ItemsOutcome(s1, r, batch, 0, d, calls);
      assert batch[0..] == batch;
    } else {
      NoItems(r, 0, calls, Alone());
      RunNone(s1);
    }
  }

  /** A failure-free run of an idle instance publishes exactly its batch. */
  lemma CleanRun(s: Sys, r: nat)
    requires r !in s.workers.relays
    ensures
      var s' := RunFrom(s, RelaySteps(s.db.outbox, r, NoFailures(), Alone()));
      && OnlyRelayed(s, s')
      && r !in s'.workers.relays
      && (forall e :: 0 <= e < |s.db.outbox| ==>
            (s'.db.outbox[e].published <==> s.db.outbox[e].published || e in FindPending(s.db.outbox)))
  {
    hide RunFrom, RelaySteps, FindPending, Copies;
    var batch := FindPending(s.db.outbox);
    RunOutcome(s, r, NoFailures(), |batch|);
    assert batch[..|batch|] == batch;
  }

  /** `n` failure-free runs of instance `r`, one after the other. */
  ghost function CleanRuns(s: Sys, r: nat, n: nat): seq<Step>
    decreases n
  {
    if n == 0 then []
    else
      var run := RelaySteps(s.db.outbox, r, NoFailures(), Alone());
      run + CleanRuns(RunFrom(s, run), r, n - 1)
  }

  /** A pending event with `older` pending events before it is published by `older / 50 + 1`
      failure-free runs of any idle instance. */
  lemma {:induction false} RunsPublish(s: Sys, r: nat, e: EventId)
    requires r !in s.workers.relays && e < |s.db.outbox| && !s.db.outbox[e].published
    ensures
      var runs := PendingBetween(s.db.outbox, 0, e) / RELAY_BATCH + 1;
      var s' := RunFrom(s, CleanRuns(s, r, runs));
      OnlyRelayed(s, s') && s'.db.outbox[e].published
    decreases PendingBetween(s.db.outbox, 0, e)
  {
    hide Apply, RunFrom, RelaySteps, RelayItems;
    var outbox := s.db.outbox;
    var older := PendingBetween(outbox, 0, e);
    var n := older / RELAY_BATCH;
    var run := RelaySteps(outbox, r, NoFailures(), Alone());
    var s1 := RunFrom(s, run);
    CleanRun(s, r);
    RunConcat(s, run, CleanRuns(s1, r, n));
    BatchMembers(outbox, 0, RELAY_BATCH, e);
    if RELAY_BATCH <= older {
      MarkingDrains(outbox, s1.db.outbox, 0, RELAY_BATCH, e);
      RunsPublish(s1, r, e);
    } else {
      RunNone(s1);
    }
  }

  /** The schedule that completes the transfer announced by event `e` through delivery `m`: enough
      failure-free relay runs to publish the event, if it is not published yet, and one delivery. */
  ghost function Schedule(s: Sys, r: nat, e: EventId, m: MessageId): seq<Step>
    requires e < |s.db.outbox|
  {
    (if s.db.outbox[e].published then [] else CleanRuns(s, r, PendingBetween(s.db.outbox, 0, e) / RELAY_BATCH + 1))
    + [Consume(m, true)]
  }

  lemma ScheduleCompletes(s: Sys, r: nat, e: EventId, t: TransferId) returns (m: MessageId)
    requires Inv(s) && r !in s.workers.relays
    requires t < |s.db.transfers| && s.db.transfers[t].status == Pending && Announces(s.db, e, t)
    ensures
      RunFrom(s, Schedule(s, r, e, m)).db.transfers == s.db.transfers[t := s.db.transfers[t].(status := Completed)]
  {
    hide Apply, Inv, CleanRuns;
    var relaying := if s.db.outbox[e].published then []
                    else CleanRuns(s, r, PendingBetween(s.db.outbox, 0, e) / RELAY_BATCH + 1);
    if !s.db.outbox[e].published {
      RunsPublish(s, r, e);
    }
    var s1 := RunFrom(s, relaying);
    RunKeeps(s, relaying);
    m := LiveMessage(s1, e, t);
    DeliveryCompletes(s1, m, true);
    RunConcat(s, relaying, [Consume(m, true)]);
    RunOne(s1, Consume(m, true));
  }

  /** A process amid a run is restarted. */
  function Restart(s: Sys, r: nat): seq<Step> {
    if r in s.workers.relays then [RelayCrash(r)] else []
  }

  lemma RestartIdles(s: Sys, r: nat)
    ensures
      var s1 := RunFrom(s, Restart(s, r));
      && r !in s1.workers.relays && s1.db == s.db && s1.messages == s.messages && s1.cache == s.cache
      && FinishedRuns(s1.workers, r) == FinishedRuns(s.workers, r)
  {
    if r in s.workers.relays {
      RunOne(s, RelayCrash(r));
    }
  }

  /** From any reachable state, with any relay instance, restarted if it is amid a run, every pending
      transfer has a schedule that completes it. */
  lemma PendingTransferCanComplete(steps: seq<Step>, r: nat, t: TransferId) returns (e: EventId, m: MessageId)
    requires t < |Run(steps).db.transfers| && Run(steps).db.transfers[t].status == Pending
    ensures Announces(Run(steps).db, e, t)
    ensures
      var s := Run(steps);
      var s1 := RunFrom(s, Restart(s, r));
      && Announces(s1.db, e, t)
      && Run(steps + Restart(s, r) + Schedule(s1, r, e, m)).db.transfers
           == s.db.transfers[t := s.db.transfers[t].(status := Completed)]
  {
    hide Apply, Run, Inv, Schedule, Restart;
    var s := Run(steps);
    var s1 := RunFrom(s, Restart(s, r));
    ReachableHolds(steps);
    RunKeeps(s, Restart(s, r));
    RestartIdles(s, r);
    e := FindEvent(s, t);
    m := ScheduleCompletes(s1, r, e, t);
    RunMore(steps, Restart(s, r));
    RunMore(steps + Restart(s, r), Schedule(s1, r, e, m));
  }

  lemma FindEvent(s: Sys, t: TransferId) returns (e: EventId)
    requires Inv(s) && t < |s.db.transfers|
    ensures Announces(s.db, e, t)
  {
    e := EventOf(s.db, t);
  }
}
