/** The consumer, the sweeper and the relay as they run, each proved to be a sequence of steps of
    the protocol, amid the steps that other actors take while it awaits a call. `k` and `k'` are
    the workers' local state before and after. */
module BackgroundWorkers {
  import opened Domain
  import opened Database
  import opened Protocol
  import opened Interference
  import opened Invariant
  import opened Progress
  import opened Handling
  import opened Storage

  class TransferEventsConsumer {
    const store: Store

    constructor (store: Store)
      ensures this.store == store
    {
      this.store := store;
    }

    /** The closure of one delivery: claim the message, move the transfer from pending to completed,
        credit the receiver the event names. A missing receiver aborts the session. */
    method CompleteTransfer(m: MessageId, t: TransferId, to: WalletId, amount: Amount) returns (outcome: Outcome)
      modifies store
      ensures (store.Documents(), outcome) == Database.CompleteTransfer(old(store.Documents()), m, t, to, amount)
      ensures store.messages == old(store.messages)
      ensures
        if outcome.Credited? && to < |store.wallets|
        then store.cache == old(store.cache)[to := Cached(store.wallets[to].balance, |store.transactions|)]
        else store.cache == old(store.cache)
    {
      var saved := store.Documents();
      if m in store.inbox {
        return DuplicateClaim;
      }
      store.inbox := store.inbox + {m};
      if |store.transfers| <= t || store.transfers[t].status != Pending {
        return if |store.transfers| <= t then TransferMissing else AlreadySettled;
      }
      store.transfers := store.transfers[t := store.transfers[t].(status := Completed)];
      var transfer := store.transfers[t];
      if |store.wallets| <= to {
        store.Rollback(saved);
        return WalletMissing;
      }
      var wallet := store.IncrementBalance(to, amount);
      var x := store.CreateTransaction(to, TransferIn, amount, wallet.balance, None, Some(t), Some(transfer.from));
      store.RecordCredit(to, x, amount, wallet.balance);
      store.SetCachedBalance(to, wallet.balance);
      return Credited;
    }

    /** Handles a delivery of message `m`: ack when the closure returns, dead-letter on an error
        that says "not found", requeue on any other. `call` is how the session ends, and
        `duplicateReturns` whether a duplicate claim lets it end well. `others` happen before the ack. */
    method HandleMessage(m: MessageId, call: Call, duplicateReturns: bool, others: seq<Step>, k: Workers) returns (k': Workers)
      requires Consumable(store.View(k), m)
      modifies store
      ensures store.View(k') ==
        RunFrom(old(store.View(k)), HandlingSteps(old(store.View(k)), m, call, duplicateReturns, others))
      ensures Inv(old(store.View(k))) ==> Handled(old(store.View(k)), store.View(k'), m, call, duplicateReturns)
    {
      k' := k;
      if call.FailedBefore? {
        return;
      }
      var p := store.messages[m].payload;
      ghost var s := store.View(k);
      var outcome := CompleteTransfer(m, p.transfer, p.to, p.amount);
      if outcome.WalletMissing? {
        store.messages := store.messages[m := store.messages[m].(fate := DeadLettered)];
      } else if !outcome.DuplicateClaim? || duplicateReturns {
        k' := k.(returned := k.returned + {m});
      }
      assert store.View(k') == DoConsume(s, m, duplicateReturns);
      hide DoConsume, HandlingSteps, RunFrom, Inv, Handled;
      HandlingRuns(s, m, call, duplicateReturns, others);
      if Inv(s) {
        HandlingIsRight(s, m, call, duplicateReturns, others);
      }
      if call.Confirmed? && !outcome.WalletMissing? && (!outcome.DuplicateClaim? || duplicateReturns) {
        k' := store.Await(others, k');
        store.messages := store.messages[m := store.messages[m].(fate := Acked)];
      }
    }
  }

  /** Items `i` to `n - 1` of sweep `k`, each after the steps `others` of other actors; `clock` and
      `commits` give the time and the outcome of each item's session. */
  function SweepItems(k: nat, i: nat, n: nat, clock: nat -> Time, commits: nat -> Call, others: nat -> seq<Step>): seq<Step>
    decreases n - i
  {
    if n <= i then []
    else others(i) + [SweepItem(k, clock(i), commits(i))] + SweepItems(k, i + 1, n, clock, commits, others)
  }

  lemma SweepStart(s: Sys, k: nat, cutoff: Time, picked: seq<TransferId>, rest: seq<Step>)
    requires k !in s.workers.sweeps && ValidPick(s.db.transfers, cutoff, picked)
    ensures RunFrom(s, [SweepFetch(k, cutoff, picked)] + rest) == RunFrom(DoSweepFetch(s, k, picked), rest)
  {
    RunFirst(s, SweepFetch(k, cutoff, picked), rest);
  }

  lemma SweepNext(s: Sys, k: nat, i: nat, n: nat, clock: nat -> Time, commits: nat -> Call, others: nat -> seq<Step>)
    requires i < n
    ensures RunFrom(s, SweepItems(k, i, n, clock, commits, others))
      == RunFrom(DoSweepItem(RunFrom(s, others(i)), k, clock(i), commits(i)), SweepItems(k, i + 1, n, clock, commits, others))
  {
    hide Apply, RunFrom;
    RunBefore(s, others(i), SweepItem(k, clock(i), commits(i)), SweepItems(k, i + 1, n, clock, commits, others));
    SweepStep(RunFrom(s, others(i)), k, clock(i), commits(i));
  }

  lemma SweepStep(s: Sys, k: nat, now: Time, commit: Call)
    ensures Apply(s, SweepItem(k, now, commit)) == DoSweepItem(s, k, now, commit)
  {
  }

  lemma SweepEnd(s: Sys, k: nat, n: nat, clock: nat -> Time, commits: nat -> Call, others: nat -> seq<Step>)
    ensures RunFrom(s, SweepItems(k, n, n, clock, commits, others)) == s
  {
  }

  /** Every listed transfer exists, and those of the first `i` whose session took effect are settled. */
  ghost predicate SweptSoFar(transfers: seq<Transfer>, picked: seq<TransferId>, commits: nat -> Call, i: nat) {
    && i <= |picked|
    && (forall j :: 0 <= j < |picked| ==> picked[j] < |transfers|)
    && forall j :: 0 <= j < i && !commits(j).FailedBefore? ==> transfers[picked[j]].Terminal()
  }

  lemma SweptStays(s: Sys, steps: seq<Step>, picked: seq<TransferId>, commits: nat -> Call, i: nat)
    requires SweptSoFar(s.db.transfers, picked, commits, i)
    ensures SweptSoFar(RunFrom(s, steps).db.transfers, picked, commits, i)
  {
    hide RunFrom;
    RunGrows(s, steps);
  }

  lemma SweptOneMore(transfers: seq<Transfer>, transfers': seq<Transfer>, picked: seq<TransferId>, commits: nat -> Call, i: nat)
    requires SweptSoFar(transfers, picked, commits, i) && i < |picked| && |transfers'| == |transfers|
    requires forall t :: 0 <= t < |transfers| && transfers[t].Terminal() ==> transfers'[t].Terminal()
    requires !commits(i).FailedBefore? ==> transfers'[picked[i]].Terminal()
    ensures SweptSoFar(transfers', picked, commits, i + 1)
  {
  }

  lemma RefundSettles(db: Db, t: TransferId, now: Time)
    requires t < |db.transfers|
    ensures
      var db' := Refund(db, t, now);
      && |db'.transfers| == |db.transfers| && db'.transfers[t].Terminal()
      && forall u :: 0 <= u < |db.transfers| && db.transfers[u].Terminal() ==> db'.transfers[u].Terminal()
  {
  }

  class PendingTransferWorker {
    const store: Store

    constructor (store: Store)
      ensures this.store == store
    {
      this.store := store;
    }

    /** One item: claim the transfer, then refund the sender. The session rolls back unless its
        commit takes effect, after which it may still report an error. */
    method RefundOne(t: TransferId, now: Time, commit: Call)
      modifies store
      ensures store.Documents() ==
        if commit.FailedBefore? then old(store.Documents()) else Refund(old(store.Documents()), t, now)
      ensures store.messages == old(store.messages) && store.cache == old(store.cache)
    {
      var saved := store.Documents();
      if t < |store.transfers| && store.transfers[t].status == Pending {
        store.transfers := store.transfers[t := store.transfers[t].(status := Failed, lastSweptAt := Some(now))];
        var locked := store.transfers[t];
        if locked.from < |store.wallets| {
          var wallet := store.IncrementBalance(locked.from, locked.amount);
          var x := store.CreateTransaction(locked.from, TransferIn, locked.amount, wallet.balance, Some(RefundOf(t)), Some(t), None);
          store.RecordCredit(locked.from, x, locked.amount, wallet.balance);
        }
      }
      if commit.FailedBefore? {
        store.Rollback(saved);
      }
    }

    /** One turn of the loop: a failure is counted and the sweep moves on. */
    method Item(id: nat, now: Time, commit: Call, k: Workers) returns (k': Workers)
      requires id in k.sweeps && k.sweeps[id].pos < |k.sweeps[id].picked|
      requires k.sweeps[id].picked[k.sweeps[id].pos] < |store.transfers|
      modifies store
      ensures store.View(k') == DoSweepItem(old(store.View(k)), id, now, commit)
      ensures |store.transfers| == |old(store.transfers)|
      ensures forall t :: 0 <= t < |store.transfers| && old(store.transfers)[t].Terminal() ==> store.transfers[t].Terminal()
      ensures !commit.FailedBefore? ==> store.transfers[k.sweeps[id].picked[k.sweeps[id].pos]].Terminal()
    {
      hide Refund;
      var run := k.sweeps[id];
      RefundSettles(store.Documents(), run.picked[run.pos], now);
      RefundOne(run.picked[run.pos], now, commit);
      k' := k.(sweeps := k.sweeps[id := SweepRun(run.picked, run.pos + 1, if commit.Confirmed? then run.errors else run.errors + 1)]);
    }

    /** `picked` is the answer of the stale-transfer query at `cutoff`. A failed item is logged and
        the loop goes on. Other actors take the steps `others(i)` before item `i`. */
    method Sweep(id: nat, cutoff: Time, picked: seq<TransferId>, clock: nat -> Time, commits: nat -> Call,
                 others: nat -> seq<Step>, k: Workers) returns (k': Workers)
      requires id !in k.sweeps && ValidPick(store.transfers, cutoff, picked)
      requires forall j :: BesideSweep(others(j), id)
      modifies store
      ensures store.View(k') ==
        RunFrom(old(store.View(k)), [SweepFetch(id, cutoff, picked)] + SweepItems(id, 0, |picked|, clock, commits, others))
      ensures forall j :: 0 <= j < |picked| && !commits(j).FailedBefore? ==>
        picked[j] < |store.transfers| && store.transfers[picked[j]].Terminal()
    {
      hide Apply, RunFrom, BesideSweep;
      ghost var s0 := store.View(k);
      SweepStart(s0, id, cutoff, picked, SweepItems(id, 0, |picked|, clock, commits, others));
      assert SweptSoFar(store.transfers, picked, commits, 0);
      hide ValidPick, SweepItems;
      k' := k.(sweeps := k.sweeps[id := SweepRun(picked, 0, 0)]);
      for i := 0 to |picked|
        invariant id in k'.sweeps && k'.sweeps[id].picked == picked && k'.sweeps[id].pos == i
        invariant RunFrom(store.View(k'), SweepItems(id, i, |picked|, clock, commits, others))
          == RunFrom(s0, [SweepFetch(id, cutoff, picked)] + SweepItems(id, 0, |picked|, clock, commits, others))
        invariant SweptSoFar(store.transfers, picked, commits, i)
      {
        SweepNext(store.View(k'), id, i, |picked|, clock, commits, others);
        SweepStaysInHand(store.View(k'), others(i), id);
        SweptStays(store.View(k'), others(i), picked, commits, i);
        k' := store.Await(others(i), k');
        ghost var transfers := store.transfers;
        k' := Item(id, clock(i), commits(i), k');
        SweptOneMore(transfers, store.transfers, picked, commits, i);
      }
      SweepEnd(store.View(k'), id, |picked|, clock, commits, others);
    }
  }

  class OutboxRelayWorker {
    const store: Store
    const id: nat
    var running: bool

    constructor (store: Store, id: nat)
      ensures this.store == store && this.id == id && !running
    {
      this.store, this.id, running := store, id, false;
    }

    /** Publishes the payload of event `e` under a fresh message id. */
    method Publish(e: EventId, call: Call) returns (ok: bool)
      requires e < |store.outbox|
      modifies store`messages
      ensures ok <==> call.Confirmed?
      ensures forall k :: store.View(k) == if call.FailedBefore? then old(store.View(k)) else Send(old(store.View(k)), e)
    {
      var p := store.outbox[e].payload;
      if !call.FailedBefore? {
        store.messages := store.messages + [Message(e, p, if MatchesTransferBinding(RoutingKey(p)) then Queued else Unrouted)];
      }
      ok := call.Confirmed?;
    }

    method Mark(e: EventId, call: Call) returns (ok: bool)
      modifies store`outbox
      ensures ok <==> call.Confirmed?
      ensures store.Documents() == if call.FailedBefore? then old(store.Documents()) else MarkPublished(old(store.Documents()), e)
    {
      if !call.FailedBefore? && e < |store.outbox| {
        store.outbox := store.outbox[e := store.outbox[e].(published := true)];
      }
      ok := call.Confirmed?;
    }

    /** Item `i` of a run: publish, and if that is confirmed, mark. */
    method PublishAndMark(batch: seq<EventId>, i: nat, calls: nat -> Call, others: nat -> seq<Step>, k: Workers)
        returns (ok: bool, k': Workers)
      requires Holding(store.View(k), id, RelayRun(batch, i, false))
      requires BesideRelay(others(2 * i), id) && BesideRelay(others(2 * i + 1), id)
      modifies store
      ensures ok <==> calls(2 * i).Confirmed? && calls(2 * i + 1).Confirmed?
      ensures store.View(k') == ItemDone(old(store.View(k)), id, i, calls, others)
    {
      hide RunFrom;
      HoldingAfter(store.View(k), others(2 * i), id, RelayRun(batch, i, false));
      k' := store.Await(others(2 * i), k);
      ghost var s := store.View(k');
      PublishSteps(s, id, batch, i, calls(2 * i));
      ok := Publish(batch[i], calls(2 * i));
      k' := if ok then k'.(relays := k'.relays[id := RelayRun(batch, i, true)]) else Ended(k', id, false);
      assert store.View(k') == Apply(s, RelayPublish(id, calls(2 * i)));
      hide Apply;
      if ok {
        HoldingAfter(store.View(k'), others(2 * i + 1), id, RelayRun(batch, i, true));
        k' := store.Await(others(2 * i + 1), k');
        MarkSteps(store.View(k'), id, batch, i, calls(2 * i + 1));
        ok := Mark(batch[i], calls(2 * i + 1));
        k' := if ok && i + 1 < |batch| then k'.(relays := k'.relays[id := RelayRun(batch, i + 1, false)]) else Ended(k', id, ok);
      }
    }

    /** One run. A second call while the flag is set returns at once; the first failing call ends
        the run; the flag is cleared however the run ends. Other actors take the steps
        `others(j)` before remote call `j`. */
    method Relay(calls: nat -> Call, others: nat -> seq<Step>, k: Workers) returns (k': Workers)
      requires running <==> id in k.relays
      requires forall j :: BesideRelay(others(j), id)
      modifies this`running, store
      ensures running == old(running) && (running <==> id in k'.relays)
      ensures old(running) ==> store.View(k') == old(store.View(k))
      ensures store.View(k') == RunFrom(old(store.View(k)),
        if old(running) then [RelayFetch(id)] else RelaySteps(old(store.outbox), id, calls, others))
    {
      hide Apply, RunFrom;
      k' := k;
      ghost var s0 := store.View(k);
      if running {
        RelayStart(s0, id, []);
        return;
      }
      running := true;
      var batch := FindPending(store.outbox);
      var n := |batch|;
      RelayStart(s0, id, RelayItems(id, 0, n, calls, others));
      k' := if n == 0 then Ended(k, id, true) else k.(relays := k.relays[id := RelayRun(batch, 0, false)]);
      assert store.View(k') == DoFetch(s0, id);
      hide RelayItems, DoFetch, FindPending;
      var i, ok := 0, true;
      while i < n && ok
        invariant i <= n == |batch|
        invariant if ok && i < n then Holding(store.View(k'), id, RelayRun(batch, i, false)) else id !in k'.relays
        invariant RunFrom(s0, [RelayFetch(id)] + RelayItems(id, 0, n, calls, others))
          == if ok then RunFrom(store.View(k'), RelayItems(id, i, n, calls, others)) else store.View(k')
      {
        ItemSteps(store.View(k'), id, batch, i, calls, others);
        ok, k' := PublishAndMark(batch, i, calls, others, k');
        i := i + 1;
      }
      NoItemsLeft(store.View(k'), id, n, calls, others);
      running := false;
    }
  }

  /** Instance `r` is amid this run, whose events exist. */
  ghost predicate Holding(s: Sys, r: nat, run: RelayRun) {
    && r in s.workers.relays && s.workers.relays[r] == run
    && run.pos < |run.batch|
    && forall j :: 0 <= j < |run.batch| ==> run.batch[j] < |s.db.outbox|
  }

  lemma HoldingAfter(s: Sys, steps: seq<Step>, r: nat, run: RelayRun)
    requires Holding(s, r, run) && BesideRelay(steps, r)
    ensures Holding(RunFrom(s, steps), r, run)
  {
    hide RunFrom;
    RunStaysInHand(s, steps, r);
    RunGrows(s, steps);
  }

  lemma PublishSteps(s: Sys, r: nat, batch: seq<EventId>, i: nat, call: Call)
    requires Holding(s, r, RelayRun(batch, i, false))
    ensures
      var sent := if call.FailedBefore? then s else Send(s, batch[i]);
      Apply(s, RelayPublish(r, call)) == sent.(workers :=
        if call.Confirmed? then s.workers.(relays := s.workers.relays[r := RelayRun(batch, i, true)])
        else Ended(s.workers, r, false))
    ensures call.Confirmed? ==> Holding(Apply(s, RelayPublish(r, call)), r, RelayRun(batch, i, true))
  {
  }

  lemma MarkSteps(s: Sys, r: nat, batch: seq<EventId>, i: nat, call: Call)
    requires Holding(s, r, RelayRun(batch, i, true))
    ensures
      var marked := if call.FailedBefore? then s else s.(db := MarkPublished(s.db, batch[i]));
      Apply(s, RelayMark(r, call)) == marked.(workers :=
        if call.Confirmed? && i + 1 < |batch| then s.workers.(relays := s.workers.relays[r := RelayRun(batch, i + 1, false)])
        else Ended(s.workers, r, call.Confirmed?))
    ensures
      if call.Confirmed? && i + 1 < |batch| then Holding(Apply(s, RelayMark(r, call)), r, RelayRun(batch, i + 1, false))
      else r !in Apply(s, RelayMark(r, call)).workers.relays
  {
  }

  /** The state after instance `r` has worked on item `i`. */
  function ItemDone(s: Sys, r: nat, i: nat, calls: nat -> Call, others: nat -> seq<Step>): Sys {
    var s1 := Apply(RunFrom(s, others(2 * i)), RelayPublish(r, calls(2 * i)));
    if calls(2 * i).Confirmed? then Apply(RunFrom(s1, others(2 * i + 1)), RelayMark(r, calls(2 * i + 1))) else s1
  }

  lemma RelayStart(s: Sys, r: nat, rest: seq<Step>)
    ensures RunFrom(s, [RelayFetch(r)]) == DoFetch(s, r)
    ensures RunFrom(s, [RelayFetch(r)] + rest) == RunFrom(DoFetch(s, r), rest)
  {
    assert Apply(s, RelayFetch(r)) == DoFetch(s, r);
    hide Apply, DoFetch;
    RunFirst(s, RelayFetch(r), rest);
    RunOne(s, RelayFetch(r));
  }

  lemma NoItemsLeft(s: Sys, r: nat, n: nat, calls: nat -> Call, others: nat -> seq<Step>)
    ensures RunFrom(s, RelayItems(r, n, n, calls, others)) == s
  {
  }

  lemma ItemSteps(s: Sys, r: nat, batch: seq<EventId>, i: nat, calls: nat -> Call, others: nat -> seq<Step>)
    requires Holding(s, r, RelayRun(batch, i, false))
    requires BesideRelay(others(2 * i), r) && BesideRelay(others(2 * i + 1), r)
    ensures
      var s' := ItemDone(s, r, i, calls, others);
      var ok := calls(2 * i).Confirmed? && calls(2 * i + 1).Confirmed?;
      && (if ok && i + 1 < |batch| then Holding(s', r, RelayRun(batch, i + 1, false)) else r !in s'.workers.relays)
      && RunFrom(s, RelayItems(r, i, |batch|, calls, others))
           == if ok then RunFrom(s', RelayItems(r, i + 1, |batch|, calls, others)) else s'
  {
    hide Apply, RunFrom, RelayItems;
    RelayItemRuns(s, r, i, |batch|, calls, others);
    HoldingAfter(s, others(2 * i), r, RelayRun(batch, i, false));
    var s1 := RunFrom(s, others(2 * i));
    PublishSteps(s1, r, batch, i, calls(2 * i));
    if calls(2 * i).Confirmed? {
      var s2 := Apply(s1, RelayPublish(r, Confirmed));
      HoldingAfter(s2, others(2 * i + 1), r, RelayRun(batch, i, true));
      MarkSteps(RunFrom(s2, others(2 * i + 1)), r, batch, i, calls(2 * i + 1));
    }
  }

  lemma RelayItemRuns(s: Sys, r: nat, i: nat, n: nat, calls: nat -> Call, others: nat -> seq<Step>)
    requires i < n
    ensures
      var s' := ItemDone(s, r, i, calls, others);
      RunFrom(s, RelayItems(r, i, n, calls, others)) ==
        if calls(2 * i).Confirmed? && calls(2 * i + 1).Confirmed? then RunFrom(s', RelayItems(r, i + 1, n, calls, others)) else s'
  {
    hide Apply, RunFrom;
    var publish := RelayPublish(r, calls(2 * i));
    var s1 := Apply(RunFrom(s, others(2 * i)), publish);
    RunBefore(s, others(2 * i), publish, AfterPublish(r, i, n, calls, others));
    if calls(2 * i).Confirmed? {
      var mark := RelayMark(r, calls(2 * i + 1));
      var rest := if calls(2 * i + 1).Confirmed? then RelayItems(r, i + 1, n, calls, others) else [];
      RunBefore(s1, others(2 * i + 1), mark, rest);
      RunNone(Apply(RunFrom(s1, others(2 * i + 1)), mark));
    } else {
      RunNone(s1);
    }
  }
}
