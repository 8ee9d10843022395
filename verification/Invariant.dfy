/** The invariant of the whole protocol: it holds initially and every step of every actor keeps it. */
module Invariant {
  import opened Domain
  import opened Database
  import opened Protocol
  import opened Settlement
  import opened Delivery
  import opened Cache

  ghost predicate Inv(s: Sys) {
    && Sound(s.db)
    && AllFaithful(s.db)
    && Delivered(s.db, s.messages, s.workers)
    && CacheValid(s.db, s.cache)
  }

  lemma InitHolds()
    ensures Inv(INIT)
  {
  }

  lemma HistoryReflexive(db: Db)
    ensures History(db, db)
  {
  }

  lemma CreateWalletKeeps(s: Sys, userId: string, ownerName: string, currency: Option<string>)
    requires Inv(s)
    ensures Inv(s.(db := CreateWallet(s.db, userId, ownerName, currency)))
    ensures History(s.db, CreateWallet(s.db, userId, ownerName, currency))
  {
    var db' := CreateWallet(s.db, userId, ownerName, currency);
    var wallet := db'.wallets[|s.db.wallets|];
    var p := db'.outbox[|s.db.outbox|].payload;
    NewWalletKeepsSound(s.db, wallet);
    SoundIgnoresQueues(s.db.(wallets := db'.wallets), db'.outbox, s.db.inbox);
    EnqueueKeepsFaithful(s.db, db', p);
    CommitKeepsDelivered(s.db, db', s.messages, s.workers);
    CacheIgnoresOtherCollections(s.db, db', s.cache);
  }

  /** A deposit or a withdrawal that goes through. */
  lemma FlowKeeps(s: Sys, w: WalletId, kind: Kind, amount: Amount, reference: Option<Reference>, p: Payload)
    requires Inv(s) && w < |s.db.wallets| && External(kind) && !p.TransferInitiated?
    requires kind.Deposit? || amount <= s.db.wallets[w].balance
    ensures
      var db' := Enqueue(Post(s.db, w, kind, amount, reference, None, None), p);
      Inv(CachePut(s.(db := db'), w)) && History(s.db, db')
  {
    var posted := Post(s.db, w, kind, amount, reference, None, None);
    var db' := Enqueue(posted, p);
    FlowKeepsSound(s.db, w, kind, amount, reference);
    SoundIgnoresQueues(posted, db'.outbox, s.db.inbox);
    assert db' == posted.(outbox := db'.outbox, inbox := s.db.inbox);
    EnqueueKeepsFaithful(s.db, db', p);
    CommitKeepsDelivered(s.db, db', s.messages, s.workers);
    PostAndPutKeepsCache(s.db, w, kind, amount, reference, None, None, s.cache);
    CacheIgnoresOtherCollections(posted, db', CachePut(s.(db := db'), w).cache);
  }

  lemma DepositKeeps(s: Sys, w: WalletId, amount: Amount, reference: Option<string>)
    requires Inv(s)
    ensures Inv(DoDeposit(s, w, amount, reference)) && History(s.db, DoDeposit(s, w, amount, reference).db)
  {
    var (db', r) := PostDeposit(s.db, w, amount, reference);
    if r.Ok? {
      FlowKeeps(s, w, Kind.Deposit, amount, ClientRef(reference), db'.outbox[|s.db.outbox|].payload);
    }
  }

  lemma WithdrawKeeps(s: Sys, w: WalletId, amount: Amount, reference: Option<string>)
    requires Inv(s)
    ensures Inv(DoWithdraw(s, w, amount, reference)) && History(s.db, DoWithdraw(s, w, amount, reference).db)
  {
    var (db', r) := PostWithdrawal(s.db, w, amount, reference);
    if r.Ok? {
      FlowKeeps(s, w, Withdrawal, amount, ClientRef(reference), db'.outbox[|s.db.outbox|].payload);
    }
  }

  lemma OpenKeepsHistory(db: Db, dto: TransferDto, now: Time)
    requires TransferError(db, dto).None?
    ensures History(db, OpenTransfer(db, dto, now))
  {
  }

  lemma OpenKeeps(s: Sys, dto: TransferDto, now: Time)
    requires Inv(s) && TransferError(s.db, dto).None? && FindByKey(s.db.transfers, dto.key).None?
    ensures
      var db' := OpenTransfer(s.db, dto, now);
      Inv(CachePut(s.(db := db'), dto.from)) && History(s.db, db')
  {
    var n := |s.db.transfers|;
    var db' := OpenTransfer(s.db, dto, now);
    var created := s.db.(transfers := db'.transfers);
    var posted := Post(created, dto.from, TransferOut, dto.amount, None, Some(n), Some(dto.to));
    hide Sound, AllFaithful, History, Delivered, CacheValid, PendingFrom, FindByKey;
    OpenKeepsHistory(s.db, dto, now);
    OpenKeepsSound(s.db, dto, now);
    EnqueueKeepsFaithful(s.db, db', TransferInitiated(n, dto.from, dto.to, dto.amount));
    CommitKeepsDelivered(s.db, db', s.messages, s.workers);
    CacheIgnoresOtherCollections(s.db, created, s.cache);
    PostAndPutKeepsCache(created, dto.from, TransferOut, dto.amount, None, Some(n), Some(dto.to), s.cache);
    CacheIgnoresOtherCollections(posted, db', CachePut(s.(db := db'), dto.from).cache);
  }

  lemma TransferKeeps(s: Sys, dto: TransferDto, now: Time)
    requires Inv(s)
    ensures Inv(DoTransfer(s, dto, now)) && History(s.db, DoTransfer(s, dto, now).db)
  {
    if TransferError(s.db, dto).None? && FindByKey(s.db.transfers, dto.key).None? {
      OpenKeeps(s, dto, now);
    }
  }

  lemma ClaimKeepsDelivered(db: Db, messages: seq<Message>, workers: Workers, m: MessageId)
    requires Delivered(db, messages, workers) && Done(db, messages, m)
    ensures Delivered(db, messages, workers.(returned := workers.returned + {m}))
    ensures Delivered(db.(inbox := db.inbox + {m}), messages, workers.(returned := workers.returned + {m}))
  {
  }

  /** What a deliverable message says about its transfer. */
  lemma MessageFacts(s: Sys, m: MessageId)
    requires Inv(s) && Consumable(s, m)
    ensures
      var p := s.messages[m].payload;
      && p.transfer < |s.db.transfers|
      && p.to == s.db.transfers[p.transfer].to && p.amount == s.db.transfers[p.transfer].amount
      && WellFormed(s.db, s.db.transfers[p.transfer])
    ensures m in s.db.inbox ==> Done(s.db, s.messages, m)
  {
    assert MessageFaithful(s.db, s.messages[m]);
    assert Faithful(s.db, s.db.outbox[s.messages[m].event].payload);
    assert WellFormed(s.db, s.db.transfers[s.messages[m].payload.transfer]);
  }

  /** The consumer's crediting commit: by fidelity the event's receiver and amount are the transfer's. */
  lemma CreditKeeps(s: Sys, m: MessageId)
    requires Inv(s) && Consumable(s, m) && m !in s.db.inbox
    requires var t := s.messages[m].payload.transfer; t < |s.db.transfers| && s.db.transfers[t].status == Pending
    ensures Inv(DoConsume(s, m, true)) && DoConsume(s, m, true) == DoConsume(s, m, false)
    ensures History(s.db, DoConsume(s, m, true).db)
    ensures Done(DoConsume(s, m, true).db, DoConsume(s, m, true).messages, m)
  {
    hide Sound, Delivered, CacheValid;
    MessageFacts(s, m);
    var p := s.messages[m].payload;
    var t := p.transfer;
    var tr := s.db.transfers[t];
    var closed := tr.(status := Completed);
    var leg := CreditLeg(tr);
    var mid := Close(s.db, t, closed, leg);
    var s' := DoConsume(s, m, true);
    CloseKeepsSound(s.db, t, closed, leg);
    SoundIgnoresQueues(mid, s.db.outbox, s.db.inbox + {m});
    assert s'.db == mid.(outbox := s.db.outbox, inbox := s.db.inbox + {m});
    QuietKeepsFaithful(s.db, s'.db);
    CommitKeepsDelivered(s.db, s'.db, s.messages, s.workers);
    ClaimKeepsDelivered(s'.db, s.messages, s.workers, m);
    var before := s.db.(transfers := s.db.transfers[t := closed]);
    CacheIgnoresOtherCollections(s.db, before, s.cache);
    PostAndPutKeepsCache(before, leg.wallet, leg.kind, leg.amount, leg.reference, Some(t), leg.counterparty, s.cache);
    CacheIgnoresOtherCollections(mid, s'.db, s'.cache);
  }

  /** A delivery about a settled transfer only claims its message. */
  lemma ClaimKeeps(s: Sys, m: MessageId)
    requires Inv(s) && Done(s.db, s.messages, m)
    ensures
      var db' := s.db.(inbox := s.db.inbox + {m});
      Inv(Returned(s, m)) && Inv(Returned(s.(db := db'), m)) && History(s.db, db')
  {
    hide Sound, Delivered, CacheValid;
    var db' := s.db.(inbox := s.db.inbox + {m});
    SoundIgnoresQueues(s.db, s.db.outbox, db'.inbox);
    QuietKeepsFaithful(s.db, db');
    ClaimKeepsDelivered(s.db, s.messages, s.workers, m);
    CacheIgnoresOtherCollections(s.db, db', s.cache);
  }

  lemma ConsumeKeeps(s: Sys, m: MessageId, duplicateReturns: bool)
    requires Inv(s)
    ensures Inv(DoConsume(s, m, duplicateReturns)) && History(s.db, DoConsume(s, m, duplicateReturns).db)
  {
    hide Inv, History;
    HistoryReflexive(s.db);
    if Consumable(s, m) {
      MessageFacts(s, m);
      if m !in s.db.inbox && s.db.transfers[s.messages[m].payload.transfer].status == Pending {
        CreditKeeps(s, m);
      } else {
        ClaimKeeps(s, m);
      }
    }
  }

  lemma RefundKeeps(s: Sys, t: TransferId, now: Time)
    requires Inv(s)
    ensures Inv(s.(db := Refund(s.db, t, now))) && History(s.db, Refund(s.db, t, now))
    ensures t < |s.db.transfers| ==> Refund(s.db, t, now).transfers[t].Terminal()
  {
    var db' := Refund(s.db, t, now);
    if t < |s.db.transfers| && s.db.transfers[t].status == Pending {
      var tr := s.db.transfers[t];
      assert WellFormed(s.db, tr);
      hide Sound, Delivered, CacheValid;
      var closed := tr.(status := Failed, lastSweptAt := Some(now));
      CloseKeepsSound(s.db, t, closed, RefundLeg(tr, t));
      assert db' == Close(s.db, t, closed, RefundLeg(tr, t));
      QuietKeepsFaithful(s.db, db');
      CommitKeepsDelivered(s.db, db', s.messages, s.workers);
      var before := s.db.(transfers := s.db.transfers[t := closed]);
      CacheIgnoresOtherCollections(s.db, before, s.cache);
      RefundPostKeepsCache(before, tr.from, tr.amount, t, s.cache);
    }
  }

  /** A sweep moves past an item it failed on, or past one that is now settled. */
  lemma AdvanceSweepKeeps(s: Sys, k: nat, run: SweepRun, ok: bool)
    requires Inv(s) && SweepValid(s.db, run) && run.pos < |run.picked|
    requires ok ==> s.db.transfers[run.picked[run.pos]].Terminal()
    ensures
      var run' := SweepRun(run.picked, run.pos + 1, if ok then run.errors else run.errors + 1);
      Inv(s.(workers := s.workers.(sweeps := s.workers.sweeps[k := run'])))
  {
    hide Sound, AllFaithful, CacheValid;
  }

  lemma SweepInHand(s: Sys, k: nat)
    requires Inv(s) && k in s.workers.sweeps
    ensures SweepValid(s.db, s.workers.sweeps[k])
  {
  }

  lemma SweepItemKeeps(s: Sys, k: nat, now: Time, commit: Call)
    requires Inv(s)
    ensures Inv(DoSweepItem(s, k, now, commit)) && History(s.db, DoSweepItem(s, k, now, commit).db)
  {
    hide Inv, History, Refund;
    HistoryReflexive(s.db);
    if k in s.workers.sweeps && s.workers.sweeps[k].pos < |s.workers.sweeps[k].picked| {
      var run := s.workers.sweeps[k];
      SweepInHand(s, k);
      var s1 := s;
      if !commit.FailedBefore? {
        RefundKeeps(s, run.picked[run.pos], now);
        s1 := s.(db := Refund(s.db, run.picked[run.pos], now));
        HistoryKeepsSweep(s.db, s1.db, run);
      }
      AdvanceSweepKeeps(s1, k, run, commit.Confirmed?);
    }
  }

  lemma SweepFetchKeeps(s: Sys, k: nat, cutoff: Time, picked: seq<TransferId>)
    requires Inv(s) && ValidPick(s.db.transfers, cutoff, picked)
    ensures Inv(DoSweepFetch(s, k, picked)) && History(s.db, DoSweepFetch(s, k, picked).db)
  {
  }

  lemma RelayUpdateKeepsDelivered(db: Db, messages: seq<Message>, workers: Workers, workers': Workers)
    requires Delivered(db, messages, workers)
    requires workers'.sweeps == workers.sweeps && workers'.returned == workers.returned
    requires forall r: nat :: r in workers'.relays ==>
      (r in workers.relays && workers'.relays[r] == workers.relays[r]) || RunValid(db, messages, workers'.relays[r])
    ensures Delivered(db, messages, workers')
  {
  }

  lemma EndRunKeeps(s: Sys, r: nat, ok: bool)
    requires Inv(s)
    ensures Inv(EndRun(s, r, ok))
  {
  }

  lemma FetchKeeps(s: Sys, r: nat)
    requires Inv(s)
    ensures Inv(DoFetch(s, r)) && History(s.db, DoFetch(s, r).db)
  {
    hide Sound, CacheValid, AllFaithful;
  }

  lemma PublishKeeps(s: Sys, r: nat, call: Call)
    requires Inv(s)
    ensures Inv(DoPublish(s, r, call)) && History(s.db, DoPublish(s, r, call).db)
  {
    hide Sound, CacheValid, AllFaithful;
    if CanPublish(s, r) {
      var run := s.workers.relays[r];
      assert RunValid(s.db, s.messages, run);
      var s1 := s;
      if !call.FailedBefore? {
        SendKeepsDelivered(s, run.batch[run.pos]);
        s1 := Send(s, run.batch[run.pos]);
      }
      assert Inv(s1);
      if call.Confirmed? {
        RelayUpdateKeepsDelivered(s1.db, s1.messages, s1.workers, DoPublish(s, r, call).workers);
      } else {
        EndRunKeeps(s1, r, false);
      }
    }
  }

  lemma MarkKeeps(s: Sys, r: nat, call: Call)
    requires Inv(s)
    ensures Inv(DoMark(s, r, call)) && History(s.db, DoMark(s, r, call).db)
  {
    if CanMark(s, r) {
      var run := s.workers.relays[r];
      var e := run.batch[run.pos];
      assert RunValid(s.db, s.messages, run);
      var s1 := s;
      if !call.FailedBefore? {
        s1 := s.(db := MarkPublished(s.db, e));
        MarkKeepsDelivered(s.db, s.messages, s.workers, e);
        SoundIgnoresQueues(s.db, s1.db.outbox, s.db.inbox);
        assert s1.db == s.db.(outbox := s1.db.outbox, inbox := s.db.inbox);
        QuietKeepsFaithful(s.db, s1.db);
        CacheIgnoresOtherCollections(s.db, s1.db, s.cache);
      }
      assert Inv(s1);
      if !call.Confirmed? || run.pos + 1 == |run.batch| {
        EndRunKeeps(s1, r, call.Confirmed?);
      } else {
        assert RunValid(s1.db, s1.messages, RelayRun(run.batch, run.pos + 1, false));
        RelayUpdateKeepsDelivered(s1.db, s1.messages, s1.workers, DoMark(s, r, call).workers);
      }
    }
  }

  lemma ExpireInboxKeeps(s: Sys, claims: set<MessageId>)
    requires Inv(s)
    ensures Inv(s.(db := s.db.(inbox := s.db.inbox - claims)))
  {
    var db' := s.db.(inbox := s.db.inbox - claims);
    SoundIgnoresQueues(s.db, s.db.outbox, db'.inbox);
    QuietKeepsFaithful(s.db, db');
    CommitKeepsDelivered(s.db, db', s.messages, s.workers);
    CacheIgnoresOtherCollections(s.db, db', s.cache);
  }

  lemma CrashKeeps(s: Sys, r: nat)
    requires Inv(s)
    ensures Inv(DoCrash(s, r)) && History(s.db, DoCrash(s, r).db)
  {
    EndRunKeeps(s, r, false);
  }

  lemma RelayStepKeeps(s: Sys, step: Step)
    requires Inv(s) && RelayOf(step).Some?
    ensures Inv(Apply(s, step)) && History(s.db, Apply(s, step).db)
  {
    hide Inv, History, DoFetch, DoPublish, DoMark, DoCrash;
    match step
    case RelayFetch(r) =>
      FetchKeeps(s, r);
      assert Apply(s, step) == DoFetch(s, r);
    case RelayPublish(r, call) =>
      PublishKeeps(s, r, call);
      assert Apply(s, step) == DoPublish(s, r, call);
    case RelayMark(r, call) =>
      MarkKeeps(s, r, call);
      assert Apply(s, step) == DoMark(s, r, call);
    case RelayCrash(r) =>
      CrashKeeps(s, r);
      assert Apply(s, step) == DoCrash(s, r);
  }

  lemma AckKeeps(s: Sys, m: MessageId)
    requires Inv(s)
    ensures Inv(DoAck(s, m)) && History(s.db, DoAck(s, m).db)
  {
    if m < |s.messages| && m in s.workers.returned {
      AckKeepsDelivered(s, m);
    }
  }

  lemma ConsumerStepKeeps(s: Sys, step: Step)
    requires Inv(s) && (step.Consume? || step.Ack?)
    ensures Inv(Apply(s, step)) && History(s.db, Apply(s, step).db)
  {
    hide Inv, History, DoConsume, DoAck;
    match step
    case Consume(m, d) =>
      ConsumeKeeps(s, m, d);
      assert Apply(s, step) == DoConsume(s, m, d);
    case Ack(m) =>
      AckKeeps(s, m);
      assert Apply(s, step) == DoAck(s, m);
  }

  lemma SweepStepKeeps(s: Sys, step: Step)
    requires Inv(s) && (step.SweepFetch? || step.SweepItem?)
    ensures Inv(Apply(s, step)) && History(s.db, Apply(s, step).db)
  {
    hide Inv, History, DoSweepFetch, DoSweepItem, ValidPick;
    HistoryReflexive(s.db);
    match step
    case SweepFetch(k, cutoff, picked) =>
      if k !in s.workers.sweeps && ValidPick(s.db.transfers, cutoff, picked) {
        SweepFetchKeeps(s, k, cutoff, picked);
        assert Apply(s, step) == DoSweepFetch(s, k, picked);
      } else {
        assert Apply(s, step) == s;
      }
    case SweepItem(k, now, commit) =>
      SweepItemKeeps(s, k, now, commit);
      assert Apply(s, step) == DoSweepItem(s, k, now, commit);
  }

  lemma GetWalletKeeps(s: Sys, w: WalletId)
    requires Inv(s)
    ensures Inv(DoGetWallet(s, w)) && History(s.db, DoGetWallet(s, w).db)
  {
    if w < |s.db.wallets| {
      PutKeepsCache(s.db, w, s.cache);
    }
  }

  lemma ClientStepKeeps(s: Sys, step: Step)
    requires Inv(s) && ClientStep(step)
    ensures Inv(Apply(s, step)) && History(s.db, Apply(s, step).db)
  {
    hide Inv, History, DoDeposit, DoWithdraw, DoTransfer, DoGetWallet, CreateWallet;
    match step
    case ClientCreateWallet(u, o, c) => CreateWalletKeeps(s, u, o, c);
    case ClientDeposit(w, a, ref) =>
      DepositKeeps(s, w, a, ref);
      assert Apply(s, step) == DoDeposit(s, w, a, ref);
    case ClientWithdraw(w, a, ref) =>
      WithdrawKeeps(s, w, a, ref);
      assert Apply(s, step) == DoWithdraw(s, w, a, ref);
    case ClientTransfer(dto, now) =>
      TransferKeeps(s, dto, now);
      assert Apply(s, step) == DoTransfer(s, dto, now);
    case ClientGetWallet(w) =>
      GetWalletKeeps(s, w);
      assert Apply(s, step) == DoGetWallet(s, w);
  }

  lemma ExpiryStepKeeps(s: Sys, step: Step)
    requires Inv(s) && (step.ExpireInbox? || step.ExpireCache?)
    ensures Inv(Apply(s, step)) && History(s.db, Apply(s, step).db)
  {
    if step.ExpireInbox? {
      ExpireInboxKeeps(s, step.claims);
    }
  }

  lemma StepKeeps(s: Sys, step: Step)
    requires Inv(s)
    ensures Inv(Apply(s, step)) && History(s.db, Apply(s, step).db)
  {
    hide Inv, History, Apply;
    if ClientStep(step) {
      ClientStepKeeps(s, step);
    } else if RelayOf(step).Some? {
      RelayStepKeeps(s, step);
    } else if step.Consume? || step.Ack? {
      ConsumerStepKeeps(s, step);
    } else if step.SweepFetch? || step.SweepItem? {
      SweepStepKeeps(s, step);
    } else {
      ExpiryStepKeeps(s, step);
    }
  }

  /** The invariant holds after any steps, and no step undoes history. */
  lemma {:induction false} RunKeeps(s: Sys, steps: seq<Step>)
    requires Inv(s)
    ensures Inv(RunFrom(s, steps)) && History(s.db, RunFrom(s, steps).db)
  {
    hide Inv, History, Apply;
    HistoryReflexive(s.db);
    if |steps| > 0 {
      var n := |steps| - 1;
      var before := RunFrom(s, steps[..n]);
      RunKeeps(s, steps[..n]);
      StepKeeps(before, steps[n]);
      HistoryTransitive(s.db, before.db, Apply(before, steps[n]).db);
    }
  }

  lemma ReachableHolds(steps: seq<Step>)
    ensures Inv(Run(steps))
  {
    InitHolds();
    RunKeeps(INIT, steps);
  }
}
