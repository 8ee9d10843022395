/** The settlement protocol as a state machine: client requests, any number of relay instances,
    the broker, the consumer, any number of sweeps, and expiry, interleaved step by step.

    A step that its actor cannot take leaves the state unchanged, so every sequence of steps
    is a run. */
module Protocol {
  import opened Domain
  import opened Database

  /** `mark` is the number of transactions committed when the value was written. */
  datatype Cached = Cached(balance: int, mark: nat)

  /** A relay run that holds its `running` flag. `sent` holds between publishing `batch[pos]`
      and marking it. */
  datatype RelayRun = RelayRun(batch: seq<EventId>, pos: nat, sent: bool)

  /** One call of the sweep: the list fetched, how much of it was tried, and how many tries failed. */
  datatype SweepRun = SweepRun(picked: seq<TransferId>, pos: nat, errors: nat)

  /** `returned` holds the deliveries whose closure went through, which may be acked. `finished`
      counts each relay instance's runs that worked through their batch, `aborted` all other runs. */
  datatype Workers = Workers(
    relays: map<nat, RelayRun>, sweeps: map<nat, SweepRun>, returned: set<MessageId>,
    finished: map<nat, nat>, aborted: nat)

  function FinishedRuns(k: Workers, r: nat): nat {
    if r in k.finished then k.finished[r] else 0
  }

  datatype Sys = Sys(db: Db, messages: seq<Message>, cache: map<WalletId, Cached>, workers: Workers)

  const INIT := Sys(EMPTY, [], map[], Workers(map[], map[], {}, map[], 0))

  /** A remote call or a commit takes effect and returns, fails before taking effect, or takes
      effect and then reports an error. */
  datatype Call = Confirmed | FailedBefore | FailedAfter

  datatype Step =
    | ClientCreateWallet(userId: string, ownerName: string, currency: Option<string>)
    | ClientDeposit(wallet: WalletId, amount: Amount, reference: Option<string>)
    | ClientWithdraw(wallet: WalletId, amount: Amount, reference: Option<string>)
    | ClientTransfer(dto: TransferDto, now: Time)
    | ClientGetWallet(wallet: WalletId)
    | RelayFetch(relay: nat)
    | RelayPublish(relay: nat, call: Call)
    | RelayMark(relay: nat, call: Call)
    | RelayCrash(relay: nat)
    | Consume(message: MessageId, duplicateReturns: bool)
    | Ack(message: MessageId)
    | SweepFetch(sweep: nat, cutoff: Time, picked: seq<TransferId>)
    | SweepItem(sweep: nat, now: Time, commit: Call)
    | ExpireInbox(claims: set<MessageId>)
    | ExpireCache(wallets: set<WalletId>)

  predicate ClientStep(step: Step) {
    step.ClientCreateWallet? || step.ClientDeposit? || step.ClientWithdraw? || step.ClientTransfer? || step.ClientGetWallet?
  }

  /** The relay instance, or the sweep, that takes the step. */
  function RelayOf(step: Step): Option<nat> {
    match step
    case RelayFetch(r) => Some(r)
    case RelayPublish(r, _) => Some(r)
    case RelayMark(r, _) => Some(r)
    case RelayCrash(r) => Some(r)
    case _ => None
  }

  function SweepOf(step: Step): Option<nat> {
    match step
    case SweepFetch(k, _, _) => Some(k)
    case SweepItem(k, _, _) => Some(k)
    case _ => None
  }

  function CachePut(s: Sys, w: WalletId): Sys
    requires w < |s.db.wallets|
  {
    s.(cache := s.cache[w := Cached(s.db.wallets[w].balance, |s.db.transactions|)])
  }

  function DoDeposit(s: Sys, w: WalletId, amount: Amount, reference: Option<string>): Sys {
    var (db, r) := PostDeposit(s.db, w, amount, reference);
    if r.Ok? then CachePut(s.(db := db), w) else s
  }

  function DoWithdraw(s: Sys, w: WalletId, amount: Amount, reference: Option<string>): Sys {
    var (db, r) := PostWithdrawal(s.db, w, amount, reference);
    if r.Ok? then CachePut(s.(db := db), w) else s
  }

  function DoTransfer(s: Sys, dto: TransferDto, now: Time): Sys {
    if TransferError(s.db, dto).None? && FindByKey(s.db.transfers, dto.key).None?
    then CachePut(s.(db := OpenTransfer(s.db, dto, now)), dto.from)
    else s
  }

  function DoGetWallet(s: Sys, w: WalletId): Sys {
    if w < |s.db.wallets| && w !in s.cache then CachePut(s, w) else s
  }

  function Ended(k: Workers, r: nat, ok: bool): Workers {
    k.(relays := k.relays - {r},
       finished := if ok then k.finished[r := FinishedRuns(k, r) + 1] else k.finished,
       aborted := if ok then k.aborted else k.aborted + 1)
  }

  function EndRun(s: Sys, r: nat, ok: bool): Sys {
    s.(workers := Ended(s.workers, r, ok))
  }

  function SetRun(s: Sys, r: nat, run: RelayRun): Sys {
    s.(workers := s.workers.(relays := s.workers.relays[r := run]))
  }

  /** The `running` flag makes a second run of the same instance return at once. */
  function DoFetch(s: Sys, r: nat): Sys {
    if r in s.workers.relays then s
    else
      var batch := FindPending(s.db.outbox);
      if batch == [] then EndRun(s, r, true) else SetRun(s, r, RelayRun(batch, 0, false))
  }

  /** Every publish invents a fresh message id: the next position in the message history. */
  function Send(s: Sys, e: EventId): Sys
    requires e < |s.db.outbox|
  {
    var p := s.db.outbox[e].payload;
    s.(messages := s.messages + [Message(e, p, if MatchesTransferBinding(RoutingKey(p)) then Queued else Unrouted)])
  }

  predicate CanPublish(s: Sys, r: nat) {
    && r in s.workers.relays
    && var run := s.workers.relays[r];
    !run.sent && run.pos < |run.batch| && run.batch[run.pos] < |s.db.outbox|
  }

  function DoPublish(s: Sys, r: nat, call: Call): Sys {
    if !CanPublish(s, r) then s
    else
      var run := s.workers.relays[r];
      var s' := if call.FailedBefore? then s else Send(s, run.batch[run.pos]);
      if call.Confirmed? then SetRun(s', r, run.(sent := true)) else EndRun(s', r, false)
  }

  predicate CanMark(s: Sys, r: nat) {
    && r in s.workers.relays
    && var run := s.workers.relays[r];
    run.sent && run.pos < |run.batch| && run.batch[run.pos] < |s.db.outbox|
  }

  function DoMark(s: Sys, r: nat, call: Call): Sys {
    if !CanMark(s, r) then s
    else
      var run := s.workers.relays[r];
      var s' := if call.FailedBefore? then s else s.(db := MarkPublished(s.db, run.batch[run.pos]));
      if !call.Confirmed? then EndRun(s', r, false)
      else if run.pos + 1 == |run.batch| then EndRun(s', r, true)
      else SetRun(s', r, RelayRun(run.batch, run.pos + 1, false))
  }

  function DoCrash(s: Sys, r: nat): Sys {
    if r in s.workers.relays then EndRun(s, r, false) else s
  }

  function Returned(s: Sys, m: MessageId): Sys {
    s.(workers := s.workers.(returned := s.workers.returned + {m}))
  }

  function SetFate(s: Sys, m: MessageId, fate: Fate): Sys
    requires m < |s.messages|
  {
    s.(messages := s.messages[m := s.messages[m].(fate := fate)])
  }

  predicate Consumable(s: Sys, m: MessageId) {
    m < |s.messages| && !s.messages[m].fate.Unrouted? && s.messages[m].payload.TransferInitiated?
  }

  /** One delivery of a routed message. A copy still in a handler's hands may run after the
      message was acked, so the fate is not consulted. An error that says "not found" dead-letters
      the message; a duplicate inbox claim may or may not let the handler return. */
  function DoConsume(s: Sys, m: MessageId, duplicateReturns: bool): Sys {
    if !Consumable(s, m) then s
    else
      var p := s.messages[m].payload;
      var (db, outcome) := CompleteTransfer(s.db, m, p.transfer, p.to, p.amount);
      match outcome
      case Credited => Returned(CachePut(s.(db := db), p.to), m)
      case AlreadySettled => Returned(s.(db := db), m)
      case TransferMissing => Returned(s.(db := db), m)
      case DuplicateClaim => if duplicateReturns then Returned(s, m) else s
      case WalletMissing => SetFate(s, m, DeadLettered)
  }

  function DoAck(s: Sys, m: MessageId): Sys {
    if m < |s.messages| && m in s.workers.returned then SetFate(s, m, Acked) else s
  }

  function DoSweepFetch(s: Sys, k: nat, picked: seq<TransferId>): Sys {
    s.(workers := s.workers.(sweeps := s.workers.sweeps[k := SweepRun(picked, 0, 0)]))
  }

  function DoSweepItem(s: Sys, k: nat, now: Time, commit: Call): Sys {
    if k !in s.workers.sweeps || |s.workers.sweeps[k].picked| <= s.workers.sweeps[k].pos then s
    else
      var run := s.workers.sweeps[k];
      var run' := SweepRun(run.picked, run.pos + 1, if commit.Confirmed? then run.errors else run.errors + 1);
      s.(db := if commit.FailedBefore? then s.db else Refund(s.db, run.picked[run.pos], now),
         workers := s.workers.(sweeps := s.workers.sweeps[k := run']))
  }

  function Apply(s: Sys, step: Step): Sys {
    match step
    case ClientCreateWallet(u, o, c) => s.(db := CreateWallet(s.db, u, o, c))
    case ClientDeposit(w, a, ref) => DoDeposit(s, w, a, ref)
    case ClientWithdraw(w, a, ref) => DoWithdraw(s, w, a, ref)
    case ClientTransfer(dto, now) => DoTransfer(s, dto, now)
    case ClientGetWallet(w) => DoGetWallet(s, w)
    case RelayFetch(r) => DoFetch(s, r)
    case RelayPublish(r, call) => DoPublish(s, r, call)
    case RelayMark(r, call) => DoMark(s, r, call)
    case RelayCrash(r) => DoCrash(s, r)
    case Consume(m, d) => DoConsume(s, m, d)
    case Ack(m) => DoAck(s, m)
    case SweepFetch(k, cutoff, picked) =>
      if k !in s.workers.sweeps && ValidPick(s.db.transfers, cutoff, picked) then DoSweepFetch(s, k, picked) else s
    case SweepItem(k, now, commit) => DoSweepItem(s, k, now, commit)
    case ExpireInbox(claims) => s.(db := s.db.(inbox := s.db.inbox - claims))
    case ExpireCache(ws) => s.(cache := s.cache - ws)
  }

  function RunFrom(s: Sys, steps: seq<Step>): Sys {
    if |steps| == 0 then s else Apply(RunFrom(s, steps[..|steps| - 1]), steps[|steps| - 1])
  }

  function Run(steps: seq<Step>): Sys {
    RunFrom(INIT, steps)
  }

  lemma {:induction false} RunConcat(s: Sys, a: seq<Step>, b: seq<Step>)
    ensures RunFrom(s, a + b) == RunFrom(RunFrom(s, a), b)
  {
    hide Apply;
    if |b| == 0 {
      assert a + b == a;
    } else {
      var n := |b| - 1;
      var all := a + b;
      RunConcat(s, a, b[..n]);
      assert all[..|all| - 1] == a + b[..n] && all[|all| - 1] == b[n];
    }
  }

  lemma RunMore(steps: seq<Step>, more: seq<Step>)
    ensures Run(steps + more) == RunFrom(Run(steps), more)
  {
    RunConcat(INIT, steps, more);
  }

  lemma RunOne(s: Sys, step: Step)
    ensures RunFrom(s, [step]) == Apply(s, step)
  {
  }

  lemma RunTwo(s: Sys, a: Step, b: Step, rest: seq<Step>)
    ensures RunFrom(s, [a, b] + rest) == RunFrom(Apply(Apply(s, a), b), rest)
  {
    RunConcat(s, [a, b], rest);
    RunConcat(s, [a], [b]);
    assert [a] + [b] == [a, b];
    RunOne(s, a);
    RunOne(Apply(s, a), b);
  }

  lemma RunNone(s: Sys)
    ensures RunFrom(s, []) == s
  {
  }

  lemma RunFirst(s: Sys, a: Step, rest: seq<Step>)
    ensures RunFrom(s, [a] + rest) == RunFrom(Apply(s, a), rest)
  {
    RunConcat(s, [a], rest);
    RunOne(s, a);
  }

  lemma RunBefore(s: Sys, before: seq<Step>, step: Step, rest: seq<Step>)
    ensures RunFrom(s, before + [step] + rest) == RunFrom(Apply(RunFrom(s, before), step), rest)
  {
    hide Apply;
    assert before + [step] + rest == before + ([step] + rest);
    RunConcat(s, before, [step] + rest);
    RunFirst(RunFrom(s, before), step, rest);
  }
}
