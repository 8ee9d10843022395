/** The order of publication and the number of duplicate publishes, with any number of relay
    instances, failures and crashes. */
module RelayOrder {
  import opened Domain
  import opened Sums
  import opened Database
  import opened Protocol
  import opened Interference
  import opened Delivery
  import opened Invariant

  function IsPublished(): OutboxEvent -> int {
    (e: OutboxEvent) => if e.published then 1 else 0
  }

  function PublishedCount(outbox: seq<OutboxEvent>): int {
    Sum(outbox, IsPublished())
  }

  ghost predicate Prefix(outbox: seq<OutboxEvent>, n: nat) {
    && n <= |outbox|
    && forall e :: 0 <= e < |outbox| ==> (outbox[e].published <==> e < n)
  }

  lemma {:induction false} PrefixCount(outbox: seq<OutboxEvent>, n: nat)
    requires Prefix(outbox, n)
    ensures PublishedCount(outbox) == n
  {
    if |outbox| > 0 {
      var last := |outbox| - 1;
      PrefixCount(outbox[..last], if n <= last then n else last);
    }
  }

  /** With the published events a prefix of length `n`, the batch is the next `limit` events. */
  lemma {:induction false} BatchIsNext(outbox: seq<OutboxEvent>, i: nat, limit: nat, n: nat)
    requires Prefix(outbox, n) && i <= |outbox|
    ensures
      var from := if i < n then n else i;
      var batch := PendingFrom(outbox, i, limit);
      && |batch| == (if limit < |outbox| - from then limit else |outbox| - from)
      && forall j :: 0 <= j < |batch| ==> batch[j] == from + j
    decreases |outbox| - i
  {
    if i < |outbox| && limit > 0 {
      BatchIsNext(outbox, i + 1, if outbox[i].published then limit else limit - 1, n);
    }
  }

  /** A run lists consecutive events, and those before its position are among the `n` published ones. */
  predicate Consecutive(run: RelayRun, n: nat, size: nat) {
    && run.pos < |run.batch|
    && run.batch[0] + run.pos <= n
    && run.batch[0] + |run.batch| <= size
    && forall j :: 0 <= j < |run.batch| ==> run.batch[j] == run.batch[0] + j
  }

  /** `n` events are published and they are the oldest ones, and every run continues from them. */
  ghost predicate Ordered(s: Sys, n: nat) {
    && Prefix(s.db.outbox, n)
    && forall r: nat :: r in s.workers.relays ==> Consecutive(s.workers.relays[r], n, |s.db.outbox|)
  }

  lemma OthersKeepOrdered(s: Sys, s': Sys, n: nat)
    requires Ordered(s, n) && RelayUntouched(s, s')
    ensures Ordered(s', n)
  {
  }

  lemma FetchKeepsOrdered(s: Sys, n: nat, r: nat)
    requires Ordered(s, n)
    ensures Ordered(DoFetch(s, r), n)
  {
    BatchIsNext(s.db.outbox, 0, RELAY_BATCH, n);
  }

  lemma PublishKeepsOrdered(s: Sys, n: nat, r: nat, call: Call)
    requires Ordered(s, n)
    ensures Ordered(DoPublish(s, r, call), n)
  {
  }

  /** The event marked is the oldest pending one, or another instance has marked it before. */
  lemma MarkKeepsOrdered(s: Sys, n: nat, r: nat, call: Call) returns (n': nat)
    requires Ordered(s, n)
    ensures n <= n' && Ordered(DoMark(s, r, call), n')
  {
    n' := n;
    if CanMark(s, r) && !call.FailedBefore? {
      var run := s.workers.relays[r];
      assert run.batch[run.pos] == run.batch[0] + run.pos;
      n' := if run.batch[run.pos] == n then n + 1 else n;
    }
  }

  lemma CrashKeepsOrdered(s: Sys, n: nat, r: nat)
    requires Ordered(s, n)
    ensures Ordered(DoCrash(s, r), n)
  {
  }

  lemma StepKeepsOrdered(s: Sys, step: Step, n: nat) returns (n': nat)
    requires Ordered(s, n)
    ensures n <= n' && Ordered(Apply(s, step), n')
  {
    hide Ordered, DoFetch, DoPublish, DoMark, DoCrash, RelayUntouched;
    n' := n;
    match step
    case RelayFetch(r) =>
      FetchKeepsOrdered(s, n, r);
      assert Apply(s, step) == DoFetch(s, r);
    case RelayPublish(r, call) =>
      PublishKeepsOrdered(s, n, r, call);
      assert Apply(s, step) == DoPublish(s, r, call);
    case RelayMark(r, call) =>
      n' := MarkKeepsOrdered(s, n, r, call);
      assert Apply(s, step) == DoMark(s, r, call);
    case RelayCrash(r) =>
      CrashKeepsOrdered(s, n, r);
      assert Apply(s, step) == DoCrash(s, r);
    case _ =>
      OthersLeaveRelaysAlone(s, step);
      OthersKeepOrdered(s, Apply(s, step), n);
  }

  /** Before any copy of an event, every older event has been published at least once. */
  ghost predicate FirstCopiesInOrder(messages: seq<Message>) {
    forall m, e :: 0 <= m < |messages| && 0 <= e < messages[m].event ==> Sent(messages[..m], e)
  }

  lemma SameEventsKeepOrder(messages: seq<Message>, messages': seq<Message>)
    requires FirstCopiesInOrder(messages) && |messages'| == |messages|
    requires forall m :: 0 <= m < |messages| ==> messages'[m].event == messages[m].event
    ensures FirstCopiesInOrder(messages')
  {
    forall m, e | 0 <= m < |messages'| && 0 <= e < messages'[m].event ensures Sent(messages'[..m], e) {
      assert Sent(messages[..m], e);
      var i :| 0 <= i < m && messages[..m][i].event == e;
      assert messages'[..m][i].event == e;
    }
  }

  lemma SendKeepsOrder(s: Sys, e: EventId)
    requires FirstCopiesInOrder(s.messages) && e < |s.db.outbox|
    requires forall d :: 0 <= d < e ==> Sent(s.messages, d)
    ensures FirstCopiesInOrder(Send(s, e).messages)
  {
    var messages' := Send(s, e).messages;
    forall m, d | 0 <= m < |messages'| && 0 <= d < messages'[m].event ensures Sent(messages'[..m], d) {
      assert messages'[..m] == s.messages[..m];
      assert s.messages[..|s.messages|] == s.messages;
    }
  }

  lemma PublishKeepsFirstCopies(s: Sys, n: nat, r: nat, call: Call)
    requires Inv(s) && Ordered(s, n) && FirstCopiesInOrder(s.messages)
    ensures FirstCopiesInOrder(DoPublish(s, r, call).messages)
  {
    if CanPublish(s, r) && !call.FailedBefore? {
      var run := s.workers.relays[r];
      var e := run.batch[run.pos];
      assert e == run.batch[0] + run.pos;
      PublishedWasSent(s, n);
      SendKeepsOrder(s, e);
    }
  }

  lemma PublishedWasSent(s: Sys, n: nat)
    requires Inv(s) && Prefix(s.db.outbox, n)
    ensures forall d :: 0 <= d < n ==> Sent(s.messages, d)
  {
  }

  lemma StepKeepsFirstCopies(s: Sys, step: Step, n: nat)
    requires Inv(s) && Ordered(s, n) && FirstCopiesInOrder(s.messages)
    ensures FirstCopiesInOrder(Apply(s, step).messages)
  {
    hide Inv, Ordered, DoPublish, FirstCopiesInOrder;
    if step.RelayPublish? {
      PublishKeepsFirstCopies(s, n, step.relay, step.call);
      assert Apply(s, step) == DoPublish(s, step.relay, step.call);
    } else if RelayOf(step).None? {
      hide Apply;
      OthersLeaveRelaysAlone(s, step);
      SameEventsKeepOrder(s.messages, Apply(s, step).messages);
    } else {
      hide FindPending;
      assert Apply(s, step).messages == s.messages;
    }
  }

  function Flag(s: Sys, r: nat): nat {
    if r in s.workers.relays && s.workers.relays[r].sent then 1 else 0
  }

  /** How many of the instances `0` to `k - 1` are between publishing an item and marking it. */
  function InHand(s: Sys, k: nat): nat {
    if k == 0 then 0 else InHand(s, k - 1) + Flag(s, k - 1)
  }

  /** The publishes that are marked or in hand, where `marks[r]` counts the marks of instance `r`. */
  function Due(s: Sys, marks: seq<nat>): nat {
    if |marks| == 0 then 0
    else
      var k := |marks| - 1;
      Due(s, marks[..k]) + marks[k] + Flag(s, k)
  }

  lemma {:induction false} DueChanges(s: Sys, s': Sys, marks: seq<nat>, r: nat, c: nat)
    requires forall q: nat :: q != r ==> Flag(s', q) == Flag(s, q)
    ensures r >= |marks| ==> Due(s', marks) == Due(s, marks)
    ensures r < |marks| ==> Due(s', marks[r := c]) == Due(s, marks) + c + Flag(s', r) - marks[r] - Flag(s, r)
  {
    if |marks| > 0 {
      var k := |marks| - 1;
      DueChanges(s, s', marks[..k], r, c);
      if r < k {
        assert marks[r := c][..k] == marks[..k][r := c];
      } else if r == k {
        assert marks[r := c][..k] == marks[..k];
      }
    }
  }

  lemma {:induction false} DueBound(s: Sys, marks: seq<nat>, n: nat)
    requires forall r :: 0 <= r < |marks| ==> marks[r] <= n
    ensures Due(s, marks) <= |marks| * n + InHand(s, |marks|)
  {
    if |marks| > 0 {
      DueBound(s, marks[..|marks| - 1], n);
    }
  }

  /** Each instance marks an event at most once, and every publish is marked, in hand, or paid for
      by an aborted run. */
  ghost predicate Accounted(s: Sys, n: nat, marks: seq<nat>) {
    && (forall r: nat :: r in s.workers.relays ==> r < |marks| && s.workers.relays[r].pos < |s.workers.relays[r].batch|)
    && (forall r: nat :: r < |marks| ==> marks[r] <= Reach(s, n, r))
    && |s.messages| <= Due(s, marks) + s.workers.aborted
  }

  /** Up to where instance `r` may have marked events. */
  function Reach(s: Sys, n: nat, r: nat): nat {
    if r in s.workers.relays && |s.workers.relays[r].batch| > 0
    then s.workers.relays[r].batch[0] + s.workers.relays[r].pos else n
  }

  lemma OwnStepKeepsAccounted(s: Sys, s': Sys, n: nat, n': nat, marks: seq<nat>, r: nat, c: nat)
    requires Accounted(s, n, marks) && n <= n' && r < |marks|
    requires s'.workers.relays - {r} == s.workers.relays - {r}
    requires r in s'.workers.relays ==> s'.workers.relays[r].pos < |s'.workers.relays[r].batch|
    requires c <= Reach(s', n', r)
    requires
      |s'.messages| + marks[r] + Flag(s, r) + s.workers.aborted <= |s.messages| + c + Flag(s', r) + s'.workers.aborted
    ensures Accounted(s', n', marks[r := c])
  {
    forall q: nat | q != r ensures (q in s'.workers.relays <==> q in s.workers.relays) && Flag(s', q) == Flag(s, q)
      && (q in s.workers.relays ==> s'.workers.relays[q] == s.workers.relays[q])
    {
      assert q in s'.workers.relays <==> q in s'.workers.relays - {r};
      assert q in s.workers.relays <==> q in s.workers.relays - {r};
      if q in s.workers.relays {
        assert (s'.workers.relays - {r})[q] == (s.workers.relays - {r})[q];
      }
    }
    DueChanges(s, s', marks, r, c);
  }

  lemma OthersKeepAccounted(s: Sys, s': Sys, n: nat, marks: seq<nat>)
    requires Accounted(s, n, marks) && RelayUntouched(s, s')
    ensures Accounted(s', n, marks)
  {
    DueChanges(s, s', marks, |marks|, 0);
  }

  lemma FetchKeepsAccounted(s: Sys, n: nat, marks: seq<nat>, r: nat)
    requires Ordered(s, n) && Accounted(s, n, marks) && r < |marks|
    ensures Accounted(DoFetch(s, r), n, marks)
  {
    BatchIsNext(s.db.outbox, 0, RELAY_BATCH, n);
    hide PendingFrom, Due;
    if r !in s.workers.relays {
      OwnStepKeepsAccounted(s, DoFetch(s, r), n, n, marks, r, marks[r]);
      assert marks[r := marks[r]] == marks;
    }
  }

  lemma PublishKeepsAccounted(s: Sys, n: nat, marks: seq<nat>, r: nat, call: Call)
    requires Ordered(s, n) && Accounted(s, n, marks) && r < |marks|
    ensures Accounted(DoPublish(s, r, call), n, marks)
  {
    hide Due;
    if CanPublish(s, r) {
      OwnStepKeepsAccounted(s, DoPublish(s, r, call), n, n, marks, r, marks[r]);
      assert marks[r := marks[r]] == marks;
    }
  }

  lemma MarkKeepsAccounted(s: Sys, n: nat, n': nat, marks: seq<nat>, r: nat, call: Call) returns (marks': seq<nat>)
    requires Ordered(s, n) && Accounted(s, n, marks) && r < |marks|
    requires n <= n' && Ordered(DoMark(s, r, call), n')
    ensures |marks'| == |marks| && Accounted(DoMark(s, r, call), n', marks')
  {
    hide Due;
    var s' := DoMark(s, r, call);
    marks' := marks;
    if CanMark(s, r) {
      var run := s.workers.relays[r];
      assert run.batch[run.pos] == run.batch[0] + run.pos;
      marks' := marks[r := if call.Confirmed? then marks[r] + 1 else marks[r]];
      assert call.Confirmed? ==> s'.db.outbox[run.batch[run.pos]].published;
      OwnStepKeepsAccounted(s, s', n, n', marks, r, marks'[r]);
    } else {
      MoreIsAccounted(s, n, n', marks);
    }
  }

  lemma MoreIsAccounted(s: Sys, n: nat, n': nat, marks: seq<nat>)
    requires Accounted(s, n, marks) && n <= n'
    ensures Accounted(s, n', marks)
  {
  }

  lemma CrashKeepsAccounted(s: Sys, n: nat, marks: seq<nat>, r: nat)
    requires Ordered(s, n) && Accounted(s, n, marks) && r < |marks|
    ensures Accounted(DoCrash(s, r), n, marks)
  {
    hide Due;
    if r in s.workers.relays {
      OwnStepKeepsAccounted(s, DoCrash(s, r), n, n, marks, r, marks[r]);
      assert marks[r := marks[r]] == marks;
    }
  }

  lemma StepKeepsAccounted(s: Sys, step: Step, n: nat, n': nat, marks: seq<nat>) returns (marks': seq<nat>)
    requires Ordered(s, n) && Accounted(s, n, marks)
    requires RelayOf(step).Some? ==> RelayOf(step).value < |marks|
    requires n <= n' && Ordered(Apply(s, step), n')
    ensures |marks'| == |marks| && Accounted(Apply(s, step), n', marks')
  {
    hide Ordered, Accounted, DoFetch, DoPublish, DoMark, DoCrash, RelayUntouched;
    if step.RelayMark? {
      assert Apply(s, step) == DoMark(s, step.relay, step.call);
      marks' := MarkKeepsAccounted(s, n, n', marks, step.relay, step.call);
    } else {
      marks' := marks;
      match step {
        case RelayFetch(r) =>
          FetchKeepsAccounted(s, n, marks, r);
          assert Apply(s, step) == DoFetch(s, r);
        case RelayPublish(r, call) =>
          PublishKeepsAccounted(s, n, marks, r, call);
          assert Apply(s, step) == DoPublish(s, r, call);
        case RelayCrash(r) =>
          CrashKeepsAccounted(s, n, marks, r);
          assert Apply(s, step) == DoCrash(s, r);
        case _ =>
          OthersLeaveRelaysAlone(s, step);
          OthersKeepAccounted(s, Apply(s, step), n, marks);
      }
      MoreIsAccounted(Apply(s, step), n, n', marks);
    }
  }

  /** Only the instances `0` to `k - 1` relay. */
  ghost predicate Instances(steps: seq<Step>, k: nat) {
    forall i :: 0 <= i < |steps| && RelayOf(steps[i]).Some? ==> RelayOf(steps[i]).value < k
  }

  lemma {:induction false} RunKeepsOrdered(steps: seq<Step>, k: nat) returns (n: nat, marks: seq<nat>)
    ensures Ordered(Run(steps), n) && FirstCopiesInOrder(Run(steps).messages)
    ensures |marks| == k && (Instances(steps, k) ==> Accounted(Run(steps), n, marks))
  {
    if |steps| == 0 {
      n, marks := 0, seq(k, _ => 0);
    } else {
      hide Apply, Ordered, Accounted, FirstCopiesInOrder, Inv;
      var last := |steps| - 1;
      var before, step := Run(steps[..last]), steps[last];
      var n0, marks0 := RunKeepsOrdered(steps[..last], k);
      ReachableHolds(steps[..last]);
      n := StepKeepsOrdered(before, step, n0);
      StepKeepsFirstCopies(before, step, n0);
      marks := marks0;
      if Instances(steps, k) {
        marks := StepKeepsAccounted(before, step, n0, n, marks0);
      }
    }
  }

  /** Events are published in enqueue order, whatever runs fail or crash and however many instances
      overlap: the published events are always the oldest ones, and the first copies of messages
      come in the same order. */
  lemma PublishedInOrder(steps: seq<Step>) returns (n: nat)
    ensures Prefix(Run(steps).db.outbox, n)
    ensures FirstCopiesInOrder(Run(steps).messages)
  {
    var marks;
    n, marks := RunKeepsOrdered(steps, 0);
  }

  /** With `k` instances, every publish beyond `k` for each published event is paid for by an
      aborted run, or is one whose mark is still to come. */
  lemma DuplicateBound(steps: seq<Step>, k: nat)
    requires Instances(steps, k)
    ensures
      var s := Run(steps);
      |s.messages| <= k * PublishedCount(s.db.outbox) + s.workers.aborted + InHand(s, k)
  {
    hide Run, Due, InHand;
    var n, marks := RunKeepsOrdered(steps, k);
    var s := Run(steps);
    PrefixCount(s.db.outbox, n);
    assert forall r :: 0 <= r < k ==> Reach(s, n, r) <= n;
    DueBound(s, marks, n);
  }
}
