/** What one actor's steps leave alone in the state of the others. */
module Interference {
  import opened Domain
  import opened Database
  import opened Protocol

  /** What every step other than a relay's leaves alone. */
  ghost predicate RelayUntouched(s: Sys, s': Sys) {
    && s'.workers.relays == s.workers.relays
    && s'.workers.aborted == s.workers.aborted
    && s'.workers.finished == s.workers.finished
    && |s'.messages| == |s.messages|
    && (forall m :: 0 <= m < |s.messages| ==> s'.messages[m].event == s.messages[m].event)
    && s.db.outbox <= s'.db.outbox
    && forall e :: |s.db.outbox| <= e < |s'.db.outbox| ==> !s'.db.outbox[e].published
  }

  lemma ClientsLeaveRelaysAlone(s: Sys, step: Step)
    requires ClientStep(step)
    ensures RelayUntouched(s, Apply(s, step)) && Apply(s, step).workers == s.workers
  {
    hide FindByKey;
  }

  lemma OthersLeaveRelaysAlone(s: Sys, step: Step)
    requires RelayOf(step).None?
    ensures RelayUntouched(s, Apply(s, step))
  {
    hide FindByKey, ValidPick;
    if ClientStep(step) {
      ClientsLeaveRelaysAlone(s, step);
    }
  }

  /** An instance's own run and its count of finished runs. */
  predicate SameRun(k: Workers, k': Workers, q: nat) {
    && FinishedRuns(k', q) == FinishedRuns(k, q)
    && (q in k'.relays <==> q in k.relays)
    && (q in k.relays ==> k'.relays[q] == k.relays[q])
  }

  /** No other actor, and no other instance, touches an instance's run or count. */
  lemma OthersLeaveRunAlone(s: Sys, step: Step, q: nat)
    requires RelayOf(step) != Some(q)
    ensures SameRun(s.workers, Apply(s, step).workers, q)
  {
    if RelayOf(step).None? {
      hide Apply;
      OthersLeaveRelaysAlone(s, step);
    } else {
      hide FindPending;
    }
  }

  predicate SameSweep(k: Workers, k': Workers, q: nat) {
    && (q in k'.sweeps <==> q in k.sweeps)
    && (q in k.sweeps ==> k'.sweeps[q] == k.sweeps[q])
  }

  lemma OthersLeaveSweepAlone(s: Sys, step: Step, q: nat)
    requires SweepOf(step) != Some(q)
    ensures SameSweep(s.workers, Apply(s, step).workers, q)
  {
    hide FindByKey, ValidPick, FindPending, Post;
    if ClientStep(step) {
      hide Apply;
      ClientsLeaveRelaysAlone(s, step);
    }
  }

  /** What no step of anyone takes back. */
  ghost predicate Grows(s: Sys, s': Sys) {
    && |s.db.transfers| <= |s'.db.transfers|
    && |s.db.outbox| <= |s'.db.outbox|
    && |s.messages| <= |s'.messages|
    && (forall m :: 0 <= m < |s.messages| ==> s'.messages[m].payload == s.messages[m].payload)
    && s.workers.returned <= s'.workers.returned
    && forall t :: 0 <= t < |s.db.transfers| && s.db.transfers[t].Terminal() ==> s'.db.transfers[t] == s.db.transfers[t]
  }

  lemma WorkersGrow(s: Sys, step: Step)
    requires !ClientStep(step)
    ensures Grows(s, Apply(s, step))
  {
    hide ValidPick, FindPending;
  }

  lemma StepGrows(s: Sys, step: Step)
    ensures Grows(s, Apply(s, step))
  {
    hide FindByKey;
    if !ClientStep(step) {
      hide Apply;
      WorkersGrow(s, step);
    }
  }

  lemma {:induction false} RunGrows(s: Sys, steps: seq<Step>)
    ensures Grows(s, RunFrom(s, steps))
  {
    hide Apply;
    if |steps| > 0 {
      var n := |steps| - 1;
      RunGrows(s, steps[..n]);
      StepGrows(RunFrom(s, steps[..n]), steps[n]);
    }
  }

  /** Steps of others while instance `q` has a run in hand. They may include further ticks of its
      own timer. */
  ghost predicate BesideRelay(steps: seq<Step>, q: nat) {
    forall i :: 0 <= i < |steps| ==> RelayOf(steps[i]) != Some(q) || steps[i] == RelayFetch(q)
  }

  /** The `running` flag keeps the run in hand from an overlapping tick. */
  lemma {:induction false} RunStaysInHand(s: Sys, steps: seq<Step>, q: nat)
    requires q in s.workers.relays && BesideRelay(steps, q)
    ensures SameRun(s.workers, RunFrom(s, steps).workers, q)
  {
    if |steps| > 0 {
      var n := |steps| - 1;
      RunStaysInHand(s, steps[..n], q);
      var mid := RunFrom(s, steps[..n]);
      if steps[n] == RelayFetch(q) {
        assert Apply(mid, steps[n]) == mid;
      } else {
        hide Apply;
        OthersLeaveRunAlone(mid, steps[n], q);
      }
    }
  }

  ghost predicate BesideSweep(steps: seq<Step>, q: nat) {
    forall i :: 0 <= i < |steps| ==> SweepOf(steps[i]) != Some(q)
  }

  lemma {:induction false} SweepStaysInHand(s: Sys, steps: seq<Step>, q: nat)
    requires BesideSweep(steps, q)
    ensures SameSweep(s.workers, RunFrom(s, steps).workers, q)
  {
    hide Apply;
    if |steps| > 0 {
      var n := |steps| - 1;
      SweepStaysInHand(s, steps[..n], q);
      OthersLeaveSweepAlone(RunFrom(s, steps[..n]), steps[n], q);
    }
  }
}
