/** The timeout sweeper: what an error-free sweep achieves in any interleaving, and how fast a
    backlog of stale transfers drains. */
module SweepProgress {
  import opened Domain
  import opened Database
  import opened Protocol
  import opened Settlement
  import opened Delivery
  import opened Invariant

  /** A pending transfer has never been swept, so only its age makes it stale. */
  lemma StaleByAge(steps: seq<Step>, t: TransferId, cutoff: Time)
    requires t < |Run(steps).db.transfers|
    ensures
      var tr := Run(steps).db.transfers[t];
      && (tr.status == Pending ==> tr.lastSweptAt.None?)
      && (IsStale(tr, cutoff) <==> tr.status == Pending && tr.createdAt < cutoff)
  {
    ReachableHolds(steps);
    assert WellFormed(Run(steps).db, Run(steps).db.transfers[t]);
  }

  predicate SweptCleanly(s: Sys, k: nat, picked: seq<TransferId>) {
    && k in s.workers.sweeps
    && s.workers.sweeps[k] == SweepRun(picked, |picked|, 0)
  }

  /** Once sweep `k` has gone through its list without an error, every transfer on the list is
      settled, whatever the consumer and other sweeps did in between. */
  lemma CleanSweepSettles(steps: seq<Step>, k: nat, picked: seq<TransferId>, t: TransferId)
    requires SweptCleanly(Run(steps), k, picked) && t in picked
    ensures t < |Run(steps).db.transfers| && Run(steps).db.transfers[t].Terminal()
  {
    ReachableHolds(steps);
    assert SweepValid(Run(steps).db, Run(steps).workers.sweeps[k]);
  }

  function StaleAt(transfers: seq<Transfer>, cutoff: Time): set<TransferId> {
    set t: TransferId | t < |transfers| && IsStale(transfers[t], cutoff)
  }

  /** One sweep amid other steps: it fetches `picked` at `cutoff`, then `steps` happen. */
  datatype Window = Window(sweep: nat, cutoff: Time, picked: seq<TransferId>, steps: seq<Step>)

  ghost function After(s: Sys, w: Window): Sys {
    RunFrom(s, [SweepFetch(w.sweep, w.cutoff, w.picked)] + w.steps)
  }

  /** The window's sweep starts at `s` and ends without an error, and nothing becomes stale
      by the next cutoff that was not stale when the sweep started. */
  ghost predicate CleanWindow(s: Sys, w: Window, next: Time) {
    && w.sweep !in s.workers.sweeps
    && w.cutoff <= next
    && ValidPick(s.db.transfers, w.cutoff, w.picked)
    && SweptCleanly(After(s, w), w.sweep, w.picked)
    && StaleAt(After(s, w).db.transfers, next) <= StaleAt(s.db.transfers, w.cutoff)
  }

  function Elements(s: seq<TransferId>): set<TransferId> {
    set t | t in s
  }

  lemma {:induction false} DistinctSize(s: seq<TransferId>)
    requires forall i, j :: 0 <= i < j < |s| ==> s[i] != s[j]
    ensures |Elements(s)| == |s|
  {
    if |s| > 0 {
      var n := |s| - 1;
      DistinctSize(s[..n]);
      assert Elements(s) == Elements(s[..n]) + {s[n]};
    }
  }

  lemma {:induction false} SubsetSize<T>(a: set<T>, b: set<T>)
    requires a <= b
    ensures |a| <= |b|
  {
    if a != {} {
      var x :| x in a;
      SubsetSize(a - {x}, b - {x});
    }
  }

  lemma PickSize(transfers: seq<Transfer>, cutoff: Time, picked: seq<TransferId>, left: set<TransferId>)
    requires ValidPick(transfers, cutoff, picked)
    requires left <= StaleAt(transfers, cutoff) - Elements(picked)
    ensures
      var before := |StaleAt(transfers, cutoff)|;
      |left| <= if before <= SWEEP_BATCH then 0 else before - SWEEP_BATCH
  {
    var stale := StaleAt(transfers, cutoff);
    var done := Elements(picked);
    assert done <= stale;
    SubsetSize(left, stale - done);
    if |picked| == SWEEP_BATCH {
      DistinctSize(picked);
    } else {
      assert stale - done == {};
    }
  }

  lemma AfterKeeps(s: Sys, w: Window)
    requires Inv(s)
    ensures Inv(After(s, w)) && History(s.db, After(s, w).db)
  {
    RunKeeps(s, [SweepFetch(w.sweep, w.cutoff, w.picked)] + w.steps);
  }

  /** A clean window removes 100 stale transfers, or all of them. */
  lemma WindowDrains(s: Sys, w: Window, next: Time)
    requires Inv(s) && CleanWindow(s, w, next)
    ensures
      var before, after := |StaleAt(s.db.transfers, w.cutoff)|, |StaleAt(After(s, w).db.transfers, next)|;
      after <= if before <= SWEEP_BATCH then 0 else before - SWEEP_BATCH
  {
    hide Apply, RunFrom, Sound, History, ValidPick;
    var s' := After(s, w);
    AfterKeeps(s, w);
    assert SweepValid(s'.db, s'.workers.sweeps[w.sweep]);
    PickSize(s.db.transfers, w.cutoff, w.picked, StaleAt(s'.db.transfers, next));
  }

  ghost function AfterAll(s: Sys, ws: seq<Window>): Sys
    decreases |ws|
  {
    if |ws| == 0 then s else AfterAll(After(s, ws[0]), ws[1..])
  }

  /** Windows one after the other, each clean; `next` is the cutoff at the end. */
  ghost predicate CleanWindows(s: Sys, ws: seq<Window>, next: Time)
    decreases |ws|
  {
    |ws| > 0 ==>
      && CleanWindow(s, ws[0], if |ws| == 1 then next else ws[1].cutoff)
      && CleanWindows(After(s, ws[0]), ws[1..], next)
  }

  lemma {:induction false} StaleSetDrains(s: Sys, ws: seq<Window>, next: Time)
    requires Inv(s) && |ws| > 0 && CleanWindows(s, ws, next)
    requires |StaleAt(s.db.transfers, ws[0].cutoff)| <= SWEEP_BATCH * |ws|
    ensures StaleAt(AfterAll(s, ws).db.transfers, next) == {}
    ensures Inv(AfterAll(s, ws)) && History(s.db, AfterAll(s, ws).db) && ws[0].cutoff <= next
    decreases |ws|
  {
    hide Inv, After, History, ValidPick;
    WindowDrains(s, ws[0], if |ws| == 1 then next else ws[1].cutoff);
    var s1 := After(s, ws[0]);
    AfterKeeps(s, ws[0]);
    if |ws| == 1 {
      assert AfterAll(s1, ws[1..]) == s1;
    } else {
      StaleSetDrains(s1, ws[1..], next);
      HistoryTransitive(s.db, s1.db, AfterAll(s, ws).db);
    }
  }

  /** While no further transfer becomes stale, `k` stale transfers are all settled after
      `ceil(k / 100)` clean sweeps. */
  lemma BacklogDrains(s: Sys, ws: seq<Window>, next: Time, t: TransferId)
    requires Inv(s) && |ws| > 0 && CleanWindows(s, ws, next)
    requires |StaleAt(s.db.transfers, ws[0].cutoff)| <= 100 * |ws|
    requires t in StaleAt(s.db.transfers, ws[0].cutoff)
    ensures t < |AfterAll(s, ws).db.transfers| && AfterAll(s, ws).db.transfers[t].Terminal()
  {
    hide CleanWindows, AfterAll;
    StaleSetDrains(s, ws, next);
    var s' := AfterAll(s, ws);
    assert Advances(s.db.transfers[t], s'.db.transfers[t]);
    assert t !in StaleAt(s'.db.transfers, next);
    assert WellFormed(s'.db, s'.db.transfers[t]);
  }
}
