/** Concrete runs: a retry that is refused, a stale cached balance, and a sweep that drains a backlog. */
module Examples {
  import opened Domain
  import opened Database
  import opened Protocol
  import opened Cache
  import opened SweepProgress

  const EXAMPLE_DTO := TransferDto(0, 1, 100, TextKey("k"))

  /** Two wallets; the first spends its whole deposit on a keyed transfer. */
  const EXAMPLE := [
    ClientCreateWallet("a", "A", None), ClientCreateWallet("b", "B", None),
    ClientDeposit(0, 100, None), ClientTransfer(EXAMPLE_DTO, 0)]

  lemma ExampleState()
    ensures
      var s := Run(EXAMPLE);
      && |s.db.wallets| == 2 && s.db.wallets[0].balance == 0
      && s.db.transfers == [Transfer(0, 1, 100, Pending, TextKey("k"), 0, None)]
      && s.cache == map[0 := Cached(0, 2)]
      && s.workers == INIT.workers
  {
    var s1 := Apply(INIT, EXAMPLE[0]);
    var s2 := Apply(s1, EXAMPLE[1]);
    var s3 := Apply(s2, EXAMPLE[2]);
    RunSteps4(INIT, EXAMPLE);
    assert |s2.db.wallets| == 2 && s2.db.wallets[0] == Wallet("a", "A", "GHS", 0) && s2.db.wallets[1] == Wallet("b", "B", "GHS", 0);
    assert s3.db.wallets[0].balance == 100 && s3.db.wallets[1] == s2.db.wallets[1];
    assert FindByKey(s3.db.transfers, TextKey("k")).None?;
    assert TransferError(s3.db, EXAMPLE_DTO).None?;
  }

  lemma RunSteps4(s: Sys, steps: seq<Step>)
    requires |steps| == 4
    ensures RunFrom(s, steps) == Apply(Apply(Apply(Apply(s, steps[0]), steps[1]), steps[2]), steps[3])
  {
    hide Apply;
    RunTwo(s, steps[0], steps[1], steps[2..]);
    assert [steps[0], steps[1]] + steps[2..] == steps;
    RunTwo(Apply(Apply(s, steps[0]), steps[1]), steps[2], steps[3], []);
    assert [steps[2], steps[3]] + [] == steps[2..];
  }

  /** Retrying with the same key is not always safe to call a success: here the transfer exists,
      and the identical retry is told the balance is insufficient. */
  lemma RetryCanFail()
    ensures
      var s := Run(EXAMPLE);
      && s.db.transfers == [Transfer(0, 1, 100, Pending, TextKey("k"), 0, None)]
      && RequestTransfer(s.db, EXAMPLE_DTO, 1) == (s.db, Err(InsufficientBalance))
  {
    ExampleState();
  }

  const EXAMPLE_SWEEP := [SweepFetch(0, 1, [0]), SweepItem(0, 1, Confirmed)]

  lemma SweepExample(s: Sys)
    requires |s.db.wallets| == 2 && s.db.wallets[0].balance == 0 && s.workers == INIT.workers
    requires s.db.transfers == [Transfer(0, 1, 100, Pending, TextKey("k"), 0, None)]
    ensures
      var s' := DoSweepItem(DoSweepFetch(s, 0, [0]), 0, 1, Confirmed);
      && |s'.db.wallets| == 2 && s'.db.wallets[0].balance == 100 && s'.cache == s.cache
      && |s'.db.transfers| == 1 && s'.db.transfers[0].Terminal()
      && SweptCleanly(s', 0, [0])
    ensures ValidPick(s.db.transfers, 1, [0])
  {
  }

  /** After the sweeper refunds the example's transfer, the reported balance is stale. */
  lemma CachedBalanceCanBeStale()
    ensures
      var s := Run(EXAMPLE + EXAMPLE_SWEEP);
      && |s.db.wallets| == 2
      && s.db.wallets[0].balance == 100
      && ReportedBalance(s, 0) == 0
  {
    var s := Run(EXAMPLE);
    var s1 := DoSweepFetch(s, 0, [0]);
    ExampleState();
    SweepExample(s);
    assert Apply(s, SweepFetch(0, 1, [0])) == s1;
    assert Apply(s1, SweepItem(0, 1, Confirmed)) == DoSweepItem(s1, 0, 1, Confirmed);
    hide Apply, DoSweepItem, DoSweepFetch, ValidPick;
    RunConcat(INIT, EXAMPLE, EXAMPLE_SWEEP);
    RunTwo(s, SweepFetch(0, 1, [0]), SweepItem(0, 1, Confirmed), []);
    assert EXAMPLE_SWEEP + [] == EXAMPLE_SWEEP;
  }

  const EXAMPLE_WINDOW := Window(0, 1, [0], [SweepItem(0, 1, Confirmed)])

  /** The same sweep is a clean window, and it empties the backlog of one. */
  lemma CleanSweepHappens()
    ensures StaleAt(Run(EXAMPLE).db.transfers, EXAMPLE_WINDOW.cutoff) == {0}
    ensures CleanWindows(Run(EXAMPLE), [EXAMPLE_WINDOW], 1)
    ensures StaleAt(After(Run(EXAMPLE), EXAMPLE_WINDOW).db.transfers, 1) == {}
  {
    var s := Run(EXAMPLE);
    var s1 := DoSweepFetch(s, 0, [0]);
    ExampleState();
    SweepExample(s);
    assert Apply(s, SweepFetch(0, 1, [0])) == s1;
    assert Apply(s1, SweepItem(0, 1, Confirmed)) == DoSweepItem(s1, 0, 1, Confirmed);
    hide Apply, DoSweepItem, DoSweepFetch, Run;
    RunTwo(s, SweepFetch(0, 1, [0]), SweepItem(0, 1, Confirmed), []);
    assert [SweepFetch(0, 1, [0])] + [SweepItem(0, 1, Confirmed)] == [SweepFetch(0, 1, [0]), SweepItem(0, 1, Confirmed)] + [];
    RunNone(After(s, EXAMPLE_WINDOW));
    assert [EXAMPLE_WINDOW][1..] == [];
  }
}
