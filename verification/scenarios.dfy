/** The registry's end-to-end behaviour on a logger and a grading service
    that depends on it. */
module Scenarios {
  import opened Records
  import opened Patches
  import opened Membership
  import opened Heartbeat

  const Logger := Registration(LoggerService, "L", [], "LU", "LH")
  const Grading := Registration(GradeService, "G", [LoggerService], "U", "GH")
  const Everyone: set<string> := {"LU", "U"}

  function BothRegistered(): Store {
    Appended(Appended(Store([], []), Logger, Everyone), Grading, Everyone)
  }

  /** Registering the logger and then the grading service seeds the logger with an
      empty patch and the grading service with the logger's entry; neither arrival is
      pushed anywhere else. */
  lemma RegisterLoggerThenGrading()
    ensures BothRegistered().registrations == [Logger, Grading]
    ensures BothRegistered().outbox ==
            [Send("LU", Patch([], [])), Send("U", Patch([PatchEntry(LoggerService, "L")], []))]
  {
    assert GradeService != LoggerService by { assert GradeService[0] != LoggerService[0]; }
    assert [Logger][..0] == [];
    assert SeedEntries([Logger], []) == [];
    assert FanOut([Logger], Patch([EntryOf(Logger)], []), Everyone) == [];
    var one := Appended(Store([], []), Logger, Everyone);
    assert one.registrations == [Logger];
    assert one.outbox == [Send("LU", Patch([], []))];
    var both := [Logger, Grading];
    assert both[..1] == [Logger] && both == one.registrations + [Grading];
    assert ConsumerSends([LoggerService], Patch([EntryOf(Grading)], []), "U", true) == [] by {
      assert [EntryOf(Grading)][..0] == [];
      assert Filter([EntryOf(Grading)], LoggerService) == [];
    }
    assert FanOut([Logger], Patch([EntryOf(Grading)], []), Everyone) == [];
    assert "U" in Everyone;
    assert FanOut(both, Patch([EntryOf(Grading)], []), Everyone) == [];
    assert SeedEntries(both, Grading.requiredServices) == [EntryOf(Logger)] by {
      assert [LoggerService][..0] == [];
      assert SeedFor(Grading, [LoggerService]) == [];
      assert SeedFor(Logger, [LoggerService]) == [EntryOf(Logger)];
      assert SeedEntries([Logger], [LoggerService]) == [EntryOf(Logger)];
    }
  }

  /** Evicting the logger leaves only the grading service stored and pushes
      the logger's removal to it. */
  lemma EvictLogger()
    ensures var after := Replay(BothRegistered(), [RemoveCall("L")], Everyone);
      after.registrations == [Grading] &&
      after.outbox == BothRegistered().outbox + [Send("U", Patch([], [PatchEntry(LoggerService, "L")]))]
  {
    RegisterLoggerThenGrading();
    var st := BothRegistered();
    assert FirstMatch(st.registrations, "L") == Some(0);
    assert [Logger, Grading][..1] == [Logger] && [Logger][..0] == [];
    var gone := Patch([], [EntryOf(Logger)]);
    assert FanOut([Logger], gone, Everyone) == [];
    assert FilterPatch(gone, LoggerService) == gone by {
      assert [EntryOf(Logger)][..0] == [];
    }
    assert ConsumerSends([LoggerService], gone, "U", true) == [Send("U", gone)];
    assert FanOut(st.registrations, gone, Everyone) == [Send("U", gone)];
  }

  /** A heartbeat round in which every probe of the logger fails evicts it
      and pushes its removal to the grading service. */
  lemma LoggerEvicted()
    ensures var round := PlannedRound(Logger, [false, false, false], true);
      var after := Replay(BothRegistered(), round.calls, Everyone);
      round.probes == 3 &&
      after.registrations == [Grading] &&
      after.outbox == BothRegistered().outbox + [Send("U", Patch([], [PatchEntry(LoggerService, "L")]))]
  {
    assert PlannedRound(Logger, [false, false, false], true) == Round(3, [RemoveCall("L")]);
    EvictLogger();
  }

  /** A failed probe followed by a success makes two probes, an eviction
      and a re-admission. */
  lemma RecoveryRound()
    ensures PlannedRound(Logger, [false, true, false], true) == Round(2, [RemoveCall("L"), AddCall(Logger)])
  {
    assert FirstSuccess([false, true, false], 1) == 1;
  }

  /** Adding the logger back to a table holding only the grading service
      seeds the logger with an empty patch and pushes its arrival to the
      grading service alone. */
  lemma ReadmitLogger(evicted: Store)
    requires evicted.registrations == [Grading]
    ensures Appended(evicted, Logger, Everyone) ==
      Store([Grading, Logger],
            evicted.outbox + [Send("LU", Patch([], [])), Send("U", Patch([PatchEntry(LoggerService, "L")], []))])
  {
    var regs := [Grading, Logger];
    assert regs[..1] == [Grading] && [Grading][..0] == [];
    assert SeedEntries([Grading], []) == [];
    assert SeedEntries(regs, []) == [];
    var back := Patch([EntryOf(Logger)], []);
    assert FilterPatch(back, LoggerService) == back by {
      assert [EntryOf(Logger)][..0] == [];
    }
    assert ConsumerSends([LoggerService], back, "U", true) == [Send("U", back)];
    assert FanOut([Grading], back, Everyone) == [Send("U", back)];
    assert FanOut(regs, back, Everyone) == [Send("U", back)];
  }

  /** Evicting the logger and adding it back, in that order, tells the
      grading service of the removal and then of the addition, and leaves the
      logger after the grading service. */
  lemma EvictThenReadmit()
    ensures var after := Replay(BothRegistered(), [RemoveCall("L"), AddCall(Logger)], Everyone);
      var entry := PatchEntry(LoggerService, "L");
      after.registrations == [Grading, Logger] &&
      after.outbox == BothRegistered().outbox +
        [Send("U", Patch([], [entry])), Send("LU", Patch([], [])), Send("U", Patch([entry], []))]
  {
    EvictLogger();
    var evicted := Replay(BothRegistered(), [RemoveCall("L")], Everyone);
    ReadmitLogger(evicted);
    assert [RemoveCall("L"), AddCall(Logger)][1..] == [AddCall(Logger)];
    assert [AddCall(Logger)][1..] == [];
    assert Replay(BothRegistered(), [RemoveCall("L"), AddCall(Logger)], Everyone)
        == Replay(evicted, [AddCall(Logger)], Everyone)
        == Appended(evicted, Logger, Everyone);
  }

  /** When the logger's second probe succeeds after a failed first one, the
      round evicts it and adds it back: the grading service is told of the removal and
      then of the addition, and the logger now stands after the grading service. */
  lemma LoggerRecoversWithinRound()
    ensures var round := PlannedRound(Logger, [false, true, false], true);
      var after := Replay(BothRegistered(), round.calls, Everyone);
      var entry := PatchEntry(LoggerService, "L");
      round.probes == 2 &&
      after.registrations == [Grading, Logger] &&
      after.outbox == BothRegistered().outbox +
        [Send("U", Patch([], [entry])), Send("LU", Patch([], [])), Send("U", Patch([entry], []))]
  {
    RecoveryRound();
    EvictThenReadmit();
  }
}
