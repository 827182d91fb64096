/** File contents against published results: they agree unless two calls publish the result of one attempt at once. */
module CollectorContents {
  import opened Wrappers
  import opened Status
  import opened ScenarioMapping
  import opened ArtifactNames
  import opened Collector
  import opened CollectorInvariants
  import opened CollectorFiles
  import opened Finalization
  import opened EngineRefinement

  // ---------------------------------------------------------------- any number of events for an attempt

  /** No two calls stand between writing and publishing a result of the same UUID. */
  predicate OneAtATime(s: State) {
    forall i, j :: 0 <= i < j < |s.phases| && Unpublished(s, s.phases[i]).Some? && Unpublished(s, s.phases[j]).Some? ==>
      Unpublished(s, s.phases[i]) != Unpublished(s, s.phases[j])
  }

  predicate IsAwaited(s: State, uuid: string) {
    exists i :: 0 <= i < |s.phases| && Unpublished(s, s.phases[i]) == Some(uuid)
  }

  /** Results on hold are on disk, and so are published ones, unless a call is about to replace them. */
  ghost predicate ContentsAgree(s: State) {
    && (forall i :: 0 <= i < |s.phases| && Held(s, s.phases[i]).Some? ==> IsOnDisk(s.files, Held(s, s.phases[i]).value))
    && (forall u <- s.shared.results ::
          s.shared.results[u].uuid == u && (IsAwaited(s, u) || IsOnDisk(s.files, s.shared.results[u])))
  }

  /** A step takes a result on hold after writing its file, or publishes the one it holds, or does neither. */
  predicate Passes(s: State, phase: Phase, s': State, phase': Phase) {
    var before, after := Held(s, phase), Held(s', phase');
    && (before.None? || after.None?)
    && s'.shared.results ==
       (if before.Some? then s.shared.results[before.value.uuid := before.value] else s.shared.results)
    && s'.files == (if after.Some? then s.files[ResultName(after.value.uuid) := after.value] else s.files)
  }

  lemma ScenarioStepPasses(sys: System, request: Request, s: State, phase: Phase, s': State, phase': Phase)
    requires ScenarioStep(sys, request, s, phase, s', phase') && sys.streaming
    ensures Passes(s, phase, s', phase')
  {
  }

  lemma FinalizeStepPasses(sys: System, s: State, phase: Phase, s': State, phase': Phase)
    requires FinalizeStep(sys, s, phase, s', phase')
    ensures Passes(s, phase, s', phase')
  {
  }

  lemma StepPasses(sys: System, s: State, s': State, id: nat)
    requires StepBy(sys, s, s', id) && sys.streaming
    ensures Passes(s, s.phases[id], s', s'.phases[id])
  {
    match sys.calls[id]
    case ScenarioCall(request) => ScenarioStepPasses(sys, request, s, s.phases[id], s'.(late := s.late), s'.phases[id]);
    case FinalizeCall => FinalizeStepPasses(sys, s, s.phases[id], s', s'.phases[id]);
    case InterruptCall =>
      if !s.phases[id].Idle? && !s.phases[id].MarkingInterrupted? {
        FinalizeStepPasses(sys, s, s.phases[id], s', s'.phases[id]);
      }
  }

  lemma OtherFileStays(files: map<string, TestResult>, written: TestResult, kept: TestResult)
    requires IsOnDisk(files, kept) && kept.uuid != written.uuid
    ensures IsOnDisk(files[ResultName(written.uuid) := written], kept)
  {
    if ResultName(kept.uuid) == ResultName(written.uuid) {
      ResultNameInjective(kept.uuid, written.uuid);
    }
  }

  lemma PassingKeepsContents(s: State, s': State, id: nat)
    requires ContentsAgree(s) && OneAtATime(s') && id < |s.phases| == |s'.phases|
    requires Passes(s, s.phases[id], s', s'.phases[id])
    requires forall i :: 0 <= i < |s.phases| && i != id ==> Held(s', s'.phases[i]) == Held(s, s.phases[i])
    ensures ContentsAgree(s')
  {
    var after := Held(s', s'.phases[id]);
    forall i | 0 <= i < |s.phases| && Held(s', s'.phases[i]).Some?
      ensures IsOnDisk(s'.files, Held(s', s'.phases[i]).value)
    {
      if i != id && after.Some? {
        var first, second := if i < id then i else id, if i < id then id else i;
        assert Unpublished(s', s'.phases[first]) != Unpublished(s', s'.phases[second]);
        OtherFileStays(s.files, after.value, Held(s, s.phases[i]).value);
      }
    }
    forall u | u in s'.shared.results
      ensures s'.shared.results[u].uuid == u && (IsAwaited(s', u) || IsOnDisk(s'.files, s'.shared.results[u]))
    {
      if after.Some? && after.value.uuid == u {
        assert Unpublished(s', s'.phases[id]) == Some(u);
      } else if Unpublished(s, s.phases[id]) != Some(u) {
        StillAgrees(s, s', id, u);
      }
    }
  }

  lemma StillAgrees(s: State, s': State, id: nat, u: string)
    requires ContentsAgree(s) && id < |s.phases| == |s'.phases| && Passes(s, s.phases[id], s', s'.phases[id])
    requires forall i :: 0 <= i < |s.phases| && i != id ==> Held(s', s'.phases[i]) == Held(s, s.phases[i])
    requires u in s.shared.results && Unpublished(s, s.phases[id]) != Some(u)
    requires Unpublished(s', s'.phases[id]) != Some(u)
    ensures u in s'.shared.results && s'.shared.results[u].uuid == u
    ensures (IsAwaited(s', u) || IsOnDisk(s'.files, s'.shared.results[u]))
  {
    if IsAwaited(s, u) {
      var i :| 0 <= i < |s.phases| && Unpublished(s, s.phases[i]) == Some(u);
      assert Unpublished(s', s'.phases[i]) == Some(u);
    } else if Held(s', s'.phases[id]).Some? {
      OtherFileStays(s.files, Held(s', s'.phases[id]).value, s.shared.results[u]);
    }
  }

  lemma StepKeepsContents(sys: System, s: State, s': State, id: nat)
    requires sys.streaming && FinalizesOnce(sys, s) && ContentsAgree(s) && OneAtATime(s') && StepBy(sys, s, s', id)
    ensures ContentsAgree(s')
  {
    StepPasses(sys, s, s', id);
    StepWrites(sys, s, s', id);
    OthersStay(sys, s, s', id);
    PassingKeepsContents(s, s', id);
  }

  lemma EventsKeepContents(s: State, s': State)
    requires ContentsAgree(s) && EventStep(s, s')
    ensures ContentsAgree(s')
  {
    forall i | 0 <= i < |s.phases| ensures Held(s', s'.phases[i]) == Held(s, s.phases[i]) {
    }
    forall u | IsAwaited(s, u) ensures IsAwaited(s', u) {
      var i :| 0 <= i < |s.phases| && Unpublished(s, s.phases[i]) == Some(u);
      assert Unpublished(s', s'.phases[i]) == Some(u);
    }
  }

  lemma NextKeepsContents(sys: System, s: State, s': State)
    requires sys.streaming && FinalizesOnce(sys, s) && ContentsAgree(s) && OneAtATime(s') && Next(sys, s, s')
    ensures ContentsAgree(s')
  {
    if EventStep(s, s') {
      EventsKeepContents(s, s');
    } else {
      var id: nat :| StepBy(sys, s, s', id);
      StepKeepsContents(sys, s, s', id);
    }
  }

  lemma FirstAgrees(sys: System, s: State)
    requires IsInitial(sys, s)
    ensures ContentsAgree(s)
  {
    forall i | 0 <= i < |s.phases| ensures Held(s, s.phases[i]).None? {
    }
  }

  lemma StillHolds(sys: System, run: seq<State>, n: nat)
    requires sys.streaming && IsRun(sys, run) && n + 1 < |run| && ContentsAgree(run[n]) && OneAtATime(run[n + 1])
    ensures ContentsAgree(run[n + 1])
  {
    RunMoves(sys, run, n);
    NextKeepsContents(sys, run[n], run[n + 1]);
  }

  /**
   * Streaming, in every reachable state and for any number of events for an attempt: if no two calls ever held a
   * result of one UUID at once, every published result is in its file, or a call is about to replace it.
   */
  lemma {:induction false} FilesHoldTheResults(sys: System, run: seq<State>, n: nat)
    requires sys.streaming && IsRun(sys, run) && n < |run| && forall m: nat :: m <= n ==> OneAtATime(run[m])
    ensures ContentsAgree(run[n])
  {
    if n == 0 {
      FirstAgrees(sys, run[0]);
    } else {
      FilesHoldTheResults(sys, run, n - 1);
      StillHolds(sys, run, n - 1);
    }
  }

  ghost predicate FilesHold(s: State) {
    forall u <- s.shared.results :: s.shared.results[u].uuid == u && IsOnDisk(s.files, s.shared.results[u])
  }

  // ---------------------------------------------------------------- after Finalize

  lemma StepKeepsLate(sys: System, s: State, s': State, id: nat)
    requires StepBy(sys, s, s', id) && s.late
    ensures s'.late
  {
  }

  lemma {:induction false} LateNeverReverts(sys: System, run: seq<State>, i: nat, j: nat)
    requires IsRun(sys, run) && i <= j < |run| && run[i].late
    ensures run[j].late
    decreases j
  {
    if i < j {
      LateNeverReverts(sys, run, i, j - 1);
      RunMoves(sys, run, j - 1);
      if !EventStep(run[j - 1], run[j]) {
        var id: nat :| StepBy(sys, run[j - 1], run[j], id);
        StepKeepsLate(sys, run[j - 1], run[j], id);
      }
    }
  }

  /** While Finalize works alone, it alone holds results. */
  lemma UndisturbedIsOneAtATime(sys: System, run: seq<State>, n: nat)
    requires IsRun(sys, run) && n < |run| && Undisturbed(sys, run[n])
    ensures OneAtATime(run[n])
  {
    RunReconciles(sys, run, n);
    RunKeepsInvariant(sys, run, n);
    assert forall i :: 0 <= i < |sys.calls| && IsScenarioPhase(run[n].phases[i]) ==> sys.calls[i].ScenarioCall?;
  }

  /** After an undisturbed Finalize every result is in its file, if events never overlapped before it. */
  lemma FilesHoldTheFinalResults(sys: System, run: seq<State>, n: nat)
    requires sys.streaming && IsRun(sys, run) && n < |run| && Undisturbed(sys, run[n]) && NobodyFinalizes(run[n])
    requires forall m: nat :: m <= n && run[m].snapshot.None? ==> OneAtATime(run[m])
    ensures FilesHold(run[n])
  {
    forall m: nat | m <= n ensures OneAtATime(run[m]) {
      FinalizedNeverReverts(sys, run, m, n);
      if run[m].snapshot.Some? {
        if run[m].late {
          LateNeverReverts(sys, run, m, n);
        }
        UndisturbedIsOneAtATime(sys, run, m);
      }
    }
    FilesHoldTheResults(sys, run, n);
    RunReconciles(sys, run, n);
    RunKeepsInvariant(sys, run, n);
    forall u ensures !IsAwaited(run[n], u) {
      assert forall i :: 0 <= i < |sys.calls| && IsScenarioPhase(run[n].phases[i]) ==> sys.calls[i].ScenarioCall?;
    }
  }

  // ---------------------------------------------------------------- which systems are safe in every interleaving

  /** No two scenario-end events report the same attempt. */
  predicate AttemptsDiffer(sys: System) {
    forall i, j :: 0 <= i < j < |sys.calls| && sys.calls[i].ScenarioCall? && sys.calls[j].ScenarioCall? ==>
      sys.calls[i].request.key != sys.calls[j].request.key
  }

  /** The UUID is the one registered for the attempt this event reports. */
  predicate Owns(sys: System, s: State, i: nat, uuid: string) {
    i < |sys.calls| && sys.calls[i].ScenarioCall? && Registered(s, sys.calls[i].request.key, uuid)
  }

  predicate PublishedBy(sys: System, s: State, uuid: string, i: nat)
    requires |s.phases| == |sys.calls|
  {
    Owns(sys, s, i, uuid) && s.phases[i].Finished?
  }

  /** Every published result comes from an event whose handling is over. */
  ghost predicate PublishersAreDone(sys: System, s: State) {
    |s.phases| == |sys.calls| && forall u <- s.shared.results :: exists i: nat :: PublishedBy(sys, s, u, i)
  }

  /** A step keeps finished calls finished, and publishes only what the call holds. */
  lemma StepPublishes(sys: System, s: State, s': State, id: nat)
    requires StepBy(sys, s, s', id) && FinalizesOnce(sys, s) && s'.snapshot.None?
    ensures !s.phases[id].Finished?
    ensures if s.phases[id].Written? then
              && sys.calls[id].ScenarioCall? && s'.phases[id].Finished?
              && s'.shared.results == s.shared.results[s.phases[id].result.uuid := s.phases[id].result]
            else s'.shared.results == s.shared.results
  {
    StepShape(sys, s, s', id);
  }

  lemma PublishingKeepsPublishers(sys: System, s: State, s': State, id: nat)
    requires PublishersAreDone(sys, s) && id < |sys.calls| == |s'.phases| && !s.phases[id].Finished?
    requires forall k <- s.shared.uuids :: Registered(s', k, s.shared.uuids[k])
    requires forall i :: 0 <= i < |sys.calls| && i != id ==> s'.phases[i] == s.phases[i]
    requires if s.phases[id].Written? then
               && PublishedBy(sys, s', s.phases[id].result.uuid, id)
               && s'.shared.results == s.shared.results[s.phases[id].result.uuid := s.phases[id].result]
             else s'.shared.results == s.shared.results
    ensures PublishersAreDone(sys, s')
  {
    forall u | u in s.shared.results ensures exists i: nat :: PublishedBy(sys, s', u, i) {
      var i: nat :| PublishedBy(sys, s, u, i);
      assert PublishedBy(sys, s', u, i);
    }
  }

  lemma StepKeepsPublishers(sys: System, s: State, s': State, id: nat)
    requires FinalizesOnce(sys, s) && Registry(sys, s) && PublishersAreDone(sys, s) && StepBy(sys, s, s', id)
    requires s'.snapshot.None?
    ensures PublishersAreDone(sys, s')
  {
    StepKeepsRegistry(sys, s, s', id);
    StepPublishes(sys, s, s', id);
    OthersStay(sys, s, s', id);
    assert CallHolds(s, sys.calls[id], s.phases[id]);
    PublishingKeepsPublishers(sys, s, s', id);
  }

  lemma {:induction false} RunKeepsPublishers(sys: System, run: seq<State>, n: nat)
    requires IsRun(sys, run) && n < |run| && run[n].snapshot.None?
    ensures PublishersAreDone(sys, run[n])
  {
    if n > 0 {
      var s, s' := run[n - 1], run[n];
      RunMoves(sys, run, n - 1);
      RunKeepsInvariant(sys, run, n - 1);
      RunKeepsPublishers(sys, run, n - 1);
      if EventStep(s, s') {
        forall u | u in s'.shared.results ensures exists i: nat :: PublishedBy(sys, s', u, i) {
          var i: nat :| PublishedBy(sys, s, u, i);
          assert PublishedBy(sys, s', u, i);
        }
      } else {
        var id: nat :| StepBy(sys, s, s', id);
        StepKeepsPublishers(sys, s, s', id);
      }
    }
  }

  lemma UuidsTellEvents(sys: System, s: State)
    requires AttemptsDiffer(sys) && Registry(sys, s)
    ensures forall i: nat, j: nat, u :: Owns(sys, s, i, u) && Owns(sys, s, j, u) ==> i == j
  {
  }

  lemma HeldIsOwned(sys: System, s: State)
    requires FinalizesOnce(sys, s) && Registry(sys, s) && s.snapshot.None?
    ensures forall i: nat, u :: i < |s.phases| && Unpublished(s, s.phases[i]) == Some(u) ==> Owns(sys, s, i, u)
  {
    forall i: nat, u | i < |s.phases| && Unpublished(s, s.phases[i]) == Some(u) ensures Owns(sys, s, i, u) {
      assert CallHolds(s, sys.calls[i], s.phases[i]);
    }
  }

  /** Different attempts hold different UUIDs, and none that is published already. */
  lemma DifferentAttemptsDoNotOverlap(sys: System, run: seq<State>, n: nat)
    requires AttemptsDiffer(sys) && IsRun(sys, run) && n < |run| && run[n].snapshot.None?
    ensures OneAtATime(run[n])
    ensures forall u <- run[n].shared.results :: !IsAwaited(run[n], u)
  {
    var s := run[n];
    RunKeepsInvariant(sys, run, n);
    RunKeepsPublishers(sys, run, n);
    UuidsTellEvents(sys, s);
    HeldIsOwned(sys, s);
    forall u | u in s.shared.results ensures !IsAwaited(s, u) {
      var i: nat :| PublishedBy(sys, s, u, i);
      assert forall j: nat :: j < |s.phases| && Unpublished(s, s.phases[j]) == Some(u) ==> j == i;
    }
    forall i: nat, j: nat | i < j < |s.phases| && Unpublished(s, s.phases[i]).Some?
      ensures Unpublished(s, s.phases[i]) != Unpublished(s, s.phases[j])
    {
      assert Owns(sys, s, i, Unpublished(s, s.phases[i]).value);
    }
  }

  lemma DifferentAttemptsAgree(sys: System, run: seq<State>, n: nat)
    requires sys.streaming && AttemptsDiffer(sys) && IsRun(sys, run) && n < |run| && run[n].snapshot.None?
    ensures FilesHold(run[n])
  {
    forall m: nat | m <= n ensures OneAtATime(run[m]) {
      FinalizedNeverReverts(sys, run, m, n);
      DifferentAttemptsDoNotOverlap(sys, run, m);
    }
    DifferentAttemptsDoNotOverlap(sys, run, n);
    FilesHoldTheResults(sys, run, n);
  }

  function StartOf(sys: System): State {
    State(Shared(map[], map[], map[], map[], false), map[], seq(|sys.calls|, i => Idle), {}, None, [], {}, 0, false)
  }

  /**
   * Two events for one attempt can overlap so that, mapped differently, the file ends up with the report of one
   * and the results with the report of the other, with both calls finished.
   */
  lemma OverlapSplitsFileFromResult(sys: System, i: nat, j: nat, early: TestResult, late: TestResult, draft: TestResult)
    returns (run: seq<State>)
    requires sys.streaming && i < |sys.calls| && j < |sys.calls| && i != j && sys.calls[i].ScenarioCall?
    requires sys.calls[j].ScenarioCall?
    requires sys.calls[i].request.key == sys.calls[j].request.key
    requires early.uuid == late.uuid != "" && draft.uuid != early.uuid && draft.uuid != "" && early != late
    ensures IsRun(sys, run)
    ensures var s := run[|run| - 1];
            && s.snapshot.None? && s.phases == StartOf(sys).phases[i := Finished][j := Finished]
            && !s.shared.finalized && !s.late && s.unwritten == {}
            && s.shared.results == map[early.uuid := early] && s.files == map[ResultName(early.uuid) := late]
  {
    run := FirstEventPauses(sys, i, early);
    var other := SecondEventEnds(sys, run[|run| - 1], j, late, draft);
    run := PathsJoin(sys, run, other);
    var ended := run[|run| - 1];
    var last := PublishesResult(sys, ended, i, sys.calls[i].request, early);
    var step := OneStep(sys, ended, last, i);
    run := PathsJoin(sys, run, step);
  }

  /** The second event conflicts, is mapped again under the UUID of the first, and overtakes it. */
  lemma SecondEventEnds(sys: System, s: State, j: nat, late: TestResult, draft: TestResult) returns (path: seq<State>)
    requires sys.streaming && j < |sys.calls| == |s.phases| && sys.calls[j].ScenarioCall? && s.phases[j] == Idle
    requires late.uuid != "" && s.shared.uuids == map[sys.calls[j].request.key := late.uuid] && s.shared.starts == map[]
    requires draft.uuid != "" && draft.uuid !in s.issued + {late.uuid} && s.snapshot.None?
    ensures IsPath(sys, path) && path[0] == s
    ensures var t := path[|path| - 1];
            && t.phases == s.phases[j := Finished] && t.snapshot == s.snapshot
            && t.shared.finalized == s.shared.finalized && t.late == s.late && t.unwritten == s.unwritten
            && t.shared.results == s.shared.results[late.uuid := late]
            && t.files == s.files[ResultName(late.uuid) := late]
  {
    var again := (uuid: string) => if uuid == late.uuid then Some(late) else None;
    path := ScenarioEndingIsARun(sys, s, j, sys.calls[j].request, draft, again, 0, true);
  }

  lemma FirstEventPauses(sys: System, i: nat, early: TestResult) returns (run: seq<State>)
    requires sys.streaming && i < |sys.calls| && sys.calls[i].ScenarioCall? && early.uuid != ""
    ensures IsRun(sys, run)
    ensures var s := run[|run| - 1];
            && s.phases == StartOf(sys).phases[i := Written(early)] && s.issued == {early.uuid} && s.snapshot.None?
            && !s.shared.finalized && !s.late && s.unwritten == {}
            && s.files == map[ResultName(early.uuid) := early] && s.shared.results == map[] && s.shared.starts == map[]
            && s.shared.uuids == map[sys.calls[i].request.key := early.uuid]
  {
    run := PausesBeforePublishing(sys, StartOf(sys), i, sys.calls[i].request, early, 0);
  }

  /** Before Finalize, or after one beside which no scenario call ran. */
  ghost predicate IsSettled(sys: System, s: State) {
    s.snapshot.None? || (Undisturbed(sys, s) && NobodyFinalizes(s))
  }

  lemma DifferentAttemptsSettle(sys: System, run: seq<State>, n: nat)
    requires sys.streaming && AttemptsDiffer(sys) && IsRun(sys, run) && n < |run| && IsSettled(sys, run[n])
    ensures FilesHold(run[n])
  {
    if run[n].snapshot.None? {
      DifferentAttemptsAgree(sys, run, n);
    } else {
      forall m: nat | m <= n && run[m].snapshot.None? ensures OneAtATime(run[m]) {
        DifferentAttemptsDoNotOverlap(sys, run, m);
      }
      FilesHoldTheFinalResults(sys, run, n);
    }
  }

  lemma RepeatedAttemptsSplit(sys: System) returns (run: seq<State>)
    requires sys.streaming && !AttemptsDiffer(sys)
    ensures IsRun(sys, run)
    ensures var s := run[|run| - 1];
            && s.snapshot.None? && !s.shared.finalized && !s.late && s.unwritten == {} && !FilesHold(s)
            && |s.phases| == |sys.calls| && IsQuiet(sys, s) && NobodyFinalizes(s)
            && forall f :: 0 <= f < |sys.calls| && sys.calls[f].FinalizeCall? ==> s.phases[f] == Idle
  {
    var i, j :| 0 <= i < j < |sys.calls| && sys.calls[i].ScenarioCall? && sys.calls[j].ScenarioCall?
                && sys.calls[i].request.key == sys.calls[j].request.key;
    var early := TestResult("a", "", "", "", Passed, [], 0, 0, 0, 0, []);
    run := OverlapSplitsFileFromResult(sys, i, j, early, early.(status := Failed), early.(uuid := "b"));
    assert "a" in run[|run| - 1].shared.results && !IsOnDisk(run[|run| - 1].files, early);
  }

  /** An empty suite leaves files and results as they are. */
  lemma EmptySuiteKeepsContents(sys: System, run: seq<State>, f: nat) returns (longer: seq<State>)
    requires IsRun(sys, run) && f < |sys.calls| && sys.calls[f].FinalizeCall?
    requires var s := run[|run| - 1];
             && |s.phases| == |sys.calls| && s.phases[f] == Idle && !s.shared.finalized && !s.late && IsQuiet(sys, s)
             && s.unwritten == {} && NobodyFinalizes(s)
    ensures IsRun(sys, longer)
    ensures var s, t := run[|run| - 1], longer[|longer| - 1];
            && Undisturbed(sys, t) && NobodyFinalizes(t) && t.shared.results == s.shared.results && t.files == s.files
  {
    var rest := FinalizeIsARun(sys, run[|run| - 1], f, [], (i: nat) => true);
    longer := PathsJoin(sys, run, rest);
  }

  /**
   * Streaming, files and results agree in every interleaving exactly when no attempt is reported twice: in all runs
   * that end before Finalize, as well as in all that end after an undisturbed Finalize.
   */
  lemma FilesHoldExactly(sys: System)
    requires sys.streaming
    ensures (forall run: seq<State> {:trigger IsRun(sys, run)} :: IsRun(sys, run) && run[|run| - 1].snapshot.None? ==>
               FilesHold(run[|run| - 1])) <==>
            AttemptsDiffer(sys)
    ensures FinalizeCall in sys.calls ==>
              ((forall run: seq<State> {:trigger IsRun(sys, run)} ::
                  IsRun(sys, run) && run[|run| - 1].snapshot.Some? && IsSettled(sys, run[|run| - 1]) ==>
                    FilesHold(run[|run| - 1])) <==>
               AttemptsDiffer(sys))
  {
    if AttemptsDiffer(sys) {
      forall run: seq<State> | IsRun(sys, run) && IsSettled(sys, run[|run| - 1]) ensures FilesHold(run[|run| - 1]) {
        DifferentAttemptsSettle(sys, run, |run| - 1);
      }
    } else {
      var run := RepeatedAttemptsSplit(sys);
      if FinalizeCall in sys.calls {
        var f: nat :| f < |sys.calls| && sys.calls[f] == FinalizeCall;
        var longer := EmptySuiteKeepsContents(sys, run, f);
      }
    }
  }
}
