/** What holds in every state the engine can reach, whatever the interleaving of its calls. */
module CollectorInvariants {
  import opened ScenarioMapping
  import opened Collector

  // ---------------------------------------------------------------- finalising happens once

  predicate IsFinalizing(phase: Phase) {
    phase.MappingSuite? || phase.Writing? || phase.Recording?
  }

  predicate IsScenarioPhase(phase: Phase) {
    phase.Mapped? || phase.Remapping? || phase.Remapped? || phase.Reserved? || phase.Written?
  }

  ghost predicate FinalizesOnce(sys: System, s: State) {
    && |s.phases| == |sys.calls|
    && (forall i :: 0 <= i < |sys.calls| && IsScenarioPhase(s.phases[i]) ==> sys.calls[i].ScenarioCall?)
    && (forall i :: 0 <= i < |sys.calls| && IsFinalizing(s.phases[i]) ==>
          !sys.calls[i].ScenarioCall? && s.snapshot.Some?)
    && (forall i, j :: 0 <= i < j < |sys.calls| ==> !(IsFinalizing(s.phases[i]) && IsFinalizing(s.phases[j])))
    && (s.snapshot.Some? ==> s.shared.finalized)
    && (s.snapshot.None? ==> s.mappings == 0 && !s.late)
    && s.mappings <= 1
    && (s.mappings == 0 ==> s.output == [] && s.unwritten == {})
    && (forall i :: 0 <= i < |sys.calls| && s.phases[i].MappingSuite? ==> s.mappings == 0)
  }

  /** What one step of any call does to the flag, the snapshot and the mapping count. */
  lemma StepShape(sys: System, s: State, s': State, id: nat)
    requires StepBy(sys, s, s', id)
    ensures IsScenarioPhase(s'.phases[id]) ==> sys.calls[id].ScenarioCall?
    ensures IsFinalizing(s'.phases[id]) ==> !sys.calls[id].ScenarioCall?
    ensures IsFinalizing(s'.phases[id]) && IsFinalizing(s.phases[id]) ==> s'.snapshot == s.snapshot
    ensures IsFinalizing(s'.phases[id]) && !IsFinalizing(s.phases[id]) ==>
              !s.shared.finalized && s'.snapshot.Some? && s'.phases[id].MappingSuite?
    ensures s.shared.finalized ==> s'.shared.finalized
    ensures s'.snapshot != s.snapshot ==>
      !s.shared.finalized && s'.shared.finalized && s'.snapshot.Some? && s'.phases[id].MappingSuite?
    ensures if s.phases[id].MappingSuite? then s'.mappings == s.mappings + 1 && !s'.phases[id].MappingSuite? &&
      s'.unwritten == s.unwritten
            else s'.mappings == s.mappings && s'.output == s.output
    ensures s'.unwritten != s.unwritten ==> s.phases[id].Writing? && s.phases[id].next < |s.output|
    ensures s'.late != s.late ==> s.snapshot.Some?
  {
    match sys.calls[id]
    case ScenarioCall(request) =>
    case FinalizeCall =>
    case InterruptCall =>
  }

  lemma StepFinalizesOnce(sys: System, s: State, s': State, id: nat)
    requires FinalizesOnce(sys, s) && StepBy(sys, s, s', id)
    ensures FinalizesOnce(sys, s')
  {
    StepShape(sys, s, s', id);
    OthersStay(sys, s, s', id);
  }

  lemma OthersStay(sys: System, s: State, s': State, id: nat)
    requires StepBy(sys, s, s', id)
    ensures forall i :: 0 <= i < |sys.calls| && i != id ==> s'.phases[i] == s.phases[i]
  {
  }

  // ---------------------------------------------------------------- the registry before the snapshot

  ghost predicate Injective(m: map<string, string>) {
    forall k, l :: k in m && l in m && m[k] == m[l] ==> k == l
  }

  predicate Registered(s: State, key: string, uuid: string) {
    key in s.shared.uuids && s.shared.uuids[key] == uuid
  }

  /** What a scenario call under way relies on. */
  predicate CallHolds(s: State, call: Call, phase: Phase) {
    match phase
    case Mapped(result) => result.uuid in s.issued && result.uuid != "" && result.uuid !in s.shared.uuids.Values
    case Remapping(uuid) => call.ScenarioCall? && Registered(s, call.request.key, uuid)
    case Remapped(result) => call.ScenarioCall? && Registered(s, call.request.key, result.uuid)
    case Reserved(result) => call.ScenarioCall? && Registered(s, call.request.key, result.uuid)
    case Written(result) => call.ScenarioCall? && Registered(s, call.request.key, result.uuid)
    case MarkingInterrupted => !call.ScenarioCall?
    case Forwarding => !call.ScenarioCall?
    case _ => true
  }

  ghost predicate Registry(sys: System, s: State) {
    && |s.phases| == |sys.calls|
    && Injective(s.shared.uuids)
    && (forall k <- s.shared.uuids :: s.shared.uuids[k] != "" && s.shared.uuids[k] in s.issued)
    && s.shared.live.Keys == s.shared.uuids.Keys
    && s.shared.results.Keys <= s.shared.uuids.Values
    && (forall i :: 0 <= i < |sys.calls| ==> CallHolds(s, sys.calls[i], s.phases[i]))
    && (forall i, j :: 0 <= i < j < |sys.calls| && s.phases[i].Mapped? && s.phases[j].Mapped? ==>
          s.phases[i].result.uuid != s.phases[j].result.uuid)
  }

  /** Registering keeps what is registered: under the same key only the same UUID can come again. */
  lemma ReserveKeepsRegistry(sys: System, s: State, s': State, id: nat, result: TestResult)
    requires Registry(sys, s) && id < |sys.calls| == |s'.phases| && sys.calls[id].ScenarioCall?
    requires s'.phases == s.phases[id := s'.phases[id]]
    requires s.phases[id] == Remapped(result) ||
      (s.phases[id] == Mapped(result) && !Conflicts(s.shared, sys.calls[id].request.key, result.uuid))
    requires Reserves(sys.calls[id].request, s, result, s'.(late := s.late), s'.phases[id])
    ensures Registry(sys, s')
    ensures forall k <- s.shared.uuids :: Registered(s', k, s.shared.uuids[k])
  {
    var key := sys.calls[id].request.key;
    assert s'.shared.uuids == s.shared.uuids[key := result.uuid];
    if s.phases[id].Mapped? {
      assert CallHolds(s, sys.calls[id], s.phases[id]);
      assert key !in s.shared.uuids by {
        assert key in s.shared.uuids ==> result.uuid in s.shared.uuids.Values;
      }
    }
    assert result.uuid in s.issued && result.uuid != "";
    forall u | u in s.shared.uuids.Values ensures u in s'.shared.uuids.Values {
      var k :| k in s.shared.uuids && s.shared.uuids[k] == u;
      assert s'.shared.uuids[k] == u;
    }
    forall i | 0 <= i < |sys.calls| ensures CallHolds(s', sys.calls[i], s'.phases[i]) {
      assert CallHolds(s, sys.calls[i], s.phases[i]);
      if i != id && s.phases[i].Mapped? {
        assert s.phases[i].result.uuid != result.uuid;
      }
    }
  }

  /** The call is about to register its result. */
  predicate Reserving(sys: System, s: State, id: nat)
    requires id < |sys.calls| == |s.phases|
  {
    && sys.calls[id].ScenarioCall?
    && (s.phases[id].Remapped? ||
        (s.phases[id].Mapped? && !Conflicts(s.shared, sys.calls[id].request.key, s.phases[id].result.uuid)))
  }

  /** Every other step before the snapshot leaves the registered UUIDs alone. */
  lemma OtherStepEffect(sys: System, s: State, s': State, id: nat)
    requires StepBy(sys, s, s', id) && !Reserving(sys, s, id) && !IsFinalizing(s.phases[id])
    requires IsScenarioPhase(s.phases[id]) ==> sys.calls[id].ScenarioCall?
    requires CallHolds(s, sys.calls[id], s.phases[id])
    ensures s'.shared.uuids == s.shared.uuids && s'.shared.live == s.shared.live && s.issued <= s'.issued
    ensures CallHolds(s', sys.calls[id], s'.phases[id]) || s'.phases[id].Mapped?
    ensures s'.phases[id].Mapped? ==> IsNew(s, s'.phases[id].result.uuid) && s'.phases[id].result.uuid in s'.issued
    ensures if s.phases[id].Written? then s'.shared.results ==
      s.shared.results[s.phases[id].result.uuid := s.phases[id].result]
            else s'.shared.results == s.shared.results
  {
    match sys.calls[id]
    case ScenarioCall(request) =>
    case FinalizeCall =>
    case InterruptCall =>
  }

  lemma OtherStepKeepsRegistry(sys: System, s: State, s': State, id: nat)
    requires FinalizesOnce(sys, s) && Registry(sys, s) && StepBy(sys, s, s', id)
    requires !Reserving(sys, s, id) && !IsFinalizing(s.phases[id])
    ensures Registry(sys, s')
    ensures s'.shared.uuids == s.shared.uuids
  {
    assert CallHolds(s, sys.calls[id], s.phases[id]);
    OtherStepEffect(sys, s, s', id);
    OthersStay(sys, s, s', id);
    if s.phases[id].Written? {
      assert s.shared.uuids[sys.calls[id].request.key] in s.shared.uuids.Values;
    }
    forall i | 0 <= i < |sys.calls| ensures CallHolds(s', sys.calls[i], s'.phases[i]) {
      assert CallHolds(s, sys.calls[i], s.phases[i]);
    }
    forall i | 0 <= i < |sys.calls| && s.phases[i].Mapped? ensures s.phases[i].result.uuid in s.issued {
      assert CallHolds(s, sys.calls[i], s.phases[i]);
    }
  }

  lemma StepKeepsRegistry(sys: System, s: State, s': State, id: nat)
    requires FinalizesOnce(sys, s) && Registry(sys, s) && StepBy(sys, s, s', id) && s'.snapshot.None?
    ensures Registry(sys, s')
    ensures forall k <- s.shared.uuids :: Registered(s', k, s.shared.uuids[k])
  {
    if Reserving(sys, s, id) {
      ReserveKeepsRegistry(sys, s, s', id, s.phases[id].result);
    } else {
      StepShape(sys, s, s', id);
      OtherStepKeepsRegistry(sys, s, s', id);
    }
  }

  // ---------------------------------------------------------------- whole runs

  ghost predicate Invariant(sys: System, s: State) {
    FinalizesOnce(sys, s) && (s.snapshot.None? ==> Registry(sys, s))
  }

  lemma StepKeepsInvariant(sys: System, s: State, s': State)
    requires Invariant(sys, s) && Next(sys, s, s')
    ensures Invariant(sys, s')
    ensures s.shared.finalized ==> s'.shared.finalized
    ensures s.snapshot.Some? ==> s'.snapshot == s.snapshot
    ensures s.mappings <= s'.mappings
    ensures s'.snapshot.None? ==> forall k <- s.shared.uuids :: Registered(s', k, s.shared.uuids[k])
  {
    if EventStep(s, s') {
      forall i | 0 <= i < |sys.calls| && Registry(sys, s) ensures CallHolds(s', sys.calls[i], s'.phases[i]) {
        assert CallHolds(s, sys.calls[i], s.phases[i]);
      }
    } else {
      var id: nat :| StepBy(sys, s, s', id);
      StepShape(sys, s, s', id);
      StepFinalizesOnce(sys, s, s', id);
      if s'.snapshot.None? {
        StepKeepsRegistry(sys, s, s', id);
      }
    }
  }

  lemma {:induction false} RunKeepsInvariant(sys: System, run: seq<State>, n: nat)
    requires IsRun(sys, run) && n < |run|
    ensures Invariant(sys, run[n])
  {
    if n > 0 {
      RunKeepsInvariant(sys, run, n - 1);
      assert StepsAt(sys, run, n - 1);
      StepKeepsInvariant(sys, run[n - 1], run[n]);
    }
  }

  /** What one step of a run leaves behind. */
  lemma RunMoves(sys: System, run: seq<State>, n: nat)
    requires IsRun(sys, run) && n < |run| - 1
    ensures FinalizesOnce(sys, run[n]) && FinalizesOnce(sys, run[n + 1])
    ensures run[n].shared.finalized ==> run[n + 1].shared.finalized
    ensures run[n].snapshot.Some? ==> run[n + 1].snapshot == run[n].snapshot
    ensures run[n].mappings <= run[n + 1].mappings
    ensures run[n + 1].snapshot.None? ==> forall k <- run[n].shared.uuids ::
              Registered(run[n + 1], k, run[n].shared.uuids[k])
    ensures EventStep(run[n], run[n + 1]) || exists id: nat {:trigger StepBy(sys, run[n], run[n + 1], id)} ::
              StepBy(sys, run[n], run[n + 1], id)
  {
    RunKeepsInvariant(sys, run, n);
    RunKeepsInvariant(sys, run, n + 1);
    assert StepsAt(sys, run, n);
    StepKeepsInvariant(sys, run[n], run[n + 1]);
  }

  /**
   * Until Finalize takes its copies, in every interleaving: no two attempts share a UUID, exactly the registered
   * attempts have lifecycle data, and every published result belongs to a registered attempt.
   */
  lemma LiveStateIsConsistent(sys: System, run: seq<State>, n: nat)
    requires IsRun(sys, run) && n < |run| && run[n].snapshot.None?
    ensures Injective(run[n].shared.uuids)
    ensures run[n].shared.live.Keys == run[n].shared.uuids.Keys
    ensures run[n].shared.results.Keys <= run[n].shared.uuids.Values
    ensures "" !in run[n].shared.uuids.Values
  {
    RunKeepsInvariant(sys, run, n);
  }

  /** Until then an attempt never changes its UUID once it has one. */
  lemma {:induction false} UuidsAreWriteOnce(sys: System, run: seq<State>, i: nat, j: nat, key: string)
    requires IsRun(sys, run) && i <= j < |run| && run[j].snapshot.None? && key in run[i].shared.uuids
    ensures Registered(run[j], key, run[i].shared.uuids[key])
    decreases j
  {
    if i < j {
      RunMoves(sys, run, j - 1);
      UuidsAreWriteOnce(sys, run, i, j - 1, key);
    }
  }

  predicate IsRequested(sys: System, key: string) {
    exists i :: 0 <= i < |sys.calls| && sys.calls[i].ScenarioCall? && sys.calls[i].request.key == key
  }

  lemma StepRegisters(sys: System, s: State, s': State, id: nat)
    requires StepBy(sys, s, s', id) && Registry(sys, s) && FinalizesOnce(sys, s) && s'.snapshot.None?
    ensures s'.shared.uuids.Keys <= s.shared.uuids.Keys +
      if sys.calls[id].ScenarioCall? then {sys.calls[id].request.key} else {}
  {
    if !Reserving(sys, s, id) {
      StepShape(sys, s, s', id);
      OtherStepKeepsRegistry(sys, s, s', id);
    }
  }

  /** Nothing is registered that no lifecycle event reported. */
  lemma {:induction false} RegisteredKeysAreRequested(sys: System, run: seq<State>, n: nat)
    requires IsRun(sys, run) && n < |run| && run[n].snapshot.None?
    ensures forall k <- run[n].shared.uuids :: IsRequested(sys, k)
  {
    if n > 0 {
      RunMoves(sys, run, n - 1);
      RunKeepsInvariant(sys, run, n - 1);
      RegisteredKeysAreRequested(sys, run, n - 1);
      if !EventStep(run[n - 1], run[n]) {
        var id: nat :| StepBy(sys, run[n - 1], run[n], id);
        StepRegisters(sys, run[n - 1], run[n], id);
      }
    }
  }

  /** The flag never goes back, the copies are taken once, and the suite is mapped at most once in a run. */
  lemma {:induction false} FinalizedNeverReverts(sys: System, run: seq<State>, i: nat, j: nat)
    requires IsRun(sys, run) && i <= j < |run|
    ensures run[i].shared.finalized ==> run[j].shared.finalized
    ensures run[i].snapshot.Some? ==> run[j].snapshot == run[i].snapshot
    ensures run[i].mappings <= run[j].mappings <= 1
    decreases j
  {
    RunKeepsInvariant(sys, run, j);
    if i < j {
      RunMoves(sys, run, j - 1);
      FinalizedNeverReverts(sys, run, i, j - 1);
    }
  }

  /** At any two moments of a run, the call that finalises is the same one. */
  lemma {:induction false} OneCallFinalizes(sys: System, run: seq<State>, i: nat, j: nat, a: nat, b: nat)
    requires IsRun(sys, run) && i <= j < |run| && a < |run[i].phases| && b < |run[j].phases|
    requires IsFinalizing(run[i].phases[a]) && IsFinalizing(run[j].phases[b])
    ensures a == b
    decreases j
  {
    RunKeepsInvariant(sys, run, i);
    if i < j {
      RunMoves(sys, run, j - 1);
      FinalizedNeverReverts(sys, run, i, j - 1);
      if !EventStep(run[j - 1], run[j]) {
        var id: nat :| StepBy(sys, run[j - 1], run[j], id);
        StepShape(sys, run[j - 1], run[j], id);
        OthersStay(sys, run[j - 1], run[j], id);
      }
      OneCallFinalizes(sys, run, i, j - 1, a, b);
    }
  }

  /** A finalising call that has not started, or has only looked at the results. */
  predicate IsUndecided(call: Call, phase: Phase) {
    !call.ScenarioCall? && (phase.Idle? || phase.Forwarding?)
  }

  /** Once the flag is set, the next step of such a call ends it and changes nothing else. */
  lemma LateCallEnds(sys: System, s: State, s': State, id: nat)
    requires StepBy(sys, s, s', id) && s.shared.finalized
    requires IsUndecided(sys.calls[id], s.phases[id]) || s.phases[id].Finished?
    ensures s' == s.(phases := s.phases[id := Finished]) && s.phases[id] != Finished
  {
  }

  lemma LateCallStays(sys: System, s: State, s': State, id: nat, mover: nat)
    requires StepBy(sys, s, s', mover) && s.shared.finalized && id < |sys.calls|
    requires IsUndecided(sys.calls[id], s.phases[id]) || s.phases[id].Finished?
    ensures s'.phases[id] == s.phases[id] || s'.phases[id] == Finished
  {
  }

  /** From the moment a finalising call could see the flag set, it never leaves its phase but to end. */
  lemma {:induction false} LateCallsOnlyEnd(sys: System, run: seq<State>, i: nat, j: nat, id: nat)
    requires IsRun(sys, run) && i <= j < |run| && id < |sys.calls| == |run[i].phases| && run[i].shared.finalized
    requires IsUndecided(sys.calls[id], run[i].phases[id])
    ensures |run[j].phases| == |sys.calls| && run[j].shared.finalized
    ensures run[j].phases[id] == run[i].phases[id] || run[j].phases[id] == Finished
    decreases j
  {
    if i < j {
      LateCallsOnlyEnd(sys, run, i, j - 1, id);
      RunMoves(sys, run, j - 1);
      if !EventStep(run[j - 1], run[j]) {
        var mover: nat :| StepBy(sys, run[j - 1], run[j], mover);
        LateCallStays(sys, run[j - 1], run[j], id, mover);
      }
    }
  }

  /** A finalising call that first sees the flag set never does anything in the rest of the run. */
  lemma LateCallsWriteNothing(sys: System, run: seq<State>, i: nat, j: nat, id: nat)
    requires IsRun(sys, run) && i <= j < |run| && id < |sys.calls| == |run[i].phases| && run[i].shared.finalized
    requires IsUndecided(sys.calls[id], run[i].phases[id])
    ensures |run[j].phases| == |sys.calls|
    ensures run[j].phases[id] == run[i].phases[id] || run[j].phases[id] == Finished
    ensures j < |run| - 1 && StepBy(sys, run[j], run[j + 1], id) ==>
      run[j + 1] == run[j].(phases := run[j].phases[id := Finished])
  {
    LateCallsOnlyEnd(sys, run, i, j, id);
    if j < |run| - 1 && StepBy(sys, run[j], run[j + 1], id) {
      LateCallEnds(sys, run[j], run[j + 1], id);
    }
  }
}
