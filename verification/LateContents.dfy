/** Events handled beside Finalize, seen from one attempt: which result and which file it ends up with. */
module LateContents {
  import opened Status
  import opened ScenarioMapping
  import opened ArtifactNames
  import opened Collector
  import opened CollectorInvariants
  import opened CollectorFiles
  import opened Finalization
  import opened EngineRefinement
  import opened LateEvents

  /** All events for this key have been handled. */
  predicate IsQuietFor(sys: System, s: State, key: string)
    requires |s.phases| == |sys.calls|
  {
    forall i :: 0 <= i < |sys.calls| && sys.calls[i].ScenarioCall? && sys.calls[i].request.key == key ==>
      s.phases[i].Finished?
  }

  predicate IsWrittenFor(s: State, key: string, n: nat)
    requires n <= |s.output|
  {
    IsWritten(KeysOf(s.output), s.unwritten, n, key)
  }

  /** The artifact is the last one written for the key. */
  predicate IsLastFor(s: State, key: string, n: nat, i: nat)
    requires n <= |s.output|
  {
    IsLast(KeysOf(s.output), s.unwritten, n, i) && s.output[i].artifact.key == key
  }

  /** The key has the UUID and the result it had when Finalize took its copy. */
  predicate HasMapsAsBefore(base: Snapshot, s: State, key: string) {
    if key !in base.shared.uuids then key !in s.shared.uuids
    else
      var uuid := base.shared.uuids[key];
      && Registered(s, key, uuid)
      && (uuid in base.shared.results ==>
          uuid in s.shared.results && s.shared.results[uuid] == base.shared.results[uuid])
  }

  predicate HasFileAsBefore(base: Snapshot, s: State, key: string) {
    key in base.shared.uuids && ResultName(base.shared.uuids[key]) in base.files ==>
      var name := ResultName(base.shared.uuids[key]); name in s.files && s.files[name] == base.files[name]
  }

  /** Of the first `n` final artifacts, the key holds the one written for it last, or else what it had before. */
  ghost predicate MapsSettled(base: Snapshot, s: State, key: string, n: nat)
    requires n <= |s.output|
  {
    && (forall i: nat {:trigger IsLastFor(s, key, n, i)} :: IsLastFor(s, key, n, i) ==>
          IsHeld(s.shared, s.output[i].artifact))
    && (!IsWrittenFor(s, key, n) ==> HasMapsAsBefore(base, s, key))
  }

  ghost predicate FilesSettled(base: Snapshot, s: State, key: string, n: nat)
    requires n <= |s.output|
  {
    && (forall i: nat {:trigger IsLastFor(s, key, n, i)} :: IsLastFor(s, key, n, i) ==>
          IsOnDisk(s.files, s.output[i].artifact.result))
    && (!IsWrittenFor(s, key, n) ==> HasFileAsBefore(base, s, key))
  }

  ghost predicate KeyAtPosition(base: Snapshot, s: State, key: string, recorded: nat, stored: nat) {
    && recorded <= |s.output| && stored <= |s.output| && (forall m <- s.unwritten :: m < recorded)
    && MapsSettled(base, s, key, recorded) && FilesSettled(base, s, key, stored)
  }

  ghost predicate KeyProgress(base: Snapshot, s: State, key: string, phase: Phase) {
    match phase
    case MappingSuite => s.output == [] && KeyAtPosition(base, s, key, 0, 0)
    case Writing(next) => KeyAtPosition(base, s, key, next, next)
    case Recording(next) => next < |s.output| && next !in s.unwritten && KeyAtPosition(base, s, key, next, next + 1)
    case _ => true
  }

  ghost predicate KeyAtEnd(s: State, key: string)
    requires s.snapshot.Some?
  {
    NobodyFinalizes(s) ==> KeyAtPosition(s.snapshot.value, s, key, |s.output|, |s.output|)
  }

  ghost predicate KeyProgresses(s: State, key: string)
    requires s.snapshot.Some?
  {
    && (forall i :: 0 <= i < |s.phases| ==> KeyProgress(s.snapshot.value, s, key, s.phases[i]))
    && KeyAtEnd(s, key)
  }

  // ---------------------------------------------------------------- UUIDs of other keys are others

  lemma OtherKeyOtherUuid(existing: map<string, string>, output: seq<Final>, i: nat, key: string)
    requires Injective(existing) && FitsSnapshot(existing, existing.Values, output) && i < |output|
    requires key in existing && output[i].artifact.key != key
    ensures output[i].artifact.result.uuid != existing[key]
  {
    assert existing[key] in existing.Values;
  }

  lemma OtherName(uuid: string, other: string)
    requires uuid != other
    ensures ResultName(uuid) != ResultName(other)
  {
    if ResultName(uuid) == ResultName(other) {
      ResultNameInjective(uuid, other);
    }
  }

  /** The maps changed at most for one UUID and one key, the files at most for one UUID; neither belongs to the key. */
  ghost predicate ChangesOther(s: State, s': State, key: string, uuid: string) {
    && s'.output == s.output && s'.unwritten == s.unwritten
    && (key in s'.shared.uuids <==> key in s.shared.uuids) &&
       (key in s.shared.uuids ==> s'.shared.uuids[key] == s.shared.uuids[key])
    && (forall u :: u != uuid && u in s.shared.results ==>
          u in s'.shared.results && s'.shared.results[u] == s.shared.results[u])
    && (forall u :: u != uuid && ResultName(u) in s.files ==>
          ResultName(u) in s'.files && s'.files[ResultName(u)] == s.files[ResultName(u)])
  }

  /** The UUID is not the one registered for the key, and no final artifact of the key has it. */
  ghost predicate IsForeign(base: Snapshot, s: State, key: string, uuid: string) {
    && (key in base.shared.uuids ==> base.shared.uuids[key] != uuid)
    && (forall i: nat :: i < |s.output| && s.output[i].artifact.key == key ==> s.output[i].artifact.result.uuid != uuid)
  }

  lemma OtherChangesKeepKey(base: Snapshot, s: State, s': State, key: string, uuid: string, recorded: nat, stored: nat)
    requires ChangesOther(s, s', key, uuid) && IsForeign(base, s, key, uuid)
    requires KeyAtPosition(base, s, key, recorded, stored)
    ensures KeyAtPosition(base, s', key, recorded, stored)
  {
    forall i: nat | IsLastFor(s', key, recorded, i) ensures IsHeld(s'.shared, s'.output[i].artifact) {
      assert IsLastFor(s, key, recorded, i);
    }
    forall i: nat | IsLastFor(s', key, stored, i) ensures IsOnDisk(s'.files, s'.output[i].artifact.result) {
      assert IsLastFor(s, key, stored, i);
    }
  }

  lemma SameMapsKeepKey(base: Snapshot, s: State, s': State, key: string, n: nat)
    requires n <= |s.output| && MapsSettled(base, s, key, n) && s'.output == s.output && s'.unwritten == s.unwritten
    requires s'.shared.uuids == s.shared.uuids && s'.shared.results == s.shared.results
    ensures MapsSettled(base, s', key, n)
  {
    forall i: nat | IsLastFor(s', key, n, i) ensures IsHeld(s'.shared, s'.output[i].artifact) {
      assert IsLastFor(s, key, n, i);
    }
  }

  lemma SameFilesKeepKey(base: Snapshot, s: State, s': State, key: string, n: nat)
    requires n <= |s.output| && FilesSettled(base, s, key, n) && s'.output == s.output && s'.unwritten == s.unwritten
    requires s'.files == s.files
    ensures FilesSettled(base, s', key, n)
  {
    forall i: nat | IsLastFor(s', key, n, i) ensures IsOnDisk(s'.files, s'.output[i].artifact.result) {
      assert IsLastFor(s, key, n, i);
    }
  }

  lemma SameStateKeepsKey(base: Snapshot, s: State, s': State, key: string, recorded: nat, stored: nat)
    requires s'.shared.uuids == s.shared.uuids && s'.shared.results == s.shared.results && s'.files == s.files
    requires s'.output == s.output && s'.unwritten == s.unwritten && KeyAtPosition(base, s, key, recorded, stored)
    ensures KeyAtPosition(base, s', key, recorded, stored)
  {
    SameMapsKeepKey(base, s, s', key, recorded);
    SameFilesKeepKey(base, s, s', key, stored);
  }

  /** An event for another attempt the copy knows. */
  lemma OtherEventChangesOther(sys: System, s: State, s': State, id: nat, key: string) returns (uuid: string)
    requires s.snapshot.Some? && Anchored(sys, s) && IsConsistent(s.snapshot.value)
    requires FitsSnapshot(s.snapshot.value.shared.uuids, s.snapshot.value.shared.uuids.Values, s.output)
    requires StepBy(sys, s, s', id) && sys.calls[id].ScenarioCall?
    requires sys.calls[id].request.key in s.snapshot.value.shared.uuids
    requires sys.calls[id].request.key != key
    ensures ChangesOther(s, s', key, uuid) && IsForeign(s.snapshot.value, s, key, uuid) && s'.snapshot == s.snapshot
  {
    var copied, other := s.snapshot.value.shared.uuids, sys.calls[id].request.key;
    KnownEventsKeepRegistry(sys, s, s', id);
    uuid := copied[other];
    assert Registered(s, other, uuid) && Follows(s, sys.calls[id], s.phases[id]);
    assert key in copied ==> copied[key] != uuid;
    forall i: nat | i < |s.output| && s.output[i].artifact.key == key ensures s.output[i].artifact.result.uuid != uuid {
      OtherKeyOtherUuid(copied, s.output, i, other);
    }
    EventTouchesResults(sys, s, s', id, uuid);
    EventTouchesFiles(sys, s, s', id, uuid);
  }

  /** A scenario call only writes under the UUID it works for. */
  lemma ScenarioTouchesResults(sys: System, request: Request, s: State, phase: Phase, s': State, phase': Phase,
                               uuid: string)
    requires ScenarioStep(sys, request, s, phase, s', phase')
    requires phase.Reserved? || phase.Written? ==> phase.result.uuid == uuid
    ensures s'.unwritten == s.unwritten
    ensures forall u :: u != uuid && u in s.shared.results ==>
              u in s'.shared.results && s'.shared.results[u] == s.shared.results[u]
  {
  }

  lemma EventTouchesResults(sys: System, s: State, s': State, id: nat, uuid: string)
    requires StepBy(sys, s, s', id) && sys.calls[id].ScenarioCall?
    requires s.phases[id].Reserved? || s.phases[id].Written? ==> s.phases[id].result.uuid == uuid
    ensures s'.unwritten == s.unwritten
    ensures forall u :: u != uuid && u in s.shared.results ==>
              u in s'.shared.results && s'.shared.results[u] == s.shared.results[u]
  {
    ScenarioTouchesResults(sys, sys.calls[id].request, s, s.phases[id], s'.(late := s.late), s'.phases[id], uuid);
  }

  lemma EventTouchesFiles(sys: System, s: State, s': State, id: nat, uuid: string)
    requires StepBy(sys, s, s', id) && sys.calls[id].ScenarioCall?
    requires s.phases[id].Reserved? || s.phases[id].Written? ==> s.phases[id].result.uuid == uuid
    ensures forall u :: u != uuid && ResultName(u) in s.files ==>
              ResultName(u) in s'.files && s'.files[ResultName(u)] == s.files[ResultName(u)]
  {
    forall u | u != uuid && ResultName(u) in s.files
      ensures ResultName(u) in s'.files && s'.files[ResultName(u)] == s.files[ResultName(u)]
    {
      OtherName(u, uuid);
    }
  }

  // ---------------------------------------------------------------- steps of the finalising call

  /** What the copy and the suite's output have in common in every state. */
  ghost predicate IsLegible(s: State) {
    && s.snapshot.Some? && Injective(s.snapshot.value.shared.uuids)
    && FitsSnapshot(s.snapshot.value.shared.uuids, s.snapshot.value.shared.uuids.Values, s.output)
  }

  lemma FinalIsForeign(s: State, key: string, next: nat)
    requires IsLegible(s) && next < |s.output| && s.output[next].artifact.key != key
    ensures IsForeign(s.snapshot.value, s, key, s.output[next].artifact.result.uuid)
  {
    var existing := s.snapshot.value.shared.uuids;
    if key in existing {
      OtherKeyOtherUuid(existing, s.output, next, key);
    }
    forall i: nat | i < |s.output| && s.output[i].artifact.key == key
      ensures s.output[i].artifact.result.uuid != s.output[next].artifact.result.uuid
    {
      if s.output[i].artifact.result.uuid == s.output[next].artifact.result.uuid {
        SameUuidSameKey(existing, s.output, i, next);
      }
    }
  }

  /** One more artifact is the last one of its key, and leaves the last ones of other keys. */
  lemma OneMoreIsLast(s: State, key: string, n: nat, i: nat)
    requires n < |s.output| && n !in s.unwritten && IsLastFor(s, key, n + 1, i)
    ensures if s.output[n].artifact.key == key then i == n else IsLastFor(s, key, n, i)
  {
    assert KeysOf(s.output)[n] == s.output[n].artifact.key && KeysOf(s.output)[i] == s.output[i].artifact.key;
  }

  lemma OneMoreIsWritten(s: State, key: string, n: nat)
    requires n < |s.output|
    ensures IsWrittenFor(s, key, n + 1) <==>
      IsWrittenFor(s, key, n) || (n !in s.unwritten && s.output[n].artifact.key == key)
  {
    assert KeysOf(s.output)[n] == s.output[n].artifact.key;
  }

  lemma MoreFiles(base: Snapshot, s: State, key: string, next: nat)
    requires next < |s.output| && next !in s.unwritten
    requires if s.output[next].artifact.key == key then IsOnDisk(s.files, s.output[next].artifact.result)
             else FilesSettled(base, s, key, next)
    ensures FilesSettled(base, s, key, next + 1)
  {
    OneMoreIsWritten(s, key, next);
    forall i: nat | IsLastFor(s, key, next + 1, i) ensures IsOnDisk(s.files, s.output[i].artifact.result) {
      OneMoreIsLast(s, key, next, i);
    }
  }

  lemma MoreMaps(base: Snapshot, s: State, key: string, next: nat)
    requires next < |s.output| && next !in s.unwritten
    requires if s.output[next].artifact.key == key then IsHeld(s.shared, s.output[next].artifact)
             else MapsSettled(base, s, key, next)
    ensures MapsSettled(base, s, key, next + 1)
  {
    OneMoreIsWritten(s, key, next);
    forall i: nat | IsLastFor(s, key, next + 1, i) ensures IsHeld(s.shared, s.output[i].artifact) {
      OneMoreIsLast(s, key, next, i);
    }
  }

  lemma StoresOne(s: State, s': State, key: string, next: nat)
    requires IsLegible(s) && next < |s.output| && KeyAtPosition(s.snapshot.value, s, key, next, next)
    requires s'.shared == s.shared && s'.output == s.output && s'.unwritten == s.unwritten
    requires s'.files == s.files[ResultName(s.output[next].artifact.result.uuid) := s.output[next].artifact.result]
    ensures next !in s.unwritten && KeyAtPosition(s.snapshot.value, s', key, next, next + 1)
  {
    var base, uuid := s.snapshot.value, s.output[next].artifact.result.uuid;
    if s.output[next].artifact.key != key {
      FinalIsForeign(s, key, next);
      forall u | u != uuid ensures ResultName(u) != ResultName(uuid) {
        OtherName(u, uuid);
      }
      OtherChangesKeepKey(base, s, s', key, uuid, next, next);
    }
    SameMapsKeepKey(base, s, s', key, next);
    MoreFiles(base, s', key, next);
  }

  /** Recording the artifact of another key. */
  lemma RecordsOther(s: State, s': State, key: string, next: nat)
    requires IsLegible(s) && next < |s.output| && s.output[next].artifact.key != key
    requires KeyAtPosition(s.snapshot.value, s, key, next, next + 1)
    requires s'.shared == Record(s.shared, s.output[next].artifact) && s'.files == s.files
    requires s'.output == s.output && s'.unwritten == s.unwritten
    ensures MapsSettled(s.snapshot.value, s', key, next)
  {
    FinalIsForeign(s, key, next);
    OtherChangesKeepKey(s.snapshot.value, s, s', key, s.output[next].artifact.result.uuid, next, next + 1);
  }

  lemma RecordsOne(s: State, s': State, key: string, next: nat)
    requires IsLegible(s) && next < |s.output| && next !in s.unwritten
    requires KeyAtPosition(s.snapshot.value, s, key, next, next + 1)
    requires s'.shared == Record(s.shared, s.output[next].artifact) && s'.files == s.files
    requires s'.output == s.output && s'.unwritten == s.unwritten
    ensures KeyAtPosition(s.snapshot.value, s', key, next + 1, next + 1)
  {
    SameFilesKeepKey(s.snapshot.value, s, s', key, next + 1);
    if s.output[next].artifact.key != key {
      RecordsOther(s, s', key, next);
    }
    MoreMaps(s.snapshot.value, s', key, next);
  }

  lemma FailsOne(s: State, s': State, key: string, next: nat)
    requires s.snapshot.Some? && next < |s.output| && KeyAtPosition(s.snapshot.value, s, key, next, next)
    requires s' == s.(phases := s'.phases, unwritten := s.unwritten + {next})
    ensures KeyAtPosition(s.snapshot.value, s', key, next + 1, next + 1)
  {
    OneMoreIsWritten(s', key, next);
    assert IsWrittenFor(s', key, next) <==> IsWrittenFor(s, key, next);
    forall i: nat | IsLastFor(s', key, next + 1, i)
      ensures IsHeld(s'.shared, s'.output[i].artifact) && IsOnDisk(s'.files, s'.output[i].artifact.result)
    {
      assert IsLastFor(s, key, next, i);
    }
  }

  lemma NothingWrittenYet(s: State, s': State, key: string)
    requires s.snapshot.Some? && s.output == [] && KeyAtPosition(s.snapshot.value, s, key, 0, 0)
    requires s'.shared == s.shared && s'.files == s.files && s'.unwritten == s.unwritten
    ensures KeyAtPosition(s.snapshot.value, s', key, 0, 0)
  {
    assert !IsWrittenFor(s, key, 0);
  }

  lemma WritingKeepsKey(sys: System, s: State, next: nat, s': State, phase': Phase, key: string)
    requires IsLegible(s) && KeyAtPosition(s.snapshot.value, s, key, next, next)
    requires FinalizeStep(sys, s, Writing(next), s', phase')
    ensures s'.output == s.output && (phase'.Finished? || IsFinalizing(phase'))
    ensures if phase'.Finished? then KeyAtPosition(s.snapshot.value, s', key, |s'.output|, |s'.output|)
            else KeyProgress(s.snapshot.value, s', key, phase')
  {
    if next == |s.output| {
      SamePosition(s, s', key, next, next);
    } else if phase'.Recording? {
      StoresOne(s, s', key, next);
    } else {
      FailsOne(s, s', key, next);
    }
  }

  lemma SamePosition(s: State, s': State, key: string, recorded: nat, stored: nat)
    requires s.snapshot.Some? && KeyAtPosition(s.snapshot.value, s, key, recorded, stored)
    requires s' == s.(phases := s'.phases)
    ensures KeyAtPosition(s.snapshot.value, s', key, recorded, stored)
  {
    SameStateKeepsKey(s.snapshot.value, s, s', key, recorded, stored);
  }

  lemma MappingKeepsKey(sys: System, s: State, s': State, phase': Phase, key: string)
    requires s.snapshot.Some? && s.output == [] && KeyAtPosition(s.snapshot.value, s, key, 0, 0)
    requires FinalizeStep(sys, s, MappingSuite, s', phase')
    ensures phase' == Finished || phase' == Writing(0)
    ensures phase'.Finished? ==> s'.output == []
    ensures KeyAtPosition(s.snapshot.value, s', key, 0, 0)
  {
    NothingWrittenYet(s, s', key);
  }

  lemma RecordingKeepsKey(sys: System, s: State, next: nat, s': State, phase': Phase, key: string)
    requires IsLegible(s) && KeyProgress(s.snapshot.value, s, key, Recording(next))
    requires FinalizeStep(sys, s, Recording(next), s', phase')
    ensures phase' == Writing(next + 1) && KeyProgress(s.snapshot.value, s', key, phase')
  {
    RecordsOne(s, s', key, next);
  }

  lemma WorkerKeepsKey(sys: System, s: State, phase: Phase, s': State, phase': Phase, key: string)
    requires IsLegible(s) && KeyProgress(s.snapshot.value, s, key, phase)
    requires IsFinalizing(phase) && FinalizeStep(sys, s, phase, s', phase')
    ensures KeyProgress(s.snapshot.value, s', key, phase')
    ensures phase'.Finished? || IsFinalizing(phase')
    ensures phase'.Finished? ==> KeyAtPosition(s.snapshot.value, s', key, |s'.output|, |s'.output|)
  {
    match phase
    case MappingSuite => MappingKeepsKey(sys, s, s', phase', key);
    case Writing(next) => WritingKeepsKey(sys, s, next, s', phase', key);
    case Recording(next) => RecordingKeepsKey(sys, s, next, s', phase', key);
  }

  // ---------------------------------------------------------------- the invariant over runs

  lemma EventKeepsKey(sys: System, s: State, s': State, id: nat, key: string)
    requires FinalizesOnce(sys, s) && IsAnchored(sys, s) && IsLegible(s) && IsConsistent(s.snapshot.value)
    requires StepBy(sys, s, s', id) && sys.calls[id].ScenarioCall? && IsQuietFor(sys, s, key) && KeyProgresses(s, key)
    ensures s'.snapshot == s.snapshot && KeyProgresses(s', key)
  {
    var base := s.snapshot.value;
    FinishedStays(sys, s, s', id);
    ScenarioPhases(sys, s, s', id);
    OthersStay(sys, s, s', id);
    var uuid := OtherEventChangesOther(sys, s, s', id, key);
    OthersKeepKey(s, s', id, key, uuid);
  }

  lemma OthersKeepKey(s: State, s': State, id: nat, key: string, uuid: string)
    requires s.snapshot.Some? && s'.snapshot == s.snapshot && id < |s.phases| == |s'.phases|
    requires s'.phases == s.phases[id := s'.phases[id]]
    requires !IsFinalizing(s.phases[id]) && !IsFinalizing(s'.phases[id]) && KeyProgresses(s, key)
    requires ChangesOther(s, s', key, uuid) && IsForeign(s.snapshot.value, s, key, uuid)
    ensures KeyProgresses(s', key)
  {
    var base := s.snapshot.value;
    forall i | 0 <= i < |s'.phases| ensures KeyProgress(base, s', key, s'.phases[i]) {
      assert KeyProgress(base, s, key, s.phases[i]);
      PhaseKeepsKey(base, s, s', key, uuid, s.phases[i]);
    }
    if NobodyFinalizes(s') {
      assert forall i :: 0 <= i < |s.phases| && i != id ==> s'.phases[i] == s.phases[i];
      OtherChangesKeepKey(base, s, s', key, uuid, |s.output|, |s.output|);
    }
  }

  lemma PhaseKeepsKey(base: Snapshot, s: State, s': State, key: string, uuid: string, phase: Phase)
    requires ChangesOther(s, s', key, uuid) && IsForeign(base, s, key, uuid) && KeyProgress(base, s, key, phase)
    ensures KeyProgress(base, s', key, phase)
  {
    match phase
    case MappingSuite => OtherChangesKeepKey(base, s, s', key, uuid, 0, 0);
    case Writing(next) => OtherChangesKeepKey(base, s, s', key, uuid, next, next);
    case Recording(next) => OtherChangesKeepKey(base, s, s', key, uuid, next, next + 1);
    case _ =>
  }

  lemma FinalizerKeepsKey(sys: System, s: State, s': State, id: nat, key: string)
    requires FinalizesOnce(sys, s) && IsLegible(s) && StepBy(sys, s, s', id) && !sys.calls[id].ScenarioCall?
    requires s'.snapshot == s.snapshot && s.shared.finalized && KeyProgresses(s, key)
    ensures KeyProgresses(s', key)
  {
    var base := s.snapshot.value;
    OthersStay(sys, s, s', id);
    assert KeyProgress(base, s, key, s.phases[id]);
    if IsFinalizing(s.phases[id]) {
      WorkerStep(sys, s, s', id);
      WorkerKeepsKey(sys, s, s.phases[id], s', s'.phases[id], key);
    } else {
      BystandersChangeNothing(sys, s, s', id);
      SamePhases(s, s', id, key);
    }
  }

  lemma SamePhases(s: State, s': State, id: nat, key: string)
    requires s.snapshot.Some? && s' == s.(phases := s'.phases) && id < |s.phases| == |s'.phases|
    requires s'.phases == s.phases[id := s'.phases[id]]
    requires !IsFinalizing(s.phases[id]) && !IsFinalizing(s'.phases[id]) && KeyProgresses(s, key)
    ensures KeyProgresses(s', key)
  {
    forall i | 0 <= i < |s'.phases| ensures KeyProgress(s.snapshot.value, s', key, s'.phases[i]) {
      assert KeyProgress(s.snapshot.value, s, key, s.phases[i]);
      SamePhase(s.snapshot.value, s, s', key, s.phases[i]);
    }
    if NobodyFinalizes(s') {
      assert forall i :: 0 <= i < |s.phases| && i != id ==> s'.phases[i] == s.phases[i];
      SamePosition(s, s', key, |s.output|, |s.output|);
    }
  }

  lemma SamePhase(base: Snapshot, s: State, s': State, key: string, phase: Phase)
    requires s'.shared.uuids == s.shared.uuids && s'.shared.results == s.shared.results && s'.files == s.files
    requires s'.output == s.output && s'.unwritten == s.unwritten && KeyProgress(base, s, key, phase)
    ensures KeyProgress(base, s', key, phase)
  {
    match phase
    case MappingSuite => SameStateKeepsKey(base, s, s', key, 0, 0);
    case Writing(next) => SameStateKeepsKey(base, s, s', key, next, next);
    case Recording(next) => SameStateKeepsKey(base, s, s', key, next, next + 1);
    case _ =>
  }

  ghost predicate IsKeySettled(sys: System, s: State, key: string) {
    IsAnchored(sys, s) && IsQuietFor(sys, s, key) && KeyProgresses(s, key)
  }

  lemma StartEventKeepsKey(s: State, s': State, key: string)
    requires EventStep(s, s') && s.snapshot.Some? && KeyProgresses(s, key)
    ensures KeyProgresses(s', key)
  {
    forall i | 0 <= i < |s'.phases| ensures KeyProgress(s.snapshot.value, s', key, s'.phases[i]) {
      assert KeyProgress(s.snapshot.value, s, key, s.phases[i]);
      SamePhase(s.snapshot.value, s, s', key, s.phases[i]);
    }
    if NobodyFinalizes(s') {
      SameStateKeepsKey(s.snapshot.value, s, s', key, |s.output|, |s.output|);
    }
  }

  lemma StaysQuiet(sys: System, s: State, s': State, id: nat, key: string)
    requires StepBy(sys, s, s', id) && IsQuietFor(sys, s, key)
    ensures IsQuietFor(sys, s', key)
  {
    OthersStay(sys, s, s', id);
    FinishedStays(sys, s, s', id);
  }

  lemma StepKeepsKey(sys: System, s: State, s': State, id: nat, key: string)
    requires FinalizesOnce(sys, s) && IsAnchored(sys, s) && IsLegible(s) && IsConsistent(s.snapshot.value)
    requires StepBy(sys, s, s', id) && s'.snapshot == s.snapshot && IsQuietFor(sys, s, key) && KeyProgresses(s, key)
    ensures KeyProgresses(s', key)
  {
    if sys.calls[id].ScenarioCall? {
      EventKeepsKey(sys, s, s', id, key);
    } else {
      FinalizerKeepsKey(sys, s, s', id, key);
    }
  }

  lemma MoveKeepsKey(sys: System, s: State, s': State, key: string)
    requires FinalizesOnce(sys, s) && IsAnchored(sys, s) && IsLegible(s) && IsConsistent(s.snapshot.value)
    requires Next(sys, s, s') && s'.snapshot == s.snapshot && |s'.phases| == |sys.calls|
    requires IsQuietFor(sys, s, key) && KeyProgresses(s, key)
    ensures IsQuietFor(sys, s', key) && KeyProgresses(s', key)
  {
    if EventStep(s, s') {
      StartEventKeepsKey(s, s', key);
    } else {
      var id: nat :| StepBy(sys, s, s', id);
      StaysQuiet(sys, s, s', id, key);
      StepKeepsKey(sys, s, s', id, key);
    }
  }

  lemma RunIsLegible(sys: System, run: seq<State>, n: nat)
    requires IsRun(sys, run) && n < |run| && HasNewSynthetics(run[n])
    ensures FinalizesOnce(sys, run[n]) && IsLegible(run[n]) && IsConsistent(run[n].snapshot.value)
  {
    RunReconciles(sys, run, n);
    RunKeepsInvariant(sys, run, n);
  }

  lemma KeyRunMoves(sys: System, run: seq<State>, n: nat, key: string)
    requires IsRun(sys, run) && n < |run| - 1 && run[n].snapshot.Some? && IsKeySettled(sys, run[n], key)
    requires HasNewSynthetics(run[n + 1])
    ensures IsKeySettled(sys, run[n + 1], key)
  {
    AnchoredRunMoves(sys, run, n);
    RunIsLegible(sys, run, n);
    assert StepsAt(sys, run, n);
    MoveKeepsKey(sys, run[n], run[n + 1], key);
  }

  lemma {:induction false} EarlierHasNewSynthetics(sys: System, run: seq<State>, m: nat, k: nat, n: nat)
    requires IsRun(sys, run) && m <= k <= n < |run| && run[m].snapshot.Some? && HasNewSynthetics(run[n])
    ensures HasNewSynthetics(run[k])
    decreases n
  {
    if k < n {
      FinalizedNeverReverts(sys, run, m, n - 1);
      AnchoredRunMoves(sys, run, n - 1);
      EarlierHasNewSynthetics(sys, run, m, k, n - 1);
    }
  }

  /** What every step keeps holds to the end. */
  lemma {:induction false} HoldsToTheEnd(run: seq<State>, m: nat, n: nat, holds: State -> bool)
    requires m <= n < |run| && holds(run[m])
    requires forall k: nat :: m <= k < n && holds(run[k]) ==> holds(run[k + 1])
    ensures holds(run[n])
    decreases n
  {
    if m < n {
      HoldsToTheEnd(run, m, n - 1, holds);
    }
  }

  lemma RunKeepsKey(sys: System, run: seq<State>, m: nat, n: nat, key: string)
    requires IsRun(sys, run) && m <= n < |run| && run[m].snapshot.Some? && IsKeySettled(sys, run[m], key)
    requires HasNewSynthetics(run[n])
    ensures IsKeySettled(sys, run[n], key)
  {
    var holds := (s: State) => IsKeySettled(sys, s, key);
    forall k: nat | m <= k < n && holds(run[k]) ensures holds(run[k + 1]) {
      EarlierHasNewSynthetics(sys, run, m, k + 1, n);
      KeyRunMoves(sys, run, k, key);
    }
    HoldsToTheEnd(run, m, n, holds);
  }

  lemma KeyStartsSettled(sys: System, run: seq<State>, m: nat, key: string)
    requires IsRun(sys, run) && CopiedAt(run, m) && |run[m].phases| == |sys.calls|
    requires OnlyKnownAttempts(sys, run[m]) && IsQuietFor(sys, run[m], key)
    ensures IsKeySettled(sys, run[m], key)
  {
    var f := CopyIsOwned(sys, run, m);
    RunKeepsInvariant(sys, run, m);
    FilesAreCopied(sys, run, m);
    assert forall i :: 0 <= i < |run[m].phases| && i != f ==> !IsFinalizing(run[m].phases[i]);
    CopyIsSettled(run[m], key, f);
  }

  lemma CopyIsSettled(s: State, key: string, f: nat)
    requires s.snapshot.Some? && f < |s.phases| && s.phases[f].MappingSuite?
    requires forall i :: 0 <= i < |s.phases| && i != f ==> !IsFinalizing(s.phases[i])
    requires s.output == [] && s.unwritten == {} && s.shared == s.snapshot.value.shared.(finalized := true)
    requires s.files == s.snapshot.value.files
    ensures KeyProgresses(s, key)
  {
    assert !IsWrittenFor(s, key, 0);
  }

  lemma FilesAreCopied(sys: System, run: seq<State>, m: nat)
    requires IsRun(sys, run) && CopiedAt(run, m)
    ensures run[m].snapshot.Some? && run[m].files == run[m].snapshot.value.files
  {
    RunMoves(sys, run, m - 1);
    RunKeepsInvariant(sys, run, m - 1);
    RunKeepsFiles(sys, run, m - 1);
    var f: nat :| StepBy(sys, run[m - 1], run[m], f);
    EnteringCopies(sys, run[m - 1], run[m], f);
  }

  /** The key holds the final artifact written for it last; without one, it is as Finalize found it. */
  ghost predicate IsReconciledFor(base: Snapshot, s: State, key: string) {
    MapsSettled(base, s, key, |s.output|) && FilesSettled(base, s, key, |s.output|)
  }

  lemma DoneIsReconciledFor(s: State, key: string)
    requires s.snapshot.Some? && KeyProgresses(s, key) && NobodyFinalizes(s)
    ensures IsReconciledFor(s.snapshot.value, s, key)
  {
  }

  /**
   * While events for known attempts are still handled beside Finalize, every attempt whose own events were all handled
   * before is reconciled: its final result and file are not touched again, and neither are its live ones if the suite
   * has none for it or they could not be written.
   */
  lemma QuietKeysAreReconciled(sys: System, run: seq<State>, m: nat, n: nat, key: string)
    requires IsRun(sys, run) && CopiedAt(run, m) && m <= n < |run| && |run[m].phases| == |sys.calls|
    requires OnlyKnownAttempts(sys, run[m]) && IsQuietFor(sys, run[m], key)
    requires HasNewSynthetics(run[n]) && NobodyFinalizes(run[n])
    ensures IsReconciledFor(run[n].snapshot.value, run[n], key)
  {
    KeyStartsSettled(sys, run, m, key);
    RunKeepsKey(sys, run, m, n, key);
    DoneIsReconciledFor(run[n], key);
  }

  // ---------------------------------------------------------------- without such events

  lemma UntouchedUuid(existing: map<string, string>, s: State, key: string)
    requires Injective(existing) && FitsSnapshot(existing, existing.Values, s.output) && key in existing
    requires !IsWrittenFor(s, key, |s.output|)
    ensures !IsWritten(UuidsOf(s.output), s.unwritten, |s.output|, existing[key])
  {
    forall i: nat | i < |s.output| && i !in s.unwritten ensures UuidsOf(s.output)[i] != existing[key] {
      assert KeysOf(s.output)[i] == s.output[i].artifact.key;
      OtherKeyOtherUuid(existing, s.output, i, key);
    }
  }

  /** When no scenario call runs beside Finalize, every key is reconciled. */
  lemma ReconciledForEach(base: Snapshot, s: State, key: string)
    requires IsReconciled(base, s) && IsConsistent(base)
    requires FitsSnapshot(base.shared.uuids, base.shared.uuids.Values, s.output)
    ensures IsReconciledFor(base, s, key)
  {
    forall i: nat | IsLastFor(s, key, |s.output|, i)
      ensures IsHeld(s.shared, s.output[i].artifact) && IsOnDisk(s.files, s.output[i].artifact.result)
    {
      assert IsLast(KeysOf(s.output), s.unwritten, |s.output|, i);
    }
    if !IsWrittenFor(s, key, |s.output|) {
      UnwrittenIsAsBefore(base, s, key);
    }
  }

  lemma UnwrittenIsAsBefore(base: Snapshot, s: State, key: string)
    requires IsReconciled(base, s) && IsConsistent(base) && !IsWrittenFor(s, key, |s.output|)
    requires FitsSnapshot(base.shared.uuids, base.shared.uuids.Values, s.output)
    ensures HasMapsAsBefore(base, s, key) && HasFileAsBefore(base, s, key)
  {
    if key in base.shared.uuids {
      UntouchedUuid(base.shared.uuids, s, key);
    }
  }

  // ---------------------------------------------------------------- ownership beside such events

  /** The first `n` written artifacts have results. */
  predicate HasResults(s: State, n: nat) {
    forall i: nat :: i < n && i < |s.output| && i !in s.unwritten ==>
      s.output[i].artifact.result.uuid in s.shared.results
  }

  predicate HasResultsAt(s: State, phase: Phase) {
    match phase
    case Writing(next) => HasResults(s, next)
    case Recording(next) => HasResults(s, next)
    case _ => true
  }

  predicate ResultsProgress(s: State) {
    && (forall i :: 0 <= i < |s.phases| ==> HasResultsAt(s, s.phases[i]))
    && (NobodyFinalizes(s) ==> HasResults(s, |s.output|))
  }

  lemma MoreResults(s: State, s': State, n: nat)
    requires HasResults(s, n) && s'.output == s.output && s.unwritten <= s'.unwritten
    requires s.shared.results.Keys <= s'.shared.results.Keys
    ensures HasResults(s', n)
  {
  }

  lemma WorkerKeepsResults(sys: System, s: State, phase: Phase, s': State, phase': Phase)
    requires IsFinalizing(phase) && FinalizeStep(sys, s, phase, s', phase') && HasResultsAt(s, phase)
    requires phase.MappingSuite? ==> s.output == []
    ensures HasResultsAt(s', phase') && (phase'.Finished? ==> HasResults(s', |s'.output|))
    ensures phase'.Finished? || IsFinalizing(phase')
  {
    match phase
    case MappingSuite =>
    case Writing(next) => MoreResults(s, s', next);
    case Recording(next) => MoreResults(s, s', next);
  }

  lemma OthersKeepResults(s: State, s': State, id: nat)
    requires ResultsProgress(s) && s'.output == s.output && s'.unwritten == s.unwritten
    requires s.shared.results.Keys <= s'.shared.results.Keys
    requires id < |s.phases| == |s'.phases| && s'.phases == s.phases[id := s'.phases[id]]
    requires !IsFinalizing(s.phases[id]) && !IsFinalizing(s'.phases[id])
    ensures ResultsProgress(s')
  {
    forall i | 0 <= i < |s'.phases| ensures HasResultsAt(s', s'.phases[i]) {
      assert HasResultsAt(s, s.phases[i]);
    }
    if NobodyFinalizes(s') {
      assert forall i :: 0 <= i < |s.phases| && i != id ==> s'.phases[i] == s.phases[i];
      MoreResults(s, s', |s.output|);
    }
  }

  lemma StepKeepsResults(sys: System, s: State, s': State, id: nat)
    requires FinalizesOnce(sys, s) && s.snapshot.Some? && StepBy(sys, s, s', id) && ResultsProgress(s)
    ensures ResultsProgress(s')
  {
    OthersStay(sys, s, s', id);
    assert HasResultsAt(s, s.phases[id]);
    if IsFinalizing(s.phases[id]) {
      WorkerStep(sys, s, s', id);
      WorkerKeepsResults(sys, s, s.phases[id], s', s'.phases[id]);
    } else {
      StaysElsewhere(sys, s, s', id);
      ResultsGrow(sys, s, s', id);
      OthersKeepResults(s, s', id);
    }
  }

  lemma EventResultsGrow(sys: System, request: Request, s: State, phase: Phase, s': State, phase': Phase)
    requires ScenarioStep(sys, request, s, phase, s', phase')
    ensures s.shared.results.Keys <= s'.shared.results.Keys
  {
  }

  lemma ResultsGrow(sys: System, s: State, s': State, id: nat)
    requires FinalizesOnce(sys, s) && s.snapshot.Some? && StepBy(sys, s, s', id) && !IsFinalizing(s.phases[id])
    ensures s.shared.results.Keys <= s'.shared.results.Keys
  {
    if sys.calls[id].ScenarioCall? {
      EventResultsGrow(sys, sys.calls[id].request, s, s.phases[id], s'.(late := s.late), s'.phases[id]);
    } else {
      BystandersChangeNothing(sys, s, s', id);
    }
  }

  lemma NoArtifactsYet(s: State)
    requires s.output == []
    ensures ResultsProgress(s)
  {
  }

  lemma MoveKeepsResults(sys: System, s: State, s': State)
    requires FinalizesOnce(sys, s) && s.snapshot.Some? && Next(sys, s, s') && ResultsProgress(s)
    ensures ResultsProgress(s')
  {
    if EventStep(s, s') {
      SameResults(s, s');
    } else {
      var id: nat :| StepBy(sys, s, s', id);
      StepKeepsResults(sys, s, s', id);
    }
  }

  lemma ResultsRunMoves(sys: System, run: seq<State>, n: nat)
    requires IsRun(sys, run) && n < |run| - 1 && run[n].snapshot.Some? && ResultsProgress(run[n])
    ensures ResultsProgress(run[n + 1])
  {
    RunKeepsInvariant(sys, run, n);
    assert StepsAt(sys, run, n);
    MoveKeepsResults(sys, run[n], run[n + 1]);
  }

  lemma {:induction false} RunHasResults(sys: System, run: seq<State>, m: nat, n: nat)
    requires IsRun(sys, run) && m <= n < |run| && run[m].snapshot.Some? && ResultsProgress(run[m])
    ensures ResultsProgress(run[n])
    decreases n
  {
    if m < n {
      FinalizedNeverReverts(sys, run, m, n - 1);
      RunHasResults(sys, run, m, n - 1);
      ResultsRunMoves(sys, run, n - 1);
    }
  }

  lemma SameResults(s: State, s': State)
    requires EventStep(s, s') && ResultsProgress(s)
    ensures ResultsProgress(s')
  {
    forall i | 0 <= i < |s'.phases| ensures HasResultsAt(s', s'.phases[i]) {
      assert HasResultsAt(s, s.phases[i]);
    }
  }

  lemma UnregisteredIsQuiet(sys: System, s: State, key: string)
    requires s.snapshot.Some? && |s.phases| == |sys.calls| && OnlyKnownAttempts(sys, s)
    requires key !in s.snapshot.value.shared.uuids
    ensures IsQuietFor(sys, s, key)
  {
  }

  /** The UUID of an unregistered key is that of its last artifact. */
  lemma UuidOfUnregistered(base: Snapshot, s: State, key: string) returns (i: nat)
    requires IsReconciledFor(base, s, key) && key in s.shared.uuids && key !in base.shared.uuids
    ensures IsLastFor(s, key, |s.output|, i) && s.shared.uuids[key] == s.output[i].artifact.result.uuid
  {
    i := LastOfWritten(KeysOf(s.output), s.unwritten, |s.output|, key);
    assert IsLastFor(s, key, |s.output|, i);
  }

  lemma RepeatHasNoKey(sys: System, run: seq<State>, m: nat, n: nat, i: nat, j: nat)
    requires IsRun(sys, run) && CopiedAt(run, m) && m <= n < |run| && |run[m].phases| == |sys.calls|
    requires OnlyKnownAttempts(sys, run[m]) && HasNewSynthetics(run[n]) && NobodyFinalizes(run[n])
    requires run[n].snapshot == run[m].snapshot && Anchored(sys, run[n]) && Copied(sys, run[n])
    requires i < j < |run[n].output| && i !in run[n].unwritten && j !in run[n].unwritten
    requires run[n].output[i].artifact.key == run[n].output[j].artifact.key
    requires run[n].output[i].artifact.key !in run[n].snapshot.value.shared.uuids
    ensures run[n].output[i].artifact.result.uuid !in run[n].shared.uuids.Values
  {
    var s, base := run[n], run[n].snapshot.value;
    var uuid := s.output[i].artifact.result.uuid;
    assert KeysOf(s.output)[j] == KeysOf(s.output)[i];
    forall l | l in s.shared.uuids ensures s.shared.uuids[l] != uuid {
      if l in base.shared.uuids {
        assert Registered(s, l, base.shared.uuids[l]) && base.shared.uuids[l] in base.shared.uuids.Values;
      } else {
        UnregisteredIsQuiet(sys, run[m], l);
        QuietKeysAreReconciled(sys, run, m, n, l);
        var k := UuidOfUnregistered(base, s, l);
        if s.shared.uuids[l] == uuid {
          SameUuidSameKey(base.shared.uuids, s.output, k, i);
        }
      }
    }
  }

  lemma {:induction false} RunStaysAnchored(sys: System, run: seq<State>, m: nat, n: nat)
    requires IsRun(sys, run) && m <= n < |run| && run[m].snapshot.Some? && IsAnchored(sys, run[m])
    requires HasNewSynthetics(run[n])
    ensures IsAnchored(sys, run[n]) && run[n].snapshot == run[m].snapshot
    decreases n
  {
    if m < n {
      FinalizedNeverReverts(sys, run, m, n - 1);
      AnchoredRunMoves(sys, run, n - 1);
      RunStaysAnchored(sys, run, m, n - 1);
    }
  }

  /**
   * Ownership after a Finalize that had events for known attempts beside it: every result belongs to a key exactly if
   * no unregistered key comes twice among the artifacts that were written.
   */
  lemma KeysOwnResultsBesideKnownEvents(sys: System, run: seq<State>, m: nat, n: nat)
    requires IsRun(sys, run) && CopiedAt(run, m) && m <= n < |run| && |run[m].phases| == |sys.calls| == |run[n].phases|
    requires OnlyKnownAttempts(sys, run[m]) && HasNewSynthetics(run[n]) && NobodyFinalizes(run[n])
    ensures KeysOwnResults(run[n]) <==>
            RepeatsAreRegistered(run[n].snapshot.value.shared.uuids, run[n].output, run[n].unwritten, |run[n].output|)
  {
    var s := run[n];
    var f := CopyIsOwned(sys, run, m);
    RunStaysAnchored(sys, run, m, n);
    RunReconciles(sys, run, n);
    if RepeatsAreRegistered(s.snapshot.value.shared.uuids, s.output, s.unwritten, |s.output|) {
      assert IsUsable(s);
      KnownEventsAreHarmless(sys, run, m, n);
    } else {
      var i: nat, j: nat :| i < j < |s.output| && i !in s.unwritten && j !in s.unwritten &&
        s.output[i].artifact.key == s.output[j].artifact.key &&
          s.output[i].artifact.key !in s.snapshot.value.shared.uuids;
      RepeatHasNoKey(sys, run, m, n, i, j);
      NoArtifactsYet(run[m]);
      RunHasResults(sys, run, m, n);
    }
  }

  // ---------------------------------------------------------------- an event under way at the copy

  /** The status the event of a call will publish; it can still be any before its last mapping. */
  function EventStatus(phase: Phase): Status {
    match phase
    case Remapped(result) => result.status
    case Reserved(result) => result.status
    case Written(result) => result.status
    case _ => Passed
  }

  /** The event of call `i` has published its report under the UUID. */
  predicate Overwrites(s: State, t: State, i: nat, uuid: string, status: Status)
    requires i < |s.phases|
  {
    && t.phases == s.phases[i := Finished] && t.snapshot == s.snapshot
    && t.output == s.output && t.unwritten == s.unwritten
    && uuid in t.shared.results && t.shared.results[uuid].status == status
  }

  lemma ReservedOverwrites(sys: System, s: State, i: nat, request: Request, result: TestResult)
    returns (path: seq<State>)
    requires i < |sys.calls| == |s.phases| && sys.calls[i] == ScenarioCall(request) && s.phases[i] == Reserved(result)
    ensures IsPath(sys, path) && path[0] == s
    ensures Overwrites(s, path[|path| - 1], i, result.uuid, result.status)
  {
    path := Ends(sys, s, i, request, result, true);
  }

  lemma RemappedOverwrites(sys: System, s: State, i: nat, request: Request, result: TestResult)
    returns (path: seq<State>)
    requires i < |sys.calls| == |s.phases| && sys.calls[i] == ScenarioCall(request) && s.phases[i] == Remapped(result)
    ensures IsPath(sys, path) && path[0] == s
    ensures Overwrites(s, path[|path| - 1], i, result.uuid, result.status)
  {
    var reserved := Registers(sys, s, i, request, result, 0);
    path := OneStep(sys, s, reserved, i);
    var rest := ReservedOverwrites(sys, reserved, i, request, Restarted(s.shared.starts, request.startKey, result, 0));
    path := PathsJoin(sys, path, rest);
  }

  lemma RemappingOverwrites(sys: System, s: State, i: nat, request: Request, uuid: string) returns (path: seq<State>)
    requires i < |sys.calls| == |s.phases| && sys.calls[i] == ScenarioCall(request) && s.phases[i] == Remapping(uuid)
    ensures IsPath(sys, path) && path[0] == s
    ensures Overwrites(s, path[|path| - 1], i, uuid, Passed)
  {
    var remapped := Moved(s, i, Remapped(BLANK.(uuid := uuid)));
    path := OneStep(sys, s, remapped, i);
    var rest := RemappedOverwrites(sys, remapped, i, request, BLANK.(uuid := uuid));
    path := PathsJoin(sys, path, rest);
  }

  lemma MappedOverwrites(sys: System, s: State, i: nat, request: Request, result: TestResult, uuid: string)
    returns (path: seq<State>)
    requires i < |sys.calls| == |s.phases| && sys.calls[i] == ScenarioCall(request) && s.phases[i] == Mapped(result)
    requires Registered(s, request.key, uuid) && uuid != "" && result.uuid != uuid
    ensures IsPath(sys, path) && path[0] == s
    ensures Overwrites(s, path[|path| - 1], i, uuid, Passed)
  {
    var remapping := Moved(s, i, Remapping(uuid));
    path := OneStep(sys, s, remapping, i);
    var rest := RemappingOverwrites(sys, remapping, i, request, uuid);
    path := PathsJoin(sys, path, rest);
  }

  lemma IdleOverwrites(sys: System, s: State, i: nat, request: Request, uuid: string) returns (path: seq<State>)
    requires i < |sys.calls| == |s.phases| && sys.calls[i] == ScenarioCall(request) && s.phases[i] == Idle
    requires Registered(s, request.key, uuid) && uuid != "" && uuid in s.issued
    ensures IsPath(sys, path) && path[0] == s
    ensures Overwrites(s, path[|path| - 1], i, uuid, Passed)
  {
    var draft := LongerThanAll(s.issued);
    var mapped := MapsFirst(sys, s, i, request, BLANK.(uuid := draft));
    path := OneStep(sys, s, mapped, i);
    var rest := MappedOverwrites(sys, mapped, i, request, BLANK.(uuid := draft), uuid);
    path := PathsJoin(sys, path, rest);
  }

  /** However far it is, an event for a registered attempt can publish its own report. */
  lemma EventOverwrites(sys: System, s: State, i: nat, uuid: string) returns (path: seq<State>)
    requires i < |sys.calls| == |s.phases| && sys.calls[i].ScenarioCall?
    requires !s.phases[i].Finished? && !IsFinalizing(s.phases[i])
    requires Registered(s, sys.calls[i].request.key, uuid) && uuid != "" && uuid in s.issued
    requires CallHolds(s, sys.calls[i], s.phases[i])
    ensures IsPath(sys, path) && path[0] == s
    ensures Overwrites(s, path[|path| - 1], i, uuid, EventStatus(s.phases[i]))
  {
    var request := sys.calls[i].request;
    match s.phases[i]
    case Idle => path := IdleOverwrites(sys, s, i, request, uuid);
    case Mapped(result) =>
      assert uuid in s.shared.uuids.Values;
      path := MappedOverwrites(sys, s, i, request, result, uuid);
    case Remapping(_) => path := RemappingOverwrites(sys, s, i, request, uuid);
    case Remapped(result) => path := RemappedOverwrites(sys, s, i, request, result);
    case Reserved(result) => path := ReservedOverwrites(sys, s, i, request, result);
    case Written(result) =>
      var t := PublishesResult(sys, s, i, request, result);
      path := OneStep(sys, s, t, i);
  }

  /** Finalize maps a suite with one artifact, records it, and ends. */
  lemma OneArtifactToTheEnd(sys: System, s: State, f: nat, final: Final) returns (path: seq<State>)
    requires IsMapping(sys, s, f) && s.snapshot.Some? && s.unwritten == {}
    requires FitsSnapshot(s.snapshot.value.shared.uuids, s.issued, [final])
    ensures IsPath(sys, path) && path[0] == s
    ensures var t := path[|path| - 1];
            && t.phases == s.phases[f := Finished] && t.snapshot == s.snapshot && t.output == [final] &&
               t.unwritten == {}
            && t.shared == Record(s.shared, final.artifact) && s.issued <= t.issued
  {
    var mapped := MapsSuite(sys, s, f, [final]);
    path := OneStep(sys, s, mapped, f);
    var rest := WritesOne(sys, mapped, f, true, 0);
    path := PathsJoin(sys, path, rest);
    var written := path[|path| - 1];
    var done := written.(phases := written.phases[f := Finished]);
    var step := OneStep(sys, written, done, f);
    path := PathsJoin(sys, path, step);
  }

  lemma OtherStatus(status: Status) returns (other: Status)
    ensures other != status
  {
    other := if status == Passed then Failed else Passed;
  }

  lemma OverwrittenIsNotReconciled(s: State, key: string, artifact: Artifact)
    requires s.snapshot.Some? && s.output == [Final(artifact, true)] && s.unwritten == {} && artifact.key == key
    requires artifact.result.uuid in s.shared.results ==> s.shared.results[artifact.result.uuid] != artifact.result
    ensures !IsReconciledFor(s.snapshot.value, s, key)
  {
    assert IsLastFor(s, key, 1, 0);
    assert !IsHeld(s.shared, s.output[0].artifact);
  }

  /** An event under way at the copy can publish its report after the final one. */
  lemma UnquietKeyIsOverwritten(sys: System, s: State, f: nat, i: nat) returns (path: seq<State>)
    requires FinalizesOnce(sys, s) && IsMapping(sys, s, f) && s.snapshot.Some? && s.unwritten == {}
    requires s.shared.uuids == s.snapshot.value.shared.uuids && s.shared.uuids.Values <= s.issued
    requires "" !in s.shared.uuids.Values
    requires i < |sys.calls| && sys.calls[i].ScenarioCall? && !s.phases[i].Finished?
    requires sys.calls[i].request.key in s.shared.uuids
    requires CallHolds(s, sys.calls[i], s.phases[i])
    ensures IsPath(sys, path) && path[0] == s
    ensures var t := path[|path| - 1];
            && t.snapshot == s.snapshot && HasNewSynthetics(t) && NobodyFinalizes(t)
            && !IsReconciledFor(s.snapshot.value, t, sys.calls[i].request.key)
  {
    var key := sys.calls[i].request.key;
    var uuid := s.shared.uuids[key];
    assert uuid in s.shared.uuids.Values;
    var status := OtherStatus(EventStatus(s.phases[i]));
    var artifact := Artifact(key, BLANK.(uuid := uuid, status := status));
    path := OneArtifactToTheEnd(sys, s, f, Final(artifact, true));
    var ended := path[|path| - 1];
    assert ended.shared.uuids == s.shared.uuids && ended.phases[i] == s.phases[i];
    assert CallHolds(ended, sys.calls[i], ended.phases[i]);
    var rest := EventOverwrites(sys, ended, i, uuid);
    path := PathsJoin(sys, path, rest);
    OverwrittenIsNotReconciled(path[|path| - 1], key, artifact);
  }

  lemma CopyKeepsCalls(sys: System, run: seq<State>, m: nat, i: nat)
    requires IsRun(sys, run) && CopiedAt(run, m) && i < |sys.calls| && sys.calls[i].ScenarioCall?
    ensures |run[m].phases| == |sys.calls| && CallHolds(run[m], sys.calls[i], run[m].phases[i])
    ensures FinalizesOnce(sys, run[m]) && "" !in run[m].shared.uuids.Values
  {
    RunMoves(sys, run, m - 1);
    RunKeepsInvariant(sys, run, m - 1);
    RunKeepsInvariant(sys, run, m);
    RunKeepsFiles(sys, run, m - 1);
    var f: nat :| StepBy(sys, run[m - 1], run[m], f);
    EnteringCopies(sys, run[m - 1], run[m], f);
    OthersStay(sys, run[m - 1], run[m], f);
    assert CallHolds(run[m - 1], sys.calls[i], run[m - 1].phases[i]);
  }

  /** Finalize is over. */
  predicate IsOver(run: seq<State>) {
    run != [] && HasNewSynthetics(run[|run| - 1]) && NobodyFinalizes(run[|run| - 1])
  }

  lemma UnquietRunFails(sys: System, run: seq<State>, key: string) returns (longer: seq<State>)
    requires IsRun(sys, run) && CopiedAt(run, |run| - 1) && |run[|run| - 1].phases| == |sys.calls|
    requires OnlyKnownAttempts(sys, run[|run| - 1]) && !IsQuietFor(sys, run[|run| - 1], key)
    ensures IsRun(sys, longer) && run <= longer && IsOver(longer)
    ensures !IsReconciledFor(run[|run| - 1].snapshot.value, longer[|longer| - 1], key)
  {
    var m := |run| - 1;
    var f := CopyIsOwned(sys, run, m);
    var i: nat :| i < |sys.calls| && sys.calls[i].ScenarioCall? && sys.calls[i].request.key == key &&
      !run[m].phases[i].Finished?;
    CopyKeepsCalls(sys, run, m, i);
    var path := UnquietKeyIsOverwritten(sys, run[m], f, i);
    longer := RunGrows(sys, run, path);
  }

  /**
   * From the moment Finalize has taken its copy, with only known events left: an attempt ends with its final result, or
   * with what it had, in every way the run can go on, exactly if its own events had all been handled by then.
   */
  lemma ReconciledExactlyIfQuiet(sys: System, run: seq<State>, key: string)
    requires IsRun(sys, run) && CopiedAt(run, |run| - 1) && |run[|run| - 1].phases| == |sys.calls|
    requires OnlyKnownAttempts(sys, run[|run| - 1])
    ensures (forall longer: seq<State> {:trigger IsRun(sys, longer)} ::
               IsRun(sys, longer) && run <= longer && IsOver(longer) ==>
               IsReconciledFor(run[|run| - 1].snapshot.value, longer[|longer| - 1], key)) <==>
            IsQuietFor(sys, run[|run| - 1], key)
  {
    var m := |run| - 1;
    if IsQuietFor(sys, run[m], key) {
      forall longer: seq<State> | IsRun(sys, longer) && run <= longer && IsOver(longer)
        ensures IsReconciledFor(run[m].snapshot.value, longer[|longer| - 1], key)
      {
        assert longer[m] == run[m] && longer[m - 1] == run[m - 1];
        FinalizedNeverReverts(sys, longer, m, |longer| - 1);
        QuietKeysAreReconciled(sys, longer, m, |longer| - 1, key);
      }
    } else {
      var longer := UnquietRunFails(sys, run, key);
    }
  }

  /** Beside events for known attempts, the key of the last artifact written for it has its UUID and a result. */
  lemma LastArtifactHasResult(sys: System, run: seq<State>, m: nat, n: nat, key: string, k: nat)
    requires IsRun(sys, run) && CopiedAt(run, m) && m <= n < |run| && |run[m].phases| == |sys.calls|
    requires OnlyKnownAttempts(sys, run[m]) && HasNewSynthetics(run[n]) && NobodyFinalizes(run[n])
    requires IsLastFor(run[n], key, |run[n].output|, k)
    ensures Registered(run[n], key, run[n].output[k].artifact.result.uuid)
    ensures run[n].output[k].artifact.result.uuid in run[n].shared.results
  {
    var copied := run[n].snapshot.value.shared.uuids;
    var f := CopyIsOwned(sys, run, m);
    RunStaysAnchored(sys, run, m, n);
    RunReconciles(sys, run, n);
    NoArtifactsYet(run[m]);
    RunHasResults(sys, run, m, n);
    if key in copied {
      assert run[n].output[k].attempt && Registered(run[n], key, copied[key]);
    } else {
      UnregisteredIsQuiet(sys, run[m], key);
      QuietKeysAreReconciled(sys, run, m, n, key);
      assert IsHeld(run[n].shared, run[n].output[k].artifact);
    }
  }
}
