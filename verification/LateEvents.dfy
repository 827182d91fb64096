/**
 * Scenario events handled beside Finalize: exactly when every result still belongs to a key, and every key to one UUID.
 */
module LateEvents {
  import opened Wrappers
  import opened Status
  import opened ScenarioMapping
  import opened ArtifactNames
  import opened Collector
  import opened CollectorInvariants
  import opened CollectorFiles
  import opened Finalization
  import opened Engine
  import opened EngineRefinement

  /** Every event still to be handled is for an attempt the copied registry knows. */
  predicate OnlyKnownAttempts(sys: System, s: State)
    requires s.snapshot.Some? && |s.phases| == |sys.calls|
  {
    forall i :: 0 <= i < |sys.calls| && sys.calls[i].ScenarioCall? && !s.phases[i].Finished? ==>
      sys.calls[i].request.key in s.snapshot.value.shared.uuids
  }

  /** Among the first `n` final artifacts only registered keys come more than once. */
  predicate RepeatsBelow(s: State, n: nat)
    requires s.snapshot.Some?
  {
    n <= |s.output| ==> RepeatsAreRegistered(s.snapshot.value.shared.uuids, s.output, s.unwritten, n)
  }

  predicate RepeatsAt(s: State, phase: Phase)
    requires s.snapshot.Some?
  {
    match phase
    case Writing(next) => RepeatsBelow(s, next)
    case Recording(next) => RepeatsBelow(s, next + 1)
    case _ => true
  }

  /**
   * Among the final artifacts written so far only registered keys come more than once, and no synthetic result has the
   * key of a registered attempt.
   */
  predicate IsUsable(s: State)
    requires s.snapshot.Some?
  {
    && SyntheticKeysAreNew(s.snapshot.value.shared.uuids, s.output)
    && (forall i :: 0 <= i < |s.phases| ==> RepeatsAt(s, s.phases[i]))
    && (NobodyFinalizes(s) ==> RepeatsBelow(s, |s.output|))
  }

  predicate EndsUsable(run: seq<State>) {
    run != [] && run[|run| - 1].snapshot.Some? && IsUsable(run[|run| - 1])
  }

  // ---------------------------------------------------------------- the invariant

  /** The finalising call is done with artifact `i`. */
  predicate IsBehind(s: State, i: nat) {
    forall c :: 0 <= c < |s.phases| ==> IsPast(s.phases[c], i)
  }

  predicate IsPast(phase: Phase, i: nat) {
    match phase
    case MappingSuite => false
    case Writing(next) => i < next
    case Recording(next) => i < next
    case _ => true
  }

  /** The final artifact of this key that gave it its UUID. */
  predicate IsFinalOf(s: State, key: string, i: nat) {
    && i < |s.output| && i !in s.unwritten && IsBehind(s, i)
    && s.output[i].artifact.key == key && Registered(s, key, s.output[i].artifact.result.uuid)
  }

  predicate IsFinalKey(s: State, key: string) {
    exists i: nat :: i < |s.output| && IsFinalOf(s, key, i)
  }

  /** A scenario call under way works for the UUID its attempt has. */
  predicate Follows(s: State, call: Call, phase: Phase) {
    match phase
    case Remapping(uuid) => call.ScenarioCall? && Registered(s, call.request.key, uuid)
    case Remapped(result) => call.ScenarioCall? && Registered(s, call.request.key, result.uuid)
    case Reserved(result) => call.ScenarioCall? && Registered(s, call.request.key, result.uuid)
    case Written(result) => call.ScenarioCall? && Registered(s, call.request.key, result.uuid)
    case _ => true
  }

  /** Copied keys keep their UUIDs, and scenario calls follow them. */
  ghost predicate Anchored(sys: System, s: State)
    requires s.snapshot.Some?
  {
    var copied := s.snapshot.value.shared.uuids;
    && |s.phases| == |sys.calls|
    && (forall k <- copied :: Registered(s, k, copied[k]))
    && (forall i :: 0 <= i < |sys.calls| ==> Follows(s, sys.calls[i], s.phases[i]))
  }

  ghost predicate Extended(sys: System, s: State)
    requires s.snapshot.Some?
  {
    && Anchored(sys, s)
    && (forall k <- s.shared.uuids :: k in s.snapshot.value.shared.uuids || IsFinalKey(s, k))
    && s.shared.results.Keys <= s.shared.uuids.Values
    && (forall m <- s.unwritten :: IsBehind(s, m))
  }

  /** After the copy, a scenario call for a known attempt leaves the registry as it is. */
  lemma KnownEventsKeepRegistry(sys: System, s: State, s': State, id: nat)
    requires s.snapshot.Some? && Anchored(sys, s) && "" !in s.snapshot.value.shared.uuids.Values
    requires StepBy(sys, s, s', id) && sys.calls[id].ScenarioCall?
    requires sys.calls[id].request.key in s.snapshot.value.shared.uuids
    ensures s'.shared.uuids == s.shared.uuids && s'.output == s.output && s'.snapshot == s.snapshot
    ensures Follows(s', sys.calls[id], s'.phases[id])
    ensures if s.phases[id].Written? then s'.shared.results.Keys == s.shared.results.Keys + {s.phases[id].result.uuid}
            else s'.shared.results == s.shared.results
  {
    var request, copied := sys.calls[id].request, s.snapshot.value.shared.uuids;
    assert Follows(s, sys.calls[id], s.phases[id]);
    assert Registered(s, request.key, copied[request.key]) && copied[request.key] in copied.Values;
    match s.phases[id]
    case Mapped(result) =>
      if !Conflicts(s.shared, request.key, result.uuid) {
        assert s.shared.uuids[request.key := result.uuid] == s.shared.uuids;
      }
    case Remapped(result) => assert s.shared.uuids[request.key := result.uuid] == s.shared.uuids;
    case _ =>
  }

  /** Recording a final artifact leaves copied keys their UUIDs. */
  lemma RecordKeepsAnchored(sys: System, s: State, s': State, id: nat, next: nat)
    requires s.snapshot.Some? && Anchored(sys, s) && OnlyKnownAttempts(sys, s) && s'.snapshot == s.snapshot
    requires SyntheticKeysAreNew(s.snapshot.value.shared.uuids, s.output) && next < |s.output|
    requires FitsSnapshot(s.snapshot.value.shared.uuids, s.snapshot.value.shared.uuids.Values, s.output)
    requires id < |s.phases| == |s'.phases| && s'.phases == s.phases[id := Writing(next + 1)]
    requires s'.shared == Record(s.shared, s.output[next].artifact)
    ensures Anchored(sys, s')
  {
    forall k | k in s.snapshot.value.shared.uuids ensures Registered(s', k, s.snapshot.value.shared.uuids[k]) {
      assert Registered(s, k, s.snapshot.value.shared.uuids[k]);
      if k == s.output[next].artifact.key {
        assert s.output[next].attempt;
      }
    }
    forall i | 0 <= i < |sys.calls| ensures Follows(s', sys.calls[i], s'.phases[i]) {
      assert Follows(s, sys.calls[i], s.phases[i]);
    }
  }

  lemma SameRegistryKeepsAnchored(sys: System, s: State, s': State, id: nat)
    requires s.snapshot.Some? && Anchored(sys, s) && s'.snapshot == s.snapshot && s'.shared.uuids == s.shared.uuids
    requires id < |s.phases| == |s'.phases| && s'.phases == s.phases[id := s'.phases[id]]
    requires Follows(s', sys.calls[id], s'.phases[id])
    ensures Anchored(sys, s')
  {
    forall i | 0 <= i < |sys.calls| ensures Follows(s', sys.calls[i], s'.phases[i]) {
      assert Follows(s, sys.calls[i], s.phases[i]);
    }
  }

  lemma StepKeepsAnchored(sys: System, s: State, s': State, id: nat)
    requires FinalizesOnce(sys, s) && s.snapshot.Some? && Anchored(sys, s) && OnlyKnownAttempts(sys, s)
    requires Copied(sys, s)
    requires StepBy(sys, s, s', id) && s'.snapshot == s.snapshot
    requires SyntheticKeysAreNew(s.snapshot.value.shared.uuids, s.output)
    ensures Anchored(sys, s') && OnlyKnownAttempts(sys, s')
  {
    OthersStay(sys, s, s', id);
    FinishedStays(sys, s, s', id);
    if sys.calls[id].ScenarioCall? {
      KnownEventsKeepRegistry(sys, s, s', id);
      SameRegistryKeepsAnchored(sys, s, s', id);
    } else if IsFinalizing(s.phases[id]) {
      WorkerStep(sys, s, s', id);
      FinalizingEffect(sys, s, s.phases[id], s', s'.phases[id]);
      if s.phases[id].Recording? {
        RecordKeepsAnchored(sys, s, s', id, s.phases[id].next);
      } else {
        SameRegistryKeepsAnchored(sys, s, s', id);
      }
    } else {
      BystandersChangeNothing(sys, s, s', id);
      BystanderPhases(sys, s, s', id);
      SameRegistryKeepsAnchored(sys, s, s', id);
    }
  }

  /** What a step does to the bookkeeping of the final artifacts, as far as the registry goes. */
  ghost predicate KeepsFinals(s: State, s': State) {
    && s'.snapshot == s.snapshot && (s'.output == s.output || forall i: nat :: !IsBehind(s, i))
    && (forall i: nat :: IsBehind(s, i) ==> IsBehind(s', i))
    && (forall m <- s'.unwritten :: m in s.unwritten || (!IsBehind(s, m) && IsBehind(s', m)))
    && s.unwritten <= s'.unwritten
  }

  lemma FinalKeysStay(s: State, s': State, key: string)
    requires KeepsFinals(s, s') && IsFinalKey(s, key)
    requires key in s.shared.uuids && Registered(s', key, s.shared.uuids[key])
    ensures IsFinalKey(s', key)
  {
    var i: nat :| i < |s.output| && IsFinalOf(s, key, i);
    assert IsBehind(s, i) && IsBehind(s', i);
    assert IsFinalOf(s', key, i);
  }

  /** Calls keep following UUIDs that stay registered. */
  lemma FollowersStay(sys: System, s: State, s': State)
    requires |s.phases| == |s'.phases| == |sys.calls|
    requires forall i :: 0 <= i < |sys.calls| ==> Follows(s, sys.calls[i], s.phases[i])
    requires forall k <- s.shared.uuids :: Registered(s', k, s.shared.uuids[k])
    requires forall i :: 0 <= i < |s.phases| ==> s'.phases[i] == s.phases[i] || !IsScenarioPhase(s'.phases[i])
    ensures forall i :: 0 <= i < |sys.calls| ==> Follows(s', sys.calls[i], s'.phases[i])
  {
    forall i | 0 <= i < |sys.calls| ensures Follows(s', sys.calls[i], s'.phases[i]) {
      assert Follows(s, sys.calls[i], s.phases[i]);
    }
  }

  /** A step of a call that is not finalising leaves the finalising call where it is. */
  lemma OthersKeepFinals(s: State, s': State, id: nat)
    requires s'.snapshot == s.snapshot && s'.output == s.output && s'.unwritten == s.unwritten
    requires id < |s.phases| == |s'.phases| && s'.phases == s.phases[id := s'.phases[id]]
    requires !IsFinalizing(s.phases[id]) && !IsFinalizing(s'.phases[id])
    ensures KeepsFinals(s, s')
  {
    forall i: nat | IsBehind(s, i) ensures IsBehind(s', i) {
      forall c | 0 <= c < |s'.phases| ensures IsPast(s'.phases[c], i) {
        assert IsPast(s.phases[c], i);
      }
    }
  }

  /** A step of the finalising call moves it forward. */
  lemma WorkerKeepsFinals(sys: System, s: State, s': State, id: nat)
    requires FinalizesOnce(sys, s) && StepBy(sys, s, s', id) && IsFinalizing(s.phases[id])
    requires FinalizeStep(sys, s, s.phases[id], s', s'.phases[id]) && s'.snapshot == s.snapshot
    ensures KeepsFinals(s, s')
  {
    OthersStay(sys, s, s', id);
    forall i: nat | IsBehind(s, i) ensures IsBehind(s', i) {
      forall c | 0 <= c < |s'.phases| ensures IsPast(s'.phases[c], i) {
        assert IsPast(s.phases[id], i) && IsPast(s.phases[c], i);
      }
    }
    if s.phases[id].MappingSuite? {
      assert forall i: nat :: !IsPast(s.phases[id], i);
    }
    forall m | m in s'.unwritten && m !in s.unwritten ensures !IsBehind(s, m) && IsBehind(s', m) {
      assert s.phases[id] == Writing(m) && s'.phases[id] == Writing(m + 1);
      assert !IsPast(s.phases[id], m);
      forall c | 0 <= c < |s'.phases| ensures IsPast(s'.phases[c], m) {
        assert c != id ==> !IsFinalizing(s'.phases[c]);
      }
    }
  }

  lemma ScenarioStepKeepsExtended(sys: System, s: State, s': State, id: nat)
    requires FinalizesOnce(sys, s)
    requires s.snapshot.Some? && Extended(sys, s) && "" !in s.snapshot.value.shared.uuids.Values
    requires StepBy(sys, s, s', id) && sys.calls[id].ScenarioCall?
    requires sys.calls[id].request.key in s.snapshot.value.shared.uuids
    ensures s'.snapshot == s.snapshot && Extended(sys, s')
  {
    KnownEventsKeepRegistry(sys, s, s', id);
    OthersStay(sys, s, s', id);
    ScenarioPhases(sys, s, s', id);
    OthersKeepFinals(s, s', id);
    assert Follows(s, sys.calls[id], s.phases[id]);
    if s.phases[id].Written? {
      assert s.shared.uuids[sys.calls[id].request.key] in s.shared.uuids.Values;
    }
    forall k | k in s'.shared.uuids && k !in s.snapshot.value.shared.uuids ensures IsFinalKey(s', k) {
      FinalKeysStay(s, s', k);
    }
    forall i | 0 <= i < |sys.calls| ensures Follows(s', sys.calls[i], s'.phases[i]) {
      assert Follows(s, sys.calls[i], s.phases[i]);
    }
  }

  /** Recording a final artifact gives a new key its UUID, or changes nothing in the registry. */
  lemma RecordKeepsRegistry(sys: System, s: State, id: nat, next: nat)
    requires s.snapshot.Some? && Extended(sys, s) && id < |s.phases| && s.phases[id] == Recording(next)
    requires SyntheticKeysAreNew(s.snapshot.value.shared.uuids, s.output) && RepeatsBelow(s, next + 1)
    requires next < |s.output|
    requires FitsSnapshot(s.snapshot.value.shared.uuids, s.snapshot.value.shared.uuids.Values, s.output)
    ensures var artifact := s.output[next].artifact;
            artifact.key in s.shared.uuids ==> s.shared.uuids[artifact.key] == artifact.result.uuid
  {
    var copied, key := s.snapshot.value.shared.uuids, s.output[next].artifact.key;
    if key in copied {
      assert s.output[next].attempt && Registered(s, key, copied[key]);
    } else {
      assert !IsPast(s.phases[id], next);
      assert next !in s.unwritten;
      forall i: nat | i < |s.output| && i !in s.unwritten && IsBehind(s, i) ensures s.output[i].artifact.key != key {
        assert IsPast(s.phases[id], i);
      }
    }
  }

  lemma GrowingRegistry(s: State, s': State, key: string, uuid: string)
    requires s'.shared.uuids == s.shared.uuids[key := uuid] && (key in s.shared.uuids ==> s.shared.uuids[key] == uuid)
    ensures forall k <- s.shared.uuids :: Registered(s', k, s.shared.uuids[k])
    ensures s.shared.uuids.Values + {uuid} <= s'.shared.uuids.Values
  {
    assert s'.shared.uuids[key] in s'.shared.uuids.Values;
    forall u | u in s.shared.uuids.Values ensures u in s'.shared.uuids.Values {
      var k :| k in s.shared.uuids && s.shared.uuids[k] == u;
      assert s'.shared.uuids[k] == u;
    }
  }

  lemma RecordedKeyIsFinal(sys: System, s: State, s': State, id: nat, next: nat)
    requires FinalizesOnce(sys, s) && s.snapshot.Some? && Extended(sys, s)
    requires id < |s.phases| == |s'.phases| && s.phases[id] == Recording(next) && next < |s.output|
    requires s'.phases == s.phases[id := Writing(next + 1)] && s'.output == s.output && s'.unwritten == s.unwritten
    requires s'.shared == Record(s.shared, s.output[next].artifact)
    ensures IsFinalKey(s', s.output[next].artifact.key)
  {
    assert !IsPast(s.phases[id], next);
    assert !IsBehind(s, next);
    forall c | 0 <= c < |s'.phases| ensures IsPast(s'.phases[c], next) {
      assert c != id ==> !IsFinalizing(s.phases[c]);
    }
    assert IsFinalOf(s', s.output[next].artifact.key, next);
  }

  lemma RecordKeepsExtended(sys: System, s: State, s': State, id: nat, next: nat)
    requires FinalizesOnce(sys, s) && s.snapshot.Some? && Extended(sys, s) && KeepsFinals(s, s')
    requires SyntheticKeysAreNew(s.snapshot.value.shared.uuids, s.output) && RepeatsBelow(s, next + 1)
    requires next < |s.output|
    requires FitsSnapshot(s.snapshot.value.shared.uuids, s.snapshot.value.shared.uuids.Values, s.output)
    requires id < |s.phases| == |s'.phases| && s.phases[id] == Recording(next)
    requires s'.phases == s.phases[id := Writing(next + 1)] && s'.output == s.output && s'.unwritten == s.unwritten
    requires s'.shared == Record(s.shared, s.output[next].artifact)
    ensures Extended(sys, s')
  {
    var artifact := s.output[next].artifact;
    RecordKeepsRegistry(sys, s, id, next);
    RecordedKeyIsFinal(sys, s, s', id, next);
    RecordedKeepsExtended(sys, s, s', artifact);
  }

  lemma RecordedKeepsExtended(sys: System, s: State, s': State, artifact: Artifact)
    requires s.snapshot.Some? && Extended(sys, s) && KeepsFinals(s, s') && s'.shared == Record(s.shared, artifact)
    requires artifact.key in s.shared.uuids ==> s.shared.uuids[artifact.key] == artifact.result.uuid
    requires IsFinalKey(s', artifact.key) && |s'.phases| == |s.phases|
    requires forall i :: 0 <= i < |s.phases| ==> s'.phases[i] == s.phases[i] || !IsScenarioPhase(s'.phases[i])
    ensures Extended(sys, s')
  {
    GrowingRegistry(s, s', artifact.key, artifact.result.uuid);
    forall k | k in s'.shared.uuids && k !in s.snapshot.value.shared.uuids ensures IsFinalKey(s', k) {
      if k != artifact.key {
        FinalKeysStay(s, s', k);
      }
    }
    FollowersStay(sys, s, s');
  }

  /** What a finalising call at work does to the maps. */
  lemma FinalizingEffect(sys: System, s: State, phase: Phase, s': State, phase': Phase)
    requires IsFinalizing(phase) && FinalizeStep(sys, s, phase, s', phase')
    ensures s'.snapshot == s.snapshot && (phase.MappingSuite? || s'.output == s.output) && !IsScenarioPhase(phase')
    ensures if phase.Recording?
            then && phase.next < |s.output| && phase' == Writing(phase.next + 1) && s'.unwritten == s.unwritten
                 && s'.shared == Record(s.shared, s.output[phase.next].artifact)
            else s'.shared == s.shared
  {
  }

  lemma SameMapsKeepExtended(sys: System, s: State, s': State)
    requires s.snapshot.Some? && Extended(sys, s) && KeepsFinals(s, s')
    requires s'.shared.uuids == s.shared.uuids && s'.shared.results == s.shared.results && |s'.phases| == |s.phases|
    requires forall i :: 0 <= i < |s.phases| ==> s'.phases[i] == s.phases[i] || !IsScenarioPhase(s'.phases[i])
    ensures Extended(sys, s')
  {
    forall k | k in s'.shared.uuids && k !in s.snapshot.value.shared.uuids ensures IsFinalKey(s', k) {
      FinalKeysStay(s, s', k);
    }
    FollowersStay(sys, s, s');
  }

  lemma WorkerKeepsExtended(sys: System, s: State, s': State, id: nat, phase: Phase)
    requires FinalizesOnce(sys, s) && s.snapshot.Some? && Extended(sys, s) && KeepsFinals(s, s')
    requires id < |s.phases| == |s'.phases| && s.phases[id] == phase && s'.phases == s.phases[id := s'.phases[id]]
    requires if phase.Recording? then RecordsOne(s, s', id, phase.next)
             else s'.shared == s.shared && !IsScenarioPhase(s'.phases[id])
    requires RepeatsAt(s, phase) && SyntheticKeysAreNew(s.snapshot.value.shared.uuids, s.output)
    requires FitsSnapshot(s.snapshot.value.shared.uuids, s.snapshot.value.shared.uuids.Values, s.output)
    ensures Extended(sys, s')
  {
    if phase.Recording? {
      RecordKeepsExtended(sys, s, s', id, phase.next);
    } else {
      SilentStepKeepsExtended(sys, s, s', id);
    }
  }

  predicate RecordsOne(s: State, s': State, id: nat, next: nat)
    requires id < |s'.phases|
  {
    && next < |s.output| && s'.phases[id] == Writing(next + 1) && s'.output == s.output && s'.unwritten == s.unwritten
    && s'.shared == Record(s.shared, s.output[next].artifact)
  }

  lemma SilentStepKeepsExtended(sys: System, s: State, s': State, id: nat)
    requires s.snapshot.Some? && Extended(sys, s) && KeepsFinals(s, s') && s'.shared == s.shared
    requires id < |s.phases| == |s'.phases| && s'.phases == s.phases[id := s'.phases[id]]
    requires !IsScenarioPhase(s'.phases[id])
    ensures Extended(sys, s')
  {
    SameMapsKeepExtended(sys, s, s');
  }

  lemma FinalizerStepKeepsExtended(sys: System, s: State, s': State, id: nat)
    requires FinalizesOnce(sys, s) && s.snapshot.Some? && Extended(sys, s)
    requires StepBy(sys, s, s', id) && !sys.calls[id].ScenarioCall? && s'.snapshot == s.snapshot
    requires IsUsable(s) && Copied(sys, s)
    ensures Extended(sys, s')
  {
    assert RepeatsAt(s, s.phases[id]);
    if IsFinalizing(s.phases[id]) {
      WorkerStep(sys, s, s', id);
      FinalizingEffect(sys, s, s.phases[id], s', s'.phases[id]);
      WorkerKeepsFinals(sys, s, s', id);
      WorkerKeepsExtended(sys, s, s', id, s.phases[id]);
    } else {
      BystandersChangeNothing(sys, s, s', id);
      BystanderPhases(sys, s, s', id);
      OthersKeepFinals(s, s', id);
      SameMapsKeepExtended(sys, s, s');
    }
  }

  lemma BystanderPhases(sys: System, s: State, s': State, id: nat)
    requires StepBy(sys, s, s', id) && !sys.calls[id].ScenarioCall?
    ensures !IsScenarioPhase(s'.phases[id])
  {
    StepShape(sys, s, s', id);
  }

  // ---------------------------------------------------------------- the final artifacts meanwhile

  /** The first `n` written final artifacts have their UUID, and a result under it. */
  ghost predicate IsRecorded(s: State, n: nat) {
    n <= |s.output| && forall i: nat :: i < n && i !in s.unwritten ==>
      Registered(s, s.output[i].artifact.key, s.output[i].artifact.result.uuid) &&
        s.output[i].artifact.result.uuid in s.shared.results
  }

  ghost predicate RecordsProgress(s: State) {
    && (forall i :: 0 <= i < |s.phases| ==> RecordedBy(s, s.phases[i]))
    && ((forall i :: 0 <= i < |s.phases| ==> !IsFinalizing(s.phases[i])) ==> IsRecorded(s, |s.output|))
  }

  ghost predicate RecordedBy(s: State, phase: Phase) {
    match phase
    case Writing(next) => IsRecorded(s, next)
    case Recording(next) => IsRecorded(s, next)
    case _ => true
  }

  ghost predicate Grows(s: State, s': State) {
    && (forall k <- s.shared.uuids :: Registered(s', k, s.shared.uuids[k]))
    && s.shared.results.Keys <= s'.shared.results.Keys && s.unwritten <= s'.unwritten
  }

  lemma GrowingKeepsRecords(s: State, s': State, n: nat)
    requires IsRecorded(s, n) && Grows(s, s') && s'.output == s.output
    ensures IsRecorded(s', n)
  {
    forall i: nat | i < n && i !in s'.unwritten
      ensures Registered(s', s.output[i].artifact.key, s.output[i].artifact.result.uuid)
      ensures s.output[i].artifact.result.uuid in s'.shared.results
    {
      assert Registered(s, s.output[i].artifact.key, s.output[i].artifact.result.uuid);
    }
  }

  lemma WorkerKeepsRecords(sys: System, s: State, phase: Phase, s': State, phase': Phase)
    requires IsFinalizing(phase) && FinalizeStep(sys, s, phase, s', phase') && Grows(s, s') && RecordedBy(s, phase)
    requires phase.MappingSuite? ==> s.output == []
    ensures RecordedBy(s', phase') && (phase'.Finished? ==> IsRecorded(s', |s'.output|))
    ensures phase'.Finished? || IsFinalizing(phase')
  {
    match phase
    case MappingSuite =>
    case Writing(next) => GrowingKeepsRecords(s, s', next);
    case Recording(next) => GrowingKeepsRecords(s, s', next);
  }

  lemma OthersKeepRecords(s: State, s': State, id: nat)
    requires RecordsProgress(s) && Grows(s, s') && s'.output == s.output && id < |s.phases| == |s'.phases|
    requires !IsFinalizing(s.phases[id]) && !IsFinalizing(s'.phases[id])
    requires forall i :: 0 <= i < |s.phases| && i != id ==> s'.phases[i] == s.phases[i]
    ensures RecordsProgress(s')
  {
    forall i | 0 <= i < |s.phases| ensures RecordedBy(s', s'.phases[i]) {
      assert RecordedBy(s, s.phases[i]);
      if i != id && (s.phases[i].Writing? || s.phases[i].Recording?) {
        GrowingKeepsRecords(s, s', s.phases[i].next);
      }
    }
    if forall i :: 0 <= i < |s'.phases| ==> !IsFinalizing(s'.phases[i]) {
      GrowingKeepsRecords(s, s', |s.output|);
    }
  }

  lemma FinalizerStepKeepsRecords(sys: System, s: State, s': State, id: nat)
    requires FinalizesOnce(sys, s) && s.snapshot.Some? && RecordsProgress(s) && Grows(s, s')
    requires StepBy(sys, s, s', id) && !sys.calls[id].ScenarioCall?
    ensures RecordsProgress(s')
  {
    OthersStay(sys, s, s', id);
    assert RecordedBy(s, s.phases[id]);
    if IsFinalizing(s.phases[id]) {
      WorkerStep(sys, s, s', id);
      WorkerKeepsRecords(sys, s, s.phases[id], s', s'.phases[id]);
    } else {
      BystandersChangeNothing(sys, s, s', id);
      OthersKeepRecords(s, s', id);
    }
  }

  // ---------------------------------------------------------------- whole runs

  ghost predicate Owned(sys: System, s: State)
    requires s.snapshot.Some?
  {
    Extended(sys, s) && RecordsProgress(s)
  }

  lemma FinalizerStepGrows(sys: System, s: State, s': State, id: nat)
    requires FinalizesOnce(sys, s) && s.snapshot.Some? && Extended(sys, s)
    requires StepBy(sys, s, s', id) && !sys.calls[id].ScenarioCall? && s'.snapshot == s.snapshot
    requires IsUsable(s) && Copied(sys, s)
    ensures Grows(s, s')
  {
    assert RepeatsAt(s, s.phases[id]);
    if IsFinalizing(s.phases[id]) {
      WorkerStep(sys, s, s', id);
      FinalizingEffect(sys, s, s.phases[id], s', s'.phases[id]);
      UnwrittenGrows(sys, s, s.phases[id], s', s'.phases[id]);
      if s.phases[id].Recording? {
        var artifact := s.output[s.phases[id].next].artifact;
        RecordKeepsRegistry(sys, s, id, s.phases[id].next);
        GrowingRegistry(s, s', artifact.key, artifact.result.uuid);
      }
    } else {
      BystandersChangeNothing(sys, s, s', id);
    }
  }

  lemma UnwrittenGrows(sys: System, s: State, phase: Phase, s': State, phase': Phase)
    requires IsFinalizing(phase) && FinalizeStep(sys, s, phase, s', phase')
    ensures s.unwritten <= s'.unwritten
  {
  }

  lemma ScenarioStepKeepsOwned(sys: System, s: State, s': State, id: nat)
    requires FinalizesOnce(sys, s) && s.snapshot.Some? && Owned(sys, s) && Copied(sys, s) && Copied(sys, s')
    requires StepBy(sys, s, s', id) && OnlyKnownAttempts(sys, s) && s'.snapshot == s.snapshot
    requires sys.calls[id].ScenarioCall?
    ensures Owned(sys, s')
  {
    OthersStay(sys, s, s', id);
    ScenarioStepKeepsExtended(sys, s, s', id);
    KnownEventsKeepRegistry(sys, s, s', id);
    ScenarioPhases(sys, s, s', id);
    OthersKeepRecords(s, s', id);
  }

  lemma FinalizerStepKeepsOwned(sys: System, s: State, s': State, id: nat)
    requires FinalizesOnce(sys, s) && s.snapshot.Some? && Owned(sys, s) && Copied(sys, s) && Copied(sys, s')
    requires StepBy(sys, s, s', id) && s'.snapshot == s.snapshot && IsUsable(s) && !sys.calls[id].ScenarioCall?
    ensures Owned(sys, s')
  {
    OthersStay(sys, s, s', id);
    FinalizerStepKeepsExtended(sys, s, s', id);
    FinalizerStepGrows(sys, s, s', id);
    FinalizerStepKeepsRecords(sys, s, s', id);
  }

  lemma StepKeepsOwned(sys: System, s: State, s': State, id: nat)
    requires FinalizesOnce(sys, s) && s.snapshot.Some? && Owned(sys, s) && Copied(sys, s) && Copied(sys, s')
    requires StepBy(sys, s, s', id) && OnlyKnownAttempts(sys, s) && s'.snapshot == s.snapshot && IsUsable(s)
    ensures Owned(sys, s') && OnlyKnownAttempts(sys, s')
  {
    FinishedStays(sys, s, s', id);
    if sys.calls[id].ScenarioCall? {
      ScenarioStepKeepsOwned(sys, s, s', id);
    } else {
      FinalizerStepKeepsOwned(sys, s, s', id);
    }
  }

  lemma FinishedStays(sys: System, s: State, s': State, id: nat)
    requires StepBy(sys, s, s', id)
    ensures !s.phases[id].Finished?
  {
  }

  lemma ScenarioPhases(sys: System, s: State, s': State, id: nat)
    requires FinalizesOnce(sys, s) && StepBy(sys, s, s', id) && sys.calls[id].ScenarioCall?
    ensures !IsFinalizing(s.phases[id]) && !IsFinalizing(s'.phases[id]) && s'.unwritten == s.unwritten
  {
    StepShape(sys, s, s', id);
  }

  lemma EventsKeepOwned(sys: System, s: State, s': State)
    requires EventStep(s, s') && s.snapshot.Some? && Owned(sys, s) && OnlyKnownAttempts(sys, s)
    ensures s'.snapshot.Some? && Owned(sys, s') && OnlyKnownAttempts(sys, s')
  {
    SameMapsKeepExtended(sys, s, s');
    forall n: nat | IsRecorded(s, n) ensures IsRecorded(s', n) {
      GrowingKeepsRecords(s, s', n);
    }
    forall i | 0 <= i < |s.phases| ensures RecordedBy(s', s'.phases[i]) {
      assert RecordedBy(s, s.phases[i]);
    }
  }

  lemma FewerRepeats(existing: map<string, string>, output: seq<Final>, unwritten: set<nat>, n: nat,
                     unwritten': set<nat>, m: nat)
    requires n <= m <= |output| && RepeatsAreRegistered(existing, output, unwritten', m)
    requires forall i: nat :: i < n && i !in unwritten ==> i !in unwritten'
    ensures RepeatsAreRegistered(existing, output, unwritten, n)
  {
  }

  /** What is usable after a step of the finalising call was usable before. */
  lemma WorkerWasUsable(sys: System, s: State, s': State, id: nat)
    requires FinalizesOnce(sys, s) && s.snapshot.Some? && StepBy(sys, s, s', id) && s'.snapshot == s.snapshot
    requires IsFinalizing(s.phases[id]) && FinalizeStep(sys, s, s.phases[id], s', s'.phases[id]) && IsUsable(s')
    ensures RepeatsAt(s, s.phases[id])
  {
    OthersStay(sys, s, s', id);
    assert RepeatsAt(s', s'.phases[id]);
    if s'.phases[id].Finished? {
      forall c | 0 <= c < |s'.phases| ensures !IsFinalizing(s'.phases[c]) {
        assert c != id ==> !IsFinalizing(s.phases[c]);
      }
      assert NobodyFinalizes(s');
    }
    if s.phases[id].Writing? && s'.phases[id].Writing? {
      var next, existing := s.phases[id].next, s.snapshot.value.shared.uuids;
      FewerRepeats(existing, s.output, s.unwritten, next, s'.unwritten, next + 1);
    }
  }

  lemma WasUsable(sys: System, s: State, s': State, id: nat)
    requires FinalizesOnce(sys, s) && s.snapshot.Some? && StepBy(sys, s, s', id) && s'.snapshot == s.snapshot
    requires IsUsable(s')
    ensures IsUsable(s)
  {
    OthersStay(sys, s, s', id);
    OutputStays(sys, s, s', id);
    if IsFinalizing(s.phases[id]) {
      WorkerStep(sys, s, s', id);
      WorkerWasUsable(sys, s, s', id);
      forall i | 0 <= i < |s.phases| ensures RepeatsAt(s, s.phases[i]) {
        assert i != id ==> !IsFinalizing(s.phases[i]);
      }
    } else {
      StaysElsewhere(sys, s, s', id);
      forall i | 0 <= i < |s.phases| && i != id ensures RepeatsAt(s, s.phases[i]) {
        assert RepeatsAt(s', s'.phases[i]);
      }
      if NobodyFinalizes(s) {
        assert forall i :: 0 <= i < |s'.phases| && i != id ==> s'.phases[i] == s.phases[i];
        assert !s'.phases[id].MappingSuite? ==> NobodyFinalizes(s');
      }
    }
  }

  /** Once the copy is taken, a step of a call that is not finalising does not touch the final artifacts. */
  lemma StaysElsewhere(sys: System, s: State, s': State, id: nat)
    requires FinalizesOnce(sys, s) && s.snapshot.Some? && StepBy(sys, s, s', id) && !IsFinalizing(s.phases[id])
    ensures s'.output == s.output && s'.unwritten == s.unwritten && !IsFinalizing(s'.phases[id])
  {
    if sys.calls[id].ScenarioCall? {
      ScenarioPhases(sys, s, s', id);
    } else {
      BystandersChangeNothing(sys, s, s', id);
    }
  }

  /** The output is set once. */
  lemma OutputStays(sys: System, s: State, s': State, id: nat)
    requires FinalizesOnce(sys, s) && StepBy(sys, s, s', id)
    ensures s'.output == s.output || s.output == []
  {
    StepShape(sys, s, s', id);
  }

  lemma MoveKeepsOwned(sys: System, s: State, s': State)
    requires FinalizesOnce(sys, s) && s.snapshot.Some? && Copied(sys, s) && Copied(sys, s') && Next(sys, s, s')
    requires s'.snapshot == s.snapshot && IsUsable(s')
    requires |s.phases| == |sys.calls| == |s'.phases|
    ensures IsUsable(s)
    ensures Owned(sys, s) && OnlyKnownAttempts(sys, s) ==> Owned(sys, s') && OnlyKnownAttempts(sys, s')
  {
    if EventStep(s, s') {
      if Owned(sys, s) && OnlyKnownAttempts(sys, s) {
        EventsKeepOwned(sys, s, s');
      }
    } else {
      var id: nat :| StepBy(sys, s, s', id);
      WasUsable(sys, s, s', id);
      if Owned(sys, s) && OnlyKnownAttempts(sys, s) {
        StepKeepsOwned(sys, s, s', id);
      }
    }
  }

  /** The copy has just been taken. */
  predicate CopiedAt(run: seq<State>, m: nat) {
    0 < m < |run| && run[m - 1].snapshot.None? && run[m].snapshot.Some?
  }

  predicate IsMapping(sys: System, s: State, id: nat) {
    id < |sys.calls| == |s.phases| && !sys.calls[id].ScenarioCall? && s.phases[id].MappingSuite?
  }

  lemma EnteringIsOwned(sys: System, s: State, s': State, id: nat)
    requires FinalizesOnce(sys, s) && Registry(sys, s) && FilesAgree(sys, s) && s.snapshot.None?
    requires StepBy(sys, s, s', id) && s'.snapshot.Some?
    ensures Owned(sys, s') && IsMapping(sys, s', id) && s'.output == []
    ensures s'.shared == s'.snapshot.value.shared.(finalized := true)
  {
    EnteringCopies(sys, s, s', id);
    OthersStay(sys, s, s', id);
    StepShape(sys, s, s', id);
    forall i | 0 <= i < |sys.calls| ensures Follows(s', sys.calls[i], s'.phases[i]) {
      assert CallHolds(s, sys.calls[i], s.phases[i]);
    }
  }

  /** The call has not registered its attempt yet. */
  predicate IsWaiting(s: State, phase: Phase) {
    phase.Idle? || (phase.Mapped? && phase.result.uuid !in s.shared.uuids.Values && phase.result.uuid in s.issued)
  }

  predicate UnknownEventsWait(sys: System, s: State) {
    |s.phases| == |sys.calls| &&
    forall i :: 0 <= i < |sys.calls| && sys.calls[i].ScenarioCall? && !s.phases[i].Finished? ==>
      sys.calls[i].request.key in s.shared.uuids || IsWaiting(s, s.phases[i])
  }

  lemma EnteringFindsThemWaiting(sys: System, s: State, s': State, id: nat)
    requires FinalizesOnce(sys, s) && Registry(sys, s) && FilesAgree(sys, s) && s.snapshot.None?
    requires StepBy(sys, s, s', id) && s'.snapshot.Some?
    ensures s'.shared.uuids.Values <= s'.issued && s'.unwritten == {}
    ensures UnknownEventsWait(sys, s')
  {
    EnteringCopies(sys, s, s', id);
    CopyIsConsistent(sys, s);
    OthersStay(sys, s, s', id);
    StepShape(sys, s, s', id);
    forall i | 0 <= i < |sys.calls| && sys.calls[i].ScenarioCall? && !s'.phases[i].Finished? &&
      sys.calls[i].request.key !in s'.shared.uuids
      ensures IsWaiting(s', s'.phases[i])
    {
      assert CallHolds(s, sys.calls[i], s.phases[i]);
    }
  }

  lemma CopyIsOwned(sys: System, run: seq<State>, m: nat) returns (f: nat)
    requires IsRun(sys, run) && CopiedAt(run, m)
    ensures Owned(sys, run[m]) && run[m].output == []
    ensures run[m].shared == run[m].snapshot.value.shared.(finalized := true)
    ensures IsMapping(sys, run[m], f) && run[m].shared.uuids.Values <= run[m].issued && run[m].unwritten == {}
    ensures UnknownEventsWait(sys, run[m])
  {
    RunMoves(sys, run, m - 1);
    RunKeepsInvariant(sys, run, m - 1);
    RunKeepsFiles(sys, run, m - 1);
    f :| StepBy(sys, run[m - 1], run[m], f);
    EnteringIsOwned(sys, run[m - 1], run[m], f);
    EnteringFindsThemWaiting(sys, run[m - 1], run[m], f);
  }

  ghost predicate IsSettled(sys: System, s: State) {
    s.snapshot.Some? && |s.phases| == |sys.calls| && Owned(sys, s) && OnlyKnownAttempts(sys, s)
  }

  lemma OwnedRunMoves(sys: System, run: seq<State>, n: nat)
    requires IsRun(sys, run) && n < |run| - 1 && run[n].snapshot.Some?
    ensures run[n + 1].snapshot == run[n].snapshot
    ensures IsUsable(run[n + 1]) ==> IsUsable(run[n]) && (IsSettled(sys, run[n]) ==> IsSettled(sys, run[n + 1]))
  {
    RunMoves(sys, run, n);
    RunReconciles(sys, run, n);
    RunReconciles(sys, run, n + 1);
    assert StepsAt(sys, run, n);
    if IsUsable(run[n + 1]) {
      MoveKeepsOwned(sys, run[n], run[n + 1]);
    }
  }

  lemma {:induction false} RunKeepsOwned(sys: System, run: seq<State>, m: nat, n: nat)
    requires IsRun(sys, run) && m <= n < |run| && IsSettled(sys, run[m]) && run[n].snapshot.Some? && IsUsable(run[n])
    ensures IsSettled(sys, run[n])
    decreases n
  {
    if m < n {
      FinalizedNeverReverts(sys, run, m, n - 1);
      OwnedRunMoves(sys, run, n - 1);
      RunKeepsOwned(sys, run, m, n - 1);
    }
  }

  /** Copied keys stay registered and events known, whichever keys the suite repeats. */
  ghost predicate IsAnchored(sys: System, s: State) {
    s.snapshot.Some? && |s.phases| == |sys.calls| && Anchored(sys, s) && OnlyKnownAttempts(sys, s)
  }

  /** No synthetic result has the key of a registered attempt. */
  predicate HasNewSynthetics(s: State) {
    s.snapshot.Some? && SyntheticKeysAreNew(s.snapshot.value.shared.uuids, s.output)
  }

  lemma AnchoredRunMoves(sys: System, run: seq<State>, n: nat)
    requires IsRun(sys, run) && n < |run| - 1 && run[n].snapshot.Some? && HasNewSynthetics(run[n + 1])
    ensures run[n + 1].snapshot == run[n].snapshot && HasNewSynthetics(run[n])
    ensures IsAnchored(sys, run[n]) ==> IsAnchored(sys, run[n + 1])
  {
    RunMoves(sys, run, n);
    RunReconciles(sys, run, n);
    RunKeepsInvariant(sys, run, n);
    assert StepsAt(sys, run, n);
    if !EventStep(run[n], run[n + 1]) {
      var id: nat :| StepBy(sys, run[n], run[n + 1], id);
      OutputStays(sys, run[n], run[n + 1], id);
      if IsAnchored(sys, run[n]) {
        StepKeepsAnchored(sys, run[n], run[n + 1], id);
      }
    } else if IsAnchored(sys, run[n]) {
      EventsKeepAnchored(sys, run[n], run[n + 1]);
    }
  }

  lemma EventsKeepAnchored(sys: System, s: State, s': State)
    requires EventStep(s, s') && IsAnchored(sys, s)
    ensures IsAnchored(sys, s')
  {
    forall i | 0 <= i < |sys.calls| ensures Follows(s', sys.calls[i], s'.phases[i]) {
      assert Follows(s, sys.calls[i], s.phases[i]);
    }
  }

  // ---------------------------------------------------------------- what that means

  lemma FinalKeyIsNew(s: State, key: string) returns (i: nat)
    requires s.snapshot.Some? && IsFinalKey(s, key) && key !in s.snapshot.value.shared.uuids
    requires FitsSnapshot(s.snapshot.value.shared.uuids, s.snapshot.value.shared.uuids.Values, s.output)
    ensures IsFinalOf(s, key, i) && s.shared.uuids[key] !in s.snapshot.value.shared.uuids.Values
  {
    i :| IsFinalOf(s, key, i);
  }

  lemma ExtendedIsInjective(sys: System, s: State)
    requires s.snapshot.Some? && Extended(sys, s) && Copied(sys, s)
    ensures Injective(s.shared.uuids)
  {
    var copied := s.snapshot.value.shared.uuids;
    assert forall k <- copied :: Registered(s, k, copied[k]) && copied[k] in copied.Values;
    forall k, l | k in s.shared.uuids && l in s.shared.uuids && s.shared.uuids[k] == s.shared.uuids[l] ensures k == l {
      if k !in copied && l !in copied {
        var i := FinalKeyIsNew(s, k);
        var j := FinalKeyIsNew(s, l);
        SameUuidSameKey(copied, s.output, i, j);
      } else if k !in copied {
        var i := FinalKeyIsNew(s, k);
      } else if l !in copied {
        var i := FinalKeyIsNew(s, l);
      }
    }
  }

  /**
   * Whatever runs beside Finalize, if all of it is for attempts the copied registry knows: each key owns one UUID and
   * keeps the one it had, every result belongs to a key, and every written final artifact has a result under the UUID
   * of its key.
   */
  lemma KnownEventsAreHarmless(sys: System, run: seq<State>, m: nat, n: nat)
    requires IsRun(sys, run) && CopiedAt(run, m) && m <= n < |run| && |run[m].phases| == |sys.calls| == |run[n].phases|
    requires OnlyKnownAttempts(sys, run[m]) && run[n].snapshot.Some? && IsUsable(run[n])
    ensures KeysOwnResults(run[n])
    ensures forall k <- run[m].shared.uuids :: Registered(run[n], k, run[m].shared.uuids[k])
    ensures (forall i :: 0 <= i < |run[n].phases| ==> !IsFinalizing(run[n].phases[i])) ==>
      IsRecorded(run[n], |run[n].output|)
  {
    var f := CopyIsOwned(sys, run, m);
    FinalizedNeverReverts(sys, run, m, n);
    RunKeepsOwned(sys, run, m, n);
    RunReconciles(sys, run, n);
    ExtendedIsInjective(sys, run[n]);
  }

  // ---------------------------------------------------------------- an event for an unknown attempt

  lemma LongerThanAll(known: set<string>) returns (s: string)
    ensures s != "" && forall t <- known :: |t| < |s|
    decreases known
  {
    if known == {} {
      s := "a";
    } else {
      var t :| t in known;
      var rest := LongerThanAll(known - {t});
      s := if |t| < |rest| then rest else t + "a";
      assert known == (known - {t}) + {t};
    }
  }

  /** An event that is mapped but not registered yet, to its end. */
  lemma MappedEventEnds(sys: System, s: State, i: nat, request: Request, mapped: TestResult) returns (path: seq<State>)
    requires i < |sys.calls| == |s.phases| && sys.calls[i] == ScenarioCall(request) && s.phases[i] == Mapped(mapped)
    requires request.key !in s.shared.uuids
    ensures IsPath(sys, path) && path[0] == s
    ensures EventEnded(s, path[|path| - 1], i, request.key, mapped.uuid)
  {
    var reserved := Registers(sys, s, i, request, mapped, 0);
    path := OneStep(sys, s, reserved, i);
    var rest := Ends(sys, reserved, i, request, Restarted(s.shared.starts, request.startKey, mapped, 0), true);
    path := PathsJoin(sys, path, rest);
  }

  /** The event of call `i` is handled: its attempt is registered and has a result. */
  predicate EventEnded(s: State, t: State, i: nat, key: string, uuid: string)
    requires i < |s.phases|
  {
    && t.phases == s.phases[i := Finished] && t.snapshot == s.snapshot && t.output == s.output &&
       t.unwritten == s.unwritten
    && s.issued <= t.issued
    && t.shared.uuids == s.shared.uuids[key := uuid] && uuid in t.shared.results
  }

  lemma NewEventEnds(sys: System, s: State, i: nat, request: Request, mapped: TestResult) returns (path: seq<State>)
    requires i < |sys.calls| == |s.phases| && sys.calls[i] == ScenarioCall(request) && s.phases[i] == Idle
    requires request.key !in s.shared.uuids && IsNew(s, mapped.uuid)
    ensures IsPath(sys, path) && path[0] == s
    ensures EventEnded(s, path[|path| - 1], i, request.key, mapped.uuid) && mapped.uuid in path[|path| - 1].issued
  {
    path := ScenarioEndingIsARun(sys, s, i, request, mapped, (uuid: string) => None, 0, true);
  }

  /** Finalize maps the suite and records its first artifact. */
  lemma FirstArtifactIsRecorded(sys: System, s: State, f: nat, final: Final) returns (path: seq<State>)
    requires IsMapping(sys, s, f) && s.snapshot.Some? && s.unwritten == {}
    requires FitsSnapshot(s.snapshot.value.shared.uuids, s.issued, [final])
    ensures IsPath(sys, path) && path[0] == s
    ensures var t := path[|path| - 1];
            && t.shared == Record(s.shared, final.artifact) && t.output == [final] && t.snapshot == s.snapshot
  {
    var mapped := MapsSuite(sys, s, f, [final]);
    path := OneStep(sys, s, mapped, f);
    var rest := WritesOne(sys, mapped, f, true, 0);
    path := PathsJoin(sys, path, rest);
  }

  lemma SplitOwnership(existing: map<string, string>, after: State, key: string, live: string, final: string)
    requires key !in existing && live !in existing.Values && live != final
    requires after.shared.uuids == existing[key := live][key := final] && live in after.shared.results
    ensures !(after.shared.results.Keys <= after.shared.uuids.Values)
  {
    assert after.shared.uuids == existing[key := final];
    assert live !in after.shared.uuids.Values;
  }

  const BLANK := TestResult("", "", "", "", Passed, [], 0, 0, 0, 0, [])

  /** The final artifact of an attempt the registry does not know draws a UUID of its own. */
  lemma NewFinalFits(existing: map<string, string>, issued: set<string>, key: string, uuid: string)
    requires key !in existing && uuid !in issued && uuid != ""
    ensures FitsSnapshot(existing, issued, [Final(Artifact(key, BLANK.(uuid := uuid)), true)])
  {
  }

  /** After the copy, an event for an unknown attempt can get a UUID that the final result of the attempt takes away. */
  lemma UnknownEventSplits(sys: System, s: State, f: nat, i: nat) returns (path: seq<State>)
    requires IsMapping(sys, s, f) && s.snapshot.Some? && s.unwritten == {}
    requires s.shared.uuids == s.snapshot.value.shared.uuids
    requires s.shared.uuids.Values <= s.issued && i < |sys.calls| && sys.calls[i].ScenarioCall?
    requires sys.calls[i].request.key !in s.shared.uuids
    requires s.phases[i].Idle? ||
      (s.phases[i].Mapped? && s.phases[i].result.uuid !in s.shared.uuids.Values && s.phases[i].result.uuid in s.issued)
    ensures IsPath(sys, path) && path[0] == s
    ensures var t := path[|path| - 1]; t.snapshot == s.snapshot && IsUsable(t) && !KeysOwnResults(t)
  {
    var request := sys.calls[i].request;
    var live := "";
    if s.phases[i].Idle? {
      live := LongerThanAll(s.issued);
      path := NewEventEnds(sys, s, i, request, BLANK.(uuid := live));
    } else {
      live := s.phases[i].result.uuid;
      path := MappedEventEnds(sys, s, i, request, s.phases[i].result);
    }
    var between := path[|path| - 1];
    var uuid := LongerThanAll(between.issued);
    NewFinalFits(s.shared.uuids, between.issued, request.key, uuid);
    var rest := FirstArtifactIsRecorded(sys, between, f, Final(Artifact(request.key, BLANK.(uuid := uuid)), true));
    path := PathsJoin(sys, path, rest);
    SplitOwnership(s.shared.uuids, path[|path| - 1], request.key, live, uuid);
  }

  lemma RunGrows(sys: System, run: seq<State>, path: seq<State>) returns (longer: seq<State>)
    requires IsRun(sys, run) && IsPath(sys, path) && path[0] == run[|run| - 1]
    ensures IsRun(sys, longer) && run <= longer && longer[|longer| - 1] == path[|path| - 1]
  {
    longer := run + path[1..];
    forall i: nat | i < |longer| - 1 ensures StepsAt(sys, longer, i) {
      if i < |run| - 1 {
        assert StepsAt(sys, run, i);
      } else {
        assert StepsAt(sys, path, i + 1 - |run|);
      }
    }
  }

  /**
   * From the moment Finalize has taken its copy, however the run goes on and whichever suite it maps, as long as only
   * registered keys come twice: no two keys ever share a UUID and no result is left without a key, exactly if every
   * event still to be handled is for an attempt that was registered by then.
   */
  lemma OwnershipExactly(sys: System, run: seq<State>)
    requires IsRun(sys, run) && CopiedAt(run, |run| - 1) && |run[|run| - 1].phases| == |sys.calls|
    ensures (forall longer: seq<State> {:trigger IsRun(sys, longer)} ::
               IsRun(sys, longer) && run <= longer && EndsUsable(longer) ==> KeysOwnResults(longer[|longer| - 1])) <==>
            OnlyKnownAttempts(sys, run[|run| - 1])
  {
    var m := |run| - 1;
    if OnlyKnownAttempts(sys, run[m]) {
      forall longer: seq<State> | IsRun(sys, longer) && run <= longer && EndsUsable(longer)
        ensures KeysOwnResults(longer[|longer| - 1])
      {
        assert longer[m] == run[m] && longer[m - 1] == run[m - 1];
        RunKeepsInvariant(sys, longer, |longer| - 1);
        KnownEventsAreHarmless(sys, longer, m, |longer| - 1);
      }
    } else {
      var f := CopyIsOwned(sys, run, m);
      var i: nat :| i < |sys.calls| && sys.calls[i].ScenarioCall? && !run[m].phases[i].Finished?
                    && sys.calls[i].request.key !in run[m].snapshot.value.shared.uuids;
      assert IsWaiting(run[m], run[m].phases[i]);
      var path := UnknownEventSplits(sys, run[m], f, i);
      var longer := RunGrows(sys, run, path);
      assert !KeysOwnResults(longer[|longer| - 1]);
    }
  }

  function EventAndFinalize(request: Request): System {
    System(true, [ScenarioCall(request), FinalizeCall])
  }

  lemma EventAfterCopy(request: Request, mapped: TestResult, final: TestResult) returns (run: seq<State>)
    requires mapped.uuid != "" && final.uuid != "" && mapped.uuid != final.uuid
    ensures IsRun(EventAndFinalize(request), run)
    ensures var s := run[|run| - 1];
            && s.phases == [Finished, Writing(0)] && s.output == [Final(Artifact(request.key, final), true)]
            && s.shared.uuids == map[request.key := mapped.uuid] && s.shared.results == map[mapped.uuid := mapped]
            && s.files == map[ResultName(mapped.uuid) := mapped]
  {
    var sys := EventAndFinalize(request);
    var start := State(Shared(map[], map[], map[], map[], false), map[], [Idle, Idle], {}, None, [], {}, 0, false);
    run := EntersAndMaps(sys, start, 1, [Final(Artifact(request.key, final), true)]);
    var event := ScenarioEndingIsARun(sys, run[|run| - 1], 0, request, mapped, (uuid: string) => None, 0, true);
    run := PathsJoin(sys, run, event);
  }

  /** For instance: one event that is handled after the copy, and a suite that reports its attempt. */
  lemma LateEventGetsSecondUuid(request: Request, mapped: TestResult, final: TestResult) returns (run: seq<State>)
    requires mapped.uuid != "" && final.uuid != "" && mapped.uuid != final.uuid
    ensures IsRun(EventAndFinalize(request), run)
    ensures var s := run[|run| - 1];
            && s.phases == [Finished, Finished]
            && s.shared.uuids == map[request.key := final.uuid]
            && s.shared.results == map[mapped.uuid := mapped, final.uuid := final]
            && s.files == map[ResultName(mapped.uuid) := mapped, ResultName(final.uuid) := final]
  {
    var sys := EventAndFinalize(request);
    run := EventAfterCopy(request, mapped, final);
    var writing := WritesOne(sys, run[|run| - 1], 1, true, 0);
    run := PathsJoin(sys, run, writing);
    var written := run[|run| - 1];
    var last := written.(phases := [Finished, Finished]);
    assert last.phases == written.phases[1 := Finished];
    var step := OneStep(sys, written, last, 1);
    run := PathsJoin(sys, run, step);
  }

  // ---------------------------------------------------------------- a suite that names a key twice

  function OnlyFinalize(): System {
    System(true, [FinalizeCall])
  }

  lemma TwoApplied(shared: Shared, output: seq<Final>, n: nat)
    requires n == |output| == 2 && output[0].artifact.key == output[1].artifact.key
    requires shared.uuids == map[] && shared.results == map[]
    requires output[0].artifact.result.uuid != output[1].artifact.result.uuid
    ensures var first, second, after := output[0].artifact, output[1].artifact, Applied(shared, output, {}, n);
            && after.uuids == map[first.key := second.result.uuid]
            && after.results == map[first.result.uuid := first.result, second.result.uuid := second.result]
  {
    AppliedOneMore(shared, map[], output, {}, 0);
    AppliedOneMore(shared, map[], output, {}, 1);
    assert Applied(shared, output, {}, 0) == shared;
  }

  /** For instance: an unregistered key that comes twice keeps the second UUID, and the first result has no key. */
  lemma RepeatedKeyOrphansResult(key: string, first: TestResult, second: TestResult) returns (run: seq<State>)
    requires first.uuid != "" && second.uuid != "" && first.uuid != second.uuid
    ensures IsRun(OnlyFinalize(), run)
    ensures var s := run[|run| - 1];
            && s.phases == [Finished] && s.shared.uuids == map[key := second.uuid]
            && s.shared.results == map[first.uuid := first, second.uuid := second] && !KeysOwnResults(s)
  {
    var sys := OnlyFinalize();
    var start := State(Shared(map[], map[], map[], map[], false), map[], [Idle], {}, None, [], {}, 0, false);
    var output := [Final(Artifact(key, first), true), Final(Artifact(key, second), true)];
    var storable := (i: nat) => true;
    run := FinalizeIsARun(sys, start, 0, output, storable);
    assert Unwritable(storable, 2) == {};
    TwoApplied(start.shared.(finalized := true), output, 2);
    assert first.uuid !in run[|run| - 1].shared.uuids.Values;
  }
}
