/** What Finalize leaves behind when no scenario call runs beside it: live and final results are reconciled. */
module Finalization {
  import opened Wrappers
  import opened ScenarioMapping
  import opened ArtifactNames
  import opened Collector
  import opened CollectorInvariants
  import opened CollectorFiles

  // ---------------------------------------------------------------- maps written entry by entry

  /** `base` with the first `n` entries written, leaving out the skipped ones. */
  function Overlay<K, V>(base: map<K, V>, keys: seq<K>, values: seq<V>, skipped: set<nat>, n: nat): map<K, V>
    requires n <= |keys| == |values|
  {
    if n == 0 then base
    else
      var before := Overlay(base, keys, values, skipped, n - 1);
      if n - 1 in skipped then before else before[keys[n - 1] := values[n - 1]]
  }

  predicate IsWritten<K(==)>(keys: seq<K>, skipped: set<nat>, n: nat, key: K)
    requires n <= |keys|
  {
    exists i: nat :: i < n && i !in skipped && keys[i] == key
  }

  /** The entry is written, and no later one under its key is. */
  predicate IsLast<K(==)>(keys: seq<K>, skipped: set<nat>, n: nat, i: nat)
    requires n <= |keys|
  {
    i < n && i !in skipped && forall j: nat :: i < j < n && j !in skipped ==> keys[j] != keys[i]
  }

  lemma {:induction false} LastOfWritten<K>(keys: seq<K>, skipped: set<nat>, n: nat, key: K) returns (i: nat)
    requires n <= |keys| && IsWritten(keys, skipped, n, key)
    ensures IsLast(keys, skipped, n, i) && keys[i] == key
  {
    if n - 1 !in skipped && keys[n - 1] == key {
      i := n - 1;
    } else {
      i := LastOfWritten(keys, skipped, n - 1, key);
    }
  }

  lemma {:induction false} OnlyEarlierSkipsMatter<K, V>(base: map<K, V>, keys: seq<K>, values: seq<V>,
                                                        skipped: set<nat>, skipped': set<nat>, n: nat)
    requires n <= |keys| == |values| && forall i: nat :: i < n ==> (i in skipped <==> i in skipped')
    ensures Overlay(base, keys, values, skipped, n) == Overlay(base, keys, values, skipped', n)
  {
    if n > 0 {
      OnlyEarlierSkipsMatter(base, keys, values, skipped, skipped', n - 1);
    }
  }

  /** The last written entry of each key is there, every other entry is as before, and there is nothing else. */
  lemma {:induction false} OverlayHolds<K, V>(base: map<K, V>, keys: seq<K>, values: seq<V>, skipped: set<nat>, n: nat)
    requires n <= |keys| == |values|
    ensures var after := Overlay(base, keys, values, skipped, n);
            && (forall k :: k in after <==> k in base || IsWritten(keys, skipped, n, k))
            && (forall i: nat :: IsLast(keys, skipped, n, i) ==> keys[i] in after && after[keys[i]] == values[i])
            && (forall k <- base :: !IsWritten(keys, skipped, n, k) ==> after[k] == base[k])
  {
    if n > 0 {
      OverlayHolds(base, keys, values, skipped, n - 1);
      forall k
        ensures IsWritten(keys, skipped, n, k) <==>
          IsWritten(keys, skipped, n - 1, k) || (n - 1 !in skipped && keys[n - 1] == k)
      {
      }
      forall i: nat | IsLast(keys, skipped, n, i) && i < n - 1 ensures IsLast(keys, skipped, n - 1, i) {
      }
    }
  }

  function KeysOf(output: seq<Final>): (keys: seq<string>)
    ensures |keys| == |output|
  {
    seq(|output|, i requires 0 <= i < |output| => output[i].artifact.key)
  }

  function UuidsOf(output: seq<Final>): (uuids: seq<string>)
    ensures |uuids| == |output|
  {
    seq(|output|, i requires 0 <= i < |output| => output[i].artifact.result.uuid)
  }

  function NamesOf(output: seq<Final>): (names: seq<string>)
    ensures |names| == |output|
  {
    seq(|output|, i requires 0 <= i < |output| => ResultName(output[i].artifact.result.uuid))
  }

  function ResultsOf(output: seq<Final>): (results: seq<TestResult>)
    ensures |results| == |output|
  {
    seq(|output|, i requires 0 <= i < |output| => output[i].artifact.result)
  }

  /** The maps after the first `n` final artifacts, leaving out those that could not be written. */
  function Applied(shared: Shared, output: seq<Final>, unwritten: set<nat>, n: nat): Shared
    requires n <= |output|
  {
    shared.(uuids := Overlay(shared.uuids, KeysOf(output), UuidsOf(output), unwritten, n),
            results := Overlay(shared.results, UuidsOf(output), ResultsOf(output), unwritten, n))
  }

  function Stored(files: map<string, TestResult>, output: seq<Final>, unwritten: set<nat>,
                  n: nat): map<string, TestResult>
    requires n <= |output|
  {
    Overlay(files, NamesOf(output), ResultsOf(output), unwritten, n)
  }

  lemma OnlyEarlierFailuresMatter(shared: Shared, files: map<string, TestResult>, output: seq<Final>,
                                  unwritten: set<nat>, unwritten': set<nat>, n: nat)
    requires n <= |output| && forall i: nat :: i < n ==> (i in unwritten <==> i in unwritten')
    ensures Applied(shared, output, unwritten, n) == Applied(shared, output, unwritten', n)
    ensures Stored(files, output, unwritten, n) == Stored(files, output, unwritten', n)
  {
    OnlyEarlierSkipsMatter(shared.uuids, KeysOf(output), UuidsOf(output), unwritten, unwritten', n);
    OnlyEarlierSkipsMatter(shared.results, UuidsOf(output), ResultsOf(output), unwritten, unwritten', n);
    OnlyEarlierSkipsMatter(files, NamesOf(output), ResultsOf(output), unwritten, unwritten', n);
  }

  lemma AppliedOneMore(shared: Shared, files: map<string, TestResult>, output: seq<Final>, unwritten: set<nat>, n: nat)
    requires n < |output|
    ensures Applied(shared, output, unwritten, n + 1) ==
            if n in unwritten then Applied(shared, output, unwritten, n)
              else Record(Applied(shared, output, unwritten, n), output[n].artifact)
    ensures var before, result := Stored(files, output, unwritten, n), output[n].artifact.result;
            Stored(files, output, unwritten, n + 1) == if n in unwritten then before
              else before[ResultName(result.uuid) := result]
  {
  }

  // ---------------------------------------------------------------- how far the finalising call is

  /** The first `recorded` artifacts are in the maps and the first `stored` ones on disk; nothing else has moved. */
  predicate AtPosition(s: State, base: Snapshot, recorded: nat, stored: nat) {
    && recorded <= |s.output| && stored <= |s.output|
    && s.shared == Applied(base.shared.(finalized := true), s.output, s.unwritten, recorded).(starts := s.shared.starts)
    && s.files == Stored(base.files, s.output, s.unwritten, stored)
    && forall m <- s.unwritten :: m < recorded
  }

  predicate Progress(s: State, base: Snapshot, phase: Phase) {
    match phase
    case MappingSuite => AtPosition(s, base, 0, 0)
    case Writing(next) => AtPosition(s, base, next, next)
    case Recording(next) => next < |s.output| && next !in s.unwritten && AtPosition(s, base, next, next + 1)
    case _ => true
  }

  predicate IsDone(s: State, base: Snapshot) {
    AtPosition(s, base, |s.output|, |s.output|)
  }

  lemma FinalizerProgresses(sys: System, s: State, phase: Phase, s': State, phase': Phase, base: Snapshot)
    requires IsFinalizing(phase) && FinalizeStep(sys, s, phase, s', phase')
    requires Progress(s, base, phase) && (phase.MappingSuite? ==> s.output == [] && s.unwritten == {})
    ensures Progress(s', base, phase') && (phase'.Finished? ==> IsDone(s', base))
    ensures phase'.Finished? || IsFinalizing(phase')
  {
    match phase
    case MappingSuite =>
    case Writing(next) => WritingProgresses(sys, s, next, s', phase', base);
    case Recording(next) =>
  }

  lemma WritingProgresses(sys: System, s: State, next: nat, s': State, phase': Phase, base: Snapshot)
    requires FinalizeStep(sys, s, Writing(next), s', phase') && AtPosition(s, base, next, next)
    ensures Progress(s', base, phase') && (phase'.Finished? ==> IsDone(s', base))
    ensures phase'.Finished? || IsFinalizing(phase')
  {
    if phase'.Writing? {
      OnlyEarlierFailuresMatter(base.shared.(finalized := true), base.files, s.output, s.unwritten, s'.unwritten, next);
    }
  }

  // ---------------------------------------------------------------- the invariant

  /** The live state Finalize copied: as in every state before it. */
  ghost predicate IsConsistent(base: Snapshot) {
    && Injective(base.shared.uuids) && "" !in base.shared.uuids.Values
    && base.shared.live.Keys == base.shared.uuids.Keys
    && base.shared.results.Keys <= base.shared.uuids.Values
  }

  ghost predicate Undisturbed(sys: System, s: State) {
    s.snapshot.Some? && s.snapshot.value.quiet && !s.late
  }

  ghost predicate Reconciling(sys: System, s: State)
    requires s.snapshot.Some?
  {
    var base := s.snapshot.value;
    && IsQuiet(sys, s)
    && (forall i :: 0 <= i < |sys.calls| ==> Progress(s, base, s.phases[i]))
    && ((forall i :: 0 <= i < |sys.calls| ==> !IsFinalizing(s.phases[i])) ==> IsDone(s, base))
  }

  ghost predicate Copied(sys: System, s: State) {
    s.snapshot.Some? ==>
      && IsConsistent(s.snapshot.value)
      && s.snapshot.value.shared.uuids.Values <= s.issued
      && FitsSnapshot(s.snapshot.value.shared.uuids, s.snapshot.value.shared.uuids.Values, s.output)
  }

  // ---------------------------------------------------------------- one step

  lemma EnteringCopies(sys: System, s: State, s': State, id: nat)
    requires FinalizesOnce(sys, s) && Registry(sys, s) && FilesAgree(sys, s) && s.snapshot.None?
    requires StepBy(sys, s, s', id) && s'.snapshot.Some?
    ensures s'.snapshot == Some(Snapshot(s.shared, s.files, IsQuiet(sys, s))) && s'.phases[id].MappingSuite?
    ensures s'.shared == s.shared.(finalized := true) && s'.files == s.files && s'.issued == s.issued
    ensures s'.output == [] && s'.unwritten == {}
  {
  }

  lemma CopyIsConsistent(sys: System, s: State)
    requires FinalizesOnce(sys, s) && Registry(sys, s) && FilesAgree(sys, s) && s.snapshot.None?
    ensures IsConsistent(Snapshot(s.shared, s.files, IsQuiet(sys, s)))
    ensures s.shared.uuids.Values <= s.issued
  {
  }

  lemma IssuedGrows(sys: System, s: State, s': State, id: nat)
    requires StepBy(sys, s, s', id)
    ensures s.issued <= s'.issued
    ensures s'.output != s.output ==>
      s.snapshot.Some? && FitsSnapshot(s.snapshot.value.shared.uuids, s.issued, s'.output)
  {
  }

  lemma StepKeepsCopied(sys: System, s: State, s': State, id: nat)
    requires FinalizesOnce(sys, s) && (s.snapshot.None? ==> Registry(sys, s)) && FilesAgree(sys, s)
    requires Copied(sys, s) && StepBy(sys, s, s', id)
    ensures Copied(sys, s')
  {
    IssuedGrows(sys, s, s', id);
    StepShape(sys, s, s', id);
    if s.snapshot.None? && s'.snapshot.Some? {
      EnteringCopies(sys, s, s', id);
      CopyIsConsistent(sys, s);
    }
  }

  /** Once the flag is set, finalising calls that are not the one at work change nothing. */
  lemma BystandersChangeNothing(sys: System, s: State, s': State, id: nat)
    requires StepBy(sys, s, s', id) && s.shared.finalized && !sys.calls[id].ScenarioCall? && !IsFinalizing(s.phases[id])
    ensures s' == s.(phases := s'.phases) && !IsFinalizing(s'.phases[id])
  {
  }

  lemma WorkerStep(sys: System, s: State, s': State, id: nat)
    requires StepBy(sys, s, s', id) && !sys.calls[id].ScenarioCall? && IsFinalizing(s.phases[id])
    ensures FinalizeStep(sys, s, s.phases[id], s', s'.phases[id])
  {
  }

  lemma StaysUndisturbed(sys: System, s: State, s': State, id: nat)
    requires StepBy(sys, s, s', id) && s.snapshot.Some? && s'.snapshot == s.snapshot && Undisturbed(sys, s')
    ensures Undisturbed(sys, s) && !sys.calls[id].ScenarioCall?
  {
  }

  lemma FurtherStepsReconcile(sys: System, s: State, s': State, id: nat)
    requires FinalizesOnce(sys, s) && StepBy(sys, s, s', id)
    requires s.snapshot.Some? && s'.snapshot == s.snapshot && !sys.calls[id].ScenarioCall? && Reconciling(sys, s)
    ensures Reconciling(sys, s')
  {
    OthersStay(sys, s, s', id);
    var base := s.snapshot.value;
    assert Progress(s, base, s.phases[id]);
    if IsFinalizing(s.phases[id]) {
      WorkerStep(sys, s, s', id);
      FinalizerProgresses(sys, s, s.phases[id], s', s'.phases[id], base);
    } else {
      BystandersChangeNothing(sys, s, s', id);
      BystandersReconcile(sys, s, s', id);
    }
  }

  lemma BystandersReconcile(sys: System, s: State, s': State, id: nat)
    requires s.snapshot.Some? && Reconciling(sys, s) && id < |sys.calls| == |s.phases| == |s'.phases|
    requires s' == s.(phases := s'.phases) && s'.phases == s.phases[id := s'.phases[id]]
    requires !sys.calls[id].ScenarioCall? && !IsFinalizing(s.phases[id]) && !IsFinalizing(s'.phases[id])
    ensures Reconciling(sys, s')
  {
    forall i | 0 <= i < |sys.calls| ensures Progress(s', s.snapshot.value, s'.phases[i]) {
      assert Progress(s, s.snapshot.value, s.phases[i]);
    }
    assert forall i :: 0 <= i < |sys.calls| && i != id ==> s'.phases[i] == s.phases[i];
  }

  lemma StepKeepsReconciling(sys: System, s: State, s': State, id: nat)
    requires FinalizesOnce(sys, s) && (s.snapshot.None? ==> Registry(sys, s)) && FilesAgree(sys, s)
    requires Undisturbed(sys, s) ==> Reconciling(sys, s)
    requires StepBy(sys, s, s', id) && Undisturbed(sys, s')
    ensures Reconciling(sys, s')
  {
    if s.snapshot.None? {
      EnteringCopies(sys, s, s', id);
      OthersStay(sys, s, s', id);
    } else {
      StepShape(sys, s, s', id);
      StaysUndisturbed(sys, s, s', id);
      FurtherStepsReconcile(sys, s, s', id);
    }
  }

  lemma EventsKeepReconciling(sys: System, s: State, s': State)
    requires EventStep(s, s') && Copied(sys, s) && (Undisturbed(sys, s) ==> Reconciling(sys, s))
    ensures Copied(sys, s') && (Undisturbed(sys, s') ==> Reconciling(sys, s'))
  {
    if Undisturbed(sys, s') {
      forall i | 0 <= i < |sys.calls| ensures Progress(s', s.snapshot.value, s'.phases[i]) {
        assert Progress(s, s.snapshot.value, s.phases[i]);
      }
    }
  }

  lemma StepReconciles(sys: System, s: State, s': State, id: nat)
    requires FinalizesOnce(sys, s) && (s.snapshot.None? ==> Registry(sys, s)) && FilesAgree(sys, s)
    requires Copied(sys, s) && (Undisturbed(sys, s) ==> Reconciling(sys, s))
    requires StepBy(sys, s, s', id)
    ensures Copied(sys, s') && (Undisturbed(sys, s') ==> Reconciling(sys, s'))
  {
    StepKeepsCopied(sys, s, s', id);
    if Undisturbed(sys, s') {
      StepKeepsReconciling(sys, s, s', id);
    }
  }

  lemma MoveReconciles(sys: System, s: State, s': State)
    requires FinalizesOnce(sys, s) && (s.snapshot.None? ==> Registry(sys, s)) && FilesAgree(sys, s)
    requires Copied(sys, s) && (Undisturbed(sys, s) ==> Reconciling(sys, s))
    requires Next(sys, s, s')
    ensures Copied(sys, s') && (Undisturbed(sys, s') ==> Reconciling(sys, s'))
  {
    if EventStep(s, s') {
      EventsKeepReconciling(sys, s, s');
    } else {
      var id: nat :| StepBy(sys, s, s', id);
      StepReconciles(sys, s, s', id);
    }
  }

  lemma {:induction false} RunReconciles(sys: System, run: seq<State>, n: nat)
    requires IsRun(sys, run) && n < |run|
    ensures Copied(sys, run[n])
    ensures Undisturbed(sys, run[n]) ==> Reconciling(sys, run[n])
  {
    if n > 0 {
      RunReconciles(sys, run, n - 1);
      RunKeepsInvariant(sys, run, n - 1);
      RunKeepsFiles(sys, run, n - 1);
      assert StepsAt(sys, run, n - 1);
      MoveReconciles(sys, run[n - 1], run[n]);
    }
  }

  /** What was copied is the state the run was in just before. */
  lemma {:induction false} CopyOfAnEarlierState(sys: System, run: seq<State>, n: nat) returns (m: nat)
    requires IsRun(sys, run) && n < |run| && run[n].snapshot.Some?
    ensures m < n && run[m].snapshot.None?
    ensures run[n].snapshot == Some(Snapshot(run[m].shared, run[m].files, IsQuiet(sys, run[m])))
  {
    RunMoves(sys, run, n - 1);
    if run[n - 1].snapshot.Some? {
      m := CopyOfAnEarlierState(sys, run, n - 1);
    } else {
      m := n - 1;
      RunKeepsInvariant(sys, run, n - 1);
      RunKeepsFiles(sys, run, n - 1);
      var id: nat :| StepBy(sys, run[n - 1], run[n], id);
      EnteringCopies(sys, run[n - 1], run[n], id);
    }
  }

  // ---------------------------------------------------------------- the outcome

  predicate IsHeld(shared: Shared, artifact: Artifact) {
    && artifact.key in shared.uuids && shared.uuids[artifact.key] == artifact.result.uuid
    && artifact.result.uuid in shared.results && shared.results[artifact.result.uuid] == artifact.result
  }

  predicate IsOnDisk(files: map<string, TestResult>, result: TestResult) {
    ResultName(result.uuid) in files && files[ResultName(result.uuid)] == result
  }

  predicate SyntheticKeysAreNew(uuids: map<string, string>, output: seq<Final>) {
    forall i :: 0 <= i < |output| && !output[i].attempt ==> output[i].artifact.key !in uuids
  }

  /** The engine and the files after a reconciled finalisation, against what was copied at its start. */
  ghost predicate IsReconciled(base: Snapshot, s: State) {
    // no two keys share a UUID, and no key lost the one it had
    && Injective(s.shared.uuids)
    && (forall k <- base.shared.uuids :: Registered(s, k, base.shared.uuids[k]))
    // the final result written last for a key is the result, and the file, of the key
    && (forall i: nat :: IsLast(KeysOf(s.output), s.unwritten, |s.output|, i) ==>
          IsHeld(s.shared, s.output[i].artifact) && IsOnDisk(s.files, s.output[i].artifact.result))
    // attempts without one keep their live result and file
    && (forall u <- base.shared.results :: !IsWritten(UuidsOf(s.output), s.unwritten, |s.output|, u) ==>
          u in s.shared.results && s.shared.results[u] == base.shared.results[u])
    && (forall u :: ResultName(u) in base.files && !IsWritten(UuidsOf(s.output), s.unwritten, |s.output|, u) ==>
          ResultName(u) in s.files && s.files[ResultName(u)] == base.files[ResultName(u)])
    // and there is nothing else
    && (forall k <- s.shared.uuids :: k in base.shared.uuids || IsWritten(KeysOf(s.output), s.unwritten, |s.output|, k))
    && (forall u <- s.shared.results ::
          u in base.shared.results || IsWritten(UuidsOf(s.output), s.unwritten, |s.output|, u))
    && s.shared.live == base.shared.live
  }

  /** Artifacts of different keys have different UUIDs. */
  lemma SameUuidSameKey(existing: map<string, string>, output: seq<Final>, i: nat, j: nat)
    requires Injective(existing) && FitsSnapshot(existing, existing.Values, output) && i < |output| && j < |output|
    requires output[i].artifact.result.uuid == output[j].artifact.result.uuid
    ensures output[i].artifact.key == output[j].artifact.key
    ensures output[i].artifact.key !in existing ==> i == j
  {
    assert forall k <- existing :: existing[k] in existing.Values;
  }

  lemma LastUuid(existing: map<string, string>, output: seq<Final>, unwritten: set<nat>, i: nat)
    requires Injective(existing) && FitsSnapshot(existing, existing.Values, output)
    requires IsLast(KeysOf(output), unwritten, |output|, i)
    ensures IsLast(UuidsOf(output), unwritten, |output|, i)
  {
    forall j: nat | i < j < |output| && j !in unwritten ensures UuidsOf(output)[j] != UuidsOf(output)[i] {
      assert KeysOf(output)[j] != KeysOf(output)[i];
      if UuidsOf(output)[j] == UuidsOf(output)[i] {
        SameUuidSameKey(existing, output, i, j);
      }
    }
  }

  lemma LastName(output: seq<Final>, unwritten: set<nat>, i: nat)
    requires IsLast(UuidsOf(output), unwritten, |output|, i)
    ensures IsLast(NamesOf(output), unwritten, |output|, i)
  {
    forall j: nat | i < j < |output| && j !in unwritten ensures NamesOf(output)[j] != NamesOf(output)[i] {
      assert UuidsOf(output)[j] != UuidsOf(output)[i];
      if NamesOf(output)[j] == NamesOf(output)[i] {
        ResultNameInjective(UuidsOf(output)[i], UuidsOf(output)[j]);
      }
    }
  }

  /** The registered UUIDs after a finalisation: the copied ones, and each last written artifact's under its key. */
  ghost predicate Extends(after: map<string, string>, existing: map<string, string>, output: seq<Final>,
                          unwritten: set<nat>) {
    && (forall k :: k in after <==> k in existing || IsWritten(KeysOf(output), unwritten, |output|, k))
    && (forall i: nat :: IsLast(KeysOf(output), unwritten, |output|, i) ==>
          output[i].artifact.key in after && after[output[i].artifact.key] == output[i].artifact.result.uuid)
    && (forall k <- existing :: !IsWritten(KeysOf(output), unwritten, |output|, k) ==> after[k] == existing[k])
  }

  lemma OverlayExtends(existing: map<string, string>, output: seq<Final>, unwritten: set<nat>)
    ensures Extends(Overlay(existing, KeysOf(output), UuidsOf(output), unwritten, |output|), existing, output,
                    unwritten)
  {
    OverlayHolds(existing, KeysOf(output), UuidsOf(output), unwritten, |output|);
    assert forall i: nat :: i < |output| ==>
      KeysOf(output)[i] == output[i].artifact.key && UuidsOf(output)[i] == output[i].artifact.result.uuid;
  }

  lemma NoKeyLosesItsUuid(after: map<string, string>, existing: map<string, string>, output: seq<Final>,
                          unwritten: set<nat>)
    requires Extends(after, existing, output, unwritten) && FitsSnapshot(existing, existing.Values, output)
    requires SyntheticKeysAreNew(existing, output)
    ensures forall k <- existing :: k in after && after[k] == existing[k]
  {
    forall k | k in existing ensures k in after && after[k] == existing[k] {
      if IsWritten(KeysOf(output), unwritten, |output|, k) {
        var i := LastOfWritten(KeysOf(output), unwritten, |output|, k);
        assert output[i].attempt;
      }
    }
  }

  /** Where the UUID of a key comes from. */
  lemma UuidOfKey(after: map<string, string>, existing: map<string, string>, output: seq<Final>, unwritten: set<nat>,
                  k: string) returns (i: nat)
    requires Extends(after, existing, output, unwritten) && k in after && k !in existing
    ensures IsLast(KeysOf(output), unwritten, |output|, i) && output[i].artifact.key == k
    ensures after[k] == output[i].artifact.result.uuid
  {
    i := LastOfWritten(KeysOf(output), unwritten, |output|, k);
  }

  lemma EachKeyOwnsItsUuid(after: map<string, string>, existing: map<string, string>, output: seq<Final>,
                           unwritten: set<nat>)
    requires Extends(after, existing, output, unwritten) && FitsSnapshot(existing, existing.Values, output)
    requires (forall k <- existing :: k in after && after[k] == existing[k]) && Injective(existing)
    ensures Injective(after)
  {
    assert forall k <- existing :: existing[k] in existing.Values;
    forall k, l | k in after && l in after && after[k] == after[l] ensures k == l {
      if k in existing && l in existing {
      } else if k !in existing && l !in existing {
        var i := UuidOfKey(after, existing, output, unwritten, k);
        var j := UuidOfKey(after, existing, output, unwritten, l);
        SameUuidSameKey(existing, output, i, j);
      } else {
        var i := UuidOfKey(after, existing, output, unwritten, if k in existing then l else k);
      }
    }
  }

  lemma OtherNames(output: seq<Final>, unwritten: set<nat>, uuid: string)
    requires !IsWritten(UuidsOf(output), unwritten, |output|, uuid)
    ensures !IsWritten(NamesOf(output), unwritten, |output|, ResultName(uuid))
  {
    forall i: nat | i < |output| && i !in unwritten ensures NamesOf(output)[i] != ResultName(uuid) {
      assert UuidsOf(output)[i] != uuid;
      if NamesOf(output)[i] == ResultName(uuid) {
        ResultNameInjective(UuidsOf(output)[i], uuid);
      }
    }
  }

  /** The results after a finalisation. */
  lemma ResultsHold(base: map<string, TestResult>, after: map<string, TestResult>, output: seq<Final>,
                    unwritten: set<nat>)
    requires after == Overlay(base, UuidsOf(output), ResultsOf(output), unwritten, |output|)
    ensures forall i: nat :: IsLast(UuidsOf(output), unwritten, |output|, i) ==>
              output[i].artifact.result.uuid in after &&
                after[output[i].artifact.result.uuid] == output[i].artifact.result
    ensures forall u <- base :: !IsWritten(UuidsOf(output), unwritten, |output|, u) ==>
              u in after && after[u] == base[u]
    ensures forall u :: u in after <==> u in base || IsWritten(UuidsOf(output), unwritten, |output|, u)
  {
    OverlayHolds(base, UuidsOf(output), ResultsOf(output), unwritten, |output|);
    assert forall i: nat :: i < |output| ==>
      UuidsOf(output)[i] == output[i].artifact.result.uuid && ResultsOf(output)[i] == output[i].artifact.result;
  }

  /** The files after a finalisation. */
  lemma FilesHold(base: map<string, TestResult>, after: map<string, TestResult>, output: seq<Final>,
                  unwritten: set<nat>)
    requires after == Overlay(base, NamesOf(output), ResultsOf(output), unwritten, |output|)
    ensures forall i: nat :: IsLast(UuidsOf(output), unwritten, |output|, i) ==>
              IsOnDisk(after, output[i].artifact.result)
    ensures forall u :: !IsWritten(UuidsOf(output), unwritten, |output|, u) && ResultName(u) in base ==>
              ResultName(u) in after && after[ResultName(u)] == base[ResultName(u)]
  {
    OverlayHolds(base, NamesOf(output), ResultsOf(output), unwritten, |output|);
    forall i: nat | IsLast(UuidsOf(output), unwritten, |output|, i) ensures IsOnDisk(after, output[i].artifact.result) {
      LastName(output, unwritten, i);
      assert NamesOf(output)[i] in after && after[NamesOf(output)[i]] == ResultsOf(output)[i];
    }
    forall u | !IsWritten(UuidsOf(output), unwritten, |output|, u)
      ensures !IsWritten(NamesOf(output), unwritten, |output|, ResultName(u))
    {
      OtherNames(output, unwritten, u);
    }
  }

  lemma DoneReconciles(base: Snapshot, s: State)
    requires IsConsistent(base) && IsDone(s, base)
    requires FitsSnapshot(base.shared.uuids, base.shared.uuids.Values, s.output)
    requires SyntheticKeysAreNew(base.shared.uuids, s.output)
    ensures IsReconciled(base, s)
    ensures Extends(s.shared.uuids, base.shared.uuids, s.output, s.unwritten)
    ensures forall u :: u in s.shared.results <==>
              u in base.shared.results || IsWritten(UuidsOf(s.output), s.unwritten, |s.output|, u)
  {
    var existing := base.shared.uuids;
    OverlayExtends(existing, s.output, s.unwritten);
    NoKeyLosesItsUuid(s.shared.uuids, existing, s.output, s.unwritten);
    EachKeyOwnsItsUuid(s.shared.uuids, existing, s.output, s.unwritten);
    ResultsHold(base.shared.results, s.shared.results, s.output, s.unwritten);
    FilesHold(base.files, s.files, s.output, s.unwritten);
    forall i: nat | IsLast(KeysOf(s.output), s.unwritten, |s.output|, i)
      ensures IsHeld(s.shared, s.output[i].artifact) && IsOnDisk(s.files, s.output[i].artifact.result)
    {
      LastUuid(existing, s.output, s.unwritten, i);
    }
  }

  predicate NobodyFinalizes(s: State) {
    forall i :: 0 <= i < |s.phases| ==> !IsFinalizing(s.phases[i])
  }

  /**
   * Whatever the interleaving of finalising calls and events, and whichever writes failed: if no scenario call runs
   * beside Finalize, live and final results end up reconciled; when streaming, the result files are exactly those of
   * the results.
   */
  lemma FinalizeReconciles(sys: System, run: seq<State>, n: nat)
    requires IsRun(sys, run) && n < |run| && Undisturbed(sys, run[n]) && NobodyFinalizes(run[n])
    requires SyntheticKeysAreNew(run[n].snapshot.value.shared.uuids, run[n].output)
    ensures IsReconciled(run[n].snapshot.value, run[n])
    ensures sys.streaming ==> run[n].files.Keys == ResultNames(run[n].shared.results.Keys)
  {
    RunReconciles(sys, run, n);
    DoneReconciles(run[n].snapshot.value, run[n]);
    if sys.streaming {
      RunKeepsInvariant(sys, run, n);
      forall i | 0 <= i < |run[n].phases| ensures Unpublished(run[n], run[n].phases[i]).None? {
        assert IsScenarioPhase(run[n].phases[i]) ==> sys.calls[i].ScenarioCall?;
      }
      FilesAreThePublishedResults(sys, run, n);
    }
  }

  // ---------------------------------------------------------------- keys that come more than once

  /** No two keys share a UUID, and no result is left without a key. */
  ghost predicate KeysOwnResults(s: State) {
    Injective(s.shared.uuids) && s.shared.results.Keys <= s.shared.uuids.Values
  }

  /** Among the first `n` artifacts, only registered keys come more than once with a file that could be written. */
  predicate RepeatsAreRegistered(existing: map<string, string>, output: seq<Final>, unwritten: set<nat>, n: nat)
    requires n <= |output|
  {
    forall i: nat, j: nat ::
      i < j < n && i !in unwritten && j !in unwritten && output[i].artifact.key == output[j].artifact.key ==>
      output[i].artifact.key in existing
  }

  lemma WrittenUuidIsOwned(base: Snapshot, s: State, i: nat)
    requires Extends(s.shared.uuids, base.shared.uuids, s.output, s.unwritten)
    requires FitsSnapshot(base.shared.uuids, base.shared.uuids.Values, s.output)
    requires SyntheticKeysAreNew(base.shared.uuids, s.output)
    requires RepeatsAreRegistered(base.shared.uuids, s.output, s.unwritten, |s.output|)
    requires i < |s.output| && i !in s.unwritten
    ensures s.output[i].artifact.result.uuid in s.shared.uuids.Values
  {
    var key := KeysOf(s.output)[i];
    var last := LastOfWritten(KeysOf(s.output), s.unwritten, |s.output|, key);
    assert s.shared.uuids[key] == s.output[last].artifact.result.uuid;
    if last != i {
      assert s.output[last].attempt && s.output[i].attempt;
    }
  }

  lemma RepeatedKeyOrphans(base: Snapshot, s: State, i: nat, j: nat)
    requires Extends(s.shared.uuids, base.shared.uuids, s.output, s.unwritten) && IsConsistent(base)
    requires FitsSnapshot(base.shared.uuids, base.shared.uuids.Values, s.output)
    requires forall k <- base.shared.uuids :: Registered(s, k, base.shared.uuids[k])
    requires i < j < |s.output| && i !in s.unwritten && j !in s.unwritten
    requires s.output[i].artifact.key == s.output[j].artifact.key && s.output[i].artifact.key !in base.shared.uuids
    ensures s.output[i].artifact.result.uuid !in s.shared.uuids.Values
  {
    var uuid := s.output[i].artifact.result.uuid;
    assert KeysOf(s.output)[j] == KeysOf(s.output)[i];
    forall l | l in s.shared.uuids ensures s.shared.uuids[l] != uuid {
      if l in base.shared.uuids {
        assert base.shared.uuids[l] in base.shared.uuids.Values;
      } else {
        var k := UuidOfKey(s.shared.uuids, base.shared.uuids, s.output, s.unwritten, l);
        if s.shared.uuids[l] == uuid {
          SameUuidSameKey(base.shared.uuids, s.output, k, i);
        }
      }
    }
  }

  lemma RegisteredRepeatsOwn(base: Snapshot, s: State, u: string)
    requires IsConsistent(base) && Extends(s.shared.uuids, base.shared.uuids, s.output, s.unwritten)
    requires FitsSnapshot(base.shared.uuids, base.shared.uuids.Values, s.output)
    requires SyntheticKeysAreNew(base.shared.uuids, s.output)
    requires forall k <- base.shared.uuids :: Registered(s, k, base.shared.uuids[k])
    requires RepeatsAreRegistered(base.shared.uuids, s.output, s.unwritten, |s.output|)
    requires u in base.shared.results || IsWritten(UuidsOf(s.output), s.unwritten, |s.output|, u)
    ensures u in s.shared.uuids.Values
  {
    if IsWritten(UuidsOf(s.output), s.unwritten, |s.output|, u) {
      var i: nat :| i < |s.output| && i !in s.unwritten && UuidsOf(s.output)[i] == u;
      WrittenUuidIsOwned(base, s, i);
    } else {
      var k :| k in base.shared.uuids && base.shared.uuids[k] == u;
      assert Registered(s, k, u);
    }
  }

  /** Every result belongs to a key exactly if no unregistered key comes twice among the artifacts that were written. */
  lemma DoneOwnsExactly(base: Snapshot, s: State)
    requires IsConsistent(base) && IsDone(s, base)
    requires FitsSnapshot(base.shared.uuids, base.shared.uuids.Values, s.output)
    requires SyntheticKeysAreNew(base.shared.uuids, s.output)
    ensures KeysOwnResults(s) <==> RepeatsAreRegistered(base.shared.uuids, s.output, s.unwritten, |s.output|)
  {
    DoneReconciles(base, s);
    if RepeatsAreRegistered(base.shared.uuids, s.output, s.unwritten, |s.output|) {
      forall u | u in s.shared.results ensures u in s.shared.uuids.Values {
        RegisteredRepeatsOwn(base, s, u);
      }
    } else {
      var i: nat, j: nat :| i < j < |s.output| && i !in s.unwritten && j !in s.unwritten &&
        s.output[i].artifact.key == s.output[j].artifact.key && s.output[i].artifact.key !in base.shared.uuids;
      RepeatedKeyOrphans(base, s, i, j);
      assert UuidsOf(s.output)[i] in s.shared.results;
    }
  }

  /** After a finalisation with no scenario call beside it, in every interleaving. */
  lemma KeysOwnResultsExactly(sys: System, run: seq<State>, n: nat)
    requires IsRun(sys, run) && n < |run| && Undisturbed(sys, run[n]) && NobodyFinalizes(run[n])
    requires SyntheticKeysAreNew(run[n].snapshot.value.shared.uuids, run[n].output)
    ensures KeysOwnResults(run[n]) <==>
            RepeatsAreRegistered(run[n].snapshot.value.shared.uuids, run[n].output, run[n].unwritten, |run[n].output|)
  {
    RunReconciles(sys, run, n);
    DoneOwnsExactly(run[n].snapshot.value, run[n]);
  }
}
