/** The engine's methods, run alone, are runs of the state machine: what holds of every run holds of them. */
module EngineRefinement {
  import opened Int64
  import opened Wrappers
  import opened ScenarioMapping
  import opened ArtifactNames
  import opened Collector
  import opened Finalization
  import opened Engine

  ghost predicate IsPath(sys: System, path: seq<State>) {
    path != [] && forall i: nat :: i < |path| - 1 ==> StepsAt(sys, path, i)
  }

  lemma PathGrows(sys: System, path: seq<State>, s: State)
    requires IsPath(sys, path) && Next(sys, path[|path| - 1], s)
    ensures IsPath(sys, path + [s])
  {
    var longer := path + [s];
    forall i: nat | i < |longer| - 1 ensures StepsAt(sys, longer, i) {
      if i < |path| - 1 {
        assert StepsAt(sys, path, i);
      }
    }
  }

  /** One scenario call moves on alone. */
  function Moved(s: State, id: nat, phase: Phase): State
    requires id < |s.phases|
  {
    s.(phases := s.phases[id := phase], late := s.late || s.snapshot.Some?)
  }

  lemma MapsFirst(sys: System, s: State, id: nat, request: Request, mapped: TestResult) returns (t: State)
    requires id < |sys.calls| == |s.phases| && sys.calls[id] == ScenarioCall(request) && s.phases[id] == Idle
    requires IsNew(s, mapped.uuid)
    ensures StepBy(sys, s, t, id)
    ensures t == Moved(s, id, Mapped(mapped)).(issued := s.issued + {mapped.uuid})
  {
    t := Moved(s, id, Mapped(mapped)).(issued := s.issued + {mapped.uuid});
  }

  lemma MapsAgain(sys: System, s: State, id: nat, request: Request, first: TestResult, mapped: TestResult)
    returns (between: State, t: State)
    requires id < |sys.calls| == |s.phases| && sys.calls[id] == ScenarioCall(request) && s.phases[id] == Mapped(first)
    requires Conflicts(s.shared, request.key, first.uuid) && mapped.uuid == s.shared.uuids[request.key]
    ensures StepBy(sys, s, between, id) && StepBy(sys, between, t, id) && t == Moved(s, id, Remapped(mapped))
  {
    between := Moved(s, id, Remapping(s.shared.uuids[request.key]));
    t := Moved(between, id, Remapped(mapped));
    assert t == Moved(s, id, Remapped(mapped));
  }

  lemma Registers(sys: System, s: State, id: nat, request: Request, mapped: TestResult, now: int64) returns (t: State)
    requires id < |sys.calls| == |s.phases| && sys.calls[id] == ScenarioCall(request)
    requires s.phases[id] == Remapped(mapped) ||
      (s.phases[id] == Mapped(mapped) && !Conflicts(s.shared, request.key, mapped.uuid))
    ensures StepBy(sys, s, t, id)
    ensures var moved := Moved(s, id, Reserved(Restarted(s.shared.starts, request.startKey, mapped, now)));
            t == moved.(shared := Reserve(s.shared, request, mapped, now))
  {
    var moved := Moved(s, id, Reserved(Restarted(s.shared.starts, request.startKey, mapped, now)));
    t := moved.(shared := Reserve(s.shared, request, mapped, now));
    assert Reserves(request, s, mapped, t.(late := s.late), t.phases[id]);
  }

  lemma Ends(sys: System, s: State, id: nat, request: Request, result: TestResult, storable: bool)
    returns (path: seq<State>)
    requires id < |sys.calls| == |s.phases| && sys.calls[id] == ScenarioCall(request)
    requires s.phases[id] == Reserved(result)
    ensures IsPath(sys, path) && path[0] == s
    ensures var t := path[|path| - 1];
            && t == Moved(s, id, Finished).(shared := t.shared, files := t.files)
            && t.shared == (if sys.streaming && !storable then s.shared else Publish(s.shared, result))
            && t.files == (if sys.streaming && storable then s.files[ResultName(result.uuid) := result] else s.files)
  {
    if sys.streaming && !storable {
      var t := Moved(s, id, Finished);
      assert StepBy(sys, s, t, id);
      path := [s, t];
      PathGrows(sys, [s], t);
      assert [s] + [t] == path;
    } else {
      var files := if sys.streaming then s.files[ResultName(result.uuid) := result] else s.files;
      var written := Moved(s, id, Written(result)).(files := files);
      assert StepBy(sys, s, written, id);
      var t := Moved(written, id, Finished).(shared := Publish(s.shared, result));
      assert StepBy(sys, written, t, id);
      PathGrows(sys, [s], written);
      PathGrows(sys, [s] + [written], t);
      path := [s] + [written] + [t];
    }
  }

  lemma PathsJoin(sys: System, a: seq<State>, b: seq<State>) returns (path: seq<State>)
    requires IsPath(sys, a) && IsPath(sys, b) && a[|a| - 1] == b[0]
    ensures IsPath(sys, path) && path[0] == a[0] && path[|path| - 1] == b[|b| - 1]
  {
    path := a + b[1..];
    forall i: nat | i < |path| - 1 ensures StepsAt(sys, path, i) {
      if i < |a| - 1 {
        assert StepsAt(sys, a, i);
      } else {
        assert StepsAt(sys, b, i + 1 - |a|);
      }
    }
  }

  lemma OneStep(sys: System, s: State, t: State, id: nat) returns (path: seq<State>)
    requires StepBy(sys, s, t, id)
    ensures IsPath(sys, path) && path[0] == s && path[|path| - 1] == t
  {
    path := [s] + [t];
    PathGrows(sys, [s], t);
  }

  /** The mapping part: under a new UUID, and again under the registered one where they conflict. */
  lemma Maps(sys: System, s: State, id: nat, request: Request, first: TestResult, mapped: TestResult)
    returns (path: seq<State>)
    requires id < |sys.calls| == |s.phases| && sys.calls[id] == ScenarioCall(request) && s.phases[id] == Idle
    requires IsNew(s, first.uuid)
    requires if Conflicts(s.shared, request.key, first.uuid) then mapped.uuid == s.shared.uuids[request.key]
             else mapped == first
    ensures IsPath(sys, path) && path[0] == s
    ensures var phase := if Conflicts(s.shared, request.key, first.uuid) then Remapped(mapped) else Mapped(mapped);
            path[|path| - 1] == Moved(s, id, phase).(issued := s.issued + {first.uuid})
  {
    var ready := MapsFirst(sys, s, id, request, first);
    path := OneStep(sys, s, ready, id);
    if Conflicts(s.shared, request.key, first.uuid) {
      var between, remapped := MapsAgain(sys, ready, id, request, first, mapped);
      var step := OneStep(sys, ready, between, id);
      path := PathsJoin(sys, path, step);
      step := OneStep(sys, between, remapped, id);
      path := PathsJoin(sys, path, step);
    }
  }

  /** ScenarioEnding without interference is a run of its call, to the end, with the effect of the method. */
  lemma ScenarioEndingIsARun(sys: System, s: State, id: nat, request: Request, first: TestResult,
                             again: string -> Option<TestResult>, now: int64, storable: bool)
    returns (path: seq<State>)
    requires id < |sys.calls| == |s.phases| && sys.calls[id] == ScenarioCall(request) && s.phases[id] == Idle
    requires IsNew(s, first.uuid)
    requires forall uuid :: again(uuid).Some? ==> again(uuid).value.uuid == uuid
    requires MappedAs(s.shared, request, Some(first), again).Some?
    ensures IsPath(sys, path) && path[0] == s
    ensures var t, mapped := path[|path| - 1], MappedAs(s.shared, request, Some(first), again).value;
            && t == Moved(s, id, Finished).(issued := s.issued + {first.uuid}, shared := t.shared, files := t.files)
            && t.shared == EndedShared(s.shared, sys.streaming, request, mapped, now, storable)
            && t.files == EndedFiles(s.files, s.shared.starts, sys.streaming, request, mapped, now, storable)
  {
    var mapped := MappedAs(s.shared, request, Some(first), again).value;
    var mapping := Maps(sys, s, id, request, first, mapped);
    var ready := mapping[|mapping| - 1];
    var reserved := Registers(sys, ready, id, request, mapped, now);
    var step := OneStep(sys, ready, reserved, id);
    path := PathsJoin(sys, mapping, step);
    var rest := Ends(sys, reserved, id, request, Restarted(s.shared.starts, request.startKey, mapped, now), storable);
    path := PathsJoin(sys, path, rest);
  }

  // ---------------------------------------------------------------- Finalize

  lemma WritesOne(sys: System, s: State, id: nat, storable: bool, i: nat) returns (path: seq<State>)
    requires id < |sys.calls| == |s.phases| && !sys.calls[id].ScenarioCall? && s.phases[id] == Writing(i)
    requires i < |s.output|
    ensures IsPath(sys, path) && path[0] == s
    ensures var result := s.output[i].artifact.result;
            path[|path| - 1] == s.(phases := s.phases[id := Writing(i + 1)],
                                   shared := if storable then Record(s.shared, s.output[i].artifact) else s.shared,
                                   files := if storable then s.files[ResultName(result.uuid) := result] else s.files,
                                   unwritten := if storable then s.unwritten else s.unwritten + {i})
  {
    var result := s.output[i].artifact.result;
    if storable {
      var written := s.(phases := s.phases[id := Recording(i)], files := s.files[ResultName(result.uuid) := result]);
      path := OneStep(sys, s, written, id);
      var recorded := written.(phases := s.phases[id := Writing(i + 1)],
                               shared := Record(s.shared, s.output[i].artifact));
      assert recorded.phases == written.phases[id := Writing(i + 1)];
      var step := OneStep(sys, written, recorded, id);
      path := PathsJoin(sys, path, step);
    } else {
      path := OneStep(sys, s, s.(phases := s.phases[id := Writing(i + 1)], unwritten := s.unwritten + {i}), id);
    }
  }

  /** The state of a lone Finalize before artifact `i`. */
  ghost function Before(s: State, id: nat, storable: nat -> bool, i: nat): State
    requires id < |s.phases| && i <= |s.output|
  {
    var unwritten := Unwritable(storable, i);
    s.(phases := s.phases[id := Writing(i)], shared := Applied(s.shared, s.output, unwritten, i),
       files := Stored(s.files, s.output, unwritten, i), unwritten := unwritten)
  }

  lemma BeforeNext(s: State, id: nat, storable: nat -> bool, i: nat)
    requires id < |s.phases| && i < |s.output|
    ensures var before, result := Before(s, id, storable, i), s.output[i].artifact.result;
            Before(s, id, storable, i + 1) ==
            before.(phases := before.phases[id := Writing(i + 1)],
                    shared := if storable(i) then Record(before.shared, s.output[i].artifact) else before.shared,
                    files := if storable(i) then before.files[ResultName(result.uuid) := result] else before.files,
                    unwritten := if storable(i) then before.unwritten else before.unwritten + {i})
  {
    OneMoreUnwritable(storable, i);
    var unwritten, unwritten' := Unwritable(storable, i), Unwritable(storable, i + 1);
    OnlyEarlierFailuresMatter(s.shared, s.files, s.output, unwritten, unwritten', i);
    AppliedOneMore(s.shared, s.files, s.output, unwritten', i);
  }

  lemma WritesNext(sys: System, s: State, id: nat, storable: nat -> bool, i: nat) returns (path: seq<State>)
    requires id < |sys.calls| == |s.phases| && !sys.calls[id].ScenarioCall? && i < |s.output|
    ensures IsPath(sys, path) && path[0] == Before(s, id, storable, i)
    ensures path[|path| - 1] == Before(s, id, storable, i + 1)
  {
    BeforeNext(s, id, storable, i);
    path := WritesOne(sys, Before(s, id, storable, i), id, storable(i), i);
  }

  lemma {:induction false} WritesAll(sys: System, s: State, id: nat, storable: nat -> bool, n: nat)
    returns (path: seq<State>)
    requires id < |sys.calls| == |s.phases| && !sys.calls[id].ScenarioCall? && n <= |s.output|
    ensures IsPath(sys, path) && path[0] == Before(s, id, storable, 0) && path[|path| - 1] == Before(s, id, storable, n)
  {
    if n == 0 {
      path := [Before(s, id, storable, 0)];
    } else {
      path := WritesAll(sys, s, id, storable, n - 1);
      var step := WritesNext(sys, s, id, storable, n - 1);
      path := PathsJoin(sys, path, step);
    }
  }

  /** Mapping, for a suite the state machine can deliver. */
  lemma MapsSuite(sys: System, s: State, id: nat, output: seq<Final>) returns (t: State)
    requires id < |sys.calls| == |s.phases| && !sys.calls[id].ScenarioCall? && s.phases[id] == MappingSuite
    requires s.snapshot.Some?
    requires FitsSnapshot(s.snapshot.value.shared.uuids, s.issued, output)
    ensures StepBy(sys, s, t, id)
    ensures t ==
      s.(phases := s.phases[id := Writing(0)], mappings := s.mappings + 1, output := output,
         issued := s.issued + OutputUuids(output))
  {
    t := s.(phases := s.phases[id := Writing(0)], mappings := s.mappings + 1, output := output,
            issued := s.issued + OutputUuids(output));
  }

  /** The call is about to test the flag: a Finalize that starts, or an interruption that saw no results. */
  ghost predicate IsEntering(sys: System, s: State, id: nat) {
    && id < |sys.calls| == |s.phases|
    && (if sys.calls[id] == FinalizeCall then s.phases[id] == Idle
        else sys.calls[id] == InterruptCall && s.phases[id] == Forwarding)
  }

  lemma EntersFinalizing(sys: System, s: State, id: nat) returns (t: State)
    requires IsEntering(sys, s, id) && !s.shared.finalized
    ensures StepBy(sys, s, t, id)
    ensures t == s.(phases := s.phases[id := MappingSuite], shared := s.shared.(finalized := true),
                    snapshot := Some(Snapshot(s.shared, s.files, IsQuiet(sys, s))))
  {
    t := s.(phases := s.phases[id := MappingSuite], shared := s.shared.(finalized := true),
            snapshot := Some(Snapshot(s.shared, s.files, IsQuiet(sys, s))));
  }

  /** Entering and mapping, for a suite the state machine can deliver. */
  lemma EntersAndMaps(sys: System, s: State, id: nat, output: seq<Final>) returns (path: seq<State>)
    requires IsEntering(sys, s, id) && !s.shared.finalized
    requires FitsSnapshot(s.shared.uuids, s.issued, output)
    ensures IsPath(sys, path) && path[0] == s
    ensures path[|path| - 1] == s.(phases := s.phases[id := Writing(0)], shared := s.shared.(finalized := true),
                                   snapshot := Some(Snapshot(s.shared, s.files, IsQuiet(sys, s))),
                                   mappings := s.mappings + 1, output := output,
                                   issued := s.issued + OutputUuids(output))
  {
    var entered := EntersFinalizing(sys, s, id);
    path := OneStep(sys, s, entered, id);
    var mapped := MapsSuite(sys, entered, id, output);
    assert mapped.phases == s.phases[id := Writing(0)];
    var step := OneStep(sys, entered, mapped, id);
    path := PathsJoin(sys, path, step);
  }

  /** What a call that enters leaves behind, when the suite maps to the output. */
  ghost predicate IsFinalized(sys: System, s: State, id: nat, output: seq<Final>, storable: nat -> bool, t: State)
    requires id < |s.phases|
  {
    var unwritten := Unwritable(storable, |output|);
    && t.phases == s.phases[id := Finished] && t.output == output && t.unwritten == unwritten
    && t.snapshot == Some(Snapshot(s.shared, s.files, IsQuiet(sys, s))) && t.late == s.late
    && t.shared == Applied(s.shared.(finalized := true), output, unwritten, |output|)
    && t.files == Stored(s.files, output, unwritten, |output|)
  }

  lemma FinalizesFromEntry(sys: System, s: State, id: nat, output: seq<Final>, storable: nat -> bool)
    returns (path: seq<State>)
    requires IsEntering(sys, s, id) && !s.shared.finalized
    requires FitsSnapshot(s.shared.uuids, s.issued, output) && s.unwritten == {}
    ensures IsPath(sys, path) && path[0] == s
    ensures IsFinalized(sys, s, id, output, storable, path[|path| - 1])
  {
    path := EntersAndMaps(sys, s, id, output);
    var ready := path[|path| - 1];
    assert Unwritable(storable, 0) == {};
    assert ready.phases[id := Writing(0)] == ready.phases;
    assert ready == Before(ready, id, storable, 0);
    var writing := WritesAll(sys, ready, id, storable, |output|);
    path := PathsJoin(sys, path, writing);
    var last := path[|path| - 1];
    var done := last.(phases := last.phases[id := Finished]);
    var step := OneStep(sys, last, done, id);
    path := PathsJoin(sys, path, step);
  }

  /** A call that enters when the suite cannot be mapped: the flag is set and nothing else happens. */
  lemma StopsUnmapped(sys: System, s: State, id: nat) returns (path: seq<State>)
    requires IsEntering(sys, s, id) && !s.shared.finalized
    ensures IsPath(sys, path) && path[0] == s
    ensures var t := path[|path| - 1];
            && t.phases == s.phases[id := Finished] && t.shared == s.shared.(finalized := true) && t.files == s.files
            && t.output == s.output && t.issued == s.issued
  {
    var entered := EntersFinalizing(sys, s, id);
    path := OneStep(sys, s, entered, id);
    var done := entered.(phases := entered.phases[id := Finished], mappings := s.mappings + 1);
    var step := OneStep(sys, entered, done, id);
    path := PathsJoin(sys, path, step);
    assert done.phases == s.phases[id := Finished];
  }

  /** Finalize without interference is a run of its call, to the end, with the effect of the method. */
  lemma FinalizeIsARun(sys: System, s: State, id: nat, output: seq<Final>, storable: nat -> bool)
    returns (path: seq<State>)
    requires id < |sys.calls| == |s.phases| && sys.calls[id] == FinalizeCall && s.phases[id] == Idle
    requires !s.shared.finalized
    requires FitsSnapshot(s.shared.uuids, s.issued, output) && s.unwritten == {}
    ensures IsPath(sys, path) && path[0] == s
    ensures IsFinalized(sys, s, id, output, storable, path[|path| - 1])
  {
    path := FinalizesFromEntry(sys, s, id, output, storable);
  }

  /**
   * FinalizeInterrupted without interference is a run of its call, to the end, with the effect of the method: nothing
   * once the engine is finalised; with results at hand the flag alone; otherwise what Finalize does, None for a
   * suite that cannot be mapped.
   */
  lemma InterruptIsARun(sys: System, s: State, id: nat, output: Option<seq<Final>>, storable: nat -> bool)
    returns (path: seq<State>)
    requires id < |sys.calls| == |s.phases| && sys.calls[id] == InterruptCall && s.phases[id] == Idle
    requires output.Some? ==> FitsSnapshot(s.shared.uuids, s.issued, output.value) && s.unwritten == {}
    ensures IsPath(sys, path) && path[0] == s && path[|path| - 1].phases == s.phases[id := Finished]
    ensures s.shared.finalized ==> path[|path| - 1] == s.(phases := s.phases[id := Finished])
    ensures !s.shared.finalized && s.shared.results != map[] ==>
              path[|path| - 1] == s.(phases := s.phases[id := Finished], shared := s.shared.(finalized := true))
    ensures !s.shared.finalized && s.shared.results == map[] && output.None? ==>
              path[|path| - 1].shared == s.shared.(finalized := true) && path[|path| - 1].files == s.files
    ensures !s.shared.finalized && s.shared.results == map[] && output.Some? ==>
              var unwritten := Unwritable(storable, |output.value|);
              && path[|path| - 1].shared ==
                 Applied(s.shared.(finalized := true), output.value, unwritten, |output.value|)
              && path[|path| - 1].files == Stored(s.files, output.value, unwritten, |output.value|)
  {
    var done := s.phases[id := Finished];
    if s.shared.finalized {
      path := OneStep(sys, s, s.(phases := done), id);
    } else if s.shared.results != map[] {
      path := MarksInterrupted(sys, s, id);
    } else {
      var forwarding := s.(phases := s.phases[id := Forwarding]);
      path := OneStep(sys, s, forwarding, id);
      var rest;
      if output.None? {
        rest := StopsUnmapped(sys, forwarding, id);
      } else {
        rest := FinalizesFromEntry(sys, forwarding, id, output.value, storable);
      }
      assert forwarding.phases[id := Finished] == done;
      path := PathsJoin(sys, path, rest);
    }
  }

  lemma MarksInterrupted(sys: System, s: State, id: nat) returns (path: seq<State>)
    requires id < |sys.calls| == |s.phases| && sys.calls[id] == InterruptCall && s.phases[id] == Idle
    requires !s.shared.finalized && s.shared.results != map[]
    ensures IsPath(sys, path) && path[0] == s
    ensures path[|path| - 1] == s.(phases := s.phases[id := Finished], shared := s.shared.(finalized := true))
  {
    var marking := s.(phases := s.phases[id := MarkingInterrupted]);
    path := OneStep(sys, s, marking, id);
    var t := s.(phases := s.phases[id := Finished], shared := s.shared.(finalized := true));
    assert t.phases == marking.phases[id := Finished];
    var step := OneStep(sys, marking, t, id);
    path := PathsJoin(sys, path, step);
  }

  // ---------------------------------------------------------------- a call that is interrupted

  lemma ReservesFirst(sys: System, s: State, id: nat, request: Request, mapped: TestResult, now: int64)
    returns (path: seq<State>)
    requires id < |sys.calls| == |s.phases| && sys.calls[id] == ScenarioCall(request) && s.phases[id] == Idle
    requires IsNew(s, mapped.uuid) && request.key !in s.shared.uuids
    ensures IsPath(sys, path) && path[0] == s
    ensures var result := Restarted(s.shared.starts, request.startKey, mapped, now);
            path[|path| - 1] == Moved(s, id, Reserved(result)).(issued := s.issued + {mapped.uuid},
              shared := Reserve(s.shared, request, mapped, now))
  {
    path := Maps(sys, s, id, request, mapped, mapped);
    var ready := path[|path| - 1];
    var reserved := Registers(sys, ready, id, request, mapped, now);
    var step := OneStep(sys, ready, reserved, id);
    path := PathsJoin(sys, path, step);
  }

  /** A first event for its attempt, up to the written file. */
  lemma PausesBeforePublishing(sys: System, s: State, id: nat, request: Request, mapped: TestResult, now: int64)
    returns (path: seq<State>)
    requires id < |sys.calls| == |s.phases| && sys.calls[id] == ScenarioCall(request) && s.phases[id] == Idle
    requires sys.streaming
    requires IsNew(s, mapped.uuid) && request.key !in s.shared.uuids
    ensures IsPath(sys, path) && path[0] == s
    ensures var result := Restarted(s.shared.starts, request.startKey, mapped, now);
            path[|path| - 1] == Moved(s, id, Written(result)).(issued := s.issued + {mapped.uuid},
              shared := Reserve(s.shared, request, mapped, now), files := s.files[ResultName(result.uuid) := result])
  {
    var result := Restarted(s.shared.starts, request.startKey, mapped, now);
    path := ReservesFirst(sys, s, id, request, mapped, now);
    var reserved := path[|path| - 1];
    var written := Moved(reserved, id, Written(result)).(files := s.files[ResultName(result.uuid) := result]);
    var step := OneStep(sys, reserved, written, id);
    path := PathsJoin(sys, path, step);
    assert reserved.phases[id := Written(result)] == s.phases[id := Written(result)];
  }

  lemma PublishesResult(sys: System, s: State, id: nat, request: Request, result: TestResult) returns (t: State)
    requires id < |sys.calls| == |s.phases| && sys.calls[id] == ScenarioCall(request) && s.phases[id] == Written(result)
    ensures StepBy(sys, s, t, id)
    ensures t == Moved(s, id, Finished).(shared := Publish(s.shared, result))
  {
    t := Moved(s, id, Finished).(shared := Publish(s.shared, result));
  }
}
